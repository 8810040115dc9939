/** The Array methods of W_ArrayObject that reduce to index arithmetic and
    splicing over the strategy API.

    Indices arrive already normalised by the object space
    (`subscript_access`, `Coerce`); each method takes the normalised values
    as parameters.  A method that answers with a new Ruby array answers with
    that array's contents. */
module ArrayMethods {
  import opened Values
  import opened Lattice
  import opened Strategies

  /** What a Ruby-level call answers. */
  datatype Answer = NilAnswer | Element(v: Value) | NewArray(items: seq<Value>)

  // ---------------- The strategy API, seen from the host ----------------

  /** `self.strategy.fetch(i)` on an index in range. */
  method FetchAt(a: ArrayObject, i: nat) returns (v: Value)
    requires a.Valid() && i < a.Length()
    ensures v == a.Contents()[i]
  {
    var r := a.strategy.Fetch(i);
    v := r.value;
  }

  /** `self.strategy.store(i, v)` on an index in range: whichever strategy
      the array ends up with, element `i` is `v` and nothing else changes. */
  method StoreAt(a: ArrayObject, i: nat, v: Value)
    requires a.Valid() && i < a.Length()
    modifies a, a.strategy
    ensures a.Valid() && a.Contents() == old(a.Contents())[i := v]
    ensures a.strategy == old(a.strategy) || fresh(a.strategy)
  {
    var st := a.strategy.Store(i, v);
  }

  /** `self.strategy.append(vs)`. */
  method AppendAll(a: ArrayObject, vs: seq<Value>)
    requires a.Valid()
    modifies a, a.strategy
    ensures a.Valid() && a.Contents() == old(a.Contents()) + vs
    ensures a.strategy == old(a.strategy) || fresh(a.strategy)
  {
    a.strategy.Append(vs);
  }

  /** `self.strategy.insert(i, vs)` at a position in range. */
  method InsertAll(a: ArrayObject, i: nat, vs: seq<Value>)
    requires a.Valid() && i <= a.Length()
    modifies a, a.strategy
    ensures a.Valid() && a.Contents() == old(a.Contents())[..i] + vs + old(a.Contents())[i..]
    ensures a.strategy == old(a.strategy) || fresh(a.strategy)
  {
    a.strategy.Insert(i, vs);
  }

  /** `self.strategy.delete(s, e)` on a range in bounds. */
  method DeleteRange(a: ArrayObject, s: nat, e: nat)
    requires a.Valid() && s <= e <= a.Length()
    modifies a.strategy
    ensures a.Valid() && a.Contents() == old(a.Contents())[..s] + old(a.Contents())[e..]
  {
    var st := a.strategy.Delete(s, e);
  }

  /** `self.strategy.slice(s, e)` on a range in bounds. */
  method SliceOf(a: ArrayObject, s: nat, e: nat) returns (r: seq<Value>)
    requires a.Valid() && s <= e <= a.Length()
    ensures r == a.Contents()[s..e]
  {
    var x := a.strategy.Slice(s, e);
    r := x.value;
  }

  // ---------------- Array methods ----------------

  /** `listview`: the elements, fetched one by one. */
  method ListView(a: ArrayObject) returns (r: seq<Value>)
    requires a.Valid()
    ensures r == a.Contents()
  {
    r := [];
    var i := 0;
    while i < a.Length()
      invariant 0 <= i <= a.Length()
      invariant r == a.Contents()[..i]
    {
      var v := FetchAt(a, i);
      r := r + [v];
      i := i + 1;
    }
  }

  /** `replace` / `initialize_copy`: delete everything, then append `other`. */
  method Replace(a: ArrayObject, other: seq<Value>)
    requires a.Valid()
    modifies a, a.strategy
    ensures a.Valid() && a.Contents() == other
  {
    DeleteRange(a, 0, a.Length());
    AppendAll(a, other);
  }

  /** `clear`. */
  method Clear(a: ArrayObject)
    requires a.Valid()
    modifies a.strategy
    ensures a.Valid() && a.Contents() == []
  {
    DeleteRange(a, 0, a.Length());
  }

  /** `_append_nils(num)`: `num` single-nil appends. */
  method AppendNils(a: ArrayObject, num: nat)
    requires a.Valid()
    modifies a, a.strategy
    ensures a.Valid() && a.Contents() == old(a.Contents()) + Repeat(Nil, num)
    ensures a.strategy == old(a.strategy) || fresh(a.strategy)
  {
    var k := 0;
    while k < num
      invariant 0 <= k <= num
      invariant a.Valid() && a.Contents() == old(a.Contents()) + Repeat(Nil, k)
      invariant a.strategy == old(a.strategy) || fresh(a.strategy)
    {
      AppendAll(a, [Nil]);
      assert Repeat(Nil, k + 1) == Repeat(Nil, k) + [Nil];
      k := k + 1;
    }
  }

  /** `[]=` with the index (and length) already normalised: `start`/`end`
      as `subscript_access` gives them, `asRange` when a range or a count was
      given, and `rep` the elements to splice in (the converted array, or
      `[obj]`). */
  method SubscriptAssign(a: ArrayObject, start: int, end: int, hasCount: bool, asRange: bool,
                         obj: Value, rep: seq<Value>) returns (r: Result<Value>)
    requires a.Valid()
    requires asRange && !(hasCount && end < start) && start >= 0 ==> 0 <= end <= a.Length()
    modifies a, a.strategy
    ensures a.Valid()
    ensures (hasCount && end < start) || start < 0 ==>
      r == Err(IndexError) && a.Contents() == old(a.Contents())
    ensures !((hasCount && end < start) || start < 0) ==> r == Ok(obj)
    ensures !((hasCount && end < start) || start < 0) && asRange ==>
      a.Contents() == Assigned(old(a.Contents()), start, end, rep)
    ensures !((hasCount && end < start) || start < 0) && asRange && start <= end ==>
      a.Contents() == old(a.Contents())[..start] + rep + old(a.Contents())[end..]
    ensures !((hasCount && end < start) || start < 0) && asRange && old(a.Length()) == end <= start ==>
      a.Contents() == old(a.Contents()) + Repeat(Nil, start - old(a.Length())) + rep
    ensures !((hasCount && end < start) || start < 0) && !asRange && start < old(a.Length()) ==>
      a.Contents() == old(a.Contents())[start := obj]
    ensures !((hasCount && end < start) || start < 0) && !asRange && start >= old(a.Length()) ==>
      a.Contents() == old(a.Contents()) + Repeat(Nil, start - old(a.Length())) + [obj]
  {
    if hasCount && end < start {
      return Err(IndexError);
    } else if start < 0 {
      return Err(IndexError);
    } else if asRange {
      SubscriptAssignRange(a, start, end, rep);
    } else if start >= a.Length() {
      ghost var xs := a.Contents();
      AppendAll(a, Repeat(Nil, start - a.Length() + 1));
      StoreAt(a, start, obj);
      assert a.Contents() == xs + Repeat(Nil, start - |xs|) + [obj];
    } else {
      StoreAt(a, start, obj);
    }
    r := Ok(obj);
  }

  /** The contents after a range assignment of `rep` at `start` whose tail
      resumes at `end`: the first `start` elements, padded with nils past the
      end of `xs`, then the replacement, then `xs` from `end` on. When
      `start <= end` this replaces `[start, end)`; when `end < start` the
      elements of `[end, start)` that exist appear both before and after the
      replacement. */
  function Assigned(xs: seq<Value>, start: nat, end: nat, rep: seq<Value>): (t: seq<Value>)
    requires end <= |xs|
    ensures |t| == start + |rep| + (|xs| - end)
    ensures forall k :: 0 <= k < start ==> t[k] == if k < |xs| then xs[k] else Nil
    ensures forall k :: 0 <= k < |rep| ==> t[start + k] == rep[k]
    ensures forall k :: start + |rep| <= k < |t| ==> t[k] == xs[k - start - |rep| + end]
  {
    (if start <= |xs| then xs[..start] else xs + Repeat(Nil, start - |xs|)) + rep + xs[end..]
  }

  /** The two shapes of a range assignment: with `start <= end` it replaces
      `[start, end)`; starting past the end of the array, with the tail
      resuming at the end, it pads the array with nils up to `start` and then
      appends the replacement. */
  lemma AssignedCases(xs: seq<Value>, start: nat, end: nat, rep: seq<Value>)
    requires end <= |xs|
    ensures start <= end ==> Assigned(xs, start, end, rep) == xs[..start] + rep + xs[end..]
    ensures end == |xs| <= start ==> Assigned(xs, start, end, rep) == xs + Repeat(Nil, start - |xs|) + rep
  {
    var front := if start <= |xs| then xs[..start] else xs + Repeat(Nil, start - |xs|);
    assert Assigned(xs, start, end, rep) == front + rep + xs[end..];
    if end == |xs| <= start {
      assert xs[end..] == [];
      assert front + rep + [] == front + rep;
    }
  }

  /** `c` has the length of `t` and agrees with it outside `[lo, hi)`. */
  ghost predicate AgreesOutside(c: seq<Value>, t: seq<Value>, lo: nat, hi: nat) {
    && |c| == |t|
    && (forall k :: 0 <= k < lo && k < |t| ==> c[k] == t[k])
    && (forall k :: hi <= k < |t| ==> c[k] == t[k])
  }

  /** `_subscript_assign_range`: make room (or close the gap) so that the
      tail after `end` lands right after the replacement, then store the
      replacement element by element. */
  method SubscriptAssignRange(a: ArrayObject, start: nat, end: nat, rep: seq<Value>)
    requires a.Valid() && end <= a.Length()
    modifies a, a.strategy
    ensures a.Valid() && a.Contents() == Assigned(old(a.Contents()), start, end, rep)
    ensures start <= end ==> a.Contents() == old(a.Contents())[..start] + rep + old(a.Contents())[end..]
    ensures old(a.Length()) == end <= start ==>
      a.Contents() == old(a.Contents()) + Repeat(Nil, start - old(a.Length())) + rep
    ensures a.strategy == old(a.strategy) || fresh(a.strategy)
  {
    ghost var xs := a.Contents();
    ghost var t := Assigned(xs, start, end, rep);
    var delta := (end - start) - |rep|;
    if delta < 0 {
      ShiftTail(a, start, end, rep);
    } else if delta > 0 {
      DeleteRange(a, start, start + delta);
      ClosedGapAgrees(xs, start, end, rep);
    } else {
      SameLengthAgrees(xs, start, end, rep);
    }
    ghost var c := a.Contents();
    StoreRun(a, start, rep);
    StoredAgrees(c, t, start, rep);
    AssignedCases(xs, start, end, rep);
  }

  /** After deleting `[start, start + delta)` the tail sits right after
      the replacement's place. */
  lemma ClosedGapAgrees(xs: seq<Value>, start: nat, end: nat, rep: seq<Value>)
    requires start <= end <= |xs| && |rep| < end - start
    ensures AgreesOutside(xs[..start] + xs[start + ((end - start) - |rep|)..],
                          Assigned(xs, start, end, rep), start, start + |rep|)
  {
  }

  /** With no change of length the contents already agree outside the
      replacement's place. */
  lemma SameLengthAgrees(xs: seq<Value>, start: nat, end: nat, rep: seq<Value>)
    requires start <= end <= |xs| && |rep| == end - start
    ensures AgreesOutside(xs, Assigned(xs, start, end, rep), start, start + |rep|)
  {
  }

  /** Storing `rep` over the one place where `c` and `t` may differ makes
      them equal. */
  lemma StoredAgrees(c: seq<Value>, t: seq<Value>, start: nat, rep: seq<Value>)
    requires start + |rep| <= |c|
    requires AgreesOutside(c, t, start, start + |rep|)
    requires forall k :: 0 <= k < |rep| ==> t[start + k] == rep[k]
    ensures c[..start] + rep + c[start + |rep|..] == t
  {
    var u := c[..start] + rep + c[start + |rep|..];
    assert |u| == |t|;
    forall k | 0 <= k < |t|
      ensures u[k] == t[k]
    {
      if start <= k < start + |rep| {
        assert u[k] == rep[k - start];
      }
    }
  }

  /** The state of the shifting loop: `c` still agrees with `xs` up to `i`,
      and above `i` holds the tail of `xs` moved `d` places right. */
  ghost predicate Shifted(c: seq<Value>, xs: seq<Value>, i: int, d: nat) {
    && |c| == |xs| + d
    && (forall k :: 0 <= k <= i && k < |xs| ==> c[k] == xs[k])
    && (forall k :: |xs| <= k <= i && k < |c| ==> c[k] == Nil)
    && (forall k :: i < k < |c| && d <= k ==> c[k] == xs[k - d])
  }

  lemma ShiftStep(c: seq<Value>, xs: seq<Value>, i: nat, d: nat)
    requires d <= i < |c| && Shifted(c, xs, i, d)
    ensures Shifted(c[i := c[i - d]], xs, i - 1, d)
  {
  }

  lemma ShiftedAgrees(c: seq<Value>, xs: seq<Value>, start: nat, end: nat, rep: seq<Value>, i: int, d: nat)
    requires end <= |xs| && d + end == start + |rep| && i + 1 == start + |rep|
    requires Shifted(c, xs, i, d)
    ensures AgreesOutside(c, Assigned(xs, start, end, rep), start, start + |rep|)
  {
    var t := Assigned(xs, start, end, rep);
    forall k | start + |rep| <= k < |t|
      ensures c[k] == t[k]
    {
      assert t[k] == xs[k - d];
    }
  }

  /** The `delta < 0` branch of `_subscript_assign_range`: append nils, then
      move every element from `end` on `start + |rep| - end` places right,
      walking down from the last index. */
  method ShiftTail(a: ArrayObject, start: nat, end: nat, rep: seq<Value>)
    requires a.Valid() && end <= a.Length() && end < start + |rep|
    modifies a, a.strategy
    ensures a.Valid()
    ensures a.strategy == old(a.strategy) || fresh(a.strategy)
    ensures AgreesOutside(a.Contents(), Assigned(old(a.Contents()), start, end, rep), start, start + |rep|)
  {
    ghost var xs := a.Contents();
    var d := start + |rep| - end;
    AppendAll(a, Repeat(Nil, d));
    var lim := start + |rep|;
    ShiftDown(a, xs, lim, d);
    ShiftedAgrees(a.Contents(), xs, start, end, rep, lim - 1, d);
  }

  /** The loop of the `delta < 0` branch: from the last index down to
      `lim`, store at `i` the element `d` places to its left. */
  method ShiftDown(a: ArrayObject, ghost xs: seq<Value>, lim: nat, d: nat)
    requires a.Valid() && d <= lim <= a.Length() && Shifted(a.Contents(), xs, a.Length() - 1, d)
    modifies a, a.strategy
    ensures a.Valid() && Shifted(a.Contents(), xs, lim - 1, d)
    ensures a.strategy == old(a.strategy) || fresh(a.strategy)
  {
    var i: int := a.Length() - 1;
    while i >= lim
      invariant a.Valid() && lim - 1 <= i < a.Length()
      invariant Shifted(a.Contents(), xs, i, d)
      invariant a.strategy == old(a.strategy) || fresh(a.strategy)
    {
      ShiftOne(a, xs, i, d);
      i := i - 1;
    }
  }

  /** One step of the shifting loop: `store(i, fetch(i - d))`. */
  method ShiftOne(a: ArrayObject, ghost xs: seq<Value>, i: nat, d: nat)
    requires a.Valid() && d <= i < a.Length() && Shifted(a.Contents(), xs, i, d)
    modifies a, a.strategy
    ensures a.Valid() && Shifted(a.Contents(), xs, i - 1, d)
    ensures a.strategy == old(a.strategy) || fresh(a.strategy)
  {
    ghost var c := a.Contents();
    var v := FetchAt(a, i - d);
    StoreAt(a, i, v);
    ShiftStep(c, xs, i, d);
  }

  /** The state of the storing loop: `c` holds `rep[..i]` from `start` on
      and agrees with `xs` everywhere else. */
  ghost predicate StoredUpTo(c: seq<Value>, xs: seq<Value>, start: nat, rep: seq<Value>, i: nat) {
    && |c| == |xs|
    && (forall k :: 0 <= k < |xs| && !(start <= k < start + i) ==> c[k] == xs[k])
    && (forall k :: 0 <= k < i && k < |rep| && start + k < |c| ==> c[start + k] == rep[k])
  }

  lemma StoredStep(c: seq<Value>, xs: seq<Value>, start: nat, rep: seq<Value>, i: nat)
    requires i < |rep| && start + |rep| <= |c| && StoredUpTo(c, xs, start, rep, i)
    ensures StoredUpTo(c[start + i := rep[i]], xs, start, rep, i + 1)
  {
  }

  lemma StoredAll(c: seq<Value>, xs: seq<Value>, start: nat, rep: seq<Value>)
    requires start + |rep| <= |c| && StoredUpTo(c, xs, start, rep, |rep|)
    ensures c == xs[..start] + rep + xs[start + |rep|..]
  {
    var u := xs[..start] + rep + xs[start + |rep|..];
    forall k | 0 <= k < |c|
      ensures c[k] == u[k]
    {
      if start <= k < start + |rep| {
        assert c[start + (k - start)] == rep[k - start];
      }
    }
  }

  /** The final loop of `_subscript_assign_range`: store `rep[i]` at
      `start + i`. */
  method StoreRun(a: ArrayObject, start: nat, rep: seq<Value>)
    requires a.Valid() && start + |rep| <= a.Length()
    modifies a, a.strategy
    ensures a.strategy == old(a.strategy) || fresh(a.strategy)
    ensures a.Valid() && a.Contents() == old(a.Contents())[..start] + rep + old(a.Contents())[start + |rep|..]
  {
    ghost var xs := a.Contents();
    var i := 0;
    while i < |rep|
      invariant 0 <= i <= |rep|
      invariant a.Valid() && StoredUpTo(a.Contents(), xs, start, rep, i)
      invariant a.strategy == old(a.strategy) || fresh(a.strategy)
    {
      ghost var c := a.Contents();
      StoreAt(a, start + i, rep[i]);
      StoredStep(c, xs, start, rep, i);
      i := i + 1;
    }
    StoredAll(a.Contents(), xs, start, rep);
  }

  /** Clamp `x` into `[0, n]`. */
  function Clamp(x: int, n: nat): (r: nat)
    ensures r <= n && (0 <= x <= n ==> r == x)
  {
    if x < 0 then 0 else if x > n then n else x
  }

  /** `slice!` with the index already normalised: `isNil` when
      `subscript_access` answers nil, `asRange` for a range or a count. */
  method SliceBang(a: ArrayObject, start: int, end: int, asRange: bool, isNil: bool) returns (r: Answer)
    requires a.Valid()
    requires !isNil && asRange ==> Clamp(start, a.Length()) <= Clamp(end, a.Length())
    requires !isNil && !asRange ==> 0 <= start < a.Length()
    modifies a.strategy
    ensures a.Valid()
    ensures isNil ==> r == NilAnswer && a.Contents() == old(a.Contents())
    ensures !isNil && asRange ==>
      var s := Clamp(start, old(a.Length()));
      var e := Clamp(end, old(a.Length()));
      r == NewArray(old(a.Contents())[s..e]) &&
      a.Contents() == old(a.Contents())[..s] + old(a.Contents())[e..]
    ensures !isNil && !asRange ==>
      r == Element(old(a.Contents())[start]) &&
      a.Contents() == old(a.Contents())[..start] + old(a.Contents())[start + 1..]
  {
    if isNil {
      return NilAnswer;
    } else if asRange {
      var s := Clamp(start, a.Length());
      var e := Clamp(end, a.Length());
      var delta := e - s;
      var items := SliceOf(a, s, s + delta);
      DeleteRange(a, s, s + delta);
      return NewArray(items);
    } else {
      var item := FetchAt(a, start);
      DeleteRange(a, start, start + 1);
      return Element(item);
    }
  }

  /** `pop`, and `pop(num)` when `num` is given. */
  method Pop(a: ArrayObject, num: Option<int>) returns (r: Result<Answer>)
    requires a.Valid()
    modifies a.strategy
    ensures a.Valid()
    ensures num.None? && old(a.Length()) == 0 ==> r == Ok(NilAnswer) && a.Contents() == []
    ensures num.None? && old(a.Length()) > 0 ==>
      r == Ok(Element(old(a.Contents())[old(a.Length()) - 1])) &&
      a.Contents() == old(a.Contents())[..old(a.Length()) - 1]
    ensures num.Some? && num.value < 0 ==>
      r == Err(ArgumentError) && a.Contents() == old(a.Contents())
    ensures num.Some? && num.value >= 0 ==>
      var keep := Max(0, old(a.Length()) - num.value);
      r == Ok(NewArray(old(a.Contents())[keep..])) && a.Contents() == old(a.Contents())[..keep]
  {
    if num.None? {
      if a.Length() > 0 {
        var last := a.strategy.Pop(a.Length() - 1);
        return Ok(Element(last.value));
      } else {
        return Ok(NilAnswer);
      }
    }
    if num.value < 0 {
      return Err(ArgumentError);
    }
    ghost var xs := a.Contents();
    var popSize := Max(0, a.Length() - num.value);
    var res := SliceOf(a, popSize, a.Length());
    DeleteRange(a, popSize, a.Length());
    assert xs[|xs|..] == [] && xs[popSize..|xs|] == xs[popSize..];
    return Ok(NewArray(res));
  }

  /** `delete_at(idx)`. */
  method DeleteAt(a: ArrayObject, idx: int) returns (r: Answer)
    requires a.Valid()
    modifies a.strategy
    ensures a.Valid()
    ensures var i := if idx < 0 then idx + old(a.Length()) else idx;
      (!(0 <= i < old(a.Length())) ==> r == NilAnswer && a.Contents() == old(a.Contents())) &&
      (0 <= i < old(a.Length()) ==>
        r == Element(old(a.Contents())[i]) &&
        a.Contents() == old(a.Contents())[..i] + old(a.Contents())[i + 1..])
  {
    var i := idx;
    if i < 0 {
      i := i + a.Length();
    }
    if i < 0 || i >= a.Length() {
      return NilAnswer;
    }
    var e := a.strategy.Pop(i);
    return Element(e.value);
  }

  /** `last`, and `last(count)` when a count is given. */
  method Last(a: ArrayObject, count: Option<int>) returns (r: Result<Answer>)
    requires a.Valid()
    ensures count.Some? && count.value < 0 ==> r == Err(ArgumentError)
    ensures count.Some? && count.value >= 0 ==>
      r == Ok(NewArray(a.Contents()[Max(0, a.Length() - count.value)..]))
    ensures count.None? && a.Length() == 0 ==> r == Ok(NilAnswer)
    ensures count.None? && a.Length() > 0 ==> r == Ok(Element(a.Contents()[a.Length() - 1]))
  {
    if count.Some? {
      if count.value < 0 {
        return Err(ArgumentError);
      }
      var start: int := a.Length() - count.value;
      if start < 0 {
        start := 0;
      }
      var items := SliceOf(a, start, a.Length());
      assert a.Contents()[start..a.Length()] == a.Contents()[start..];
      return Ok(NewArray(items));
    }
    if a.Length() == 0 {
      return Ok(NilAnswer);
    }
    var v := FetchAt(a, a.Length() - 1 as nat);
    return Ok(Element(v));
  }

  /** `unshift(*args)`: insert each argument at 0, last argument first. */
  method Unshift(a: ArrayObject, args: seq<Value>)
    requires a.Valid()
    modifies a, a.strategy
    ensures a.Valid() && a.Contents() == args + old(a.Contents())
  {
    ghost var xs := a.Contents();
    var j := |args|;
    while j > 0
      invariant 0 <= j <= |args|
      invariant a.Valid() && a.Contents() == args[j..] + xs
      invariant a.strategy == old(a.strategy) || fresh(a.strategy)
    {
      j := j - 1;
      ghost var c := a.Contents();
      InsertAll(a, 0, [args[j]]);
      PrependStep(args, j, xs, c);
    }
  }

  /** The rotation count of `rotate!(n)` on a non-empty array: reduced
      modulo the length only when it is that large, then made
      non-negative. */
  function RotationCount(n: int, length: nat): (m: int)
    requires length > 0
    ensures m == n % length
  {
    if (if n < 0 then -n else n) >= length then
      var r := n % length;
      if r < 0 then r + length else r
    else
      ModSmall(n, length);
      if n < 0 then n + length else n
  }

  lemma ModSmall(n: int, length: nat)
    requires length > 0 && 0 < n + length && n < length
    ensures n >= 0 ==> n % length == n
    ensures n < 0 ==> n % length == n + length
  {
  }

  lemma RotateSplice(xs: seq<Value>, m: nat)
    requires m <= |xs|
    ensures (xs + xs[..m])[m..] == xs[m..] + xs[..m]
  {
  }

  lemma PrependStep(args: seq<Value>, j: nat, xs: seq<Value>, c: seq<Value>)
    requires j < |args| && c == args[j + 1..] + xs
    ensures c[..0] + [args[j]] + c[0..] == args[j..] + xs
  {
    assert args[j..] == [args[j]] + args[j + 1..];
  }

  /** `rotate!(n)`: move the first `n mod length` elements to the end. */
  method Rotate(a: ArrayObject, n: int)
    requires a.Valid()
    modifies a, a.strategy
    ensures a.Valid()
    ensures old(a.Length()) == 0 ==> a.Contents() == old(a.Contents())
    ensures old(a.Length()) > 0 ==>
      var k := n % old(a.Length());
      a.Contents() == old(a.Contents())[k..] + old(a.Contents())[..k]
  {
    var length := a.Length();
    if length == 0 {
      return;
    }
    ghost var xs := a.Contents();
    var m := RotationCount(n, length);
    if m == 0 {
      assert xs[0..] + xs[..0] == xs;
      return;
    }
    var head := SliceOf(a, 0, m);
    AppendAll(a, head);
    DeleteRange(a, 0, m);
    RotateSplice(xs, m);
  }

  /** `insert(i, *args)`. */
  method Insert(a: ArrayObject, i: int, args: seq<Value>) returns (st: Status)
    requires a.Valid()
    modifies a, a.strategy
    ensures a.Valid()
    ensures args == [] ==> st == Done && a.Contents() == old(a.Contents())
    ensures args != [] && i > old(a.Length()) ==>
      st == Done && a.Contents() == old(a.Contents()) + Repeat(Nil, i - old(a.Length())) + args
    ensures args != [] && i + old(a.Length()) + 1 < 0 ==>
      st == Raised(IndexError) && a.Contents() == old(a.Contents())
    ensures args != [] && 0 <= i + old(a.Length()) + 1 && i <= old(a.Length()) ==>
      var p := if i < 0 then i + old(a.Length()) + 1 else i;
      st == Done && a.Contents() == old(a.Contents())[..p] + args + old(a.Contents())[p..]
  {
    if args == [] {
      return Done;
    }
    var length := a.Length();
    if i > length {
      AppendNils(a, i - length);
      AppendAll(a, args);
      return Done;
    }
    var j := i;
    if j < 0 {
      if j + length + 1 < 0 {
        return Raised(IndexError);
      }
      j := j + length + 1;
    }
    InsertEach(a, j, args);
    return Done;
  }

  /** The loop of `insert(i, *args)`: one single-element insert per
      argument, at consecutive positions from `p`. */
  method InsertEach(a: ArrayObject, p: nat, args: seq<Value>)
    requires a.Valid() && p <= a.Length()
    modifies a, a.strategy
    ensures a.Valid() && a.Contents() == old(a.Contents())[..p] + args + old(a.Contents())[p..]
    ensures a.strategy == old(a.strategy) || fresh(a.strategy)
  {
    ghost var xs := a.Contents();
    var j := p;
    var k := 0;
    while k < |args|
      invariant 0 <= k <= |args| && j == p + k
      invariant a.Valid() && a.Contents() == xs[..p] + args[..k] + xs[p..]
      invariant a.strategy == old(a.strategy) || fresh(a.strategy)
    {
      ghost var c := a.Contents();
      InsertAll(a, j, [args[k]]);
      InsertedOne(xs, p, args, k, c);
      j := j + 1;
      k := k + 1;
    }
    assert args[..k] == args;
  }

  lemma InsertedOne(xs: seq<Value>, p: nat, args: seq<Value>, k: nat, c: seq<Value>)
    requires p <= |xs| && k < |args| && c == xs[..p] + args[..k] + xs[p..]
    ensures c[..p + k] + [args[k]] + c[p + k..] == xs[..p] + args[..k + 1] + xs[p..]
  {
    assert c[..p + k] == xs[..p] + args[..k];
    assert c[p + k..] == xs[p..];
    assert args[..k + 1] == args[..k] + [args[k]];
  }
}
