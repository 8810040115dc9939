/** Initial classification of a batch of values (`strategy_type_for`).

    The registry is the sequence `order` of class indices, most specific
    first.  Every entry starts as a candidate; each scanned value clears the
    flag of every candidate that refuses it, and the scan stops as soon as at
    most one candidate is left.  The answer is the first entry whose flag is
    still set. */
module Classify {
  import opened Values
  import opened Lattice

  /** Every registry entry names a class of the table. */
  predicate RegistryValid(classes: seq<StrategyClass>, order: seq<nat>) {
    forall k :: 0 <= k < |order| ==> order[k] < |classes|
  }

  predicate HandlesAll(rep: Representation, vs: seq<Value>) {
    forall j :: 0 <= j < |vs| ==> Handles(rep, vs[j])
  }

  /** The `can_handle` flags after scanning exactly the values `vs`. */
  function Flags(classes: seq<StrategyClass>, order: seq<nat>, vs: seq<Value>): (f: seq<bool>)
    requires RegistryValid(classes, order)
    ensures |f| == |order|
    ensures forall k :: 0 <= k < |order| ==> f[k] == HandlesAll(classes[order[k]].rep, vs)
  {
    seq(|order|, k requires 0 <= k < |order| => HandlesAll(classes[order[k]].rep, vs))
  }

  function CountTrue(f: seq<bool>): nat {
    if f == [] then 0 else (if f[0] then 1 else 0) + CountTrue(f[1..])
  }

  /** The position of the first set flag. */
  function FirstTrue(f: seq<bool>): (r: Option<nat>)
    ensures r.Some? ==> r.value < |f| && f[r.value] && forall k :: 0 <= k < r.value ==> !f[k]
    ensures r.None? ==> forall k :: 0 <= k < |f| ==> !f[k]
  {
    if f == [] then None
    else if f[0] then Some(0)
    else match FirstTrue(f[1..])
      case None => None
      case Some(k) => Some(k + 1)
  }

  /** How many values the scan looks at, starting from value `n`: it stops
      before a value once at most one candidate is left. */
  function ScanEnd(classes: seq<StrategyClass>, order: seq<nat>, objs: seq<Value>, n: nat): (r: nat)
    requires RegistryValid(classes, order) && n <= |objs|
    ensures n <= r <= |objs|
    ensures r == |objs| || CountTrue(Flags(classes, order, objs[..r])) <= 1
    decreases |objs| - n
  {
    if n == |objs| || CountTrue(Flags(classes, order, objs[..n])) <= 1 then n
    else ScanEnd(classes, order, objs, n + 1)
  }

  /** What `strategy_type_for(objs)` returns: the first registry entry that
      accepts every scanned value, or a ConfigurationError. */
  function Classification(classes: seq<StrategyClass>, order: seq<nat>, objs: seq<Value>): Result<nat>
    requires RegistryValid(classes, order)
  {
    match FirstTrue(Flags(classes, order, objs[..ScanEnd(classes, order, objs, 0)]))
    case Some(k) => Ok(order[k])
    case None => Err(ConfigurationError)
  }

  lemma {:induction false} CountTrueClear(f: seq<bool>, i: nat)
    requires i < |f| && f[i]
    ensures CountTrue(f[i := false]) == CountTrue(f) - 1
  {
    if i > 0 {
      assert f[i := false][1..] == f[1..][i - 1 := false];
      CountTrueClear(f[1..], i - 1);
    }
  }

  /** At most one flag set: two set flags are the same flag. */
  lemma {:induction false} CountTrueAtMostOne(f: seq<bool>, a: nat, b: nat)
    requires a < |f| && b < |f| && f[a] && f[b] && CountTrue(f) <= 1
    ensures a == b
  {
    if a > 0 && b > 0 {
      CountTrueAtMostOne(f[1..], a - 1, b - 1);
    } else if a != b {
      var c := if a == 0 then b else a;
      CountTruePositive(f[1..], c - 1);
    }
  }

  lemma {:induction false} CountTruePositive(f: seq<bool>, a: nat)
    requires a < |f| && f[a]
    ensures CountTrue(f) >= 1
  {
    if a > 0 {
      CountTruePositive(f[1..], a - 1);
    }
  }

  /** The flags while the inner loop is at entry `i` for value `j`: the
      entries before `i` have seen `objs[j]`, the others not yet. */
  ghost predicate ScannedUpTo(classes: seq<StrategyClass>, order: seq<nat>, objs: seq<Value>, j: nat,
                              f: seq<bool>, i: nat)
    requires RegistryValid(classes, order) && j < |objs|
  {
    && |f| == |order| && i <= |f|
    && (forall k :: 0 <= k < i ==> f[k] == HandlesAll(classes[order[k]].rep, objs[..j + 1]))
    && (forall k :: i <= k < |f| ==> f[k] == HandlesAll(classes[order[k]].rep, objs[..j]))
  }

  /** The inner loop of `strategy_type_for`: clear the flag of every
      candidate that refuses `objs[j]`, counting the candidates left. */
  method ScanValue(classes: seq<StrategyClass>, order: seq<nat>, objs: seq<Value>, j: nat,
                   canHandle: array<bool>, remaining: nat) returns (left: nat)
    requires RegistryValid(classes, order) && j < |objs|
    requires canHandle[..] == Flags(classes, order, objs[..j])
    requires remaining == CountTrue(canHandle[..])
    modifies canHandle
    ensures canHandle[..] == Flags(classes, order, objs[..j + 1])
    ensures left == CountTrue(canHandle[..])
  {
    var n := canHandle.Length;
    left := remaining;
    var i := 0;
    while i < n
      invariant 0 <= i <= n
      invariant ScannedUpTo(classes, order, objs, j, canHandle[..], i)
      invariant left == CountTrue(canHandle[..])
    {
      left := ScanEntry(classes, order, objs, j, canHandle, i, left);
      i := i + 1;
    }
  }

  /** One pass of the inner loop: entry `i` sees `objs[j]`. */
  method ScanEntry(classes: seq<StrategyClass>, order: seq<nat>, objs: seq<Value>, j: nat,
                   canHandle: array<bool>, i: nat, remaining: nat) returns (left: nat)
    requires RegistryValid(classes, order) && j < |objs| && i < canHandle.Length
    requires ScannedUpTo(classes, order, objs, j, canHandle[..], i)
    requires remaining == CountTrue(canHandle[..])
    modifies canHandle
    ensures ScannedUpTo(classes, order, objs, j, canHandle[..], i + 1)
    ensures left == CountTrue(canHandle[..])
  {
    left := remaining;
    HandlesAllExtend(classes[order[i]].rep, objs, j);
    if canHandle[i] && !Handles(classes[order[i]].rep, objs[j]) {
      CountTrueClear(canHandle[..], i);
      canHandle[i] := false;
      left := left - 1;
    }
  }

  /** `strategy_type_for`, with the flag array and the candidate counter. */
  method StrategyTypeFor(classes: seq<StrategyClass>, order: seq<nat>, objs: seq<Value>) returns (r: Result<nat>)
    requires RegistryValid(classes, order)
    ensures r == Classification(classes, order, objs)
  {
    var n := |order|;
    var remaining := n;
    var canHandle := new bool[n](_ => true);
    assert objs[..0] == [];
    assert canHandle[..] == Flags(classes, order, objs[..0]);
    CountTrueAllTrue(canHandle[..]);
    var j := 0;
    while j < |objs| && remaining > 1
      invariant 0 <= j <= |objs|
      invariant canHandle[..] == Flags(classes, order, objs[..j])
      invariant remaining == CountTrue(canHandle[..])
      invariant ScanEnd(classes, order, objs, j) == ScanEnd(classes, order, objs, 0)
    {
      remaining := ScanValue(classes, order, objs, j, canHandle, remaining);
      j := j + 1;
    }
    var first := FirstCandidate(canHandle);
    match first
    case Some(i) => r := Ok(order[i]);
    case None => r := Err(ConfigurationError);
  }

  /** The final loop of `strategy_type_for`: the first entry whose flag is
      still set. */
  method FirstCandidate(canHandle: array<bool>) returns (first: Option<nat>)
    ensures first == FirstTrue(canHandle[..])
  {
    var i := 0;
    while i < canHandle.Length && !canHandle[i]
      invariant 0 <= i <= canHandle.Length
      invariant forall k :: 0 <= k < i ==> !canHandle[k]
    {
      i := i + 1;
    }
    if i < canHandle.Length {
      first := Some(i);
    } else {
      first := None;
    }
  }

  lemma {:induction false} CountTrueAllTrue(f: seq<bool>)
    requires forall k :: 0 <= k < |f| ==> f[k]
    ensures CountTrue(f) == |f|
  {
    if f != [] {
      CountTrueAllTrue(f[1..]);
    }
  }

  lemma HandlesAllExtend(rep: Representation, objs: seq<Value>, j: nat)
    requires j < |objs|
    ensures HandlesAll(rep, objs[..j + 1]) == (HandlesAll(rep, objs[..j]) && Handles(rep, objs[j]))
  {
    assert objs[..j + 1] == objs[..j] + [objs[j]];
  }

  // ---------------- What the classification means ----------------

  /** For an empty batch nothing is eliminated: the first (deepest) registry
      entry is chosen. */
  lemma ClassifyEmpty(classes: seq<StrategyClass>, order: seq<nat>)
    requires RegistryValid(classes, order) && |order| > 0
    ensures Classification(classes, order, []) == Ok(order[0])
  {
    assert Flags(classes, order, [])[0];
  }

  /** An empty registry classifies nothing. */
  lemma ClassifyNoClasses(classes: seq<StrategyClass>, objs: seq<Value>)
    ensures Classification(classes, [], objs) == Err(ConfigurationError)
  {
  }

  /** The early exit is sound whenever the registry holds a catch-all
      class: the answer is the first registry entry that accepts EVERY value
      of the batch, scanned or not. */
  lemma {:induction false} ClassifyFindsMostSpecific(classes: seq<StrategyClass>, order: seq<nat>, objs: seq<Value>, catchAll: nat)
    requires RegistryValid(classes, order)
    requires catchAll < |order| && CatchAll(classes[order[catchAll]].rep)
    ensures Classification(classes, order, objs).Ok?
    ensures exists k :: (0 <= k < |order| &&
              order[k] == Classification(classes, order, objs).value &&
              HandlesAll(classes[order[k]].rep, objs) &&
              forall j :: 0 <= j < k ==> !HandlesAll(classes[order[j]].rep, objs))
  {
    var n := ScanEnd(classes, order, objs, 0);
    var f := Flags(classes, order, objs[..n]);
    var g := Flags(classes, order, objs);
    assert g[catchAll];
    if n < |objs| {
      assert f[catchAll];
      forall k | 0 <= k < |order|
        ensures f[k] == g[k]
      {
        if f[k] {
          CountTrueAtMostOne(f, k, catchAll);
        } else {
          var j :| 0 <= j < n && !Handles(classes[order[k]].rep, objs[..n][j]);
          assert objs[..n][j] == objs[j];
        }
      }
      assert f == g;
    } else {
      assert objs[..n] == objs;
    }
    var k := FirstTrue(g).value;
    assert Classification(classes, order, objs) == Ok(order[k]);
  }
}
