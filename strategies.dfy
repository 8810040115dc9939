/** Strategy instances, the factory that creates and switches them, and the
    host collection that owns the current instance.

    A strategy instance is an object of a registered class: a SingleValue
    instance keeps only a size counter, a storage instance keeps a backing
    list that `Store`, `Insert` and `Delete` update in place, and an Empty
    instance keeps nothing.  When an instance is asked to hold a value its
    class refuses, it escalates: the factory builds an instance of a more
    general class, makes it the host's strategy, copies the elements across
    one by one, and the operation is retried on the new instance.

    The factory hooks are those of the Topaz array (`instantiate_and_switch`
    and `initialize_storage`), which write the host's `strategy` field. */
module Strategies {
  import opened Values
  import opened Lattice
  import Depth
  import Classify
  import Ordering

  // ---------------- Indexing policies ----------------

  /** `check_index_store` / `check_index_fetch`: the checked policy
      (SafeIndexingMixin) demands `0 <= i < size`; the unchecked policy
      (UnsafeIndexingMixin) checks nothing. */
  predicate IndexOk(checked: bool, i: int, size: nat) {
    !checked || 0 <= i < size
  }

  /** `check_index_range` of SafeIndexingMixin as written: both ends are
      checked as element indices, so `end` must be below `size`. */
  predicate RangeOkAsWritten(checked: bool, start: int, end: int, size: nat) {
    !checked || (start <= end && 0 <= start < size && 0 <= end < size)
  }

  /** `check_index_range` as the engine uses it: a range is valid when
      `0 <= start <= end <= size`. */
  predicate RangeOk(checked: bool, start: int, end: int, size: nat) {
    !checked || 0 <= start <= end <= size
  }

  /** Under the checked policy the range of every element, `[0, size)`, is
      refused by the check as written and accepted by the intended check;
      the two agree on every range that stops short of the end. */
  lemma RangeCheckEndExcluded(size: nat, start: int, end: int)
    ensures !RangeOkAsWritten(true, 0, size, size)
    ensures RangeOk(true, 0, size, size)
    ensures RangeOkAsWritten(true, start, end, size) ==> RangeOk(true, start, end, size)
    ensures end < size ==> (RangeOkAsWritten(true, start, end, size) <==> RangeOk(true, start, end, size))
    ensures 0 < size ==> !RangeOkAsWritten(true, size - 1, size, size) && RangeOk(true, size - 1, size, size)
  {
  }

  // ---------------- Inserts as written ----------------

  /** The status of an insert and the contents it leaves. */
  datatype InsertOutcome = InsertOutcome(status: Status, contents: seq<Value>)

  /** What `insert(start, vs)` as written does to an instance of class `c`
      holding `xs`.  An Empty instance hands the list to
      `cannot_handle_insert`.  A SingleValue instance evaluates
      `list_w[handled]`, a name bound nowhere, on its first iteration, which
      raises NameError before anything changes.  A storage instance splices
      the values in at `min(start, size)`: its escalations only reach storage
      classes (`Lattice.StorageGeneralizesToStorage`), whose insert has no
      defect. */
  function InsertAsWrittenOutcome(classes: seq<StrategyClass>, c: nat, xs: seq<Value>, start: nat, vs: seq<Value>): InsertOutcome
    requires WellFormed(classes) && c < |classes|
    decreases c, 1
  {
    match classes[c].rep
    case EmptyRep => CannotHandleInsertOutcome(classes, c, xs, start, vs)
    case SingleValueRep(_) =>
      if vs == [] then InsertOutcome(Done, xs)
      else InsertOutcome(Raised(NameError), xs)
    case _ => InsertOutcome(Done, Splice(xs, Min(start, |xs|), vs))
  }

  /** What `cannot_handle_insert(index0, list_w)` as written does: it reads
      `list_w[0]` first, so an empty list raises IndexError; otherwise the
      host switches to the generalization accepting the first value, with the
      same contents, and the list goes to that instance's own `insert` as
      written. */
  function CannotHandleInsertOutcome(classes: seq<StrategyClass>, c: nat, xs: seq<Value>, p: nat, list: seq<Value>): InsertOutcome
    requires WellFormed(classes) && c < |classes|
    requires list != [] ==> !Handles(classes[c].rep, list[0])
    decreases c, 0
  {
    if list == [] then InsertOutcome(Raised(IndexError), xs)
    else
      EscalationSucceeds(classes, c, list[0]);
      InsertAsWrittenOutcome(classes, GeneralizedStrategyFor(classes, c, list[0]).value, xs, p, list)
  }

  /** The inserts as written agree with the corrected `Strategy.Insert` (the
      splice at `min(start, size)`) wherever they complete, and fail, leaving
      the contents unchanged, exactly on an empty list into an Empty instance
      (IndexError) and on a non-empty list that reaches a SingleValue
      instance's `insert` (NameError): one inserted into a SingleValue
      instance, or into an Empty instance whose first value escalates to a
      SingleValue class. */
  lemma InsertAsWrittenDiffers(classes: seq<StrategyClass>, c: nat, xs: seq<Value>, start: nat, vs: seq<Value>)
    requires WellFormed(classes) && c < |classes|
    ensures var r := InsertAsWrittenOutcome(classes, c, xs, start, vs);
      && (r.status.Done? ==> r.contents == Splice(xs, Min(start, |xs|), vs))
      && (r.status.Raised? ==> r.contents == xs)
      && (r.status.Raised? ==> r.status.error == IndexError || r.status.error == NameError)
      && (r.status == Raised(IndexError) <==> classes[c].rep.EmptyRep? && vs == [])
      && (r.status == Raised(NameError) <==>
            vs != [] &&
            (classes[c].rep.SingleValueRep? ||
             (classes[c].rep.EmptyRep? && GeneralizedStrategyFor(classes, c, vs[0]).Ok? &&
              classes[GeneralizedStrategyFor(classes, c, vs[0]).value].rep.SingleValueRep?)))
  {
    var rep := classes[c].rep;
    if rep.SingleValueRep? && vs == [] {
      SpliceNothing(xs, Min(start, |xs|));
    } else if rep.EmptyRep? && vs != [] {
      EscalationSucceeds(classes, c, vs[0]);
      var g := GeneralizedStrategyFor(classes, c, vs[0]).value;
      assert !classes[g].rep.EmptyRep?;
    }
  }

  /** The cascade through an Empty instance: with a catch-all class 0, a
      SingleValue(nil) class 1 generalizing to it, and an Empty class 2
      generalizing to 1 then 0, inserting `[nil]` into the Empty instance
      switches to class 1 and raises NameError there.  `store(0, nil)` on
      the Empty instance is `cannot_handle_insert(0, [nil])` and meets the
      same NameError. */
  lemma EmptyIntoSingleValueAsWritten()
    ensures WellFormed(CascadeClasses())
    ensures InsertAsWrittenOutcome(CascadeClasses(), 2, [], 0, [Nil]) == InsertOutcome(Raised(NameError), [])
    ensures CannotHandleInsertOutcome(CascadeClasses(), 2, [], 0, [Nil]) == InsertOutcome(Raised(NameError), [])
  {
    var cs := CascadeClasses();
    assert EdgesOrdered(cs);
    forall c: nat, k: nat, v | c < |cs| && k < |cs[c].generalize|
      ensures SubsumesAt(cs, c, k, v)
    {
    }
    forall c: nat, v | c < |cs| && !Handles(cs[c].rep, v)
      ensures NoDeadEndAt(cs, c, v)
    {
      assert FirstAccepting(cs, [0], v) == Some(0);
      if c == 2 {
        assert [1, 0][1..] == [0];
      }
    }
    assert FirstAccepting(cs, [1, 0], Nil) == Some(0);
    assert GeneralizedStrategyFor(cs, 2, Nil) == Ok(1);
  }

  /** The class table of `EmptyIntoSingleValueAsWritten`. */
  function CascadeClasses(): (cs: seq<StrategyClass>)
    ensures |cs| == 3 && cs[2].rep.EmptyRep? && cs[1].rep == SingleValueRep(Nil)
  {
    [ StrategyClass(GenericRep(Nil), false, []),
      StrategyClass(SingleValueRep(Nil), false, [0]),
      StrategyClass(EmptyRep, false, [1, 0]) ]
  }

  // ---------------- Sequence helpers ----------------

  /** `xs` with `vs` inserted at position `s`. */
  function Splice<T>(xs: seq<T>, s: nat, vs: seq<T>): (r: seq<T>)
    requires s <= |xs|
    ensures |r| == |xs| + |vs|
  {
    xs[..s] + vs + xs[s..]
  }

  lemma SpliceNothing<T>(xs: seq<T>, s: nat)
    requires s <= |xs|
    ensures Splice(xs, s, []) == xs
  {
    assert xs[..s] + xs[s..] == xs;
  }

  /** The values a storage list reads as. */
  function View(rep: Representation, slots: seq<Slot>): (r: seq<Value>)
    ensures |r| == |slots|
    ensures forall k :: 0 <= k < |slots| ==> r[k] == Wrap(rep, slots[k])
  {
    seq(|slots|, k requires 0 <= k < |slots| => Wrap(rep, slots[k]))
  }

  lemma ViewConcat(rep: Representation, a: seq<Slot>, b: seq<Slot>)
    ensures View(rep, a + b) == View(rep, a) + View(rep, b)
  {
  }

  lemma ViewSlice(rep: Representation, a: seq<Slot>, lo: nat, hi: nat)
    requires lo <= hi <= |a|
    ensures View(rep, a[lo..hi]) == View(rep, a)[lo..hi]
  {
  }

  /** `n` copies of `v`. */
  function Repeat(v: Value, n: nat): (r: seq<Value>)
    ensures |r| == n && forall k :: 0 <= k < n ==> r[k] == v
  {
    seq(n, _ => v)
  }

  /** The contents of a freshly initialised instance of size `size`. */
  function InitialContents(rep: Representation, size: nat): (r: seq<Value>)
    requires ValidRep(rep)
    ensures |r| == if rep.EmptyRep? then 0 else size
  {
    match rep
    case EmptyRep => []
    case SingleValueRep(c) => Repeat(c, size)
    case _ => Repeat(Filler(rep), size)
  }

  // ---------------- The factory ----------------

  class StrategyFactory {
    /** The strategy classes, in definition order. */
    const classes: seq<StrategyClass>
    /** The class `initialize_storage` uses when specialisation is off
        (Topaz's ObjectStrategy). */
    const objectStrategy: nat
    /** The registry: every class once, deepest first once ordered. */
    var strategies: seq<nat>
    /** Topaz's `no_specialized_storage[0]`. */
    var noSpecializedStorage: bool

    ghost predicate Valid()
      reads this
    {
      && WellFormed(classes)
      && objectStrategy < |classes| && CatchAll(classes[objectStrategy].rep)
      && Classify.RegistryValid(classes, strategies)
      && multiset(strategies) == multiset(AllClasses(|classes|))
    }

    /** `StrategyFactory.__init__`: registers every class, then orders the
        registry by generalization depth. */
    constructor (classes: seq<StrategyClass>, objectStrategy: nat)
      requires WellFormed(classes)
      requires objectStrategy < |classes| && CatchAll(classes[objectStrategy].rep)
      ensures Valid() && this.classes == classes && this.objectStrategy == objectStrategy
      ensures !noSpecializedStorage
      ensures Ordering.SortedDescending(strategies, Depths(classes))
    {
      this.classes := classes;
      this.objectStrategy := objectStrategy;
      strategies := AllClasses(|classes|);
      noSpecializedStorage := false;
      new;
      OrderStrategies();
    }

    /** `order_strategies`: sorts the registry by generalization depth,
        deepest first, the depth being the corrected per-path walk's. */
    method OrderStrategies()
      requires WellFormed(classes) && Classify.RegistryValid(classes, strategies)
      modifies this`strategies
      ensures multiset(strategies) == old(multiset(strategies))
      ensures Classify.RegistryValid(classes, strategies)
      ensures Ordering.SortedDescending(strategies, Depths(classes))
    {
      var key := DepthKeys(classes);
      strategies := Ordering.SortDescending(strategies, key);
    }

    /** `instantiate_and_switch` (Topaz): a new instance of class `target`
        and size `size`, made the host array's strategy at once. */
    method InstantiateAndSwitch(current: Strategy, size: nat, target: nat) returns (n: Strategy)
      requires WellFormed(classes) && target < |classes|
      requires current.arr != null
      modifies current.arr
      ensures fresh(n) && n.Valid() && n.factory == this && n.cls == target
      ensures n.arr == current.arr && current.arr.strategy == n
      ensures n.Contents() == InitialContents(classes[target].rep, size)
    {
      var w := current.arr;
      n := new Strategy(this, target, w, size);
      w.strategy := n;
    }

    /** `initialize_storage` (Topaz): an instance of the class chosen for
        `objs` (or ObjectStrategy when specialisation is off) holding `objs`.
        The chosen class accepts every value, so none of the stores
        escalates. */
    method InitializeStorage(arr: ArrayObject, objs: seq<Value>) returns (s: Strategy)
      requires Valid()
      modifies arr
      ensures fresh(s) && s.Valid() && s.arr == arr && s.factory == this
      ensures arr.strategy == old(arr.strategy)
      ensures s.Contents() == objs
      ensures noSpecializedStorage ==> s.cls == objectStrategy
      ensures !noSpecializedStorage ==>
        Classify.Classification(classes, strategies, objs) == Ok(s.cls)
    {
      var typ: nat;
      if noSpecializedStorage {
        typ := objectStrategy;
      } else {
        CatchAllRegistered();
        ghost var k :| 0 <= k < |strategies| && strategies[k] == objectStrategy;
        Classify.ClassifyFindsMostSpecific(classes, strategies, objs, k);
        var r := Classify.StrategyTypeFor(classes, strategies, objs);
        typ := r.value;
      }
      assert Classify.HandlesAll(classes[typ].rep, objs);
      s := new Strategy(this, typ, arr, |objs|);
      if objs != [] {
        assert Handles(classes[typ].rep, objs[0]);
        s.StoreAll(objs);
      }
    }

    lemma CatchAllRegistered()
      requires Valid()
      ensures objectStrategy in strategies
    {
      assert AllClasses(|classes|)[objectStrategy] == objectStrategy;
      assert objectStrategy in multiset(strategies);
    }
  }

  /** The sort key of `order_strategies`, by class index, computed with the
      corrected per-path walk rather than `get_generalization_depth` as
      written (`Depth.GeneralizationDepth`). */
  method DepthKeys(classes: seq<StrategyClass>) returns (key: seq<nat>)
    requires EdgesOrdered(classes)
    ensures key == Depths(classes)
  {
    key := [];
    var c := 0;
    while c < |classes|
      invariant 0 <= c <= |classes|
      invariant key == Depths(classes)[..c]
    {
      Depth.EdgesOrderedIndicesValid(classes);
      Depth.DepthOnPathCorrect(classes, c, {});
      var d := Depth.GeneralizationDepth(classes, c);
      key := key + [d.value];
      c := c + 1;
    }
  }

  /** The class indices in definition order. */
  function AllClasses(n: nat): (r: seq<nat>)
    ensures |r| == n && forall k :: 0 <= k < n ==> r[k] == k
  {
    seq(n, k requires 0 <= k < n => k)
  }

  /** The generalization depth of every class, by class index. */
  function Depths(classes: seq<StrategyClass>): (r: seq<nat>)
    requires EdgesOrdered(classes)
    ensures |r| == |classes|
    ensures forall c :: 0 <= c < |classes| ==> r[c] == Depth.DepthOf(classes, c)
  {
    seq(|classes|, c requires 0 <= c < |classes| => Depth.DepthOf(classes, c))
  }

  // ---------------- The host collection ----------------

  /** The host array: it owns exactly one current strategy. */
  class ArrayObject {
    var strategy: Strategy

    ghost predicate Valid()
      reads this, strategy
    {
      strategy.Valid() && strategy.arr == this
    }

    ghost function Contents(): seq<Value>
      reads this, strategy
      requires Valid()
    {
      strategy.Contents()
    }

    function Length(): (n: nat)
      reads this, strategy
      requires Valid()
      ensures n == |Contents()|
    {
      strategy.Size()
    }

    /** `W_ArrayObject.__init__`: the strategy comes from `initialize_storage`.
        The field needs a value before that call, so it first holds a
        placeholder ObjectStrategy instance with no host, which the result
        replaces. */
    constructor (factory: StrategyFactory, items: seq<Value>)
      requires factory.Valid()
      ensures Valid() && Contents() == items && strategy.factory == factory
      ensures fresh(strategy)
      ensures factory.noSpecializedStorage ==> strategy.cls == factory.objectStrategy
      ensures !factory.noSpecializedStorage ==>
        Classify.Classification(factory.classes, factory.strategies, items) == Ok(strategy.cls)
    {
      strategy := new Strategy(factory, factory.objectStrategy, null, 0);
      new;
      strategy := factory.InitializeStorage(this, items);
    }

    /** `__deepcopy__` as written: the copied strategy still names `source`
        as its host. */
    constructor CopyOfAsWritten(source: ArrayObject)
      requires source.Valid()
      ensures fresh(strategy) && strategy.Valid() && strategy.arr == source
      ensures strategy.cls == source.strategy.cls && strategy.factory == source.strategy.factory
      ensures strategy.Contents() == source.Contents()
    {
      var c := source.strategy.DeepCopyAsWritten();
      strategy := c;
    }

    /** `__deepcopy__`, corrected: the copied strategy belongs to the copy. */
    constructor CopyOf(source: ArrayObject)
      requires source.Valid()
      ensures Valid() && fresh(strategy) && Contents() == source.Contents()
      ensures strategy.cls == source.strategy.cls && strategy.factory == source.strategy.factory
    {
      strategy := source.strategy;
      new;
      strategy := source.strategy.DeepCopy(this);
    }
  }

  // ---------------- Strategy instances ----------------

  class Strategy {
    const factory: StrategyFactory
    /** The index of this instance's class in `factory.classes`. */
    const cls: nat
    /** The host array; null when none is given, as `instantiate_empty` does. */
    const arr: ArrayObject?
    /** SingleValueStrategy's `_size`. */
    var count: nat
    /** StrategyWithStorage's `storage`. */
    var storage: seq<Slot>

    function Class(): StrategyClass
      requires cls < |factory.classes|
    {
      factory.classes[cls]
    }

    function Rep(): Representation
      requires cls < |factory.classes|
    {
      factory.classes[cls].rep
    }

    ghost predicate Valid()
      reads this
    {
      && WellFormed(factory.classes)
      && cls < |factory.classes|
      && (HasStorage(Rep()) ==> forall k :: 0 <= k < |storage| ==> SlotFits(Rep(), storage[k]))
    }

    /** The values this instance holds, whatever its representation. */
    ghost function Contents(): seq<Value>
      reads this
      requires Valid()
    {
      match Rep()
      case EmptyRep => []
      case SingleValueRep(c) => Repeat(c, count)
      case _ => View(Rep(), storage)
    }

    /** `size()`. */
    function Size(): (n: nat)
      reads this
      requires Valid()
      ensures n == |Contents()|
    {
      match Rep()
      case EmptyRep => 0
      case SingleValueRep(_) => count
      case _ => |storage|
    }

    /** Every value an instance holds is accepted by its class. */
    lemma ContentsHandled()
      requires Valid()
      ensures forall k :: 0 <= k < |Contents()| ==> Handles(Rep(), Contents()[k])
    {
      if HasStorage(Rep()) {
        forall k | 0 <= k < |storage|
          ensures Handles(Rep(), Contents()[k])
        {
          WrapHandled(Rep(), storage[k]);
        }
      }
    }

    /** The constructor with `init_strategy(size)`: a storage list of
        `size` unwrapped default values, or a SingleValue size counter. */
    constructor (factory: StrategyFactory, cls: nat, arr: ArrayObject?, size: nat)
      requires WellFormed(factory.classes) && cls < |factory.classes|
      ensures Valid() && this.factory == factory && this.cls == cls && this.arr == arr
      ensures Contents() == InitialContents(factory.classes[cls].rep, size)
    {
      this.factory := factory;
      this.cls := cls;
      this.arr := arr;
      var rep := factory.classes[cls].rep;
      count := if rep.SingleValueRep? then size else 0;
      storage := if HasStorage(rep) then seq(size, _ => Unwrap(rep, DefaultValue(rep))) else [];
      new;
      if HasStorage(rep) {
        forall k | 0 <= k < size
          ensures SlotFits(rep, storage[k])
        {
          WrapUnwrapDefault(rep);
        }
      }
    }

    static lemma WrapUnwrapDefault(rep: Representation)
      requires ValidRep(rep) && HasStorage(rep)
      ensures SlotFits(rep, Unwrap(rep, DefaultValue(rep)))
    {
    }

    /** `fetch(index0)`. */
    method Fetch(i: int) returns (r: Result<Value>)
      requires Valid()
      requires Class().checked || Rep().EmptyRep? || 0 <= i < Size()
      ensures 0 <= i < |Contents()| ==> r == Ok(Contents()[i])
      ensures !(0 <= i < |Contents()|) ==> r == Err(IndexError)
    {
      match Rep()
      case EmptyRep =>
        r := Err(IndexError);
      case SingleValueRep(c) =>
        if !IndexOk(Class().checked, i, count) {
          r := Err(IndexError);
        } else {
          r := Ok(c);
        }
      case _ =>
        if !IndexOk(Class().checked, i, |storage|) {
          r := Err(IndexError);
        } else {
          r := Ok(Wrap(Rep(), storage[i]));
        }
    }

    /** `slice(start, end)`: the fetched values of `[start, end)`. */
    method Slice(start: int, end: int) returns (r: Result<seq<Value>>)
      requires Valid()
      requires Class().checked || Rep().EmptyRep? || start >= end || (0 <= start && end <= Size())
      ensures start >= end ==> r == Ok([])
      ensures start < end && 0 <= start && end <= |Contents()| ==> r == Ok(Contents()[start..end])
      ensures start < end && !(0 <= start && end <= |Contents()|) ==> r == Err(IndexError)
    {
      if start >= end {
        return Ok([]);
      }
      var items: seq<Value> := [];
      var i := start;
      while i < end
        invariant start <= i <= end
        invariant i > start ==> 0 <= start && i <= |Contents()|
        invariant i > start ==> items == Contents()[start..i]
        invariant i == start ==> items == []
      {
        var x := Fetch(i);
        if x.Err? {
          return Err(IndexError);
        }
        assert i > start ==> Contents()[start..i + 1] == Contents()[start..i] + [Contents()[i]];
        items := items + [x.value];
        i := i + 1;
      }
      r := Ok(items);
    }

    /** `fetch_all()`. */
    method FetchAll() returns (r: seq<Value>)
      requires Valid()
      ensures r == Contents()
    {
      var s := Slice(0, Size());
      r := s.value;
      assert Size() == 0 ==> Contents() == [];
    }

    /** `delete(start, end)`: removes exactly `[start, end)`, after the
        policy's range check. */
    method Delete(start: int, end: int) returns (st: Status)
      requires Valid()
      requires Class().checked || 0 <= start <= end <= Size()
      modifies this
      ensures Valid()
      ensures st == if RangeOk(Class().checked, start, end, old(Size())) then Done else Raised(IndexError)
      ensures st.Done? ==> 0 <= start <= end <= old(Size()) &&
                           Contents() == old(Contents())[..start] + old(Contents())[end..]
      ensures st.Raised? ==> Contents() == old(Contents())
    {
      if !RangeOk(Class().checked, start, end, Size()) {
        return Raised(IndexError);
      }
      st := Done;
      match Rep()
      case EmptyRep =>
      case SingleValueRep(c) =>
        count := count - (end - start);
      case _ =>
        DeleteSlots(start, end);
    }

    /** `del self.storage[start:end]`. */
    method DeleteSlots(start: nat, end: nat)
      requires Valid() && HasStorage(Rep()) && start <= end <= Size()
      modifies this`storage
      ensures Valid() && Contents() == old(Contents())[..start] + old(Contents())[end..]
    {
      ghost var before := storage;
      storage := storage[..start] + storage[end..];
      ViewConcat(Rep(), before[..start], before[end..]);
      ViewSlice(Rep(), before, 0, start);
      ViewSlice(Rep(), before, end, |before|);
    }

    /** The contents after `store(i, v)` reported `st`. */
    ghost function StoreResult(xs: seq<Value>, i: int, v: Value, st: Status): seq<Value>
      requires cls < |factory.classes|
      requires Rep().EmptyRep? || st.Raised? || 0 <= i < |xs|
    {
      if Rep().EmptyRep? then [v] else if st.Done? then xs[i := v] else xs
    }

    /** Whether storing `v` at `i` switches the host to a new instance. */
    ghost predicate StoreEscalates(i: int, v: Value)
      reads this
      requires Valid()
    {
      Rep().EmptyRep? || (!Handles(Rep(), v) && 0 <= i < Size())
    }

    /** `s` is a valid instance for the same host and factory as this one,
        holding `xs`: this instance itself, or the one that replaced it. */
    ghost predicate Succeeds(s: Strategy, xs: seq<Value>)
      reads s
    {
      s.Valid() && s.arr == arr && s.factory == factory && s.Contents() == xs
    }

    /** Whether inserting `vs` switches the host to a new instance. */
    ghost predicate InsertEscalates(vs: seq<Value>)
      requires cls < |factory.classes|
    {
      exists k :: 0 <= k < |vs| && !Handles(Rep(), vs[k])
    }

    /** `store(index0, value)`.  A value the class accepts is written in
        place (a SingleValue instance has nothing to write); any other value
        escalates and the store is retried on the new instance.  An Empty
        instance turns the store into an insert of one value, through the
        corrected insert (as written it can reach the SingleValue NameError,
        see `EmptyIntoSingleValueAsWritten`). */
    method Store(i: int, v: Value) returns (st: Status)
      requires Valid() && arr != null
      requires Class().checked || Rep().EmptyRep? || 0 <= i < Size()
      requires Rep().EmptyRep? ==> 0 <= i
      modifies this, arr
      decreases cls, 6
      ensures st == if Rep().EmptyRep? || 0 <= i < old(Size()) then Done else Raised(IndexError)
      ensures old(StoreEscalates(i, v)) ==>
        fresh(arr.strategy) && Succeeds(arr.strategy, StoreResult(old(Contents()), i, v, st))
      ensures !old(StoreEscalates(i, v)) ==>
        arr.strategy == old(arr.strategy) && Succeeds(this, StoreResult(old(Contents()), i, v, st))
    {
      if Rep().EmptyRep? {
        CannotHandleInsert(i, [v]);
        return Done;
      }
      if !IndexOk(Class().checked, i, Size()) {
        return Raised(IndexError);
      }
      st := Done;
      if Handles(Rep(), v) {
        if HasStorage(Rep()) {
          ghost var before := storage;
          WrapUnwrap(Rep(), v);
          storage := storage[i := Unwrap(Rep(), v)];
          assert View(Rep(), storage) == View(Rep(), before)[i := v];
        } else {
          assert Contents() == old(Contents())[i := v];
        }
      } else {
        var n := GeneralizeForValue(v);
        var st' := n.Store(i, v);
      }
    }

    /** `insert(index0, list_w)`, corrected: `start` is clamped to the size,
        the values are inserted in order until the first one the class
        refuses, and from there the rest of the list goes to the generalized
        instance at the matching position. */
    method Insert(start: int, vs: seq<Value>)
      requires Valid() && arr != null && 0 <= start
      modifies this, arr
      decreases cls, 6
      ensures InsertEscalates(vs) ==>
        fresh(arr.strategy) && Succeeds(arr.strategy, Splice(old(Contents()), Min(start, old(Size())), vs))
      ensures !InsertEscalates(vs) ==>
        arr.strategy == old(arr.strategy) && Succeeds(this, Splice(old(Contents()), Min(start, old(Size())), vs))
    {
      match Rep()
      case EmptyRep =>
        if vs == [] {
          return;
        }
        CannotHandleInsert(start, vs);
      case SingleValueRep(c) =>
        InsertSingleValue(start, vs);
      case _ =>
        InsertIntoStorage(start, vs);
    }

    /** Whether the insert as written switches the host to a new instance:
        a SingleValue instance raises before it could. */
    ghost predicate InsertEscalatesAsWritten(vs: seq<Value>)
      requires cls < |factory.classes|
    {
      !Rep().SingleValueRep? && InsertEscalates(vs)
    }

    /** `insert(index0, list_w)` as written, on every representation. */
    method InsertAsWritten(start: int, vs: seq<Value>) returns (st: Status)
      requires Valid() && arr != null && 0 <= start
      modifies this, arr
      decreases cls, 8
      ensures st == InsertAsWrittenOutcome(factory.classes, cls, old(Contents()), start, vs).status
      ensures InsertEscalatesAsWritten(vs) ==>
        fresh(arr.strategy) &&
        Succeeds(arr.strategy, InsertAsWrittenOutcome(factory.classes, cls, old(Contents()), start, vs).contents)
      ensures !InsertEscalatesAsWritten(vs) ==>
        arr.strategy == old(arr.strategy) &&
        Succeeds(this, InsertAsWrittenOutcome(factory.classes, cls, old(Contents()), start, vs).contents)
    {
      match Rep()
      case EmptyRep =>
        if vs != [] {
          assert InsertEscalates(vs) by { assert !Handles(Rep(), vs[0]); }
        }
        st := CannotHandleInsertAsWritten(start, vs);
      case SingleValueRep(c) =>
        if vs != [] {
          // the first iteration reads `list_w[handled]`
          return Raised(NameError);
        }
        st := Done;
      case _ =>
        InsertIntoStorage(start, vs);
        st := Done;
    }

    /** `cannot_handle_insert(index0, list_w)` as written: `list_w[0]` is
        read before anything else, so an empty list raises IndexError;
        otherwise the generalized instance runs its own `insert` as written. */
    method CannotHandleInsertAsWritten(p: int, list: seq<Value>) returns (st: Status)
      requires Valid() && arr != null && 0 <= p
      requires list != [] ==> !Handles(Rep(), list[0])
      modifies arr
      decreases cls, 7
      ensures st == CannotHandleInsertOutcome(factory.classes, cls, old(Contents()), p, list).status
      ensures list == [] ==> arr.strategy == old(arr.strategy)
      ensures list != [] ==> fresh(arr.strategy)
      ensures list != [] ==>
        Succeeds(arr.strategy, CannotHandleInsertOutcome(factory.classes, cls, old(Contents()), p, list).contents)
    {
      if list == [] {
        return Raised(IndexError);
      }
      var n := GeneralizeForValue(list[0]);
      st := n.InsertAsWritten(p, list);
    }

    /** SingleValueStrategy.insert with the loop index in place of the
        undefined name `handled`. */
    method InsertSingleValue(start: int, vs: seq<Value>)
      requires Valid() && arr != null && 0 <= start && Rep().SingleValueRep?
      modifies this, arr
      decreases cls, 5
      ensures InsertEscalates(vs) ==>
        fresh(arr.strategy) && Succeeds(arr.strategy, Splice(old(Contents()), Min(start, old(Size())), vs))
      ensures !InsertEscalates(vs) ==>
        arr.strategy == old(arr.strategy) && Succeeds(this, Splice(old(Contents()), Min(start, old(Size())), vs))
    {
      ghost var before := Contents();
      var i := AbsorbConstants(vs);
      if i < |vs| {
        assert InsertEscalates(vs) by { assert !Handles(Rep(), vs[i]); }
        EscalateRest(start, before, i, vs);
      } else {
        assert !InsertEscalates(vs);
        ConstantSplice(Rep().constant, |before|, start, i, vs);
        assert vs[i..] == [];
        SpliceNothing(Contents(), Min(start + i, |before| + i));
      }
    }

    /** The `else` branch of SingleValueStrategy.insert: the first `i`
        values grew the run, `vs[i]` differs from the constant, and
        `cannot_handle_insert(index0 + i, list_w[i:])` inserts the rest into
        a more general instance. */
    method EscalateRest(start: int, ghost before: seq<Value>, i: nat, vs: seq<Value>)
      requires Valid() && arr != null && 0 <= start && Rep().SingleValueRep?
      requires i < |vs| && vs[i] != Rep().constant
      requires forall k :: 0 <= k < i ==> vs[k] == Rep().constant
      requires count == |before| + i && before == Repeat(Rep().constant, |before|)
      modifies arr
      decreases cls, 4
      ensures fresh(arr.strategy) && Succeeds(arr.strategy, Splice(before, Min(start, |before|), vs))
    {
      ConstantSplice(Rep().constant, |before|, start, i, vs);
      CannotHandleInsert(start + i, vs[i..]);
    }

    /** The loop of SingleValueStrategy.insert while the values equal the
        constant: each one only grows the run. */
    method AbsorbConstants(vs: seq<Value>) returns (i: nat)
      requires Valid() && Rep().SingleValueRep?
      modifies this`count
      ensures Valid() && i <= |vs| && count == old(count) + i
      ensures forall k :: 0 <= k < i ==> vs[k] == Rep().constant
      ensures i < |vs| ==> vs[i] != Rep().constant
    {
      i := 0;
      while i < |vs| && vs[i] == Rep().constant
        invariant 0 <= i <= |vs| && Valid()
        invariant count == old(count) + i
        invariant forall k :: 0 <= k < i ==> vs[k] == Rep().constant
      {
        count := count + 1;
        i := i + 1;
      }
    }

    /** Inserting into a run of one constant, when the first `i` inserted
        values equal the constant: the run grown by `i`, with the rest of the
        values inserted at `start + i`, is the full splice. */
    static lemma ConstantSplice(c: Value, size: nat, start: int, i: nat, vs: seq<Value>)
      requires 0 <= start && i <= |vs|
      requires forall k :: 0 <= k < i ==> vs[k] == c
      ensures Splice(Repeat(c, size + i), Min(start + i, size + i), vs[i..])
              == Splice(Repeat(c, size), Min(start, size), vs)
    {
      var s := Min(start, size);
      assert Min(start + i, size + i) == s + i;
      var lhs := Splice(Repeat(c, size + i), s + i, vs[i..]);
      var rhs := Splice(Repeat(c, size), s, vs);
      forall k | 0 <= k < |lhs|
        ensures lhs[k] == rhs[k]
      {
        if k < s + i {
          assert lhs[k] == c;
          if k >= s {
            assert rhs[k] == vs[k - s];
          }
        } else if k < s + |vs| {
          assert lhs[k] == vs[i..][k - s - i];
        }
      }
    }

    /** StrategyWithStorage.insert. */
    method InsertIntoStorage(start: int, vs: seq<Value>)
      requires Valid() && arr != null && 0 <= start && HasStorage(Rep())
      modifies this, arr
      decreases cls, 5
      ensures InsertEscalates(vs) ==>
        fresh(arr.strategy) && Succeeds(arr.strategy, Splice(old(Contents()), Min(start, old(Size())), vs))
      ensures !InsertEscalates(vs) ==>
        arr.strategy == old(arr.strategy) && Succeeds(this, Splice(old(Contents()), Min(start, old(Size())), vs))
    {
      var s := start;
      if s > |storage| {
        s := |storage|;
      }
      ghost var before := Contents();
      var i := InsertAccepted(s, vs);
      if i < |vs| {
        assert InsertEscalates(vs) by { assert !Handles(Rep(), vs[i]); }
        CannotHandleInsert(s + i, vs[i..]);
        assert Min(s + i, |before| + i) == s + i;
        SpliceRest(before, s, vs, i);
      } else {
        assert vs[..i] == vs;
      }
    }

    /** The loop of StrategyWithStorage.insert while its class accepts the
        values: each accepted value is unwrapped into the storage list. */
    method InsertAccepted(s: nat, vs: seq<Value>) returns (i: nat)
      requires Valid() && HasStorage(Rep()) && s <= Size()
      modifies this`storage
      ensures i <= |vs| && forall k :: 0 <= k < i ==> Handles(Rep(), vs[k])
      ensures i < |vs| ==> !Handles(Rep(), vs[i])
      ensures Valid() && Contents() == Splice(old(Contents()), s, vs[..i])
    {
      ghost var slots0 := storage;
      var rep := Rep();
      var slots := storage;
      i := 0;
      while i < |vs| && Handles(rep, vs[i])
        invariant 0 <= i <= |vs| && s <= |slots0|
        invariant slots == slots0[..s] + UnwrapAll(rep, vs[..i]) + slots0[s..]
        invariant forall k :: 0 <= k < i ==> Handles(rep, vs[k])
      {
        UnwrapAllStep(rep, slots0, s, vs, i, slots);
        slots := slots[..s + i] + [Unwrap(rep, vs[i])] + slots[s + i..];
        i := i + 1;
      }
      storage := slots;
      StorageSplice(slots0, s, vs[..i]);
    }

    /** The slots a storage representation keeps for `vs`. */
    static function UnwrapAll(rep: Representation, vs: seq<Value>): (r: seq<Slot>)
      ensures |r| == |vs| && forall k :: 0 <= k < |vs| ==> r[k] == Unwrap(rep, vs[k])
    {
      seq(|vs|, k requires 0 <= k < |vs| => Unwrap(rep, vs[k]))
    }

    static lemma UnwrapAllStep(rep: Representation, slots0: seq<Slot>, s: nat, vs: seq<Value>, i: nat, cur: seq<Slot>)
      requires s <= |slots0| && i < |vs|
      requires cur == slots0[..s] + UnwrapAll(rep, vs[..i]) + slots0[s..]
      ensures cur[..s + i] + [Unwrap(rep, vs[i])] + cur[s + i..]
          == slots0[..s] + UnwrapAll(rep, vs[..i + 1]) + slots0[s..]
    {
      assert cur[..s + i] == slots0[..s] + UnwrapAll(rep, vs[..i]);
      assert cur[s + i..] == slots0[s..];
      assert UnwrapAll(rep, vs[..i + 1]) == UnwrapAll(rep, vs[..i]) + [Unwrap(rep, vs[i])];
    }

    /** After the slots of accepted values are inserted at `s`, the instance
        is valid and reads as the values spliced in at `s`. */
    lemma StorageSplice(slots0: seq<Slot>, s: nat, vs: seq<Value>)
      requires cls < |factory.classes| && WellFormed(factory.classes) && HasStorage(Rep())
      requires forall k :: 0 <= k < |slots0| ==> SlotFits(Rep(), slots0[k])
      requires s <= |slots0| && forall k :: 0 <= k < |vs| ==> Handles(Rep(), vs[k])
      requires storage == slots0[..s] + UnwrapAll(Rep(), vs) + slots0[s..]
      ensures Valid() && Contents() == Splice(View(Rep(), slots0), s, vs)
    {
      forall k | 0 <= k < |vs|
        ensures SlotFits(Rep(), UnwrapAll(Rep(), vs)[k]) && Wrap(Rep(), UnwrapAll(Rep(), vs)[k]) == vs[k]
      {
        WrapUnwrap(Rep(), vs[k]);
      }
      var l := View(Rep(), storage);
      var r := Splice(View(Rep(), slots0), s, vs);
      forall k | 0 <= k < |l|
        ensures l[k] == r[k]
      {
        if k < s {
          assert storage[k] == slots0[k];
        } else if k < s + |vs| {
          assert storage[k] == UnwrapAll(Rep(), vs)[k - s];
        } else {
          assert storage[k] == slots0[k - |vs|];
        }
      }
    }

    static lemma SpliceRest(xs: seq<Value>, s: nat, vs: seq<Value>, i: nat)
      requires s <= |xs| && i <= |vs|
      ensures Splice(Splice(xs, s, vs[..i]), s + i, vs[i..]) == Splice(xs, s, vs)
    {
      assert vs[..i] + vs[i..] == vs;
    }

    /** `cannot_handle_insert(index0, list_w)` for a non-empty list: switch
        for the first value, then insert the whole list into the new
        instance. */
    method CannotHandleInsert(p: int, rest: seq<Value>)
      requires Valid() && arr != null && 0 <= p
      requires rest != [] && !Handles(Rep(), rest[0])
      modifies arr
      decreases cls, 3
      ensures fresh(arr.strategy) && arr.strategy.Valid()
      ensures arr.strategy.arr == arr && arr.strategy.factory == factory
      ensures arr.strategy.Contents() == Splice(old(Contents()), Min(p, old(Size())), rest)
    {
      var n := GeneralizeForValue(rest[0]);
      n.Insert(p, rest);
    }

    /** `generalize_for_value(value)`: switch the host to an instance of the
        first generalization that accepts `v`. */
    method GeneralizeForValue(v: Value) returns (n: Strategy)
      requires Valid() && arr != null && !Handles(Rep(), v)
      modifies arr
      decreases cls, 2
      ensures fresh(n) && arr.strategy == n && n.arr == arr && n.factory == factory
      ensures n.Valid() && n.Contents() == old(Contents())
      ensures GeneralizedStrategyFor(factory.classes, cls, v) == Ok(n.cls)
      ensures n.cls < cls && Handles(n.Rep(), v)
    {
      EscalationSucceeds(factory.classes, cls, v);
      var g := GeneralizedStrategyFor(factory.classes, cls, v).value;
      n := SwitchStrategy(g);
    }

    /** `switch_strategy(self, target)`: instantiate the target with this
        instance's size, make it the host's strategy, then copy every element
        across. */
    method SwitchStrategy(target: nat) returns (n: Strategy)
      requires Valid() && arr != null
      requires target in Class().generalize
      modifies arr
      decreases cls, 1
      ensures fresh(n) && arr.strategy == n && n.arr == arr && n.factory == factory
      ensures n.Valid() && n.cls == target && n.Contents() == old(Contents())
    {
      var k :| 0 <= k < |Class().generalize| && Class().generalize[k] == target;
      n := factory.InstantiateAndSwitch(this, Size(), target);
      ContentsHandled();
      forall j | 0 <= j < |Contents()|
        ensures Handles(n.Rep(), Contents()[j])
      {
        assert SubsumesAt(factory.classes, cls, k, Contents()[j]);
      }
      if Size() > 0 {
        assert Handles(n.Rep(), Contents()[0]);
      }
      n.CopyFrom(this);
    }

    /** `copy_from(other)`: `store(i, other.fetch(i))` for every index.  The
        target accepts every element of `other`, so no store escalates. */
    method CopyFrom(other: Strategy)
      requires Valid() && other.Valid() && arr != null && other != this
      requires cls < other.cls
      requires Size() == other.Size()
      requires forall j :: 0 <= j < |other.Contents()| ==> Handles(Rep(), other.Contents()[j])
      modifies this, arr
      decreases other.cls, 0
      ensures Valid() && Contents() == other.Contents()
      ensures arr.strategy == old(arr.strategy)
    {
      var i := 0;
      while i < Size()
        invariant Valid() && arr.strategy == old(arr.strategy)
        invariant 0 <= i <= Size() == other.Size()
        invariant forall k :: 0 <= k < i ==> Contents()[k] == other.Contents()[k]
      {
        var x := other.Fetch(i);
        var st := Store(i, x.value);
        i := i + 1;
      }
    }

    /** The store loop of `initialize_storage`: `store(i, objs[i])` for
        every index, on an instance of the right size whose class accepts
        every value. */
    method StoreAll(objs: seq<Value>)
      requires Valid() && arr != null
      requires Size() == |objs| && Classify.HandlesAll(Rep(), objs)
      modifies this, arr
      ensures Valid() && Contents() == objs
      ensures arr.strategy == old(arr.strategy)
    {
      var i := 0;
      while i < |objs|
        invariant Valid() && arr.strategy == old(arr.strategy)
        invariant 0 <= i <= |objs| == Size()
        invariant forall k :: 0 <= k < i ==> Contents()[k] == objs[k]
      {
        var st := Store(i, objs[i]);
        i := i + 1;
      }
    }

    /** `deepcopy(memo)` as written: a copy of the same class and contents,
        built with `self.arr`, so its host is the ORIGINAL array. */
    method DeepCopyAsWritten() returns (c: Strategy)
      requires Valid()
      ensures fresh(c) && c.Valid() && c.factory == factory && c.cls == cls
      ensures c.arr == arr && c.Contents() == Contents()
    {
      c := new Strategy(factory, cls, arr, Size());
      c.count := count;
      c.storage := storage;
    }

    /** `deepcopy`, corrected: the copy belongs to the new array `target`. */
    method DeepCopy(target: ArrayObject) returns (c: Strategy)
      requires Valid()
      ensures fresh(c) && c.Valid() && c.factory == factory && c.cls == cls
      ensures c.arr == target && c.Contents() == Contents()
    {
      c := new Strategy(factory, cls, target, Size());
      c.count := count;
      c.storage := storage;
    }

    /** `append(list_w)`. */
    method Append(vs: seq<Value>)
      requires Valid() && arr != null
      modifies this, arr
      ensures InsertEscalates(vs) ==>
        fresh(arr.strategy) && Succeeds(arr.strategy, old(Contents()) + vs)
      ensures !InsertEscalates(vs) ==>
        arr.strategy == old(arr.strategy) && Succeeds(this, old(Contents()) + vs)
    {
      SpliceAtEnd(Contents(), vs);
      Insert(Size(), vs);
    }

    static lemma SpliceAtEnd(xs: seq<Value>, vs: seq<Value>)
      ensures Splice(xs, Min(|xs|, |xs|), vs) == xs + vs
    {
      assert xs[..|xs|] == xs;
    }

    /** `pop(index0)`: fetch the element, then delete it, through the
        intended range check of `Delete`; as written, a checked instance
        refuses the last element's `delete(i, i + 1)`. */
    method Pop(i: int) returns (r: Result<Value>)
      requires Valid()
      requires Class().checked || Rep().EmptyRep? || 0 <= i < Size()
      modifies this
      ensures Valid()
      ensures 0 <= i < old(Size()) ==>
        r == Ok(old(Contents())[i]) && Contents() == old(Contents())[..i] + old(Contents())[i + 1..]
      ensures !(0 <= i < old(Size())) ==> r == Err(IndexError) && Contents() == old(Contents())
    {
      r := Fetch(i);
      if r.Err? {
        return;
      }
      var st := Delete(i, i + 1);
    }
  }
}
