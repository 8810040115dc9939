/** Topaz's use of the strategy engine: the four strategy classes of the
    Ruby Array, their lattice, the order the factory registers them in, and
    the class `initialize_storage` picks for a batch of elements.

    Every Topaz strategy mixes in UnsafeIndexingMixin, so no class checks
    its indices. */
module Topaz {
  import opened Values
  import opened Lattice
  import Depth
  import Classify
  import Ordering
  import opened Strategies

  /** Class indices, in definition order. */
  const ObjectStrategy: nat := 0
  const IntStrategy: nat := 1
  const FloatStrategy: nat := 2
  const EmptyStrategy: nat := 3

  /** ObjectStrategy (boxed, default nil), IntStrategy and FloatStrategy
      (unboxed Fixnum and Float, default 0, escalating to ObjectStrategy) and
      EmptyStrategy (escalating to FloatStrategy, then IntStrategy, then
      ObjectStrategy). */
  function Classes(): (cs: seq<StrategyClass>)
    ensures |cs| == 4
    ensures forall c :: 0 <= c < 4 ==> !cs[c].checked
    ensures CatchAll(cs[ObjectStrategy].rep)
  {
    [ StrategyClass(GenericRep(Nil), false, []),
      StrategyClass(SingleTypeRep(FixnumType, 0), false, [ObjectStrategy]),
      StrategyClass(SingleTypeRep(FloatType, 0), false, [ObjectStrategy]),
      StrategyClass(EmptyRep, false, [FloatStrategy, IntStrategy, ObjectStrategy]) ]
  }

  /** The Topaz lattice meets every requirement the engine places on a
      lattice: generalizations defined first, each accepting what its
      specialization accepts, and every refused value accepted somewhere
      up the lattice. */
  lemma ClassesWellFormed()
    ensures WellFormed(Classes())
  {
    var cs := Classes();
    assert EdgesOrdered(cs);
    forall c: nat, k: nat, v | c < |cs| && k < |cs[c].generalize|
      ensures SubsumesAt(cs, c, k, v)
    {
    }
    forall c: nat, v | c < |cs| && !Handles(cs[c].rep, v)
      ensures NoDeadEndAt(cs, c, v)
    {
      assert FirstAccepting(cs, [ObjectStrategy], v) == Some(0);
      if c == EmptyStrategy {
        assert [FloatStrategy, IntStrategy, ObjectStrategy][1..] == [IntStrategy, ObjectStrategy];
        assert [IntStrategy, ObjectStrategy][1..] == [ObjectStrategy];
        assert FirstAccepting(cs, [IntStrategy, ObjectStrategy], v).Some?;
      }
    }
  }

  /** Generalization depths: ObjectStrategy 0, IntStrategy and FloatStrategy
      1, EmptyStrategy 2. */
  lemma ClassDepths()
    ensures EdgesOrdered(Classes())
    ensures Depths(Classes()) == [0, 1, 1, 2]
  {
    var cs := Classes();
    assert EdgesOrdered(cs);
    assert Depth.DepthOf(cs, 0) == 0;
    assert [ObjectStrategy][1..] == [];
    assert Depth.MaxDepthOf(cs, 1, [ObjectStrategy]) == 0;
    assert Depth.MaxDepthOf(cs, 2, [ObjectStrategy]) == 0;
    assert Depth.DepthOf(cs, 1) == 1 && Depth.DepthOf(cs, 2) == 1;
    assert [FloatStrategy, IntStrategy, ObjectStrategy][1..] == [IntStrategy, ObjectStrategy];
    assert [IntStrategy, ObjectStrategy][1..] == [ObjectStrategy];
    assert Depth.MaxDepthOf(cs, 3, [ObjectStrategy]) == 0;
    assert Depth.MaxDepthOf(cs, 3, [IntStrategy, ObjectStrategy]) == 1;
    assert Depth.MaxDepthOf(cs, 3, [FloatStrategy, IntStrategy, ObjectStrategy]) == 1;
    assert Depth.DepthOf(cs, 3) == 2;
  }

  /** The sort key as written, with its one shared `visited` set, already
      gives the Topaz depths: the lattice has no diamond, so no class is met
      twice in one walk. */
  lemma ClassDepthsAsWritten()
    ensures Depth.IndicesValid(Classes())
    ensures Depth.DepthAsWritten(Classes(), ObjectStrategy, {}).depth == Ok(0)
    ensures Depth.DepthAsWritten(Classes(), IntStrategy, {}).depth == Ok(1)
    ensures Depth.DepthAsWritten(Classes(), FloatStrategy, {}).depth == Ok(1)
    ensures Depth.DepthAsWritten(Classes(), EmptyStrategy, {}).depth == Ok(2)
  {
    var cs := Classes();
    assert Depth.IndicesValid(cs);
    assert [ObjectStrategy][1..] == [];
    assert {} + {1} == {1} && {} + {2} == {2};
    assert Depth.DepthAsWritten(cs, 0, {1}) == Depth.DepthRun(Ok(0), {1});
    assert Depth.MaxDepthAsWritten(cs, [0], {1}, 0) == Depth.DepthRun(Ok(0), {1});
    assert Depth.DepthAsWritten(cs, 0, {2}) == Depth.DepthRun(Ok(0), {2});
    assert Depth.MaxDepthAsWritten(cs, [0], {2}, 0) == Depth.DepthRun(Ok(0), {2});
    EmptyWalkAsWritten();
  }

  /** The shared-set walk from EmptyStrategy: FloatStrategy, then
      IntStrategy, then ObjectStrategy, each met once. */
  lemma EmptyWalkAsWritten()
    ensures Depth.IndicesValid(Classes())
    ensures Depth.DepthAsWritten(Classes(), EmptyStrategy, {}) == Depth.DepthRun(Ok(2), {3, 2, 1})
  {
    var cs := Classes();
    assert Depth.IndicesValid(cs);
    assert [ObjectStrategy][1..] == [];
    assert [FloatStrategy, IntStrategy, ObjectStrategy][1..] == [IntStrategy, ObjectStrategy];
    assert [IntStrategy, ObjectStrategy][1..] == [ObjectStrategy];
    assert {} + {3} == {3} && {3} + {2} == {3, 2} && {3, 2} + {1} == {3, 2, 1};
    assert Depth.MaxDepthAsWritten(cs, [0], {3, 2}, 0) == Depth.DepthRun(Ok(0), {3, 2});
    assert Depth.DepthAsWritten(cs, 2, {3}) == Depth.DepthRun(Ok(1), {3, 2});
    assert Depth.MaxDepthAsWritten(cs, [0], {3, 2, 1}, 0) == Depth.DepthRun(Ok(0), {3, 2, 1});
    assert Depth.DepthAsWritten(cs, 1, {3, 2}) == Depth.DepthRun(Ok(1), {3, 2, 1});
    assert Depth.MaxDepthAsWritten(cs, [0], {3, 2, 1}, 1) == Depth.DepthRun(Ok(1), {3, 2, 1});
    assert Depth.MaxDepthAsWritten(cs, [2, 1, 0], {3}, 0) == Depth.DepthRun(Ok(1), {3, 2, 1});
  }

  /** The registry Topaz ends up with: EmptyStrategy first, ObjectStrategy
      last, IntStrategy and FloatStrategy in between in either order (they
      have the same depth). */
  predicate TopazRegistry(order: seq<nat>) {
    && |order| == 4
    && order[0] == EmptyStrategy && order[3] == ObjectStrategy
    && ((order[1] == IntStrategy && order[2] == FloatStrategy) ||
        (order[1] == FloatStrategy && order[2] == IntStrategy))
  }

  /** Any permutation of the four classes sorted by depth, deepest first, is
      such a registry. */
  lemma {:induction false} SortedRegistry(order: seq<nat>)
    requires multiset(order) == multiset(AllClasses(4))
    requires Classify.RegistryValid(Classes(), order)
    requires Ordering.KeysDefined(order, [0, 1, 1, 2])
    requires Ordering.SortedDescending(order, [0, 1, 1, 2])
    ensures TopazRegistry(order)
  {
    var key := [0, 1, 1, 2];
    assert AllClasses(4) == [0, 1, 2, 3];
    assert |order| == 4 by {
      assert |multiset(order)| == |multiset([0, 1, 2, 3])|;
    }
    assert 3 in multiset(order) && 0 in multiset(order);
    assert 1 in multiset(order) && 2 in multiset(order);
    var p3 :| 0 <= p3 < 4 && order[p3] == 3;
    var p0 :| 0 <= p0 < 4 && order[p0] == 0;
    var p1 :| 0 <= p1 < 4 && order[p1] == 1;
    var p2 :| 0 <= p2 < 4 && order[p2] == 2;
    // the four positions are distinct, so they cover all of 0..3
    assert p0 != p1 && p0 != p2 && p0 != p3 && p1 != p2 && p1 != p3 && p2 != p3;
  }

  /** The class `initialize_storage` picks for a batch of elements:
      EmptyStrategy for no elements, IntStrategy when every element is a
      Fixnum, FloatStrategy when every element is a Float, ObjectStrategy
      otherwise. */
  function StrategyFor(objs: seq<Value>): nat {
    if objs == [] then EmptyStrategy
    else if forall j :: 0 <= j < |objs| ==> objs[j].Fixnum? then IntStrategy
    else if forall j :: 0 <= j < |objs| ==> objs[j].Float? then FloatStrategy
    else ObjectStrategy
  }

  /** The classification over the Topaz registry is `StrategyFor`: the scan
      with its early exit always lands on the most specific class accepting
      the whole batch. */
  lemma ClassifyTopaz(order: seq<nat>, objs: seq<Value>)
    requires TopazRegistry(order)
    ensures Classify.RegistryValid(Classes(), order)
    ensures Classify.Classification(Classes(), order, objs) == Ok(StrategyFor(objs))
  {
    var cs := Classes();
    assert Classify.RegistryValid(cs, order);
    Classify.ClassifyFindsMostSpecific(cs, order, objs, 3);
    var r := Classify.Classification(cs, order, objs).value;
    var k :| 0 <= k < |order| && order[k] == r &&
             Classify.HandlesAll(cs[order[k]].rep, objs) &&
             forall j :: 0 <= j < k ==> !Classify.HandlesAll(cs[order[j]].rep, objs);
    FirstHandlingAll(order, objs, k);
  }

  /** The first registry entry accepting the whole batch is `StrategyFor`. */
  lemma FirstHandlingAll(order: seq<nat>, objs: seq<Value>, k: nat)
    requires TopazRegistry(order) && k < 4
    requires Classify.HandlesAll(Classes()[order[k]].rep, objs)
    requires forall j :: 0 <= j < k ==> !Classify.HandlesAll(Classes()[order[j]].rep, objs)
    ensures order[k] == StrategyFor(objs)
  {
    var cs := Classes();
    if objs != [] {
      assert !Handles(cs[EmptyStrategy].rep, objs[0]);
      var allInt := forall j :: 0 <= j < |objs| ==> objs[j].Fixnum?;
      var allFloat := forall j :: 0 <= j < |objs| ==> objs[j].Float?;
      assert Classify.HandlesAll(cs[IntStrategy].rep, objs) == allInt;
      assert Classify.HandlesAll(cs[FloatStrategy].rep, objs) == allFloat;
      if allInt {
        assert !allFloat by { assert objs[0].Fixnum?; }
      }
    }
  }

  /** `StrategyFactory.__init__` in Topaz: the four classes registered,
      ordered EmptyStrategy first and ObjectStrategy last, with
      specialisation on. */
  method NewFactory() returns (f: StrategyFactory)
    ensures fresh(f) && f.Valid()
    ensures f.classes == Classes() && f.objectStrategy == ObjectStrategy
    ensures TopazRegistry(f.strategies) && !f.noSpecializedStorage
  {
    ClassesWellFormed();
    f := new StrategyFactory(Classes(), ObjectStrategy);
    ClassDepths();
    SortedRegistry(f.strategies);
  }

  /** `W_ArrayObject.__init__` on a Topaz factory: the array holds `items`,
      in the class `StrategyFor(items)` unless specialisation is off. */
  method NewArray(f: StrategyFactory, items: seq<Value>) returns (a: ArrayObject)
    requires f.Valid() && f.classes == Classes() && f.objectStrategy == ObjectStrategy
    requires TopazRegistry(f.strategies)
    ensures fresh(a) && fresh(a.strategy) && a.Valid() && a.Contents() == items
    ensures a.strategy.factory == f
    ensures f.noSpecializedStorage ==> a.strategy.cls == ObjectStrategy
    ensures !f.noSpecializedStorage ==> a.strategy.cls == StrategyFor(items)
  {
    a := new ArrayObject(f, items);
    ClassifyTopaz(f.strategies, items);
  }

  // ---------------- `__deepcopy__` ----------------

  /** `insert` as written of no values into an empty array: the
      EmptyStrategy instance hands the empty list to `cannot_handle_insert`,
      which raises IndexError and leaves the array empty. */
  method EmptyInsertAsWritten() returns (a: ArrayObject, st: Status)
    ensures a.Valid() && a.Contents() == []
    ensures st == Raised(IndexError)
  {
    var f := NewFactory();
    a := NewArray(f, []);
    assert a.strategy.Rep() == EmptyRep;
    st := a.strategy.InsertAsWritten(0, []);
  }

  /** `__deepcopy__` as written, on `[1]`: the copied IntStrategy keeps the
      original array as its host, so storing a Float into the copy installs
      the escalated ObjectStrategy in the ORIGINAL array, which then reads
      `[Float(0)]`, while the copy never sees its own store. */
  method DeepCopyAliasing() returns (a: ArrayObject, b: ArrayObject)
    ensures a.Valid() && a.Contents() == [Float(0)]
    ensures b.strategy.arr == a && b.strategy.arr != b
  {
    var f := NewFactory();
    a := NewArray(f, [Fixnum(1)]);
    assert StrategyFor([Fixnum(1)]) == IntStrategy;
    b := new ArrayObject.CopyOfAsWritten(a);
    assert b.strategy.StoreEscalates(0, Float(0));
    var st := b.strategy.Store(0, Float(0));
  }

  /** `__deepcopy__` with the copied strategy bound to the copy: the same
      store escalates the copy alone and leaves the original intact. */
  method DeepCopyIndependent() returns (a: ArrayObject, b: ArrayObject)
    ensures a.Valid() && a.Contents() == [Fixnum(1)]
    ensures b.Valid() && b.Contents() == [Float(0)]
  {
    var f := NewFactory();
    a := NewArray(f, [Fixnum(1)]);
    assert StrategyFor([Fixnum(1)]) == IntStrategy;
    b := new ArrayObject.CopyOf(a);
    var st := b.strategy.Store(0, Float(0));
  }
}
