/** Generalization depth of a strategy class (`order_strategies`).

    The depth of a class is 0 when it has no generalizations and otherwise one
    more than the largest depth of its generalizations.  rstrategies.py
    computes it recursively while looking for cycles with a `visited` set; the
    set it uses is shared by all the calls made for one class, siblings
    included.  `DepthAsWritten` models that; `DepthOnPath` is the same
    traversal with the set holding only the classes on the current path, which
    is what a cycle check needs. */
module Depth {
  import opened Values
  import opened Lattice

  /** Every generalization names a registered class. */
  predicate IndicesValid(classes: seq<StrategyClass>) {
    forall c, k :: 0 <= c < |classes| && 0 <= k < |classes[c].generalize| ==>
      classes[c].generalize[k] < |classes|
  }

  function Universe(n: nat): (u: set<nat>)
    ensures forall i: nat :: i in u <==> i < n
  {
    if n == 0 then {} else Universe(n - 1) + {n - 1}
  }

  lemma SubsetCard(u: set<nat>, a: set<nat>, b: set<nat>)
    requires a <= b
    ensures |u - b| <= |u - a|
  {
    assert u - b <= u - a;
    if u - b != u - a {
      assert |u - a| == |u - b| + |(u - a) - (u - b)|;
    }
  }

  lemma EdgesOrderedIndicesValid(classes: seq<StrategyClass>)
    requires EdgesOrdered(classes)
    ensures IndicesValid(classes)
  {
  }

  // ---------------- The reference definition ----------------

  /** The depth formula, on a table in definition order. */
  function DepthOf(classes: seq<StrategyClass>, c: nat): nat
    requires EdgesOrdered(classes) && c < |classes|
    decreases c, 1
  {
    if classes[c].generalize == [] then 0
    else 1 + MaxDepthOf(classes, c, classes[c].generalize)
  }

  /** The largest depth among the classes `gs`, all defined before `c`. */
  function MaxDepthOf(classes: seq<StrategyClass>, c: nat, gs: seq<nat>): nat
    requires EdgesOrdered(classes) && c < |classes|
    requires forall k :: 0 <= k < |gs| ==> gs[k] < c
    decreases c, 0, |gs|
  {
    if gs == [] then 0
    else Max(DepthOf(classes, gs[0]), MaxDepthOf(classes, c, gs[1..]))
  }

  /** A class is strictly deeper than each of its generalizations, so sorting
      by depth puts every class before the classes it escalates to. */
  lemma {:induction false} DeeperThanGeneralizations(classes: seq<StrategyClass>, c: nat, k: nat)
    requires EdgesOrdered(classes) && c < |classes| && k < |classes[c].generalize|
    ensures DepthOf(classes, classes[c].generalize[k]) < DepthOf(classes, c)
  {
    MaxDepthAtLeast(classes, c, classes[c].generalize, k);
  }

  lemma {:induction false} MaxDepthAtLeast(classes: seq<StrategyClass>, c: nat, gs: seq<nat>, k: nat)
    requires EdgesOrdered(classes) && c < |classes|
    requires forall j :: 0 <= j < |gs| ==> gs[j] < c
    requires k < |gs|
    ensures DepthOf(classes, gs[k]) <= MaxDepthOf(classes, c, gs)
    decreases |gs|
  {
    if k > 0 {
      MaxDepthAtLeast(classes, c, gs[1..], k - 1);
    }
  }

  // ---------------- As written: one visited set for the whole walk ----------------

  /** The outcome of a depth computation and the visited set it leaves. */
  datatype DepthRun = DepthRun(depth: Result<nat>, visited: set<nat>)

  /** `get_generalization_depth(strategy, visited)` as written: a non-leaf
      class is added to the shared set, and meeting it again raises. */
  function DepthAsWritten(classes: seq<StrategyClass>, c: nat, visited: set<nat>): (r: DepthRun)
    requires IndicesValid(classes) && c < |classes|
    requires visited <= Universe(|classes|)
    ensures visited <= r.visited <= Universe(|classes|)
    ensures r.depth.Err? ==> r.depth.error == ConfigurationError
    decreases |Universe(|classes|) - visited|, 0
  {
    if classes[c].generalize == [] then DepthRun(Ok(0), visited)
    else if c in visited then DepthRun(Err(ConfigurationError), visited)
    else
      var r := MaxDepthAsWritten(classes, classes[c].generalize, visited + {c}, 0);
      match r.depth
      case Ok(d) => DepthRun(Ok(d + 1), r.visited)
      case Err(_) => r
  }

  /** The loop over `strategy._generalizations`, threading the shared set. */
  function MaxDepthAsWritten(classes: seq<StrategyClass>, gs: seq<nat>, visited: set<nat>, acc: nat): (r: DepthRun)
    requires IndicesValid(classes)
    requires forall k :: 0 <= k < |gs| ==> gs[k] < |classes|
    requires visited <= Universe(|classes|)
    ensures visited <= r.visited <= Universe(|classes|)
    ensures r.depth.Err? ==> r.depth.error == ConfigurationError
    decreases |Universe(|classes|) - visited|, 1, |gs|
  {
    if gs == [] then DepthRun(Ok(acc), visited)
    else
      var r := DepthAsWritten(classes, gs[0], visited);
      match r.depth
      case Err(_) => r
      case Ok(d) =>
        SubsetCard(Universe(|classes|), visited, r.visited);
        MaxDepthAsWritten(classes, gs[1..], r.visited, Max(acc, d))
  }

  // ---------------- Corrected: the set holds the current path ----------------

  /** The depth walk with per-path cycle detection. */
  function DepthOnPath(classes: seq<StrategyClass>, c: nat, path: set<nat>): (r: Result<nat>)
    requires IndicesValid(classes) && c < |classes|
    requires path <= Universe(|classes|)
    ensures r.Err? ==> r.error == ConfigurationError
    decreases |Universe(|classes|) - path|, 0
  {
    if classes[c].generalize == [] then Ok(0)
    else if c in path then Err(ConfigurationError)
    else
      match MaxDepthOnPath(classes, classes[c].generalize, path + {c}, 0)
      case Ok(d) => Ok(d + 1)
      case Err(e) => Err(e)
  }

  function MaxDepthOnPath(classes: seq<StrategyClass>, gs: seq<nat>, path: set<nat>, acc: nat): (r: Result<nat>)
    requires IndicesValid(classes)
    requires forall k :: 0 <= k < |gs| ==> gs[k] < |classes|
    requires path <= Universe(|classes|)
    ensures r.Err? ==> r.error == ConfigurationError
    decreases |Universe(|classes|) - path|, 1, |gs|
  {
    if gs == [] then Ok(acc)
    else
      match DepthOnPath(classes, gs[0], path)
      case Err(e) => Err(e)
      case Ok(d) => MaxDepthOnPath(classes, gs[1..], path, Max(acc, d))
  }

  /** The corrected sort key of `order_strategies`: the per-path walk from
      an empty path, one walk per class. */
  function GeneralizationDepth(classes: seq<StrategyClass>, c: nat): Result<nat>
    requires IndicesValid(classes) && c < |classes|
  {
    DepthOnPath(classes, c, {})
  }

  /** On a table in definition order the corrected walk never reports a
      cycle and computes the depth formula. */
  lemma {:induction false} DepthOnPathCorrect(classes: seq<StrategyClass>, c: nat, path: set<nat>)
    requires EdgesOrdered(classes) && IndicesValid(classes) && c < |classes|
    requires path <= Universe(|classes|)
    requires forall p :: p in path ==> c < p
    ensures DepthOnPath(classes, c, path) == Ok(DepthOf(classes, c))
    decreases |Universe(|classes|) - path|, 0
  {
    if classes[c].generalize != [] {
      MaxDepthOnPathCorrect(classes, c, classes[c].generalize, path + {c}, 0);
    }
  }

  lemma {:induction false} MaxDepthOnPathCorrect(classes: seq<StrategyClass>, c: nat, gs: seq<nat>, path: set<nat>, acc: nat)
    requires EdgesOrdered(classes) && IndicesValid(classes) && c < |classes|
    requires forall k :: 0 <= k < |gs| ==> gs[k] < c
    requires path <= Universe(|classes|)
    requires forall p :: p in path ==> c <= p
    ensures MaxDepthOnPath(classes, gs, path, acc) == Ok(Max(acc, MaxDepthOf(classes, c, gs)))
    decreases |Universe(|classes|) - path|, 1, |gs|
  {
    if gs != [] {
      DepthOnPathCorrect(classes, gs[0], path);
      MaxDepthOnPathCorrect(classes, c, gs[1..], path, Max(acc, DepthOf(classes, gs[0])));
    }
  }

  /** Whenever the as-written walk succeeds, the corrected walk agrees with
      it: sharing the set can only add false cycle reports. */
  lemma {:induction false} AsWrittenAgrees(classes: seq<StrategyClass>, c: nat, visited: set<nat>, path: set<nat>)
    requires IndicesValid(classes) && c < |classes|
    requires visited <= Universe(|classes|) && path <= visited
    requires DepthAsWritten(classes, c, visited).depth.Ok?
    ensures DepthOnPath(classes, c, path) == DepthAsWritten(classes, c, visited).depth
    decreases |Universe(|classes|) - visited|, 0
  {
    if classes[c].generalize != [] {
      MaxAsWrittenAgrees(classes, classes[c].generalize, visited + {c}, path + {c}, 0);
    }
  }

  lemma {:induction false} MaxAsWrittenAgrees(classes: seq<StrategyClass>, gs: seq<nat>, visited: set<nat>, path: set<nat>, acc: nat)
    requires IndicesValid(classes)
    requires forall k :: 0 <= k < |gs| ==> gs[k] < |classes|
    requires visited <= Universe(|classes|) && path <= visited
    requires MaxDepthAsWritten(classes, gs, visited, acc).depth.Ok?
    ensures MaxDepthOnPath(classes, gs, path, acc) == MaxDepthAsWritten(classes, gs, visited, acc).depth
    decreases |Universe(|classes|) - visited|, 1, |gs|
  {
    if gs != [] {
      var r := DepthAsWritten(classes, gs[0], visited);
      AsWrittenAgrees(classes, gs[0], visited, path);
      SubsetCard(Universe(|classes|), visited, r.visited);
      MaxAsWrittenAgrees(classes, gs[1..], r.visited, path, Max(acc, r.depth.value));
    }
  }

  // ---------------- Cycles are reported ----------------

  /** `w` follows generalization edges from `w[0]`. */
  ghost predicate IsWalk(classes: seq<StrategyClass>, w: seq<nat>) {
    && |w| >= 1
    && (forall i :: 0 <= i < |w| ==> w[i] < |classes|)
    && (forall i :: 0 <= i < |w| - 1 ==> w[i + 1] in classes[w[i]].generalize)
  }

  /** A walk from `w[0]` that comes back to a class it already passed: some
      class reachable from `w[0]` lies on a generalization cycle. */
  ghost predicate ReachesCycle(classes: seq<StrategyClass>, w: seq<nat>) {
    IsWalk(classes, w) && |w| >= 2 && w[|w| - 1] in w[..|w| - 1]
  }

  /** A table built by `decorate_strategies` may hold cycles.  When a class
      reachable from `c` lies on one, both walks report it: the per-path
      walk, and so also `get_generalization_depth` as written, which can
      only report more cycles than it. */
  lemma CycleReported(classes: seq<StrategyClass>, w: seq<nat>)
    requires IndicesValid(classes) && ReachesCycle(classes, w)
    ensures GeneralizationDepth(classes, w[0]) == Err(ConfigurationError)
    ensures DepthAsWritten(classes, w[0], {}).depth == Err(ConfigurationError)
  {
    var last := w[|w| - 1];
    var j :| 0 <= j < |w| - 1 && w[j] == last;
    assert w[j + 1] in classes[w[j]].generalize;
    WalkReported(classes, w, {});
    if DepthAsWritten(classes, w[0], {}).depth.Ok? {
      AsWrittenAgrees(classes, w[0], {}, {});
    }
  }

  /** The walk from `w[0]` with `path` already on the stack meets a class
      that is on the stack by the time the walk reaches it. */
  lemma {:induction false} WalkReported(classes: seq<StrategyClass>, w: seq<nat>, path: set<nat>)
    requires IndicesValid(classes) && IsWalk(classes, w) && path <= Universe(|classes|)
    requires classes[w[|w| - 1]].generalize != []
    requires w[|w| - 1] in path || w[|w| - 1] in w[..|w| - 1]
    ensures DepthOnPath(classes, w[0], path).Err?
    decreases |w|
  {
    if |w| > 1 {
      assert w[1] in classes[w[0]].generalize;
    }
    if w[0] !in path {
      var w' := w[1..];
      assert w[..|w| - 1] == [w[0]] + w'[..|w'| - 1];
      forall i | 0 <= i < |w'| - 1
        ensures w'[i + 1] in classes[w'[i]].generalize
      {
        assert w[i + 1 + 1] in classes[w[i + 1]].generalize;
      }
      WalkReported(classes, w', path + {w[0]});
      var gs := classes[w[0]].generalize;
      var k :| 0 <= k < |gs| && gs[k] == w[1];
      MaxReported(classes, gs, path + {w[0]}, 0, k);
    }
  }

  /** The loop over the generalizations stops at the first one reporting a
      cycle. */
  lemma {:induction false} MaxReported(classes: seq<StrategyClass>, gs: seq<nat>, path: set<nat>, acc: nat, k: nat)
    requires IndicesValid(classes)
    requires forall i :: 0 <= i < |gs| ==> gs[i] < |classes|
    requires path <= Universe(|classes|)
    requires k < |gs| && DepthOnPath(classes, gs[k], path).Err?
    ensures MaxDepthOnPath(classes, gs, path, acc).Err?
    decreases k
  {
    if k > 0 {
      match DepthOnPath(classes, gs[0], path)
      case Err(_) =>
      case Ok(d) => MaxReported(classes, gs[1..], path, Max(acc, d), k - 1);
    }
  }

  // ---------------- The discrepancy, on a concrete lattice ----------------

  /** Five classes: 4 escalates to 2 and 3, both of which escalate to 1,
      which escalates to the leaf 0. */
  function Diamond(): seq<StrategyClass> {
    [ StrategyClass(GenericRep(Nil), false, []),
      StrategyClass(GenericRep(Nil), false, [0]),
      StrategyClass(GenericRep(Nil), false, [1]),
      StrategyClass(GenericRep(Nil), false, [1]),
      StrategyClass(GenericRep(Nil), false, [2, 3]) ]
  }

  lemma DiamondShape()
    ensures EdgesOrdered(Diamond()) && IndicesValid(Diamond())
    ensures Universe(|Diamond()|) == {0, 1, 2, 3, 4}
  {
    assert EdgesOrdered(Diamond());
    assert Universe(5) == Universe(4) + {4};
  }

  /** The walk down the first branch, 2 then 1 then 0, leaves 4, 2 and 1 in
      the shared set. */
  lemma DiamondFirstBranch()
    ensures EdgesOrdered(Diamond()) && IndicesValid(Diamond())
    ensures DepthAsWritten(Diamond(), 2, {4}) == DepthRun(Ok(2), {4, 2, 1})
  {
    DiamondShape();
    var t := Diamond();
    assert [0][1..] == [] && [1][1..] == [];
    assert {4} + {2} == {4, 2} && {4, 2} + {1} == {4, 2, 1};
    assert DepthAsWritten(t, 0, {4, 2, 1}) == DepthRun(Ok(0), {4, 2, 1});
    assert MaxDepthAsWritten(t, [0], {4, 2, 1}, 0) == DepthRun(Ok(0), {4, 2, 1});
    assert DepthAsWritten(t, 1, {4, 2}) == DepthRun(Ok(1), {4, 2, 1});
    assert MaxDepthAsWritten(t, [1], {4, 2}, 0) == DepthRun(Ok(1), {4, 2, 1});
  }

  /** The second branch, 3 then 1, meets class 1 again in the shared set. */
  lemma DiamondSecondBranch()
    ensures EdgesOrdered(Diamond()) && IndicesValid(Diamond())
    ensures MaxDepthAsWritten(Diamond(), [3], {4, 2, 1}, 2).depth == Err(ConfigurationError)
  {
    DiamondShape();
    var t := Diamond();
    assert {4, 2, 1} + {3} == {4, 2, 1, 3};
    assert DepthAsWritten(t, 1, {4, 2, 1, 3}).depth == Err(ConfigurationError);
    assert MaxDepthAsWritten(t, [1], {4, 2, 1, 3}, 0).depth == Err(ConfigurationError);
    assert DepthAsWritten(t, 3, {4, 2, 1}).depth == Err(ConfigurationError);
  }

  /** The shared set reports a cycle for class 4 of an acyclic lattice; the
      per-path walk gives its depth, 3. */
  lemma DiamondReportedAsCycle()
    ensures EdgesOrdered(Diamond()) && IndicesValid(Diamond())
    ensures DepthAsWritten(Diamond(), 4, {}).depth == Err(ConfigurationError)
    ensures DepthOnPath(Diamond(), 4, {}) == Ok(3)
  {
    var t := Diamond();
    DiamondShape();
    DiamondFirstBranch();
    DiamondSecondBranch();
    assert [2, 3][1..] == [3];
    assert MaxDepthAsWritten(t, [2, 3], {4}, 0).depth == Err(ConfigurationError);
    var none: set<nat> := {};
    assert none + {4} == {4};
    assert t[4].generalize == [2, 3];
    DiamondDepths();
    DepthOnPathCorrect(t, 4, {});
  }

  lemma DiamondDepths()
    ensures EdgesOrdered(Diamond())
    ensures DepthOf(Diamond(), 4) == 3
  {
    var t := Diamond();
    assert EdgesOrdered(t);
    assert [0][1..] == [] && [1][1..] == [] && [3][1..] == [] && [2, 3][1..] == [3];
    assert DepthOf(t, 0) == 0;
    assert DepthOf(t, 1) == 1;
    assert DepthOf(t, 2) == 2 && DepthOf(t, 3) == 2;
  }

  /** A genuine cycle is still reported by the per-path walk. */
  lemma SelfLoopReported()
    ensures DepthOnPath([StrategyClass(GenericRep(Nil), false, [0])], 0, {}) == Err(ConfigurationError)
  {
    var t := [StrategyClass(GenericRep(Nil), false, [0])];
    assert DepthOnPath(t, 0, {0}) == Err(ConfigurationError);
  }
}
