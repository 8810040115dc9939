/** The strategy classes of the engine and their generalization lattice.

    A strategy class is a representation (what its instances store and which
    values they accept), an indexing policy, and the list of more general
    classes it escalates to.  The classes form a table in definition order.
    With the `strategy` decorator a class can only name classes defined
    before it, so a generalization has a smaller index than the class naming
    it (`EdgesOrdered`); `decorate_strategies` applies the decorator once
    every class exists, so its tables may name any class, cycles included. */
module Lattice {
  import opened Values

  /** The concrete representations of rstrategies.py. */
  datatype Representation =
    | EmptyRep                                  // holds nothing, accepts nothing
    | SingleValueRep(constant: Value)           // a run of one constant value
    | GenericRep(default: Value)                // boxed slots, accepts everything
    | WeakGenericRep(default: Value)            // weak slots, accepts everything
    | SingleTypeRep(contained: ValueType, defaultPrim: int)
    | TaggingRep(contained: ValueType, tagged: Value, sentinel: int, defaultPrim: int)

  /** A slot of a backing storage list. */
  datatype Slot =
    | Boxed(v: Value)                  // GenericStrategy: the object itself
    | Prim(p: int)                     // SingleTypeStrategy, TaggingStrategy: unboxed
    | WeakRef(referent: Option<Value>) // WeakGenericStrategy: None once collected

  datatype StrategyClass = StrategyClass(
    rep: Representation,
    checked: bool,          // SafeIndexingMixin (true) or UnsafeIndexingMixin (false)
    generalize: seq<nat>)   // the classes given to the `strategy` decorator

  predicate ValidRep(rep: Representation) {
    match rep
    case SingleTypeRep(t, _) => Unboxable(t)
    case TaggingRep(t, _, _, _) => Unboxable(t)
    case _ => true
  }

  /** Representations backed by a storage list (StrategyWithStorage). */
  predicate HasStorage(rep: Representation) {
    !rep.EmptyRep? && !rep.SingleValueRep?
  }

  /** `check_can_handle` of each representation. */
  predicate Handles(rep: Representation, v: Value) {
    match rep
    case EmptyRep => false
    case SingleValueRep(c) => v == c
    case GenericRep(_) => true
    case WeakGenericRep(_) => true
    case SingleTypeRep(t, _) => TypeOf(v) == t
    case TaggingRep(t, tagged, sentinel, _) =>
      v == tagged || (TypeOf(v) == t && Unboxable(t) && Unbox(v) != sentinel)
  }

  /** Representations whose `check_can_handle` is constantly true. */
  predicate CatchAll(rep: Representation) {
    rep.GenericRep? || rep.WeakGenericRep?
  }

  /** `_unwrap`: the slot a storage representation keeps for a value. */
  function Unwrap(rep: Representation, v: Value): Slot {
    match rep
    case WeakGenericRep(_) => WeakRef(Some(v))
    case SingleTypeRep(t, _) =>
      if TypeOf(v) == t && Unboxable(t) then Prim(Unbox(v)) else Prim(0)
    case TaggingRep(t, tagged, sentinel, _) =>
      if v == tagged then Prim(sentinel)
      else if TypeOf(v) == t && Unboxable(t) then Prim(Unbox(v)) else Prim(0)
    case _ => Boxed(v)
  }

  /** `_wrap`: the value a slot reads as. */
  function Wrap(rep: Representation, s: Slot): Value {
    match rep
    case GenericRep(d) => if s.Boxed? then s.v else d
    case WeakGenericRep(d) =>
      if s.WeakRef? && s.referent.Some? then s.referent.value else d
    case SingleTypeRep(t, _) =>
      if s.Prim? && Unboxable(t) then Box(t, s.p) else Nil
    case TaggingRep(t, tagged, sentinel, _) =>
      if s.Prim? && s.p == sentinel then tagged
      else if s.Prim? && Unboxable(t) then Box(t, s.p) else Nil
    case _ => Nil
  }

  /** The slot shape a storage representation keeps. */
  predicate SlotFits(rep: Representation, s: Slot) {
    match rep
    case GenericRep(_) => s.Boxed?
    case WeakGenericRep(_) => s.WeakRef?
    case SingleTypeRep(_, _) => s.Prim?
    case TaggingRep(_, _, _, _) => s.Prim?
    case _ => false
  }

  /** `default_value()` of a storage representation. */
  function DefaultValue(rep: Representation): Value
    requires ValidRep(rep)
  {
    match rep
    case GenericRep(d) => d
    case WeakGenericRep(d) => d
    case SingleTypeRep(t, d) => Box(t, d)
    case TaggingRep(t, _, _, d) => Box(t, d)
    case _ => Nil
  }

  /** What a slot filled by `init_strategy` reads as. */
  function Filler(rep: Representation): Value
    requires ValidRep(rep)
  {
    Wrap(rep, Unwrap(rep, DefaultValue(rep)))
  }

  /** For every value a storage representation accepts, `_wrap(_unwrap(v))`
      gives the value back. */
  lemma WrapUnwrap(rep: Representation, v: Value)
    requires ValidRep(rep) && HasStorage(rep) && Handles(rep, v)
    ensures SlotFits(rep, Unwrap(rep, v))
    ensures Wrap(rep, Unwrap(rep, v)) == v
  {
    match rep
    case SingleTypeRep(t, _) => BoxUnbox(v);
    case TaggingRep(t, tagged, sentinel, _) =>
      if v != tagged { BoxUnbox(v); }
    case _ =>
  }

  /** Whatever a well-shaped slot reads as is accepted by its representation,
      so an instance only ever holds values its class accepts. */
  lemma WrapHandled(rep: Representation, s: Slot)
    requires ValidRep(rep) && SlotFits(rep, s)
    ensures Handles(rep, Wrap(rep, s))
  {
  }

  /** A tagging representation refuses a real primitive whose unboxed form
      collides with the sentinel, and accepts the tagged object. */
  lemma TaggingDisambiguates(t: ValueType, tagged: Value, sentinel: int, d: int, v: Value)
    requires Unboxable(t)
    ensures Handles(TaggingRep(t, tagged, sentinel, d), tagged)
    ensures v != tagged && TypeOf(v) == t && Unbox(v) == sentinel ==>
              !Handles(TaggingRep(t, tagged, sentinel, d), v)
    ensures Wrap(TaggingRep(t, tagged, sentinel, d), Prim(sentinel)) == tagged
  {
  }

  lemma CatchAllHandles(rep: Representation, v: Value)
    requires CatchAll(rep)
    ensures Handles(rep, v)
  {
  }

  // ---------------- The lattice ----------------

  /** Every class named as a generalization is registered and was defined
      before the class naming it. */
  ghost predicate EdgesOrdered(classes: seq<StrategyClass>) {
    forall c, k :: 0 <= c < |classes| && 0 <= k < |classes[c].generalize| ==>
      classes[c].generalize[k] < c
  }

  /** The `k`-th generalization of class `c` accepts `v` if `c` does. */
  ghost predicate SubsumesAt(classes: seq<StrategyClass>, c: nat, k: nat, v: Value)
    requires EdgesOrdered(classes) && c < |classes| && k < |classes[c].generalize|
  {
    Handles(classes[c].rep, v) ==> Handles(classes[classes[c].generalize[k]].rep, v)
  }

  /** A generalization accepts every value its specialization accepts. */
  ghost predicate Subsumes(classes: seq<StrategyClass>)
    requires EdgesOrdered(classes)
  {
    forall c: nat, k: nat, v :: c < |classes| && k < |classes[c].generalize| ==>
      SubsumesAt(classes, c, k, v)
  }

  /** The position in `gs` of the first class accepting `v`. */
  function FirstAccepting(classes: seq<StrategyClass>, gs: seq<nat>, v: Value): (r: Option<nat>)
    ensures r.Some? ==> r.value < |gs| && gs[r.value] < |classes| &&
                        Handles(classes[gs[r.value]].rep, v)
    ensures r.Some? ==> forall j :: 0 <= j < r.value ==>
                          !(gs[j] < |classes| && Handles(classes[gs[j]].rep, v))
    ensures r.None? ==> forall j :: 0 <= j < |gs| ==>
                          !(gs[j] < |classes| && Handles(classes[gs[j]].rep, v))
  {
    if gs == [] then None
    else if gs[0] < |classes| && Handles(classes[gs[0]].rep, v) then Some(0)
    else match FirstAccepting(classes, gs[1..], v)
      case None => None
      case Some(k) => Some(k + 1)
  }

  /** `generalized_strategy_for(value)`: the first declared generalization of
      class `c` whose instance accepts `v`; a ConfigurationError if none does
      (a class without generalizations has no such method at all). */
  function GeneralizedStrategyFor(classes: seq<StrategyClass>, c: nat, v: Value): (r: Result<nat>)
    requires c < |classes|
    ensures r.Ok? ==> r.value in classes[c].generalize && r.value < |classes| &&
                      Handles(classes[r.value].rep, v)
    ensures r.Ok? ==> exists k :: 0 <= k < |classes[c].generalize| &&
                        classes[c].generalize[k] == r.value &&
                        forall j :: 0 <= j < k ==>
                          !(classes[c].generalize[j] < |classes| &&
                            Handles(classes[classes[c].generalize[j]].rep, v))
    ensures r.Err? ==> r.error == ConfigurationError &&
                       forall g :: g in classes[c].generalize && g < |classes| ==>
                         !Handles(classes[g].rep, v)
  {
    match FirstAccepting(classes, classes[c].generalize, v)
    case Some(k) => Ok(classes[c].generalize[k])
    case None => Err(ConfigurationError)
  }

  /** Escalation never dead-ends: a value a class refuses is accepted by one of
      its generalizations. */
  ghost predicate NoDeadEnd(classes: seq<StrategyClass>)
    requires EdgesOrdered(classes)
  {
    forall c: nat, v :: c < |classes| ==> NoDeadEndAt(classes, c, v)
  }

  /** Class `c` refuses `v` only if one of its generalizations accepts it. */
  ghost predicate NoDeadEndAt(classes: seq<StrategyClass>, c: nat, v: Value)
    requires c < |classes|
  {
    !Handles(classes[c].rep, v) ==> FirstAccepting(classes, classes[c].generalize, v).Some?
  }

  ghost predicate WellFormed(classes: seq<StrategyClass>) {
    && (forall c :: 0 <= c < |classes| ==> ValidRep(classes[c].rep))
    && EdgesOrdered(classes)
    && Subsumes(classes)
    && NoDeadEnd(classes)
  }

  /** Two distinct values every storage representation accepts. */
  lemma TwoHandled(rep: Representation) returns (v: Value, w: Value)
    requires ValidRep(rep) && HasStorage(rep)
    ensures v != w && Handles(rep, v) && Handles(rep, w)
  {
    match rep
    case SingleTypeRep(t, _) =>
      v, w := Box(t, 0), Box(t, 1);
    case TaggingRep(t, _, sentinel, _) =>
      v, w := Box(t, sentinel + 1), Box(t, sentinel + 2);
    case _ =>
      v, w := Nil, Fixnum(0);
  }

  /** In a well-formed lattice every generalization of a storage class is a
      storage class: an Empty class accepts nothing and a SingleValue class
      one value, while a storage class accepts at least two. */
  lemma StorageGeneralizesToStorage(classes: seq<StrategyClass>, c: nat, k: nat)
    requires WellFormed(classes) && c < |classes| && HasStorage(classes[c].rep)
    requires k < |classes[c].generalize|
    ensures HasStorage(classes[classes[c].generalize[k]].rep)
  {
    var v, w := TwoHandled(classes[c].rep);
    assert SubsumesAt(classes, c, k, v) && SubsumesAt(classes, c, k, w);
  }

  /** In a well-formed lattice escalation always finds a target, and the
      target is strictly earlier in definition order. */
  lemma EscalationSucceeds(classes: seq<StrategyClass>, c: nat, v: Value)
    requires WellFormed(classes) && c < |classes| && !Handles(classes[c].rep, v)
    ensures GeneralizedStrategyFor(classes, c, v).Ok?
    ensures GeneralizedStrategyFor(classes, c, v).value < c
  {
    assert NoDeadEndAt(classes, c, v);
    var gs := classes[c].generalize;
    var k := FirstAccepting(classes, gs, v).value;
    assert GeneralizedStrategyFor(classes, c, v).value == gs[k];
  }
}
