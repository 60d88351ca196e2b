/** What binding an instance keeps: new, nested, rebound or the root. */
module ReplicaBinds {
  import opened Wrappers
  import opened Wire
  import opened StateTypes
  import opened OpCodec
  import opened Containers
  import opened Replica
  import opened ReplicaProofs
  import opened ReplicaOps

  // --------------------------------------------------------------- the block

  lemma CountStep(types: seq<StateType>)
    requires types != []
    ensures CollectionCount(types) == (if types[0].IsCollection() then 1 else 0) + CollectionCount(types[1..])
  {
  }

  /** A refId outside the block keeps its meaning; one inside leads to a mapped collection of `id`. */
  lemma {:induction false} BlockRefs(colls: map<Place, Coll>, nested: map<Place, Id>, refs: map<int, Denoted>,
                                     ignored: set<int>, id: Id,
                                     types: seq<StateType>, local: seq<int>, next: int, k: int)
    requires |types| == |local|
    ensures var after := BindCollections(colls, nested, refs, ignored, id, types, local, next).0;
            && (!(next <= k < next + CollectionCount(types)) ==>
                  (k in after <==> k in refs) && (k in refs ==> after[k] == refs[k]))
            && (next <= k < next + CollectionCount(types) && k in after ==>
                  after[k].CollAt? && after[k].place.0 == id && (after[k].place.1 as int) in local
                      && after[k].place in colls)
    decreases |types|
  {
    hide CollectionCount;
    if types == [] {
      assert CollectionCount([]) == 0 by { NoTypes(); }
    } else {
      CountStep(types);
      if !types[0].IsCollection() {
        BlockRefs(colls, nested, refs, ignored, id, types[1..], local[1..], next, k);
      } else if local[0] >= 0 && (id, local[0] as nat) in colls && (id, local[0] as nat) !in nested {
        BlockRefs(colls, nested, refs[next := CollAt((id, local[0]))], ignored - {next}, id, types[1..], local[1..],
                  next + 1, k);
      } else {
        BlockRefs(colls, nested, refs - {next}, ignored + {next}, id, types[1..], local[1..], next + 1, k);
      }
    }
  }

  lemma NoTypes()
    ensures CollectionCount([]) == 0
  {
  }

  // ---------------------------------------------------------- the bound state

  /** The refs once the old block, if any, is forgotten. */
  function Detached(st: State, id: Id, refId: int): State {
    if Rebinds(st, id, refId) then Unregister(st, st.refOf[id], st.bindingOf[id].types) else st
  }

  /** What the rebound instance's collections held, to be released. */
  function Dropped(st: State, id: Id, refId: int): seq<Slot> {
    if Rebinds(st, id, refId) then HeldSlots(st, id, st.bindingOf[id].local) else []
  }

  /** The state after a bind, with count `h` for the instance. */
  function BoundAs(st: State, id: Id, types: seq<StateType>, local: seq<int>, refId: int, h: int): State
    requires |types| == |local|
  {
    var st0 := Detached(st, id, refId);
    var (refs, ignored) := BindCollections(
      st.colls, st.nested, st0.refs[refId := Inst(id)], st0.ignored - {refId}, id, types, local, refId + 1);
    var (holders, emptied) := ReleaseIn(st.holders, Dropped(st, id, refId));
    st.(refs := refs, ignored := ignored, refOf := st.refOf[id := refId],
        bindingOf := st.bindingOf[id := Bound(types, local)],
        holders := holders[id := h], released := st.released + emptied,
        colls := ResetColls(st.colls, id), rootBound := true)
  }

  /** `id` may be bound: not registered, or nested and registered under another refId. */
  ghost predicate Bindable(st: State, id: Id, refId: int) {
    && id in st.classOf
    && (id in st.refOf ==> id in st.parent && st.refOf[id] != refId)
  }

  // -------------------------------------------------------------------- refs

  /** After detaching, no refId leads to `id` or its collections. */
  lemma DetachedRefs(st: State, id: Id, refId: int, k: int)
    requires Registered(st) && RefsShape(st) && Bindable(st, id, refId)
    requires k in Detached(st, id, refId).refs
    ensures k in st.refs && Detached(st, id, refId).refs[k] == st.refs[k]
    ensures st.refs[k].Inst? ==> st.refs[k].id != id
    ensures st.refs[k].CollAt? ==> st.refs[k].place.0 != id
  {
    hide Distinct, CollectionCount, Held;
    if id in st.refOf {
      var n := CollectionCount(st.bindingOf[id].types);
      assert k !in Span(st.refOf[id], n + 1);
      assert !Within(st.refOf[id], k, n + 1);
    }
  }

  lemma BoundRefs(st: State, id: Id, types: seq<StateType>, local: seq<int>, refId: int, h: int)
    requires Registered(st) && RefsShape(st) && Bindable(st, id, refId) && |types| == |local|
    ensures RefsShape(BoundAs(st, id, types, local, refId, h))
  {
    hide Held, Distinct, CollectionCount, BindCollections, ReleaseIn, Detached, RefsShape, Registered, Dropped;
    var st0, st' := Detached(st, id, refId), BoundAs(st, id, types, local, refId, h);
    forall k | k in st'.refs
      ensures st'.refs[k].Inst? ==> st'.refs[k].id in st'.refOf && st'.refOf[st'.refs[k].id] == k
      ensures st'.refs[k].CollAt? ==>
                var p := st'.refs[k].place;
                && p in st'.colls && p.0 in st'.refOf && p.0 in st'.bindingOf && InSpan(st', p.0, k)
                && (p.1 as int) in st'.bindingOf[p.0].local
    {
      DetachedColls(st, id, refId);
      BlockRefs(st.colls, st.nested, st0.refs[refId := Inst(id)], st0.ignored - {refId}, id, types, local, refId + 1,
                k);
      if k != refId && !(refId + 1 <= k < refId + 1 + CollectionCount(types)) {
        DetachedRefs(st, id, refId, k);
        RefsAt(st, k);
      }
    }
    RefsFrom(st');
  }

  lemma DetachedColls(st: State, id: Id, refId: int)
    ensures Detached(st, id, refId).colls == st.colls
  {
  }

  lemma RefsAt(st: State, k: int)
    requires RefsShape(st) && k in st.refs
    ensures st.refs[k].Inst? ==> st.refs[k].id in st.refOf && st.refOf[st.refs[k].id] == k
    ensures st.refs[k].CollAt? ==>
              var p := st.refs[k].place;
              && p in st.colls && p.0 in st.refOf && p.0 in st.bindingOf && InSpan(st, p.0, k)
              && (p.1 as int) in st.bindingOf[p.0].local
  {
  }

  lemma RefsFrom(st: State)
    requires forall k :: k in st.refs && st.refs[k].Inst? ==>
               st.refs[k].id in st.refOf && st.refOf[st.refs[k].id] == k
    requires forall k :: k in st.refs && st.refs[k].CollAt? ==>
               var p := st.refs[k].place;
               && p in st.colls && p.0 in st.refOf && p.0 in st.bindingOf && InSpan(st, p.0, k)
               && (p.1 as int) in st.bindingOf[p.0].local
    ensures RefsShape(st)
  {
  }

  // ------------------------------------------------------------------- shape

  lemma EmptyHeld(of: StateType)
    ensures Held(EmptyOf(of)) == multiset{}
  {
  }

  lemma ResetAt(colls: map<Place, Coll>, id: Id, p: Place)
    requires p in colls
    ensures p in ResetColls(colls, id)
    ensures p.0 == id ==> Held(ResetColls(colls, id)[p].contents) == multiset{}
    ensures p.0 != id ==> ResetColls(colls, id)[p] == colls[p]
  {
    hide Held;
    EmptyHeld(colls[p].of);
  }

  lemma BoundGraph(st: State, st': State, id: Id)
    requires GraphShape(st) && st'.colls == ResetColls(st.colls, id)
    requires st'.root == st.root && st'.classOf == st.classOf && st'.nested == st.nested && st'.parent == st.parent
    ensures GraphShape(st')
  {
    hide Held;
    forall p | p in st'.colls
      ensures p in st.colls && forall y :: y in Held(st'.colls[p].contents) ==> y in Held(st.colls[p].contents)
    {
      ResetAt(st.colls, id, p);
    }
  }

  /** The new binding still maps every nested field that holds a registered instance. */
  ghost predicate KeepsNested(st: State, id: Id, local: seq<int>) {
    forall y :: y in st.refOf && y in st.parent && st.parent[y].0 == id ==> (st.parent[y].1 as int) in local
  }

  /** A nested instance is bound through a mapped field of its registered parent. */
  ghost predicate ViaParent(st: State, id: Id) {
    id in st.parent ==>
      && st.parent[id].0 in st.refOf && st.parent[id].0 in st.bindingOf && st.parent[id].0 != id
      && (st.parent[id].1 as int) in st.bindingOf[st.parent[id].0].local
  }

  lemma BoundMapped(st: State, st': State, id: Id, bound: Bound)
    requires Mapped(st) && KeepsNested(st, id, bound.local) && ViaParent(st, id)
    requires st'.colls == ResetColls(st.colls, id) && st'.parent == st.parent
    requires st'.refOf.Keys == st.refOf.Keys + {id} && st'.bindingOf == st.bindingOf[id := bound]
    ensures Mapped(st')
  {
    hide Held;
    forall p | p in st'.colls && p.0 in st'.bindingOf && (p.1 as int) !in st'.bindingOf[p.0].local
      ensures Held(st'.colls[p].contents) == multiset{}
    {
      ResetAt(st.colls, id, p);
    }
  }

  /** `h` is the right count for a bound instance that nothing has placed yet. */
  ghost predicate RightCount(st: State, id: Id, h: int) {
    if id == st.root then h == FOREVER else h == if id in st.parent then 1 else 0
  }

  /** What a caller of `BindInstance` guarantees. */
  ghost predicate BindReady(st: State, id: Id, types: seq<StateType>, local: seq<int>, refId: int, h: int) {
    && Bindable(st, id, refId) && |types| == |local| && Distinct(local) && RightCount(st, id, h)
    && KeepsNested(st, id, local) && ViaParent(st, id) && (st.rootBound || id == st.root)
    && (forall p :: p in st.colls ==> id !in Held(st.colls[p].contents))
  }

  lemma {:induction false} HeldSlotsCount(st: State, id: Id, local: seq<int>, y: Id)
    requires GraphShape(st) && Distinct(local)
    ensures multiset(Ids(HeldSlots(st, id, local)))[y] == Slots(st.colls, OwnedAt(st, id, local), y)
    decreases |local|
  {
    hide Held, Slots, Ids, HeldSlots;
    HeldSlotsStep(st, id, local);
    if local == [] {
      assert OwnedAt(st, id, local) == {};
      SlotsZero(st.colls, {}, y);
      IdsNone();
    } else {
      var l, rest := local[0], local[1..];
      assert Distinct(rest) && local == [l] + rest;
      HeldSlotsCount(st, id, rest, y);
      if l >= 0 && (id, l as nat) in st.colls {
        var p := (id, l as nat);
        assert OwnedAt(st, id, local) - {p} == OwnedAt(st, id, rest);
        SlotsRemove(st.colls, OwnedAt(st, id, local), y, p);
        HeldIs(st.colls[p].contents);
        IdsAppend(SlotsOf(st.colls[p].contents), HeldSlots(st, id, rest));
      } else {
        assert OwnedAt(st, id, local) == OwnedAt(st, id, rest);
        assert [] + HeldSlots(st, id, rest) == HeldSlots(st, id, rest);
      }
    }
  }

  lemma HeldSlotsStep(st: State, id: Id, local: seq<int>)
    requires GraphShape(st)
    ensures local == [] ==> HeldSlots(st, id, local) == []
    ensures local != [] ==>
              HeldSlots(st, id, local) ==
              (if local[0] >= 0 && (id, local[0] as nat) in st.colls
               then SlotsOf(st.colls[(id, local[0] as nat)].contents) else [])
              + HeldSlots(st, id, local[1..])
  {
    hide Held, SlotsOf;
  }

  /** What a rebind releases is what the instance's collections held. */
  lemma DroppedCount(st: State, id: Id, refId: int, y: Id)
    requires Shape(st) && Bindable(st, id, refId)
    ensures multiset(Ids(Dropped(st, id, refId)))[y] ==
            if id in st.refOf then Slots(st.colls, Owned(st, id), y) else 0
  {
    hide Held, Slots, Ids, HeldSlots, RefsShape, GraphShape;
    if id in st.refOf {
      var local := st.bindingOf[id].local;
      HeldSlotsCount(st, id, local, y);
      var others := Owned(st, id) - OwnedAt(st, id, local);
      SlotsUnion(st.colls, OwnedAt(st, id, local), others, y);
      assert OwnedAt(st, id, local) + others == Owned(st, id);
      SlotsZero(st.colls, others, y);
    } else {
      IdsNone();
    }
  }

  lemma DroppedReleasable(st: State, id: Id, refId: int)
    requires OpInv(st, {}) && Bindable(st, id, refId)
    ensures Releasable(st.holders, Dropped(st, id, refId))
    ensures forall y :: y in multiset(Ids(Dropped(st, id, refId))) ==>
              y in st.holders && y != st.root && y !in st.parent
  {
    hide Held, Ids, RefsShape, Mapped, Exact, ZerosIn, Slots, ClassesShape, Family, HeldSlots, Dropped, Count;
    forall y | y in multiset(Ids(Dropped(st, id, refId)))
      ensures y in st.holders && st.holders[y] < FOREVER && y != st.root && y !in st.parent
    {
      DroppedCount(st, id, refId, y);
      SlotsZero(st.colls, Owned(st, id), y);
      var p :| p in Owned(st, id) && Held(st.colls[p].contents)[y] != 0;
      assert p in Live(st);
      HeldOrdinary(st, p, y);
    }
    ReleasableOut(st.holders, Dropped(st, id, refId));
  }

  // ------------------------------------------------------------------ counts

  /** Binding empties the instance's own collections and registers it; nothing else is counted anew. */
  lemma BoundCount(st: State, st': State, id: Id, refId: int, y: Id)
    requires Shape(st) && Family(st) && Bindable(st, id, refId)
    requires st'.colls == ResetColls(st.colls, id) && st'.parent == st.parent
    requires st'.refOf == st.refOf[id := refId]
    requires y in st.refOf && y != id
    ensures Count(st', y) == Count(st, y) - multiset(Ids(Dropped(st, id, refId)))[y]
  {
    hide Held, Slots, Ids, RefsShape, GraphShape, Mapped, Dropped, ResetColls;
    DroppedCount(st, id, refId, y);
    var own, others := Owned(st, id), Live(st) - Owned(st, id);
    ResetSlots(st.colls, own, others, id, y);
    assert Live(st') == others + own;
    SlotsUnion(st'.colls, others, own, y);
    if id in st.refOf {
      assert Live(st) == others + own;
      SlotsUnion(st.colls, others, own, y);
    } else {
      assert Live(st) == others;
    }
  }

  lemma ResetSlots(colls: map<Place, Coll>, own: set<Place>, others: set<Place>, id: Id, y: Id)
    requires own <= colls.Keys && others <= colls.Keys
    requires (forall p :: p in own ==> p.0 == id) && (forall p :: p in others ==> p.0 != id)
    ensures own <= ResetColls(colls, id).Keys && others <= ResetColls(colls, id).Keys
    ensures ResetColls(colls, id).Keys == colls.Keys
    ensures Slots(ResetColls(colls, id), own, y) == 0
    ensures Slots(ResetColls(colls, id), others, y) == Slots(colls, others, y)
  {
    hide Held, Slots;
    var colls' := ResetColls(colls, id);
    assert colls'.Keys == colls.Keys;
    forall p | p in own
      ensures Held(colls'[p].contents)[y] == 0
    {
      ResetAt(colls, id, p);
    }
    SlotsZero(colls', own, y);
    SlotsFrame(colls, colls', others, y);
  }

  lemma BoundOwnCount(st: State, st': State, id: Id, refId: int)
    requires Bindable(st, id, refId) && ViaParent(st, id)
    requires forall p :: p in st.colls ==> id !in Held(st.colls[p].contents)
    requires st'.colls == ResetColls(st.colls, id) && st'.parent == st.parent && st'.refOf == st.refOf[id := refId]
    ensures Count(st', id) == if id in st.parent then 1 else 0
  {
    hide Held, Slots;
    forall p | p in Live(st')
      ensures Held(st'.colls[p].contents)[id] == 0
    {
      ResetAt(st.colls, id, p);
    }
    SlotsZero(st'.colls, Live(st'), id);
  }

  lemma BoundShape(st: State, id: Id, types: seq<StateType>, local: seq<int>, refId: int, h: int)
    requires OpInv(st, {}) && BindReady(st, id, types, local, refId, h)
    ensures Shape(BoundAs(st, id, types, local, refId, h))
  {
    hide Held, Ids, GraphShape, RefsShape, Mapped, ReleaseIn, Releasable, BindCollections, Dropped, KeepsNested,
         ViaParent;
    hide Exact, ZerosIn, ElementsRegistered, ClassesShape, Family, Bounded, Detached, ResetColls;
    var st' := BoundAs(st, id, types, local, refId, h);
    DroppedReleasable(st, id, refId);
    ReleaseCounts(st.holders, Dropped(st, id, refId));
    BoundRefs(st, id, types, local, refId, h);
    BoundGraph(st, st', id);
    BoundMapped(st, st', id, Bound(types, local));
  }

  lemma BoundElements(st: State, id: Id, types: seq<StateType>, local: seq<int>, refId: int, h: int)
    requires OpInv(st, {}) && BindReady(st, id, types, local, refId, h)
    ensures ElementsRegistered(BoundAs(st, id, types, local, refId, h))
  {
    hide Held, ReleaseIn, BindCollections, Dropped, Detached, Shape, Exact, ZerosIn, Family, Bounded, ResetColls;
    var st' := BoundAs(st, id, types, local, refId, h);
    forall p, y | p in Live(st') && y in Held(st'.colls[p].contents)
      ensures y in st'.refOf
    {
      assert p in st.colls by { ResetSlots(st.colls, {}, {}, id, y); }
      ResetAt(st.colls, id, p);
      assert p in Live(st);
    }
  }

  /** Exempt from having a holder: an instance just made, not placed yet. */
  ghost function Unplaced(st: State, id: Id): set<Id> {
    if id == st.root || id in st.parent then {} else {id}
  }

  lemma BoundHolders(st: State, id: Id, types: seq<StateType>, local: seq<int>, refId: int, h: int)
    requires OpInv(st, {}) && BindReady(st, id, types, local, refId, h)
    ensures var st' := BoundAs(st, id, types, local, refId, h);
            Exact(st', multiset{}) && ZerosIn(st', SetOf(st'.released) + Unplaced(st, id))
            && Bounded(st') && Ordinary(st'.root, st'.released)
  {
    hide Held, Ids, Slots, Shape, ElementsRegistered, ReleaseIn, Releasable, BindCollections, Dropped, Detached;
    hide Count, SetOf, ClassesShape, KeepsNested, ViaParent, ResetColls;
    var out := Dropped(st, id, refId);
    DroppedReleasable(st, id, refId);
    ReleaseCounts(st.holders, out);
    ReleaseEmptied(st.holders, out);
    var st' := BoundAs(st, id, types, local, refId, h);
    forall y | y in st'.refOf && y != st'.root && y in st'.holders
      ensures st'.holders[y] == Count(st', y)
    {
      if y == id {
        BoundOwnCount(st, st', id, refId);
      } else {
        BoundCount(st, st', id, refId, y);
      }
    }
    SetOfAppend(st.released, ReleaseIn(st.holders, out).1);
    forall y | y in st'.holders && y != st'.root && st'.holders[y] <= 0
      ensures y in SetOf(st'.released) + Unplaced(st, id)
    {
      if y != id && st'.holders[y] != st.holders[y] {
        ReleaseZeros(st.holders, out, y);
        InSetOf(ReleaseIn(st.holders, out).1, y);
      }
    }
  }

  /** Binding keeps the invariant; a new instance waits for its place. */
  lemma BoundKeeps(st: State, id: Id, types: seq<StateType>, local: seq<int>, refId: int, h: int)
    requires OpInv(st, {}) && BindReady(st, id, types, local, refId, h)
    ensures OpInv(BoundAs(st, id, types, local, refId, h), Unplaced(st, id))
  {
    hide Held, Ids, Shape, ElementsRegistered, Exact, ZerosIn, Bounded, Ordinary, ReleaseIn, SetOf, BindCollections;
    hide Dropped, Detached, KeepsNested, Unplaced, ResetColls, Distinct;
    BoundShape(st, id, types, local, refId, h);
    BoundElements(st, id, types, local, refId, h);
    BoundHolders(st, id, types, local, refId, h);
  }
}
