/**
 Exact holder counts over whole runs of frames, under what the server
 guarantees of its ops, and what each op does to the collection it names.
 */
module ReplicaFrames {
  import opened Wrappers
  import opened Wire
  import opened StateTypes
  import opened OpCodec
  import opened Containers
  import opened Replica
  import opened ReplicaProofs
  import opened ReplicaOps
  import opened ReplicaBinds

  // -------------------------------------------------------------- small frames

  /** `ignored` and `classes` carry no counts. */
  lemma IgnoredFrame(st: State, ignored: set<int>, exempt: set<Id>)
    requires OpInv(st, exempt)
    ensures OpInv(st.(ignored := ignored), exempt)
  {
    hide GraphShape, RefsShape, Mapped, Held, Distinct, SetOf, Slots;
    var st' := st.(ignored := ignored);
    GraphFrame(st, st');
    RefsFrame(st, st');
    MappedFrame(st, st');
    assert Live(st') == Live(st);
  }

  lemma ClassesFrame(st: State, classes: map<int, Binding>, exempt: set<Id>)
    requires OpInv(st, exempt)
    requires forall c :: c in classes ==> DistinctNames(classes[c].fields)
    ensures OpInv(st.(classes := classes), exempt)
  {
    hide GraphShape, RefsShape, Mapped, Held, Distinct, SetOf, Slots, DistinctNames;
    var st' := st.(classes := classes);
    GraphFrame(st, st');
    RefsFrame(st, st');
    MappedFrame(st, st');
    assert Live(st') == Live(st);
  }

  lemma IgnoreKeeps(st: State, v: Val, exempt: set<Id>)
    requires OpInv(st, exempt) && IgnoreValue(st, v).Some?
    ensures OpInv(IgnoreValue(st, v).value, exempt)
  {
    hide OpInv;
    if v.Ref? && v.refId !in st.refs && v.refId !in st.ignored {
      IgnoredFrame(st, Ignore(st, v.refId, st.classes[v.classId].types).ignored, exempt);
    }
  }

  // ------------------------------------------------------------ mapped fields

  lemma {:induction false} LocalFieldsDistinct(shape: seq<(string, string)>, fields: seq<string>, texts: seq<string>)
    requires DistinctNames(fields) && LocalFields(shape, fields, texts).Some?
    ensures var local := LocalFields(shape, fields, texts).value;
            && Distinct(local)
            && forall i :: 0 <= i < |fields| && local[i] >= 0 ==> local[i] < |shape| && shape[local[i]].0 == fields[i]
    decreases |fields|
  {
    if fields != [] {
      LocalFieldsDistinct(shape, fields[1..], texts[1..]);
      var local, rest := LocalFields(shape, fields, texts).value, LocalFields(shape, fields[1..], texts[1..]).value;
      assert local == [FieldIndex(shape, fields[0])] + rest;
    }
  }

  lemma LocalOfDistinct(st: State, id: Id, binding: Binding)
    requires DistinctNames(binding.fields) && LocalOf(st, id, binding).Some?
    ensures Distinct(LocalOf(st, id, binding).value)
  {
    LocalFieldsDistinct(st.shapes[st.classOf[id]], binding.fields, binding.texts);
  }

  // ------------------------------------------------------- binds as functions

  /** One release, whatever the count: what the rest starts from. */
  ghost function Lowered(holders: map<Id, int>, slot: Slot): map<Id, int> {
    if slot.Plain? || CountOf(holders, slot.id) == FOREVER then holders
    else holders[slot.id := CountOf(holders, slot.id) - 1]
  }

  ghost function EmptiedBy(holders: map<Id, int>, slot: Slot): seq<Id> {
    if slot.Plain? || CountOf(holders, slot.id) == FOREVER || CountOf(holders, slot.id) > 1 then [] else [slot.id]
  }

  lemma ReleaseUnfold(holders: map<Id, int>, slots: seq<Slot>)
    requires slots != []
    ensures ReleaseIn(holders, slots).0 == ReleaseIn(Lowered(holders, slots[0]), slots[1..]).0
    ensures ReleaseIn(holders, slots).1 ==
            EmptiedBy(holders, slots[0]) + ReleaseIn(Lowered(holders, slots[0]), slots[1..]).1
  {
  }

  lemma LoweredOther(holders: map<Id, int>, slot: Slot, id: Id, n: int)
    requires slot != Obj(id)
    ensures Lowered(holders[id := n], slot) == Lowered(holders, slot)[id := n]
    ensures EmptiedBy(holders[id := n], slot) == EmptiedBy(holders, slot)
  {
  }

  /** Releases of other instances leave the count of `id` alone, and do not depend on it. */
  lemma {:induction false} ReleaseOther(holders: map<Id, int>, slots: seq<Slot>, id: Id, n: int)
    requires id !in multiset(Ids(slots))
    ensures ReleaseIn(holders[id := n], slots).0 == ReleaseIn(holders, slots).0[id := n]
    ensures ReleaseIn(holders[id := n], slots).1 == ReleaseIn(holders, slots).1
    decreases |slots|
  {
    if slots == [] {
      ReleaseNothing(holders);
      ReleaseNothing(holders[id := n]);
    } else {
      var first, rest := slots[0], slots[1..];
      assert id !in multiset(Ids(rest)) && first != Obj(id) by {
        IdsStep(slots);
        assert multiset(Ids(slots)) == multiset(SlotIds(Some(first))) + multiset(Ids(rest));
      }
      hide Ids, ReleaseIn, Lowered, EmptiedBy;
      ReleaseUnfold(holders, slots);
      ReleaseUnfold(holders[id := n], slots);
      LoweredOther(holders, first, id, n);
      ReleaseOther(Lowered(holders, first), rest, id, n);
    }
  }

  /** A nested field's SET: bind, then retain. */
  lemma NestedBindIs(st: State, id: Id, binding: Binding, refId: int)
    requires OpInv(st, {}) && Bindable(st, id, refId) && id in st.parent && st.rootBound
             && BindInstance(st, id, binding, refId).Some?
    ensures LocalOf(st, id, binding).Some?
    ensures Retain(BindInstance(st, id, binding, refId).value, Obj(id))
         == BoundAs(st, id, binding.types, LocalOf(st, id, binding).value, refId, 1)
  {
    hide Held, Ids, BindCollections, ReleaseIn, LocalFields, HeldSlots, GraphShape, RefsShape, Mapped, Exact, ZerosIn;
    hide ElementsRegistered, Family, Bounded, ClassesShape, SetOf, ResetColls;
    if id in st.refOf {
      DroppedReleasable(st, id, refId);
      var held := Dropped(st, id, refId);
      ReleaseOther(st.holders, held, id, 0);
      var h: map<Id, int> := ReleaseIn(st.holders, held).0;
      var h0: map<Id, int> := h[id := 0];
      assert h0[id := 1] == h[id := 1];
    } else {
      ReleaseNothing(st.holders);
    }
  }

  lemma ReleaseNothing(holders: map<Id, int>)
    ensures ReleaseIn(holders, []) == (holders, [])
  {
  }

  /** An instance that is not registered yet, with the count it starts from replaced by `h`. */
  lemma FirstBindIs(st: State, id: Id, binding: Binding, refId: int, h: int)
    requires OpInv(st, {}) && id !in st.refOf && BindInstance(st, id, binding, refId).Some?
    ensures LocalOf(st, id, binding).Some?
    ensures var bound := BindInstance(st, id, binding, refId).value;
            bound.(holders := bound.holders[id := h], rootBound := true)
            == BoundAs(st, id, binding.types, LocalOf(st, id, binding).value, refId, h)
    ensures BindInstance(st, id, binding, refId).value.holders == st.holders[id := 0]
    ensures BindInstance(st, id, binding, refId).value.rootBound == st.rootBound
  {
    hide Held, Ids, BindCollections, ReleaseIn, LocalFields, HeldSlots, GraphShape, RefsShape, Mapped, Exact, ZerosIn;
    hide ElementsRegistered, Family, Bounded, ClassesShape, SetOf, ResetColls;
    ReleaseNothing(st.holders);
    assert id !in st.holders;
    assert st.holders[id := 0][id := h] == st.holders[id := h];
    assert st.released + [] == st.released;
  }

  // ------------------------------------------------------------ constructors

  /** What a constructor call makes: fresh instances, nested as a forest, with empty collections. */
  ghost predicate GoodAlloc(st: State, a: Alloc) {
    && a.id in a.classOf && a.id !in a.parent && a.classOf.Keys !! st.classOf.Keys
    && (forall p :: p in a.nested ==> p.0 in a.classOf && a.nested[p] in a.parent && a.parent[a.nested[p]] == p)
    && (forall y :: y in a.parent ==>
          y in a.classOf && a.parent[y] in a.nested && a.nested[a.parent[y]] == y && a.parent[y].0 != y)
    && (forall p :: p in a.colls ==> p.0 in a.classOf && p !in a.nested && Held(a.colls[p].contents) == multiset{})
  }

  lemma AllocNestedAt(st: State, a: Alloc, p: Place)
    requires GraphShape(st) && GoodAlloc(st, a) && p in Allocate(st, a).nested
    ensures var st' := Allocate(st, a);
            p.0 in st'.classOf && st'.nested[p] in st'.parent && st'.parent[st'.nested[p]] == p
  {
    hide Held;
    if p !in a.nested {
      assert st.nested[p] in st.classOf && st.nested[p] !in a.parent;
    }
  }

  lemma AllocParentAt(st: State, a: Alloc, y: Id)
    requires GraphShape(st) && GoodAlloc(st, a) && y in Allocate(st, a).parent
    ensures var st' := Allocate(st, a);
            y in st'.classOf && st'.parent[y] in st'.nested && st'.nested[st'.parent[y]] == y && st'.parent[y].0 != y
  {
    hide Held;
    if y !in a.parent {
      assert st.parent[y].0 in st.classOf && st.parent[y] !in a.nested;
    }
  }

  lemma AllocNested(st: State, a: Alloc)
    requires GraphShape(st) && GoodAlloc(st, a)
    ensures var st' := Allocate(st, a);
            && (forall p :: p in st'.nested ==>
                  p.0 in st'.classOf && st'.nested[p] in st'.parent && st'.parent[st'.nested[p]] == p)
            && (forall y :: y in st'.parent ==>
                  y in st'.classOf && st'.parent[y] in st'.nested && st'.nested[st'.parent[y]] == y
                      && st'.parent[y].0 != y)
  {
    hide GraphShape, GoodAlloc;
    var st' := Allocate(st, a);
    forall p | p in st'.nested
      ensures p.0 in st'.classOf && st'.nested[p] in st'.parent && st'.parent[st'.nested[p]] == p
    {
      AllocNestedAt(st, a, p);
    }
    forall y | y in st'.parent
      ensures y in st'.classOf && st'.parent[y] in st'.nested && st'.nested[st'.parent[y]] == y && st'.parent[y].0 != y
    {
      AllocParentAt(st, a, y);
    }
  }

  lemma AllocColls(st: State, a: Alloc, p: Place)
    requires GraphShape(st) && GoodAlloc(st, a) && p in Allocate(st, a).colls
    ensures var st' := Allocate(st, a);
            && p.0 in st'.classOf && p !in st'.nested
            && forall y :: y in Held(st'.colls[p].contents) ==>
                 y in st'.classOf && y !in st'.parent && y != st'.root && y != a.id
  {
    hide Held;
    if p !in a.colls {
      assert p in st.colls && p.0 in st.classOf;
    } else {
      assert p.0 !in st.classOf;
    }
  }

  lemma AllocRoot(st: State, a: Alloc)
    requires GraphShape(st) && GoodAlloc(st, a)
    ensures var st' := Allocate(st, a); st'.root in st'.classOf && st'.root !in st'.parent
  {
    hide Held;
  }

  lemma GraphFrom(st: State)
    requires st.root in st.classOf && st.root !in st.parent
    requires forall p :: p in st.nested ==>
               p.0 in st.classOf && st.nested[p] in st.parent && st.parent[st.nested[p]] == p
    requires forall y :: y in st.parent ==>
               y in st.classOf && st.parent[y] in st.nested && st.nested[st.parent[y]] == y && st.parent[y].0 != y
    requires forall p :: p in st.colls ==> p.0 in st.classOf && p !in st.nested
    requires forall p, y :: p in st.colls && y in Held(st.colls[p].contents) ==>
               y in st.classOf && y !in st.parent && y != st.root
    ensures GraphShape(st)
  {
    hide Held;
  }

  lemma AllocGraph(st: State, a: Alloc)
    requires GraphShape(st) && GoodAlloc(st, a)
    ensures GraphShape(Allocate(st, a))
    ensures forall p :: p in Allocate(st, a).colls ==> a.id !in Held(Allocate(st, a).colls[p].contents)
  {
    hide Held, GraphShape, GoodAlloc, Allocate;
    AllocNested(st, a);
    AllocRoot(st, a);
    var st' := Allocate(st, a);
    forall p | p in st'.colls
      ensures p.0 in st'.classOf && p !in st'.nested
      ensures forall y :: y in Held(st'.colls[p].contents) ==>
                y in st'.classOf && y !in st'.parent && y != st'.root && y != a.id
    {
      AllocColls(st, a, p);
    }
    GraphFrom(st');
  }

  lemma AllocRefs(st: State, a: Alloc)
    requires RefsShape(st) && GraphShape(st) && GoodAlloc(st, a)
    ensures RefsShape(Allocate(st, a))
  {
    hide Held;
    var st' := Allocate(st, a);
    forall k | k in st'.refs && st'.refs[k].CollAt?
      ensures var p := st'.refs[k].place;
              p in st'.colls && p.0 in st'.refOf && p.0 in st'.bindingOf && InSpan(st', p.0, k)
    {
      assert InSpan(st, st.refs[k].place.0, k);
    }
  }

  lemma AllocApart(st: State, a: Alloc)
    requires Registered(st) && GoodAlloc(st, a)
    ensures forall p :: p in a.colls ==> p.0 !in st.refOf
  {
    hide Held, Distinct;
  }

  lemma AllocLive(st: State, a: Alloc)
    requires GraphShape(st) && Registered(st) && GoodAlloc(st, a)
    ensures Live(Allocate(st, a)) == Live(st) && Live(st) <= st.colls.Keys
    ensures forall p :: p in Live(st) ==> p in Allocate(st, a).colls && Allocate(st, a).colls[p] == st.colls[p]
  {
    hide GraphShape, Registered, GoodAlloc;
    AllocApart(st, a);
  }

  lemma AllocNestedHeld(st: State, a: Alloc, y: Id)
    requires Registered(st) && GoodAlloc(st, a) && y in st.refOf
    ensures NestedHeld(Allocate(st, a), y) == NestedHeld(st, y)
  {
    hide Held, Distinct;
    assert y in st.classOf && y !in a.parent;
  }

  /** Instances made but not registered change no count. */
  lemma AllocCount(st: State, a: Alloc, y: Id)
    requires GraphShape(st) && Registered(st) && GoodAlloc(st, a) && y in st.refOf
    ensures Count(Allocate(st, a), y) == Count(st, y)
  {
    hide Held, Slots, GraphShape, Registered, GoodAlloc, NestedHeld, Live;
    AllocLive(st, a);
    AllocNestedHeld(st, a, y);
    SlotsFrame(st.colls, Allocate(st, a).colls, Live(st), y);
  }

  lemma AllocKeeps(st: State, a: Alloc)
    requires OpInv(st, {}) && GoodAlloc(st, a)
    ensures OpInv(Allocate(st, a), {})
  {
    hide Held, Slots, Distinct, GraphShape, RefsShape, Mapped, ElementsRegistered, Family, SetOf, GoodAlloc, Count;
    var st' := Allocate(st, a);
    AllocGraph(st, a);
    AllocRefs(st, a);
    AllocMapped(st, a);
    AllocElements(st, a);
    forall y | y in st'.refOf && y != st'.root && y in st'.holders
      ensures st'.holders[y] == Count(st', y)
    {
      AllocCount(st, a, y);
    }
    AllocFamily(st, a);
  }

  lemma AllocMapped(st: State, a: Alloc)
    requires Mapped(st) && GraphShape(st) && Registered(st) && GoodAlloc(st, a)
    ensures Mapped(Allocate(st, a))
  {
    hide Held;
  }

  lemma AllocFamily(st: State, a: Alloc)
    requires Family(st) && Registered(st) && GoodAlloc(st, a)
    ensures Family(Allocate(st, a))
  {
    hide Held, Distinct;
  }

  lemma AllocElements(st: State, a: Alloc)
    requires GraphShape(st) && Registered(st) && ElementsRegistered(st) && GoodAlloc(st, a)
    ensures ElementsRegistered(Allocate(st, a))
  {
    hide Held, Distinct;
    var st' := Allocate(st, a);
    forall p, y | p in Live(st') && y in Held(st'.colls[p].contents)
      ensures y in st'.refOf
    {
      assert p.0 in st.classOf && p !in a.colls;
      assert p in Live(st);
    }
  }

  // -------------------------------------------------------------- discipline

  /** What the server guarantees of a value it places: see the ops below. */
  ghost predicate MayPlace(st: State, v: Val, a: Alloc) {
    v.Ref? ==>
      if v.refId in st.refs then st.refs[v.refId].Inst? ==> Placeable(st, Obj(st.refs[v.refId].id))
      else GoodAlloc(st, a)
  }

  /** The object nested in the field a SET names, if there is one here. */
  function NestedAt(st: State, id: Id, key: Val): Option<Id> {
    if id in st.bindingOf && Index(key).Some? && Index(key).value < |st.bindingOf[id].local| then
      var l := st.bindingOf[id].local[Index(key).value];
      if l >= 0 && (id, l) in st.nested then Some(st.nested[(id, l)]) else None
    else None
  }

  /** A nested object rebound keeps mapping what it nests; one server class per local class is enough. */
  ghost predicate MayRebind(st: State, id: Id, key: Val, v: Val) {
    var child := NestedAt(st, id, key);
    && child.Some? && child.value in st.refOf && v.Ref? && v.classId in st.classes
    && LocalOf(st, child.value, st.classes[v.classId]).Some?
    ==> KeepsNested(st, child.value, LocalOf(st, child.value, st.classes[v.classId]).value)
  }

  /**
   What the server guarantees of an op: field names are distinct, nested
   objects and the root are in no collection, constructors make fresh objects.
   */
  ghost predicate Disciplined(st: State, step: Step) {
    match step.op
    case Define(_, _, fields, _) => DistinctNames(fields)
    case Set(target, key, v) =>
      target in st.refs && target !in st.ignored ==>
        (match st.refs[target] case Inst(id) => MayRebind(st, id, key, v) case CollAt(_) => MayPlace(st, v, step.made))
    case Add(target, _, v) => target in st.refs && target !in st.ignored ==> MayPlace(st, v, step.made)
    case AddToSet(target, v) => target in st.refs && target !in st.ignored ==> MayPlace(st, v, step.made)
    case Remove(_, _) => true
    case Clear(_) => true
  }

  /** `id` is mapped as an instance of the server class `b`. */
  ghost predicate MappedAs(st: State, id: Id, b: Binding) {
    id in st.bindingOf && LocalOf(st, id, b) == Some(st.bindingOf[id].local)
  }

  /** Binding records the class, for this instance and no other. */
  lemma BindRecords(st: State, id: Id, b: Binding, refId: int)
    requires BindInstance(st, id, b, refId).Some?
    ensures MappedAs(BindInstance(st, id, b, refId).value, id, b)
    ensures forall x, c :: x != id ==> (MappedAs(BindInstance(st, id, b, refId).value, x, c) <==> MappedAs(st, x, c))
  {
    hide LocalFields, BindCollections, ResetColls, HeldSlots, ReleaseIn, Span;
  }

  /** Two declarations of one server class: the same fields with the same types, under whatever class id. */
  predicate SameDeclaration(b: Binding, c: Binding) {
    c.fields == b.fields && c.texts == b.texts && |c.types| == |b.types|
  }

  /** They are mapped alike, since only the declaration and the local class decide. */
  lemma SameMapping(st: State, id: Id, b: Binding, c: Binding)
    requires SameDeclaration(b, c)
    ensures LocalOf(st, id, c) == LocalOf(st, id, b)
  {
  }

  /** A nested object that is rebound as the server class it was bound as may be. */
  lemma OneClassIsEnough(st: State, id: Id, key: Val, v: Val, b: Binding)
    requires OpInv(st, {}) && NestedAt(st, id, key).Some? && v.Ref? && v.classId in st.classes
    requires NestedAt(st, id, key).value in st.refOf ==>
               MappedAs(st, NestedAt(st, id, key).value, b) && SameDeclaration(b, st.classes[v.classId])
    ensures MayRebind(st, id, key, v)
  {
    hide Held, LocalOf, GraphShape, RefsShape, Exact, ZerosIn, ElementsRegistered, Distinct, DistinctNames;
    var child := NestedAt(st, id, key).value;
    if child in st.refOf {
      SameMapping(st, child, b, st.classes[v.classId]);
    }
  }

  // ---------------------------------------------------------------- elements

  /** The instance just made for an element, which nothing holds yet. */
  ghost function Waiting(st: State, e: Element): set<Id> {
    if e.slot.Some? && e.slot.value.Obj? && e.slot.value.id !in st.refOf then {e.slot.value.id} else {}
  }

  /** What decoding an element for the collection at `p` leaves as it was, and what it yields. */
  ghost predicate ElementReady(st: State, p: Place, e: Element) {
    && p in st.colls && p in e.st.colls && e.st.colls[p] == st.colls[p] && Reachable(e.st, p)
    && (e.slot.Some? ==> Placeable(e.st, e.slot.value))
    && (forall x :: x in Waiting(st, e) ==> x !in Held(st.colls[p].contents))
    && OpInv(e.st, Waiting(st, e))
  }

  lemma MadeBinds(st: State, a: Alloc, binding: Binding, refId: int)
    requires OpInv(st, {}) && GoodAlloc(st, a) && st.rootBound
    requires DistinctNames(binding.fields) && BindInstance(Allocate(st, a), a.id, binding, refId).Some?
    ensures var st' := BindInstance(Allocate(st, a), a.id, binding, refId).value;
            && LocalOf(Allocate(st, a), a.id, binding).Some?
            && st' == BoundAs(Allocate(st, a), a.id, binding.types, LocalOf(Allocate(st, a), a.id, binding).value,
                              refId, 0)
            && OpInv(st', {a.id})
  {
    hide Held, Slots, Distinct, OpInv, DistinctNames, LocalOf, BindInstance, BoundAs, KeepsNested;
    var st1 := Allocate(st, a);
    AllocKeeps(st, a);
    FreshIsReady(st, a);
    FirstBindIs(st1, a.id, binding, refId, 0);
    var local := LocalOf(st1, a.id, binding).value;
    KeepsNone(st, a, local);
    LocalOfDistinct(st1, a.id, binding);
    BoundKeeps(st1, a.id, binding.types, local, refId, 0);
    var bound := BindInstance(st1, a.id, binding, refId).value;
    assert bound.holders[a.id := 0] == bound.holders;
  }

  lemma KeepsNone(st: State, a: Alloc, local: seq<int>)
    requires OpInv(st, {}) && GoodAlloc(st, a)
    ensures KeepsNested(Allocate(st, a), a.id, local)
  {
    hide Held, Distinct, RefsShape, Mapped, Exact, ZerosIn, ElementsRegistered, DistinctNames;
  }

  lemma FreshIsReady(st: State, a: Alloc)
    requires OpInv(st, {}) && GoodAlloc(st, a)
    ensures var st1 := Allocate(st, a);
            && a.id in st1.classOf && a.id !in st1.refOf && a.id !in st1.holders && a.id !in st1.parent
                && a.id != st1.root
            && (forall p :: p in st1.colls ==> a.id !in Held(st1.colls[p].contents))
            && st1.refOf == st.refOf && st1.rootBound == st.rootBound
  {
    hide Held, Distinct, RefsShape, Mapped, Exact, ZerosIn, ElementsRegistered, DistinctNames;
    AllocGraph(st, a);
    assert a.id !in st.classOf;
  }

  lemma BoundFrame(st: State, id: Id, types: seq<StateType>, local: seq<int>, refId: int, p: Place)
    requires |types| == |local| && p in st.colls && p.0 != id && id !in st.refOf
    ensures var st' := BoundAs(st, id, types, local, refId, 0);
            && p in st'.colls && st'.colls[p] == st.colls[p]
            && st'.refOf == st.refOf[id := refId] && st'.bindingOf == st.bindingOf[id := Bound(types, local)]
            && id in st'.holders && st'.holders[id] == 0
            && st'.parent == st.parent && st'.root == st.root
  {
    hide BindCollections, ReleaseIn, HeldSlots, ResetColls;
    ResetAt(st.colls, id, p);
  }

  /** Everything about a made instance that placing it needs. */
  lemma ReadyFrom(st: State, p: Place, st': State, id: Id, refId: int, bound: Bound)
    requires Reachable(st, p) && p in st'.colls && st'.colls[p] == st.colls[p] && p.0 != id
    requires st'.refOf == st.refOf[id := refId] && st'.bindingOf == st.bindingOf[id := bound] && id !in st.refOf
    requires id in st'.holders && st'.holders[id] == 0 && id !in st'.parent && id != st'.root
    requires id !in Held(st.colls[p].contents) && OpInv(st', {id})
    ensures ElementReady(st, p, Element(st', Some(Obj(id))))
  {
    hide OpInv, Held;
    assert Waiting(st, Element(st', Some(Obj(id)))) == {id};
  }

  lemma MadeKeeps(st: State, p: Place, a: Alloc, binding: Binding, refId: int)
    requires OpInv(st, {}) && Reachable(st, p) && GoodAlloc(st, a)
    requires DistinctNames(binding.fields) && BindInstance(Allocate(st, a), a.id, binding, refId).Some?
    ensures ElementReady(st, p, Element(BindInstance(Allocate(st, a), a.id, binding, refId).value, Some(Obj(a.id))))
  {
    hide DistinctNames, LocalOf, BindInstance, BoundAs, OpInv, GoodAlloc, Held, ElementReady;
    RootIsBound(st, p);
    MadeBinds(st, a, binding, refId);
    FreshIsReady(st, a);
    NotMine(st, a, p);
    var st1 := Allocate(st, a);
    var local := LocalOf(st1, a.id, binding).value;
    BoundFrame(st1, a.id, binding.types, local, refId, p);
    ReadyFrom(st, p, BoundAs(st1, a.id, binding.types, local, refId, 0), a.id, refId, Bound(binding.types, local));
  }

  lemma NotMine(st: State, a: Alloc, p: Place)
    requires OpInv(st, {}) && GoodAlloc(st, a) && p in st.colls
    ensures p.0 != a.id && p !in a.colls
  {
    hide Held, Distinct, RefsShape, Mapped, Exact, ZerosIn, ElementsRegistered, DistinctNames;
  }

  lemma RootIsBound(st: State, p: Place)
    requires OpInv(st, {}) && Reachable(st, p)
    ensures st.rootBound
  {
    hide Held, Distinct, RefsShape, GraphShape, Mapped, Exact, ZerosIn, ElementsRegistered, DistinctNames;
  }

  /** The classes an op names have distinct field names. */
  lemma ClassAt(st: State, classId: int)
    requires OpInv(st, {}) && classId in st.classes
    ensures DistinctNames(st.classes[classId].fields)
  {
    hide Inv, Family, Bounded, Ordinary, DistinctNames;
  }

  lemma SameElement(st: State, p: Place, slot: Option<Slot>)
    requires OpInv(st, {}) && Reachable(st, p)
    requires slot.Some? ==> Placeable(st, slot.value)
    ensures ElementReady(st, p, Element(st, slot))
  {
    hide OpInv, Held;
    assert Waiting(st, Element(st, slot)) == {};
  }

  lemma DecodeElementKeeps(st: State, p: Place, of: StateType, v: Val, a: Alloc)
    requires OpInv(st, {}) && Reachable(st, p) && MayPlace(st, v, a) && Replica.DecodeElement(st, of, v, a).Some?
    ensures ElementReady(st, p, Replica.DecodeElement(st, of, v, a).value)
  {
    hide OpInv, GoodAlloc, Placeable, Reachable, BindInstance, Allocate, ElementReady, DistinctNames;
    if !of.HoldsSchemas() {
      PlainIsPlaceable(st, v);
      SameElement(st, p, Some(Plain(v)));
    } else if v.refId in st.refs {
      SameElement(st, p, Some(Obj(st.refs[v.refId].id)));
    } else {
      var binding := st.classes[v.classId];
      if binding.name !in st.registry {
        IgnoredElement(st, p, v.refId, binding.types);
      } else {
        ClassAt(st, v.classId);
        MadeKeeps(st, p, a, binding, v.refId);
      }
    }
  }

  lemma PlainIsPlaceable(st: State, v: Val)
    ensures Placeable(st, Plain(v))
  {
  }

  lemma IgnoredElement(st: State, p: Place, refId: int, types: seq<StateType>)
    requires OpInv(st, {}) && Reachable(st, p)
    ensures ElementReady(st, p, Element(Ignore(st, refId, types), None))
  {
    hide OpInv, Held, Span, CollectionCount;
    IgnoredFrame(st, Ignore(st, refId, types).ignored, {});
    assert Waiting(st, Element(Ignore(st, refId, types), None)) == {};
  }

  // --------------------------------------------------------------------- ops

  lemma OptionalIds(slot: Option<Slot>)
    ensures Ids(Optional(slot)) == SlotIds(slot)
  {
    if slot.Some? {
      IdsOne(slot.value);
    }
  }

  /** A slot of a collection is among what it holds. */
  lemma {:induction false} SlotIsHeld(slots: seq<Slot>, i: nat)
    requires i < |slots|
    ensures multiset(SlotIds(Some(slots[i]))) <= multiset(Ids(slots))
    decreases |slots|
  {
    IdsStep(slots);
    assert multiset(Ids(slots)) == multiset(SlotIds(Some(slots[0]))) + multiset(Ids(slots[1..]));
    if i > 0 {
      SlotIsHeld(slots[1..], i - 1);
    }
  }

  /** A change with no retain but the one given, and no releases but those given. */
  lemma QuietChange(st: State, p: Place, contents: Contents, put: Option<Slot>)
    requires p in st.colls
    ensures Changed(st, p, contents, [], put) ==
            if put.Some? then Retain(SetContents(st, p, contents), put.value) else SetContents(st, p, contents)
  {
    ReleaseNothing(st.holders);
    assert st.released + [] == st.released;
  }

  lemma PlaceInSetKeeps(st: State, p: Place, e: Element)
    requires ElementReady(st, p, e) && e.slot.Some? && e.st.colls[p].contents.Members?
    ensures PlaceInSet(e.st, p, e.slot.value).Some? && OpInv(PlaceInSet(e.st, p, e.slot.value).value, {})
  {
    hide OpInv, Held, Reachable, Placeable, Ids, Retain, Release;
    var members, slot := e.st.colls[p].contents.members, e.slot.value;
    var (after, added) := AddMember(members, slot);
    AddMemberHeld(members, slot);
    IdsNone();
    if added {
      QuietChange(e.st, p, Members(after), Some(slot));
      ChangeKeeps(e.st, Waiting(st, e), p, Members(after), [], Some(slot));
    } else {
      var i := SlotIndex(members, slot);
      SlotIsHeld(members, i);
      HeldIs(Members(members));
      NotWaiting(st, p, e);
      QuietChange(e.st, p, Members(after), None);
      ChangeKeeps(e.st, {}, p, Members(after), [], None);
    }
  }

  lemma NotWaiting(st: State, p: Place, e: Element)
    requires ElementReady(st, p, e) && multiset(SlotIds(e.slot)) <= Held(st.colls[p].contents)
    ensures Waiting(st, e) == {}
  {
    hide OpInv, Held, Reachable, Placeable;
    assert forall x :: x in Waiting(st, e) ==> x in multiset(SlotIds(e.slot));
  }

  lemma PlaceInMapKeeps(st: State, p: Place, key: Val, e: Element)
    requires ElementReady(st, p, e) && e.slot.Some? && e.st.colls[p].contents.Entries?
    ensures PlaceInMap(e.st, p, key, e.slot.value).Some? && OpInv(PlaceInMap(e.st, p, key, e.slot.value).value, {})
  {
    hide OpInv, Held, Reachable, Placeable, Ids, Retain, Release;
    var entries, slot := e.st.colls[p].contents.entries, e.slot.value;
    var (after, previous) := Upsert(entries, key, slot);
    UpsertHeld(entries, key, slot);
    PreviousIsHeld(entries, key);
    OptionalIds(previous);
    if previous == Some(slot) {
      NotWaiting(st, p, e);
      IdsNone();
      QuietChange(e.st, p, Entries(after), None);
      ChangeKeeps(e.st, {}, p, Entries(after), [], None);
    } else {
      ChangeKeeps(e.st, Waiting(st, e), p, Entries(after), Optional(previous), Some(slot));
    }
  }

  lemma PreviousIsHeld(entries: seq<(Val, Slot)>, key: Val)
    ensures var i := KeyIndex(entries, key);
            i < |entries| ==> multiset(SlotIds(Some(entries[i].1))) <= Held(Entries(entries))
  {
    hide Ids;
    var i := KeyIndex(entries, key);
    ValuesAt(entries);
    if i < |entries| {
      SlotIsHeld(ValuesOf(entries), i);
    }
  }

  lemma PlaceInArrayKeeps(st: State, p: Place, index: nat, e: Element)
    requires ElementReady(st, p, e) && e.slot.Some? && e.st.colls[p].contents.Items?
    requires PlaceInArray(e.st, p, index, e.slot.value).Some?
    ensures OpInv(PlaceInArray(e.st, p, index, e.slot.value).value, {})
  {
    hide OpInv, Held, Reachable, Placeable, Ids, Retain, Release;
    var items, slot := e.st.colls[p].contents.items, e.slot.value;
    var after := Insert(items, index, slot).value;
    InsertHeld(items, index, slot);
    IdsNone();
    QuietChange(e.st, p, Items(after), Some(slot));
    ChangeKeeps(e.st, Waiting(st, e), p, Items(after), [], Some(slot));
  }

  lemma ReplaceKeeps(st: State, p: Place, index: nat, e: Element)
    requires ElementReady(st, p, e) && e.slot.Some? && e.st.colls[p].contents.Items?
    requires index < |e.st.colls[p].contents.items|
    ensures var (items, previous) := Replace(e.st.colls[p].contents.items, index, e.slot.value).value;
            OpInv(Retain(Release(SetContents(e.st, p, Items(items)), [previous]), e.slot.value), {})
  {
    hide OpInv, Held, Reachable, Placeable, Ids, Retain, Release;
    var items, slot := e.st.colls[p].contents.items, e.slot.value;
    var (after, previous) := Replace(items, index, slot).value;
    ReplaceHeld(items, index, slot);
    IdsOne(previous);
    SlotIsHeld(items, index);
    HeldIs(Items(items));
    ChangeKeeps(e.st, Waiting(st, e), p, Items(after), [previous], Some(slot));
  }
}
