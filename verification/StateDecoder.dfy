/**
 The decoder that updates the replica in place, op by op. Each method does to
 the fields what the function of the same name in `Replica` does to the state,
 so what `ReplicaRuns` proves of runs holds of the object.
 */
module StateDecoder {
  import opened Wrappers
  import opened Wire
  import opened StateTypes
  import opened OpCodec
  import opened Containers
  import opened Replica
  import ReplicaBinds
  import ReplicaFrames
  import ReplicaProofs
  import ReplicaRuns

  // ----------------------------------------------------- what the loops follow

  lemma SpanNext(lo: int, n: nat)
    ensures Span(lo, n + 1) == Span(lo, n) + {lo + n}
  {
    assert forall k :: Within(lo, k, n + 1) <==> Within(lo, k, n) || k == lo + n;
  }

  lemma SpanNone(lo: int)
    ensures Span(lo, 0) == {}
  {
  }

  lemma ReleaseFirst(st: State, slots: seq<Slot>)
    requires slots != []
    ensures Replica.Release(st, slots) == Replica.Release(Replica.Release(st, [slots[0]]), slots[1..])
  {
    hide ReleaseIn;
    ReplicaFrames.ReleaseUnfold(st.holders, slots);
    ReplicaFrames.ReleaseUnfold(st.holders, [slots[0]]);
    assert [slots[0]][1..] == [];
    ReplicaFrames.ReleaseNothing(ReplicaFrames.Lowered(st.holders, slots[0]));
    var e := ReplicaFrames.EmptiedBy(st.holders, slots[0]);
    assert e + [] == e;
    assert ReleaseIn(st.holders, [slots[0]]).1 == e;
    var h := ReplicaFrames.Lowered(st.holders, slots[0]);
    assert st.released + (e + ReleaseIn(h, slots[1..]).1) == (st.released + e) + ReleaseIn(h, slots[1..]).1;
  }

  lemma ReleaseNone(st: State)
    ensures Replica.Release(st, []) == st
  {
    assert st.released + [] == st.released;
  }

  lemma {:induction false} BindKeysOnly(colls: map<Place, Coll>, colls': map<Place, Coll>, nested: map<Place, Id>,
                                        refs: map<int, Denoted>, ignored: set<int>,
                                        id: Id, types: seq<StateType>, local: seq<int>, next: int)
    requires |types| == |local| && colls.Keys == colls'.Keys
    ensures BindCollections(colls, nested, refs, ignored, id, types, local, next)
         == BindCollections(colls', nested, refs, ignored, id, types, local, next)
    decreases |types|
  {
    if types != [] {
      if !types[0].IsCollection() {
        BindKeysOnly(colls, colls', nested, refs, ignored, id, types[1..], local[1..], next);
      } else if local[0] >= 0 && (id, local[0] as nat) in colls && (id, local[0] as nat) !in nested {
        BindKeysOnly(colls, colls', nested, refs[next := CollAt((id, local[0]))], ignored - {next}, id, types[1..],
                     local[1..], next + 1);
      } else {
        BindKeysOnly(colls, colls', nested, refs - {next}, ignored + {next}, id, types[1..], local[1..], next + 1);
      }
    }
  }

  /** One field of the binding loop. */
  lemma BindOne(colls: map<Place, Coll>, nested: map<Place, Id>, refs: map<int, Denoted>, ignored: set<int>,
                id: Id, types: seq<StateType>, local: seq<int>, i: nat, next: int)
    requires |types| == |local| && i < |types|
    ensures BindCollections(colls, nested, refs, ignored, id, types[i..], local[i..], next) ==
            (var ts, ls := types[i + 1..], local[i + 1..];
             if !types[i].IsCollection() then BindCollections(colls, nested, refs, ignored, id, ts, ls, next)
             else if local[i] >= 0 && (id, local[i]) in colls && (id, local[i]) !in nested then
               BindCollections(colls, nested, refs[next := CollAt((id, local[i]))], ignored - {next}, id, ts, ls,
                               next + 1)
             else
               BindCollections(colls, nested, refs - {next}, ignored + {next}, id, ts, ls, next + 1))
  {
    assert types[i..][0] == types[i] && types[i..][1..] == types[i + 1..];
    assert local[i..][0] == local[i] && local[i..][1..] == local[i + 1..];
  }

  lemma HeldOne(st: State, id: Id, local: seq<int>, i: nat)
    requires i < |local|
    ensures HeldSlots(st, id, local[i..]) ==
            (if local[i] >= 0 && (id, local[i]) in st.colls && (id, local[i]) !in st.nested
             then SlotsOf(st.colls[(id, local[i])].contents) else [])
            + HeldSlots(st, id, local[i + 1..])
  {
    hide SlotsOf;
    assert local[i..][0] == local[i] && local[i..][1..] == local[i + 1..];
  }

  lemma HeldNone(st: State, id: Id)
    ensures HeldSlots(st, id, []) == []
  {
  }

  /** An op's outcome: the state the specification gives, or failure where it fails. */
  predicate Did(ok: bool, now: State, spec: Option<State>) {
    ok == spec.Some? && (ok ==> now == spec.value)
  }

  /** No objects at all yet. */
  function Nothing(shapes: Shapes, registry: set<string>, root: Id): State {
    State(shapes, registry, root, map[], map[], map[], map[], map[], map[], {}, map[], map[], map[], false, [])
  }

  /** A decoder's first state is one that `ReplicaRuns.ExactHolders` starts from. */
  lemma FirstStateStarts(shapes: Shapes, registry: set<string>, made: Alloc)
    requires ReplicaFrames.GoodAlloc(Nothing(shapes, registry, made.id), made)
    ensures ReplicaRuns.Starting(Allocate(Nothing(shapes, registry, made.id), made))
  {
    hide Held;
    var st := Allocate(Nothing(shapes, registry, made.id), made);
    assert st.nested == made.nested && st.parent == made.parent && st.colls == made.colls && st.classOf == made.classOf;
    ReplicaFrames.GraphFrom(st);
  }

  class StateDecoder {
    const shapes: Shapes
    const registry: set<string>
    const root: Id
    var classOf: map<Id, string>
    var nested: map<Place, Id>
    var parent: map<Id, Place>
    var colls: map<Place, Coll>
    var classes: map<int, Binding>
    var refs: map<int, Denoted>
    var ignored: set<int>
    var refOf: map<Id, int>
    var bindingOf: map<Id, Bound>
    var holders: map<Id, int>
    var rootBound: bool
    var released: seq<Id>

    /** The whole of the decoder and its replica, as a value. */
    function Now(): State
      reads this
    {
      State(shapes, registry, root, classOf, nested, parent, colls, classes, refs, ignored,
            refOf, bindingOf, holders, rootBound, released)
    }

    /** A decoder for `made.id`, an object its class's constructor made, before any frame. */
    constructor (shapes: Shapes, registry: set<string>, made: Alloc)
      ensures Now() == Allocate(Nothing(shapes, registry, made.id), made)
    {
      this.shapes, this.registry, this.root := shapes, registry, made.id;
      classOf, nested, parent, colls := made.classOf, made.nested, made.parent, made.colls;
      classes, refs, ignored := map[], map[], {};
      refOf, bindingOf, holders, rootBound, released := map[], map[], map[], false, [];
      new;
      var none := Nothing(shapes, registry, made.id);
      assert none.classOf + made.classOf == made.classOf && none.nested + made.nested == made.nested;
      assert none.parent + made.parent == made.parent && none.colls + made.colls == made.colls;
    }

    // --------------------------------------------------------------- holders

    method Retain(slot: Slot)
      modifies this`holders
      ensures Now() == Replica.Retain(old(Now()), slot)
    {
      if slot.Obj? {
        var count := CountOf(holders, slot.id);
        if count != FOREVER {
          holders := holders[slot.id := count + 1];
        }
      }
    }

    method Release(slot: Slot)
      modifies this`holders, this`released
      ensures Now() == Replica.Release(old(Now()), [slot])
    {
      ghost var h := holders;
      assert ReleaseIn(h, [slot]).0 == ReplicaFrames.Lowered(h, slot)
          && ReleaseIn(h, [slot]).1 == ReplicaFrames.EmptiedBy(h, slot) by {
        ReplicaFrames.ReleaseUnfold(h, [slot]);
        ReplicaFrames.ReleaseNothing(ReplicaFrames.Lowered(h, slot));
      }
      hide ReleaseIn;
      if slot.Obj? {
        var count := CountOf(holders, slot.id);
        if count != FOREVER {
          holders := holders[slot.id := count - 1];
          if count - 1 <= 0 {
            released := released + [slot.id];
          }
        }
      }
      assert old(released) + [] == old(released);
    }

    method ReleaseAll(slots: seq<Slot>)
      modifies this`holders, this`released
      ensures Now() == Replica.Release(old(Now()), slots)
    {
      hide Replica.Release;
      for i := 0 to |slots|
        invariant Replica.Release(Now(), slots[i..]) == Replica.Release(old(Now()), slots)
      {
        ReleaseFirst(Now(), slots[i..]);
        assert slots[i..][1..] == slots[i + 1..];
        Release(slots[i]);
      }
      ReleaseNone(Now());
    }

    // ---------------------------------------------------------------- blocks

    method Unregister(refId: int, types: seq<StateType>)
      modifies this`refs, this`ignored
      ensures Now() == Replica.Unregister(old(Now()), refId, types)
    {
      hide Span, CollectionCount;
      SpanNext(refId, 0);
      SpanNone(refId);
      SpanNone(refId + 1);
      ReplicaBinds.NoTypes();
      refs := refs - {refId};
      var next := refId + 1;
      for i := 0 to |types|
        invariant next >= refId + 1 && next - refId - 1 + CollectionCount(types[i..]) == CollectionCount(types)
        invariant refs == old(refs) - Span(refId, next - refId)
        invariant ignored == old(ignored) - Span(refId + 1, next - refId - 1)
      {
        ReplicaBinds.CountStep(types[i..]);
        assert types[i..][1..] == types[i + 1..];
        if types[i].IsCollection() {
          SpanNext(refId, next - refId);
          SpanNext(refId + 1, next - refId - 1);
          refs := refs - {next};
          ignored := ignored - {next};
          next := next + 1;
        }
      }
    }

    method Ignore(refId: int, types: seq<StateType>)
      modifies this`ignored
      ensures Now() == Replica.Ignore(old(Now()), refId, types)
    {
      hide Span, CollectionCount;
      SpanNext(refId, 0);
      SpanNone(refId);
      ReplicaBinds.NoTypes();
      ignored := ignored + {refId};
      var next := refId + 1;
      for i := 0 to |types|
        invariant next >= refId + 1 && next - refId - 1 + CollectionCount(types[i..]) == CollectionCount(types)
        invariant ignored == old(ignored) + Span(refId, next - refId)
      {
        ReplicaBinds.CountStep(types[i..]);
        assert types[i..][1..] == types[i + 1..];
        if types[i].IsCollection() {
          SpanNext(refId, next - refId);
          ignored := ignored + {next};
          next := next + 1;
        }
      }
    }

    method IgnoreValue(v: Val) returns (ok: bool)
      modifies this`ignored
      ensures Did(ok, Now(), Replica.IgnoreValue(old(Now()), v))
    {
      if !v.Ref? || v.refId in refs || v.refId in ignored {
        return true;
      }
      if v.classId !in classes {
        return false;
      }
      Ignore(v.refId, classes[v.classId].types);
      return true;
    }

    // --------------------------------------------------------------- binding

    /** The collection elements a rebound instance gives up. */
    method CollectHeld(id: Id, local: seq<int>) returns (held: seq<Slot>)
      ensures held == HeldSlots(Now(), id, local)
    {
      hide HeldSlots, SlotsOf;
      held := [];
      ghost var st := Now();
      assert local[0..] == local;
      for i := 0 to |local|
        invariant held + HeldSlots(st, id, local[i..]) == HeldSlots(st, id, local)
      {
        HeldOne(st, id, local, i);
        var l := local[i];
        ghost var rest := HeldSlots(st, id, local[i + 1..]);
        if l >= 0 && (id, l) in colls && (id, l) !in nested {
          ghost var more := SlotsOf(colls[(id, l)].contents);
          assert held + (more + rest) == (held + more) + rest;
          held := held + SlotsOf(colls[(id, l)].contents);
        } else {
          assert [] + rest == rest;
        }
      }
      assert local[|local|..] == [] && held + [] == held;
      HeldNone(st, id);
    }

    method RegisterCollections(id: Id, types: seq<StateType>, local: seq<int>, refId: int)
      requires |types| == |local|
      modifies this`refs, this`ignored
      ensures var (refs', ignored') :=
                BindCollections(colls, nested, old(refs), old(ignored), id, types, local, refId + 1);
              Now() == old(Now()).(refs := refs', ignored := ignored')
    {
      hide BindCollections;
      var next := refId + 1;
      for i := 0 to |types|
        invariant BindCollections(colls, nested, refs, ignored, id, types[i..], local[i..], next)
               == BindCollections(colls, nested, old(refs), old(ignored), id, types, local, refId + 1)
      {
        BindOne(colls, nested, refs, ignored, id, types, local, i, next);
        if types[i].IsCollection() {
          var l := local[i];
          if l >= 0 && (id, l) in colls && (id, l) !in nested {
            refs := refs[next := CollAt((id, l))];
            ignored := ignored - {next};
          } else {
            refs := refs - {next};
            ignored := ignored + {next};
          }
          next := next + 1;
        }
      }
      BindNone(colls, nested, refs, ignored, id, next);
    }

    /** A nested instance rebound to a new refId gives up its block and what it held. */
    method Detach(id: Id, refId: int)
      modifies this`refs, this`ignored, this`holders, this`released
      ensures Now() == if Rebinds(old(Now()), id, refId) then Rebind(old(Now()), id) else old(Now())
    {
      hide HeldSlots, ReleaseIn, Span, CollectionCount;
      if id in refOf && refOf[id] != refId && id in bindingOf {
        var held := CollectHeld(id, bindingOf[id].local);
        Unregister(refOf[id], bindingOf[id].types);
        holders := holders[id := 0];
        ReleaseAll(held);
      }
    }

    method Mark(id: Id, bound: Bound, refId: int)
      modifies this`refs, this`ignored, this`refOf, this`bindingOf, this`holders
      ensures Now() == Marked(old(Now()), id, bound, refId)
    {
      ignored := ignored - {refId};
      refs := refs[refId := Inst(id)];
      refOf := refOf[id := refId];
      bindingOf := bindingOf[id := bound];
      holders := if id in holders then holders else holders[id := 0];
    }

    method Register(id: Id, types: seq<StateType>, local: seq<int>, refId: int)
      requires |types| == |local|
      modifies this`refs, this`ignored, this`refOf, this`bindingOf, this`holders, this`colls
      ensures Now() == Enrolled(old(Now()), id, types, local, refId)
    {
      hide BindCollections, ResetColls;
      Mark(id, Bound(types, local), refId);
      colls := ResetColls(colls, id);
      RegisterCollections(id, types, local, refId);
    }

    method Bind(id: Id, binding: Binding, refId: int) returns (ok: bool)
      modifies this`refs, this`ignored, this`refOf, this`bindingOf, this`holders, this`released, this`colls
      ensures Did(ok, Now(), BindInstance(old(Now()), id, binding, refId))
    {
      hide LocalOf, Enrolled, BindInstance, Rebind;
      BindIsEnrol(Now(), id, binding, refId);
      var mapped := LocalOf(Now(), id, binding);
      if mapped.None? {
        return false;
      }
      Detach(id, refId);
      Register(id, binding.types, mapped.value, refId);
      return true;
    }

    // ----------------------------------------------------------------- drops

    method CollectChildren(id: Id, local: seq<int>) returns (children: seq<Id>)
      ensures children == Children(Now(), id, local)
    {
      hide Children, SlotsOf, Ids;
      children := [];
      ghost var st := Now();
      assert local[0..] == local;
      for i := 0 to |local|
        invariant children + Children(st, id, local[i..]) == Children(st, id, local)
      {
        ChildrenOf(st, id, local, i);
        var l := local[i];
        ghost var rest := Children(st, id, local[i + 1..]);
        var more := [];
        if l >= 0 {
          if (id, l) in nested {
            more := [nested[(id, l)]];
          } else if (id, l) in colls {
            more := Ids(SlotsOf(colls[(id, l)].contents));
          }
        }
        assert children + (more + rest) == (children + more) + rest;
        children := children + more;
      }
      assert local[|local|..] == [] && children + [] == children;
      ReplicaProofs.NoChildren(st, id);
    }

    method Forget(id: Id)
      requires id in refOf && id in bindingOf
      modifies this`refs, this`ignored, this`refOf, this`bindingOf, this`holders
      ensures Now() == Replica.Forget(old(Now()), id)
    {
      hide Span, CollectionCount;
      Unregister(refOf[id], bindingOf[id].types);
      refOf := refOf - {id};
      bindingOf := bindingOf - {id};
      holders := holders - {id};
    }

    method Drop(id: Id)
      modifies this`refs, this`ignored, this`refOf, this`bindingOf, this`holders
      ensures Now() == Replica.Drop(old(Now()), id)
      decreases |refOf|, 0
    {
      if id !in refOf || id !in bindingOf {
        return;
      }
      hide Children, Replica.DropChildren, Replica.Forget;
      ReplicaProofs.ForgetFields(Now(), id);
      Shrinks(refOf, id);
      var children := CollectChildren(id, bindingOf[id].local);
      Forget(id);
      DropChildren(children);
    }

    method DropChildren(children: seq<Id>)
      modifies this`refs, this`ignored, this`refOf, this`bindingOf, this`holders
      ensures Now() == Replica.DropChildren(old(Now()), children)
      decreases |refOf|, 1
    {
      hide Replica.DropChildren, Replica.Drop;
      for i := 0 to |children|
        invariant refOf.Keys <= old(refOf).Keys
        invariant Replica.DropChildren(Now(), children[i..]) == Replica.DropChildren(old(Now()), children)
      {
        DropOne(Now(), children, i);
        var child := children[i];
        if child in holders {
          var count := holders[child] - 1;
          holders := holders[child := count];
          if count <= 0 {
            SubsetSize(refOf.Keys, old(refOf).Keys);
            Drop(child);
          }
        }
      }
      assert children[|children|..] == [];
      DropNone(Now());
    }

    method DropReleased()
      modifies this`refs, this`ignored, this`refOf, this`bindingOf, this`holders
      ensures Now() == Replica.DropReleased(old(Now()), old(released))
    {
      hide Replica.DropReleased, Replica.Drop;
      for i := 0 to |released|
        invariant Replica.DropReleased(Now(), released[i..]) == Replica.DropReleased(old(Now()), released)
      {
        DropReleasedOne(Now(), released, i);
        var id := released[i];
        if id in holders && holders[id] <= 0 {
          Drop(id);
        }
      }
      assert released[|released|..] == [];
      DropReleasedNone(Now());
    }

    // ------------------------------------------------------------------- ops

    method Create(made: Alloc)
      modifies this`classOf, this`nested, this`parent, this`colls
      ensures Now() == Allocate(old(Now()), made)
    {
      classOf := classOf + made.classOf;
      nested := nested + made.nested;
      parent := parent + made.parent;
      colls := colls + made.colls;
    }

    /** The object `made` is what a constructor call makes, if this makes one. */
    method DecodeElement(of: StateType, v: Val, made: Alloc) returns (ok: bool, slot: Option<Slot>)
      modifies this
      ensures var spec := Replica.DecodeElement(old(Now()), of, v, made);
              Did(ok, Now(), if spec.Some? then Some(spec.value.st) else None) && (ok ==> slot == spec.value.slot)
    {
      hide BindInstance, Fits;
      slot := None;
      if !of.HoldsSchemas() {
        return Fits(of.element, v), Some(Plain(v));
      }
      if !v.Ref? {
        return false, None;
      }
      if v.refId in refs {
        match refs[v.refId] {
          case Inst(id) => return true, Some(Obj(id));
          case CollAt(_) => return false, None;
        }
      }
      if v.classId !in classes {
        return false, None;
      }
      var binding := classes[v.classId];
      if binding.name !in registry {
        Ignore(v.refId, binding.types);
        return true, None;
      }
      Create(made);
      ok := Bind(made.id, binding, v.refId);
      slot := Some(Obj(made.id));
    }

    method Define(op: Op) returns (ok: bool)
      requires op.Define?
      modifies this
      ensures Did(ok, Now(), ApplyDefine(old(Now()), op))
    {
      hide BindInstance;
      if !CheckDefine(op) {
        return false;
      }
      var binding := Binding(op.name, op.fields, op.types, ParseAll(op.types).value);
      classes := classes[op.classId := binding];
      if !rootBound && root in classOf && classOf[root] == op.name {
        ok := Bind(root, binding, 0);
        if ok {
          holders := holders[root := FOREVER];
          rootBound := true;
        }
        return ok;
      }
      return true;
    }

    method SetField(id: Id, index: nat, v: Val) returns (ok: bool)
      modifies this
      ensures Did(ok, Now(), ApplyFieldSet(old(Now()), id, index, v))
    {
      hide BindInstance, Fits, Replica.IgnoreValue;
      if id !in bindingOf {
        return false;
      }
      var b := bindingOf[id];
      if index >= |b.types| || index >= |b.local| {
        return false;
      }
      var l, of := b.local[index], b.types[index];
      if of.kind.Schema? {
        if !v.Ref? {
          return false;
        }
        if l < 0 || (id, l) !in nested {
          ok := IgnoreValue(v);
          return ok;
        }
        var child := nested[(id, l)];
        if child in refOf && refOf[child] == v.refId {
          return true;
        }
        if v.classId !in classes {
          return false;
        }
        ok := Bind(child, classes[v.classId], v.refId);
        if ok {
          Retain(Obj(child));
        }
        return ok;
      }
      if of.IsCollection() {
        return false;
      }
      return l < 0 || Fits(of.element, v);
    }

    method Set(op: Op, made: Alloc) returns (ok: bool)
      requires op.Set?
      modifies this
      ensures Did(ok, Now(), ApplySet(old(Now()), op, made))
    {
      hide ApplyFieldSet, Replica.DecodeElement, Replica.IgnoreValue, ReleaseIn;
      var index := Index(op.key);
      if index.None? {
        return false;
      }
      if op.target in ignored {
        ok := IgnoreValue(op.value);
        return ok;
      }
      if op.target !in refs {
        return false;
      }
      match refs[op.target] {
        case Inst(id) =>
          ok := SetField(id, index.value, op.value);
        case CollAt(p) =>
          ok := SetElement(p, index.value, op.value, made);
      }
    }

    /** SET on an array: the element at `index` replaced. */
    method SetElement(p: Place, index: nat, v: Val, made: Alloc) returns (ok: bool)
      modifies this
      ensures Did(ok, Now(), ReplaceElement(old(Now()), p, index, v, made))
    {
      hide Replica.DecodeElement, ReleaseIn;
      if p !in colls || !colls[p].contents.Items? {
        return false;
      }
      var slot;
      ok, slot := DecodeElement(colls[p].of, v, made);
      if !ok || slot.None? {
        return ok;
      }
      if p !in colls || !colls[p].contents.Items? || index >= |colls[p].contents.items| {
        return false;
      }
      var items := colls[p].contents.items;
      Store(p, Items(items[index := slot.value]));
      Release(items[index]);
      Retain(slot.value);
      return true;
    }

    method Store(p: Place, contents: Contents)
      requires p in colls
      modifies this`colls
      ensures Now() == SetContents(old(Now()), p, contents)
    {
      colls := colls[p := colls[p].(contents := contents)];
    }

    method AddTo(p: Place, key: Option<Val>, slot: Slot) returns (ok: bool)
      requires p in colls && GoodKey(colls[p], key)
      modifies this
      ensures Did(ok, Now(), match old(colls[p].contents)
                             case Members(_) => PlaceInSet(old(Now()), p, slot)
                             case Entries(_) => PlaceInMap(old(Now()), p, key.value, slot)
                             case Items(_) => PlaceInArray(old(Now()), p, Index(key.value).value, slot))
    {
      hide ReleaseIn, KeyIndex, SlotIndex;
      match colls[p].contents {
        case Members(members) =>
          var (after, added) := AddMember(members, slot);
          Store(p, Members(after));
          if added {
            Retain(slot);
          }
        case Entries(entries) =>
          var (after, previous) := Upsert(entries, key.value, slot);
          Store(p, Entries(after));
          if previous != Some(slot) {
            ReleaseAll(Optional(previous));
            Retain(slot);
          }
        case Items(items) =>
          var after := Insert(items, Index(key.value).value, slot);
          if after.None? {
            return false;
          }
          Store(p, Items(after.value));
          Retain(slot);
      }
      return true;
    }

    method Add(target: int, key: Option<Val>, v: Val, made: Alloc) returns (ok: bool)
      modifies this
      ensures Did(ok, Now(), ApplyAdd(old(Now()), target, key, v, made))
    {
      hide Replica.DecodeElement, Replica.IgnoreValue, PlaceInSet, PlaceInMap, PlaceInArray, GoodKey;
      if target in ignored {
        ok := IgnoreValue(v);
        return ok;
      }
      if target !in refs || refs[target].Inst? {
        return false;
      }
      var p := refs[target].place;
      if p !in colls {
        return false;
      }
      var slot;
      ok, slot := DecodeElement(colls[p].of, v, made);
      if !ok || p !in colls || !GoodKey(colls[p], key) {
        return false;
      }
      if slot.None? {
        return !colls[p].contents.Items?;
      }
      ok := AddTo(p, key, slot.value);
    }

    method RemoveFrom(p: Place, key: Val) returns (ok: bool)
      requires p in colls
      modifies this
      ensures Did(ok, Now(), RemoveKeyed(old(Now()), p, key))
    {
      hide ReleaseIn, KeyIndex, SlotIndex, Fits;
      var c := colls[p];
      match c.contents {
        case Entries(entries) =>
          if !Fits(c.of.key, key) {
            return false;
          }
          var (after, removed) := DeleteKey(entries, key);
          Store(p, Entries(after));
          ReleaseAll(Optional(removed));
        case Items(items) =>
          var index := Index(key);
          if index.None? || index.value >= |items| {
            return false;
          }
          Store(p, Items(items[..index.value] + items[index.value + 1..]));
          Release(items[index.value]);
        case Members(members) =>
          if c.of.HoldsSchemas() {
            if !(key.Num? && IsUint32(key.n)) {
              return false;
            }
            if key.n in refs && refs[key.n].Inst? {
              var slot := Obj(refs[key.n].id);
              var (after, removed) := DeleteMember(members, slot);
              Store(p, Members(after));
              if removed {
                Release(slot);
              }
            }
          } else {
            if !Fits(c.of.element, key) {
              return false;
            }
            Store(p, Members(DeleteMember(members, Plain(key)).0));
          }
      }
      return true;
    }

    method Remove(target: int, key: Val) returns (ok: bool)
      modifies this
      ensures Did(ok, Now(), ApplyRemove(old(Now()), target, key))
    {
      hide RemoveKeyed;
      if target in ignored {
        return true;
      }
      if target !in refs || refs[target].Inst? || refs[target].place !in colls {
        return false;
      }
      ok := RemoveFrom(refs[target].place, key);
    }

    method Clear(target: int) returns (ok: bool)
      modifies this
      ensures Did(ok, Now(), ApplyClear(old(Now()), target))
    {
      hide Replica.Release, SlotsOf;
      if target in ignored {
        return true;
      }
      if target !in refs || refs[target].Inst? || refs[target].place !in colls {
        return false;
      }
      var p := refs[target].place;
      var removed := SlotsOf(colls[p].contents);
      match colls[p].contents {
        case Entries(_) => Store(p, Entries([]));
        case Items(_) => Store(p, Items([]));
        case Members(_) => Store(p, Members([]));
      }
      ReleaseAll(removed);
      return true;
    }

    method ApplyOne(step: Step) returns (ok: bool)
      modifies this
      ensures Did(ok, Now(), ApplyOp(old(Now()), step.op, step.made))
    {
      hide ApplyDefine, ApplySet, ApplyAdd, ApplyRemove, ApplyClear;
      match step.op {
        case Define(_, _, _, _) => ok := Define(step.op);
        case Set(_, _, _) => ok := Set(step.op, step.made);
        case Add(target, key, v) => ok := Add(target, Some(key), v, step.made);
        case AddToSet(target, v) => ok := Add(target, None, v, step.made);
        case Remove(target, key) => ok := Remove(target, key);
        case Clear(target) => ok := Clear(target);
      }
    }

    /** One frame, in place; on failure the replica can no longer be trusted. */
    method Apply(steps: seq<Step>) returns (ok: bool)
      modifies this
      ensures ok == ApplyFrame(old(Now()), steps).Some?
      ensures ok ==> Now() == ApplyFrame(old(Now()), steps).value
      ensures ok && ReplicaRuns.Settled(old(Now())) && ReplicaRuns.DisciplinedOps(old(Now()).(released := []),
              steps) ==>
                ReplicaRuns.Settled(Now())
    {
      hide ReplicaRuns.Settled, ReplicaRuns.DisciplinedOps;
      if ReplicaRuns.Settled(Now()) && ReplicaRuns.DisciplinedOps(Now().(released := []), steps) {
        ReplicaRuns.FrameKeepsIf(Now(), steps);
      }
      hide ApplyOps, ApplyOp, Replica.DropReleased;
      released := [];
      ghost var st := Now();
      ok := true;
      var i := 0;
      while i < |steps| && ok
        invariant i <= |steps|
        invariant ok ==> ApplyOps(Now(), steps[i..]) == ApplyOps(st, steps)
        invariant !ok ==> ApplyOps(st, steps).None?
      {
        OpsOne(Now(), steps, i);
        ok := ApplyOne(steps[i]);
        i := i + 1;
      }
      OpsNone(Now());
      assert ok ==> steps[i..] == [];
      DropReleased();
    }
  }

  function Marked(st: State, id: Id, bound: Bound, refId: int): State {
    st.(refs := st.refs[refId := Inst(id)], ignored := st.ignored - {refId},
        refOf := st.refOf[id := refId], bindingOf := st.bindingOf[id := bound],
        holders := if id in st.holders then st.holders else st.holders[id := 0])
  }

  /** Registration proper, once any old block is gone. */
  function Enrolled(st: State, id: Id, types: seq<StateType>, local: seq<int>, refId: int): State
    requires |types| == |local|
  {
    var st1 := Marked(st, id, Bound(types, local), refId).(colls := ResetColls(st.colls, id));
    var (refs, ignored) := BindCollections(st1.colls, st1.nested, st1.refs, st1.ignored, id, types, local, refId + 1);
    st1.(refs := refs, ignored := ignored)
  }

  lemma BindIsEnrol(st: State, id: Id, binding: Binding, refId: int)
    ensures LocalOf(st, id, binding).None? ==> BindInstance(st, id, binding, refId).None?
    ensures LocalOf(st, id, binding).Some? ==>
              BindInstance(st, id, binding, refId) ==
              Some(Enrolled(if Rebinds(st, id, refId) then Rebind(st, id) else st,
                            id, binding.types, LocalOf(st, id, binding).value, refId))
  {
    hide BindCollections, ResetColls, Rebind, LocalOf;
    if LocalOf(st, id, binding).Some? {
      var st1 := if Rebinds(st, id, refId) then Rebind(st, id) else st;
      RebindFrame(st, id, refId);
      ResetKeys(st.colls, id);
      BindKeysOnly(st.colls, ResetColls(st.colls, id), st.nested, st1.refs[refId := Inst(id)], st1.ignored - {refId},
                   id, binding.types, LocalOf(st, id, binding).value, refId + 1);
    }
  }

  lemma BindNone(colls: map<Place, Coll>, nested: map<Place, Id>, refs: map<int, Denoted>, ignored: set<int>, id: Id,
                 next: int)
    ensures BindCollections(colls, nested, refs, ignored, id, [], [], next) == (refs, ignored)
  {
  }

  lemma RebindFrame(st: State, id: Id, refId: int)
    ensures var st1 := if Rebinds(st, id, refId) then Rebind(st, id) else st;
            st1.colls == st.colls && st1.nested == st.nested
  {
    hide Span, CollectionCount, ReleaseIn, HeldSlots;
  }

  lemma ResetKeys(colls: map<Place, Coll>, id: Id)
    ensures ResetColls(colls, id).Keys == colls.Keys
  {
  }

  lemma ChildrenOf(st: State, id: Id, local: seq<int>, i: nat)
    requires i < |local|
    ensures Children(st, id, local[i..]) ==
            (if local[i] < 0 then []
             else if (id, local[i]) in st.nested then [st.nested[(id, local[i])]]
             else if (id, local[i]) in st.colls then Ids(SlotsOf(st.colls[(id, local[i])].contents))
             else [])
            + Children(st, id, local[i + 1..])
  {
    hide SlotsOf, Ids;
    assert local[i..][0] == local[i] && local[i..][1..] == local[i + 1..];
  }

  lemma DropOne(st: State, children: seq<Id>, i: nat)
    requires i < |children|
    ensures Replica.DropChildren(st, children[i..]) ==
            (var c, rest := children[i], children[i + 1..];
             if c !in st.holders then Replica.DropChildren(st, rest)
             else
               var st1 := st.(holders := st.holders[c := st.holders[c] - 1]);
               Replica.DropChildren(if st1.holders[c] <= 0 then Replica.Drop(st1, c) else st1, rest))
  {
    hide Replica.Drop;
    assert children[i..][0] == children[i] && children[i..][1..] == children[i + 1..];
  }

  lemma DropNone(st: State)
    ensures Replica.DropChildren(st, []) == st
  {
  }

  lemma DropReleasedOne(st: State, released: seq<Id>, i: nat)
    requires i < |released|
    ensures Replica.DropReleased(st, released[i..]) ==
            Replica.DropReleased(
              if released[i] in st.holders && st.holders[released[i]] <= 0 then Replica.Drop(st, released[i]) else st,
              released[i + 1..])
  {
    hide Replica.Drop;
    assert released[i..][0] == released[i] && released[i..][1..] == released[i + 1..];
  }

  lemma DropReleasedNone(st: State)
    ensures Replica.DropReleased(st, []) == st
  {
  }

  lemma OpsOne(st: State, steps: seq<Step>, i: nat)
    requires i < |steps|
    ensures ApplyOps(st, steps[i..]) ==
            (var st' := ApplyOp(st, steps[i].op, steps[i].made);
             if st'.Some? then ApplyOps(st'.value, steps[i + 1..]) else None)
  {
    hide ApplyOp;
    assert steps[i..][0] == steps[i] && steps[i..][1..] == steps[i + 1..];
  }

  lemma OpsNone(st: State)
    ensures ApplyOps(st, []) == Some(st)
  {
  }
}
