/** Every op, every frame and every run of frames keeps the holder counts exact. */
module ReplicaRuns {
  import opened Wrappers
  import opened Wire
  import opened StateTypes
  import opened OpCodec
  import opened Containers
  import opened Replica
  import opened ReplicaProofs
  import opened ReplicaOps
  import opened ReplicaBinds
  import opened ReplicaFrames

  // --------------------------------------------------------------------- ops

  /** A refId that denotes a collection denotes one that ops may change. */
  lemma RefReaches(st: State, target: int)
    requires OpInv(st, {}) && target in st.refs && st.refs[target].CollAt?
    ensures Reachable(st, st.refs[target].place) && st.refs[target].place in st.colls
  {
    hide GraphShape, Mapped, Exact, ZerosIn, ElementsRegistered, Registered, Family, Bounded, ClassesShape, Ordinary,
         SetOf;
  }

  lemma RefRegistered(st: State, target: int)
    requires OpInv(st, {}) && target in st.refs && st.refs[target].Inst?
    ensures st.refs[target].id in st.refOf && st.refs[target].id in st.bindingOf && st.rootBound
  {
    hide GraphShape, Mapped, Exact, ZerosIn, ElementsRegistered, Distinct, Family, Bounded, ClassesShape, Ordinary,
         SetOf;
  }

  lemma AddKeeps(st: State, target: int, key: Option<Val>, v: Val, a: Alloc)
    requires OpInv(st, {}) && ApplyAdd(st, target, key, v, a).Some?
    requires target in st.refs && target !in st.ignored ==> MayPlace(st, v, a)
    ensures OpInv(ApplyAdd(st, target, key, v, a).value, {})
  {
    hide OpInv, MayPlace, Reachable, Placeable, Replica.DecodeElement, PlaceInSet, PlaceInMap, PlaceInArray, Held;
    if target in st.ignored {
      IgnoreKeeps(st, v, {});
    } else {
      RefReaches(st, target);
      var p := st.refs[target].place;
      DecodeElementKeeps(st, p, st.colls[p].of, v, a);
      var e := Replica.DecodeElement(st, st.colls[p].of, v, a).value;
      if e.slot.Some? {
        match e.st.colls[p].contents {
          case Members(_) => PlaceInSetKeeps(st, p, e);
          case Entries(_) => PlaceInMapKeeps(st, p, key.value, e);
          case Items(_) => PlaceInArrayKeeps(st, p, Index(key.value).value, e);
        }
      }
    }
  }

  lemma SetKeeps(st: State, op: Op, a: Alloc)
    requires op.Set? && OpInv(st, {}) && Disciplined(st, Step(op, a)) && ApplySet(st, op, a).Some?
    ensures OpInv(ApplySet(st, op, a).value, {})
  {
    hide OpInv, MayPlace, Reachable, Placeable, Replica.DecodeElement, ApplyFieldSet, MayRebind, Held, Retain, Release;
    if op.target in st.ignored {
      IgnoreKeeps(st, op.value, {});
    } else if st.refs[op.target].Inst? {
      FieldSetKeeps(st, st.refs[op.target].id, op.target, op.key, op.value);
    } else {
      RefReaches(st, op.target);
      var p := st.refs[op.target].place;
      DecodeElementKeeps(st, p, st.colls[p].of, op.value, a);
      var e := Replica.DecodeElement(st, st.colls[p].of, op.value, a).value;
      if e.slot.Some? {
        ReplaceKeeps(st, p, Index(op.key).value, e);
      }
    }
  }

  /** The object nested in a mapped field of a registered instance can be bound. */
  lemma NestedReady(st: State, id: Id, key: Val, refId: int)
    requires OpInv(st, {}) && id in st.refOf && id in st.bindingOf && NestedAt(st, id, key).Some?
    requires var child := NestedAt(st, id, key).value; child in st.refOf ==> st.refOf[child] != refId
    ensures var child := NestedAt(st, id, key).value;
            && Bindable(st, child, refId) && ViaParent(st, child) && child in st.parent && child != st.root
            && (forall p :: p in st.colls ==> child !in Held(st.colls[p].contents))
  {
    hide Held, RefsShape, Mapped, Exact, ZerosIn, ElementsRegistered, Distinct, Family, Bounded, ClassesShape,
         Ordinary, SetOf;
  }

  lemma Orphans(st: State, child: Id, local: seq<int>)
    requires OpInv(st, {}) && child !in st.refOf
    ensures KeepsNested(st, child, local)
  {
    hide Inv, Bounded, ClassesShape, Ordinary;
  }

  lemma NestedKeeps(st: State, id: Id, key: Val, v: Val)
    requires OpInv(st, {}) && id in st.refOf && id in st.bindingOf && st.rootBound && NestedAt(st, id, key).Some?
    requires v.Ref? && v.classId in st.classes && MayRebind(st, id, key, v)
    requires var child := NestedAt(st, id, key).value;
             && (child in st.refOf ==> st.refOf[child] != v.refId)
             && BindInstance(st, child, st.classes[v.classId], v.refId).Some?
    ensures var child := NestedAt(st, id, key).value;
            OpInv(Retain(BindInstance(st, child, st.classes[v.classId], v.refId).value, Obj(child)), {})
  {
    hide OpInv, Retain, BindInstance, LocalOf, Distinct, DistinctNames, KeepsNested, ViaParent, Held, NestedAt, BoundAs;
    var child, binding := NestedAt(st, id, key).value, st.classes[v.classId];
    NestedReady(st, id, key, v.refId);
    NestedBindIs(st, child, binding, v.refId);
    ClassAt(st, v.classId);
    LocalOfDistinct(st, child, binding);
    var local := LocalOf(st, child, binding).value;
    if child !in st.refOf {
      Orphans(st, child, local);
    }
    BoundKeeps(st, child, binding.types, local, v.refId, 1);
  }

  lemma FieldSetKeeps(st: State, id: Id, target: int, key: Val, v: Val)
    requires OpInv(st, {}) && target in st.refs && st.refs[target] == Inst(id) && MayRebind(st, id, key, v)
    requires Index(key).Some? && ApplyFieldSet(st, id, Index(key).value, v).Some?
    ensures OpInv(ApplyFieldSet(st, id, Index(key).value, v).value, {})
  {
    hide OpInv, MayRebind, BindInstance, Retain, Fits, IgnoreValue;
    RefRegistered(st, target);
    var index := Index(key).value;
    var l, of := st.bindingOf[id].local[index], st.bindingOf[id].types[index];
    if of.kind.Schema? {
      if l < 0 || (id, l as nat) !in st.nested {
        IgnoreKeeps(st, v, {});
      } else {
        var child := st.nested[(id, l as nat)];
        assert NestedAt(st, id, key) == Some(child);
        if !(child in st.refOf && st.refOf[child] == v.refId) {
          NestedKeeps(st, id, key, v);
        }
      }
    }
  }

  lemma RemovedIsHeld(members: seq<Slot>, slot: Slot)
    ensures SlotIndex(members, slot) < |members| ==> multiset(SlotIds(Some(slot))) <= Held(Members(members))
  {
    hide Ids;
    var i := SlotIndex(members, slot);
    if i < |members| {
      SlotIsHeld(members, i);
    }
  }

  lemma MemberRemovalKeeps(st: State, p: Place, slot: Slot)
    requires OpInv(st, {}) && Reachable(st, p) && p in st.colls && st.colls[p].contents.Members?
    ensures var (after, removed) := DeleteMember(st.colls[p].contents.members, slot);
            var st' := SetContents(st, p, Members(after));
            && (removed ==> OpInv(Release(st', [slot]), {}))
            && (!removed || slot.Plain? ==> OpInv(st', {}))
  {
    hide OpInv, Held, Reachable, Ids, Release;
    var members := st.colls[p].contents.members;
    var (after, removed) := DeleteMember(members, slot);
    DeleteMemberHeld(members, slot);
    RemovedIsHeld(members, slot);
    IdsOne(slot);
    IdsNone();
    if removed {
      ChangeKeeps(st, {}, p, Members(after), [slot], None);
    }
    if !removed || slot.Plain? {
      QuietChange(st, p, Members(after), None);
      ChangeKeeps(st, {}, p, Members(after), [], None);
    }
  }

  lemma EntryRemovalKeeps(st: State, p: Place, key: Val)
    requires OpInv(st, {}) && Reachable(st, p) && p in st.colls && st.colls[p].contents.Entries?
    ensures var (after, removed) := DeleteKey(st.colls[p].contents.entries, key);
            OpInv(Release(SetContents(st, p, Entries(after)), Optional(removed)), {})
  {
    hide OpInv, Held, Reachable, Ids, Release, Optional;
    var entries := st.colls[p].contents.entries;
    var (after, removed) := DeleteKey(entries, key);
    DeleteKeyHeld(entries, key);
    PreviousIsHeld(entries, key);
    OptionalIds(removed);
    ChangeKeeps(st, {}, p, Entries(after), Optional(removed), None);
  }

  lemma ItemRemovalKeeps(st: State, p: Place, index: nat)
    requires OpInv(st, {}) && Reachable(st, p) && p in st.colls && st.colls[p].contents.Items?
             && index < |st.colls[p].contents.items|
    ensures var (after, removed) := RemoveAt(st.colls[p].contents.items, index).value;
            OpInv(Release(SetContents(st, p, Items(after)), [removed]), {})
  {
    hide OpInv, Held, Reachable, Ids, Release;
    var items := st.colls[p].contents.items;
    var (after, removed) := RemoveAt(items, index).value;
    RemoveAtHeld(items, index);
    SlotIsHeld(items, index);
    HeldIs(Items(items));
    IdsOne(removed);
    ChangeKeeps(st, {}, p, Items(after), [removed], None);
  }

  lemma RemoveKeeps(st: State, target: int, key: Val)
    requires OpInv(st, {}) && ApplyRemove(st, target, key).Some?
    ensures OpInv(ApplyRemove(st, target, key).value, {})
  {
    hide OpInv, Held, Reachable, Release, DeleteMember, DeleteKey, RemoveAt, Fits, SetContents;
    if target !in st.ignored {
      RefReaches(st, target);
      var p := st.refs[target].place;
      match st.colls[p].contents {
        case Entries(_) => EntryRemovalKeeps(st, p, key);
        case Items(_) => RemoveItemKeeps(st, p, key);
        case Members(_) =>
          if st.colls[p].of.HoldsSchemas() {
            if key.n in st.refs && st.refs[key.n].Inst? {
              MemberRemovalKeeps(st, p, Obj(st.refs[key.n].id));
            }
          } else {
            MemberRemovalKeeps(st, p, Plain(key));
          }
      }
    }
  }

  lemma RemoveItemKeeps(st: State, p: Place, key: Val)
    requires OpInv(st, {}) && Reachable(st, p) && p in st.colls && st.colls[p].contents.Items?
    requires Index(key).Some? && RemoveAt(st.colls[p].contents.items, Index(key).value).Some?
    ensures var (after, removed) := RemoveAt(st.colls[p].contents.items, Index(key).value).value;
            OpInv(Release(SetContents(st, p, Items(after)), [removed]), {})
  {
    hide OpInv, Held, Reachable, Release;
    ItemRemovalKeeps(st, p, Index(key).value);
  }

  lemma ClearKeeps(st: State, target: int)
    requires OpInv(st, {}) && ApplyClear(st, target).Some?
    ensures OpInv(ApplyClear(st, target).value, {})
  {
    hide OpInv, Held, Reachable, Release, Ids;
    if target !in st.ignored {
      RefReaches(st, target);
      var p := st.refs[target].place;
      var contents := st.colls[p].contents;
      var empty := match contents
        case Entries(_) => Entries([])
        case Items(_) => Items([])
        case Members(_) => Members([]);
      HeldIs(contents);
      HeldIs(empty);
      IdsNone();
      ChangeKeeps(st, {}, p, empty, SlotsOf(contents), None);
    }
  }

  lemma RootReady(st: State, binding: Binding)
    requires OpInv(st, {}) && !st.rootBound
    ensures st.refOf == map[] && st.root !in st.refOf && st.root !in st.parent && Bindable(st, st.root, 0)
    ensures ViaParent(st, st.root) && (forall local :: KeepsNested(st, st.root, local))
    ensures forall p :: p in st.colls ==> st.root !in Held(st.colls[p].contents)
  {
    hide Held, RefsShape, Mapped, Exact, ZerosIn, ElementsRegistered, Distinct, Family, Bounded, ClassesShape,
         Ordinary, SetOf;
  }

  lemma DefineKeeps(st: State, op: Op)
    requires op.Define? && DistinctNames(op.fields) && OpInv(st, {}) && ApplyDefine(st, op).Some?
    ensures OpInv(ApplyDefine(st, op).value, {})
  {
    hide Held, DistinctNames, Distinct, BindInstance, LocalOf, BoundAs, KeepsNested, ViaParent, Inv, Family, Bounded,
         Ordinary;
    var binding := Binding(op.name, op.fields, op.types, ParseAll(op.types).value);
    ClassesFrame(st, st.classes[op.classId := binding], {});
    hide OpInv;
    var st1 := st.(classes := st.classes[op.classId := binding]);
    if !st.rootBound && st.root in st.classOf && st.classOf[st.root] == op.name {
      RootReady(st1, binding);
      FirstBindIs(st1, st.root, binding, 0, FOREVER);
      LocalOfDistinct(st1, st.root, binding);
      BoundKeeps(st1, st.root, binding.types, LocalOf(st1, st.root, binding).value, 0, FOREVER);
    }
  }

  lemma OpKeeps(st: State, step: Step)
    requires OpInv(st, {}) && Disciplined(st, step) && ApplyOp(st, step.op, step.made).Some?
    ensures OpInv(ApplyOp(st, step.op, step.made).value, {})
  {
    hide OpInv, ApplyDefine, ApplySet, ApplyAdd, ApplyRemove, ApplyClear, MayPlace, MayRebind, DistinctNames;
    match step.op {
      case Define(_, _, _, _) => DefineKeeps(st, step.op);
      case Set(_, _, _) => SetKeeps(st, step.op, step.made);
      case Add(target, key, v) => AddKeeps(st, target, Some(key), v, step.made);
      case AddToSet(target, v) => AddKeeps(st, target, None, v, step.made);
      case Remove(target, key) => RemoveKeeps(st, target, key);
      case Clear(target) => ClearKeeps(st, target);
    }
  }

  // ------------------------------------------------------------------ frames

  /** Every op of the frame is disciplined in the state it meets. */
  ghost predicate DisciplinedOps(st: State, steps: seq<Step>)
    decreases |steps|
  {
    steps == [] ||
    (&& Disciplined(st, steps[0])
     && (ApplyOp(st, steps[0].op, steps[0].made).Some? ==>
           DisciplinedOps(ApplyOp(st, steps[0].op, steps[0].made).value, steps[1..])))
  }

  lemma {:induction false} OpsKeep(st: State, steps: seq<Step>)
    requires OpInv(st, {}) && DisciplinedOps(st, steps) && ApplyOps(st, steps).Some?
    ensures OpInv(ApplyOps(st, steps).value, {})
    decreases |steps|
  {
    hide OpInv, ApplyOp, Disciplined;
    if steps != [] {
      OpKeeps(st, steps[0]);
      OpsKeep(ApplyOp(st, steps[0].op, steps[0].made).value, steps[1..]);
    }
  }

  /** Drops keep the graph and the classes, bind nothing and raise no count. */
  ghost predicate OnlyDrops(st: State, st': State) {
    && SameGraph(st, st') && st'.classes == st.classes && st'.shapes == st.shapes
    && (forall id :: id in st'.bindingOf ==> id in st.bindingOf && st'.bindingOf[id] == st.bindingOf[id])
    && (forall y :: y in st'.holders ==> y in st.holders && st'.holders[y] <= st.holders[y])
  }

  lemma DropsTwice(a: State, b: State, c: State)
    requires OnlyDrops(a, b) && OnlyDrops(b, c)
    ensures OnlyDrops(a, c)
  {
  }

  lemma NoDrops(st: State)
    ensures OnlyDrops(st, st)
  {
  }

  lemma ForgetOnly(st: State, id: Id)
    requires id in st.refOf && id in st.bindingOf
    ensures OnlyDrops(st, Forget(st, id))
  {
    hide Span;
  }

  lemma RecountOnly(st: State, id: Id)
    requires id in st.holders
    ensures OnlyDrops(st, Recount(st, id, st.holders[id] - 1))
  {
  }

  lemma {:induction false} DropOnly(st: State, id: Id)
    ensures OnlyDrops(st, Drop(st, id))
    decreases |st.refOf|, 0
  {
    hide Children, DropChildren, OnlyDrops;
    if id in st.refOf && id in st.bindingOf {
      Shrinks(st.refOf, id);
      var children := Children(st, id, st.bindingOf[id].local);
      ForgetOnly(st, id);
      DropChildrenOnly(Forget(st, id), children);
      DropsTwice(st, Forget(st, id), DropChildren(Forget(st, id), children));
    } else {
      NoDrops(st);
    }
  }

  lemma {:induction false} DropChildrenOnly(st: State, children: seq<Id>)
    ensures OnlyDrops(st, DropChildren(st, children))
    decreases |st.refOf|, |children|
  {
    hide Drop, OnlyDrops;
    if children == [] {
      NoDrops(st);
    } else {
      var c, rest := children[0], children[1..];
      if c !in st.holders {
        DropChildrenOnly(st, rest);
      } else {
        var st1 := Recount(st, c, st.holders[c] - 1);
        RecountOnly(st, c);
        DropOnly(st1, c);
        DropsTwice(st, st1, Drop(st1, c));
        var st2 := if st1.holders[c] <= 0 then Drop(st1, c) else st1;
        SubsetSize(Drop(st1, c).refOf.Keys, st.refOf.Keys);
        DropChildrenOnly(st2, rest);
        DropsTwice(st, st2, DropChildren(st2, rest));
      }
    }
  }

  lemma {:induction false} DropReleasedOnly(st: State, released: seq<Id>)
    ensures OnlyDrops(st, DropReleased(st, released))
    decreases |released|
  {
    hide Drop, OnlyDrops;
    if released == [] {
      NoDrops(st);
    } else {
      var id, rest := released[0], released[1..];
      var st1 := if id in st.holders && st.holders[id] <= 0 then Drop(st, id) else st;
      NoDrops(st);
      DropOnly(st, id);
      DropReleasedOnly(st1, rest);
      DropsTwice(st, st1, DropReleased(st1, rest));
    }
  }

  /** The invariant between frames. */
  ghost predicate Settled(st: State) {
    Inv(st, multiset{}, {}) && Bounded(st) && ClassesShape(st)
  }

  /** With every count exact and positive, a nested instance's parent is registered. */
  lemma SettledFamily(st: State)
    requires Inv(st, multiset{}, {})
    ensures Family(st)
  {
    hide Held, Slots, RefsShape, Mapped, Distinct, ElementsRegistered;
    forall y | y in st.refOf && y in st.parent
      ensures st.parent[y].0 in st.refOf
    {
      SlotsZero(st.colls, Live(st), y);
    }
  }

  lemma Unreleased(st: State, debt: multiset<Id>, pending: set<Id>, released: seq<Id>)
    requires Inv(st, debt, pending)
    ensures Inv(st.(released := released), debt, pending)
  {
    hide GraphShape, RefsShape, Mapped, Held, Slots, Distinct, Count;
    var st' := st.(released := released);
    GraphFrame(st, st');
    RefsFrame(st, st');
    MappedFrame(st, st');
    assert Live(st') == Live(st);
    forall y: Id
      ensures Count(st', y) == Count(st, y)
    {
      CountFrame(st, st', y);
    }
  }

  lemma SettledStarts(st: State)
    requires Settled(st)
    ensures OpInv(st.(released := []), {})
  {
    hide Inv, DistinctNames, SetOf;
    SettledFamily(st);
    Unreleased(st, multiset{}, {}, []);
    SetOfStep([]);
    assert SetOf([]) + {} == {};
  }

  /** One frame: whatever its ops do, the drops at its end settle the counts. */
  lemma FrameKeeps(st: State, steps: seq<Step>)
    requires Settled(st) && DisciplinedOps(st.(released := []), steps) && ApplyFrame(st, steps).Some?
    ensures Settled(ApplyFrame(st, steps).value)
  {
    SettledStarts(st);
    var st1 := st.(released := []);
    OpsKeep(st1, steps);
    var st2 := ApplyOps(st1, steps).value;
    hide ApplyOps, Inv, DropReleased, DistinctNames, SetOf;
    assert SetOf(st2.released) + {} == SetOf(st2.released);
    DropReleasedKeeps(st2, st2.released);
    DropReleasedOnly(st2, st2.released);
  }

  lemma FrameKeepsIf(st: State, steps: seq<Step>)
    requires Settled(st) && DisciplinedOps(st.(released := []), steps)
    ensures ApplyFrame(st, steps).Some? ==> Settled(ApplyFrame(st, steps).value)
  {
    hide Settled, DisciplinedOps, ApplyFrame;
    if ApplyFrame(st, steps).Some? {
      FrameKeeps(st, steps);
    }
  }

  // -------------------------------------------------------------------- runs

  function Run(st: State, frames: seq<seq<Step>>): Option<State>
    decreases |frames|
  {
    if frames == [] then Some(st)
    else
      var st' :- ApplyFrame(st, frames[0]);
      Run(st', frames[1..])
  }

  ghost predicate DisciplinedRun(st: State, frames: seq<seq<Step>>)
    decreases |frames|
  {
    frames == [] ||
    (&& DisciplinedOps(st.(released := []), frames[0])
     && (ApplyFrame(st, frames[0]).Some? ==> DisciplinedRun(ApplyFrame(st, frames[0]).value, frames[1..])))
  }

  lemma {:induction false} RunKeeps(st: State, frames: seq<seq<Step>>)
    requires Settled(st) && DisciplinedRun(st, frames) && Run(st, frames).Some?
    ensures Settled(Run(st, frames).value)
    decreases |frames|
  {
    hide Settled, ApplyFrame, DisciplinedOps;
    if frames != [] {
      FrameKeeps(st, frames[0]);
      RunKeeps(ApplyFrame(st, frames[0]).value, frames[1..]);
    }
  }

  /** A decoder before its first frame: a root made by its constructor, and nothing registered. */
  ghost predicate Starting(st: State) {
    && GraphShape(st)
    && st.classes == map[] && st.refs == map[] && st.refOf == map[] && st.bindingOf == map[] && st.holders == map[]
  }

  lemma StartingSettled(st: State)
    requires Starting(st)
    ensures Settled(st)
  {
    hide GraphShape;
    assert Live(st) == {};
  }

  /**
   Exact holder counts over every run: each registered instance but the root
   has a holder, its count is the number of visible slots that hold it plus
   one for a registered nesting parent, what is visible is registered, and a
   refId leads only to registered instances and their collections.
   */
  lemma ExactHolders(start: State, frames: seq<seq<Step>>)
    requires Starting(start) && DisciplinedRun(start, frames) && Run(start, frames).Some?
    ensures var st := Run(start, frames).value;
            && (forall y :: y in st.refOf && y != st.root ==>
                  y in st.holders && st.holders[y] == Count(st, y) && st.holders[y] >= 1)
            && (forall p, y :: p in Live(st) && y in Held(st.colls[p].contents) ==> y in st.refOf)
            && (forall y :: y in st.refOf && y in st.parent ==> st.parent[y].0 in st.refOf)
            && (forall k :: k in st.refs ==>
                  if st.refs[k].Inst? then st.refs[k].id in st.refOf && st.refOf[st.refs[k].id] == k
                  else st.refs[k].place in Live(st))
  {
    StartingSettled(start);
    RunKeeps(start, frames);
    SettledFamily(Run(start, frames).value);
    hide Held, Run, DisciplinedRun, Slots, GraphShape, Mapped, Distinct, Count;
  }
}
