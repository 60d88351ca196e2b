/**
 Where the discipline of rebinding comes from: if the server has one class for
 each local class, every run keeps it.
 */
module ReplicaClasses {
  import opened Wrappers
  import opened Wire
  import opened StateTypes
  import opened OpCodec
  import opened Containers
  import opened Replica
  import opened ReplicaProofs
  import opened ReplicaOps
  import opened ReplicaFrames
  import opened ReplicaRuns

  /** The server class of each local class. */
  type Declarations = string -> Binding

  /** Every bound instance is mapped as its local class's server class. */
  ghost predicate Conforms(decl: Declarations, st: State) {
    forall id :: id in st.bindingOf ==> id in st.classOf && MappedAs(st, id, decl(st.classOf[id]))
  }

  /** An element that would be made here is of its local class's server class. */
  ghost predicate PlacesDeclared(decl: Declarations, st: State, v: Val, a: Alloc) {
    v.Ref? && v.refId !in st.refs && v.classId in st.classes && st.classes[v.classId].name in st.registry
    && a.id in a.classOf ==>
      SameDeclaration(decl(a.classOf[a.id]), st.classes[v.classId])
  }

  /** Whatever the op binds, it binds as the server class of its local class. */
  ghost predicate OneClass(decl: Declarations, st: State, step: Step) {
    match step.op
    case Define(_, name, fields, types) =>
      CheckDefine(step.op) && !st.rootBound && st.root in st.classOf && st.classOf[st.root] == name ==>
        SameDeclaration(decl(name), Binding(name, fields, types, ParseAll(types).value))
    case Set(target, key, v) =>
      target in st.refs && target !in st.ignored ==>
        (match st.refs[target]
         case Inst(id) =>
           var child := NestedAt(st, id, key);
           child.Some? && child.value in st.classOf && v.Ref? && v.classId in st.classes ==>
             SameDeclaration(decl(st.classOf[child.value]), st.classes[v.classId])
         case CollAt(_) => PlacesDeclared(decl, st, v, step.made))
    case Add(target, _, v) => target in st.refs && target !in st.ignored ==> PlacesDeclared(decl, st, v, step.made)
    case AddToSet(target, v) => target in st.refs && target !in st.ignored ==> PlacesDeclared(decl, st, v, step.made)
    case _ => true
  }

  /** The rest of the discipline. */
  ghost predicate Orderly(st: State, step: Step) {
    match step.op
    case Define(_, _, fields, _) => DistinctNames(fields)
    case Set(target, key, v) =>
      target in st.refs && target !in st.ignored && st.refs[target].CollAt? ==> MayPlace(st, v, step.made)
    case Add(target, _, v) => target in st.refs && target !in st.ignored ==> MayPlace(st, v, step.made)
    case AddToSet(target, v) => target in st.refs && target !in st.ignored ==> MayPlace(st, v, step.made)
    case _ => true
  }

  // ------------------------------------------------------------- what ops keep

  /** No binding is made or changed, and instances keep their classes. */
  ghost predicate SameBindings(st: State, st': State) {
    && st'.shapes == st.shapes && st'.bindingOf == st.bindingOf
    && (forall id :: id in st.classOf ==> id in st'.classOf && st'.classOf[id] == st.classOf[id])
  }

  lemma SameConforms(decl: Declarations, st: State, st': State)
    requires Conforms(decl, st) && SameBindings(st, st')
    ensures Conforms(decl, st')
  {
    hide LocalFields;
    forall id | id in st'.bindingOf
      ensures id in st'.classOf && MappedAs(st', id, decl(st'.classOf[id]))
    {
      assert id in st.bindingOf;
    }
  }

  lemma BindConforms(decl: Declarations, st: State, id: Id, b: Binding, refId: int)
    requires Conforms(decl, st) && id in st.classOf && SameDeclaration(decl(st.classOf[id]), b)
    requires BindInstance(st, id, b, refId).Some?
    ensures Conforms(decl, BindInstance(st, id, b, refId).value)
  {
    var st' := BindInstance(st, id, b, refId).value;
    BindRecords(st, id, b, refId);
    BindFrame(st, id, b, refId);
    SameMapping(st', id, decl(st.classOf[id]), b);
    hide BindInstance, LocalOf;
    forall x | x in st'.bindingOf
      ensures x in st'.classOf && MappedAs(st', x, decl(st'.classOf[x]))
    {
      if x != id {
        assert x in st.bindingOf;
        assert MappedAs(st, x, decl(st.classOf[x]));
      }
    }
  }

  lemma BindFrame(st: State, id: Id, b: Binding, refId: int)
    requires BindInstance(st, id, b, refId).Some?
    ensures var st' := BindInstance(st, id, b, refId).value;
            st'.classOf == st.classOf && st'.shapes == st.shapes && st'.bindingOf.Keys == st.bindingOf.Keys + {id}
  {
    hide LocalOf, BindCollections, ResetColls, HeldSlots, ReleaseIn, Span;
  }

  lemma IgnoreSame(st: State, v: Val)
    requires IgnoreValue(st, v).Some?
    ensures SameBindings(st, IgnoreValue(st, v).value)
  {
    hide Span;
  }

  lemma ElementConforms(decl: Declarations, st: State, of: StateType, v: Val, a: Alloc)
    requires Conforms(decl, st) && MayPlace(st, v, a) && PlacesDeclared(decl, st, v, a)
    requires Replica.DecodeElement(st, of, v, a).Some?
    ensures Conforms(decl, Replica.DecodeElement(st, of, v, a).value.st)
  {
    hide Conforms, BindInstance, GoodAlloc, SameDeclaration, Ignore, Allocate, Replica.Fits, Placeable;
    if of.HoldsSchemas() && v.Ref? && v.refId !in st.refs {
      var b := st.classes[v.classId];
      if b.name !in st.registry {
        IgnoredSame(st, v.refId, b.types);
        SameConforms(decl, st, Ignore(st, v.refId, b.types));
      } else {
        MadeConforms(decl, st, a, b, v.refId);
      }
    }
  }

  lemma IgnoredSame(st: State, refId: int, types: seq<StateType>)
    ensures SameBindings(st, Ignore(st, refId, types))
  {
    hide Span;
  }

  lemma MadeConforms(decl: Declarations, st: State, a: Alloc, b: Binding, refId: int)
    requires Conforms(decl, st) && GoodAlloc(st, a) && BindInstance(Allocate(st, a), a.id, b, refId).Some?
    requires a.id in a.classOf ==> SameDeclaration(decl(a.classOf[a.id]), b)
    ensures Conforms(decl, BindInstance(Allocate(st, a), a.id, b, refId).value)
  {
    hide Conforms, BindInstance, SameDeclaration, Held;
    AllocatedSame(st, a);
    SameConforms(decl, st, Allocate(st, a));
    BindConforms(decl, Allocate(st, a), a.id, b, refId);
  }

  lemma AllocatedSame(st: State, a: Alloc)
    requires GoodAlloc(st, a)
    ensures SameBindings(st, Allocate(st, a))
    ensures a.id in Allocate(st, a).classOf && Allocate(st, a).classOf[a.id] == a.classOf[a.id]
  {
    hide Held;
  }

  lemma RetainSame(st: State, slot: Slot)
    ensures SameBindings(st, Retain(st, slot))
  {
    hide RetainIn;
  }

  lemma ReleaseSame(st: State, slots: seq<Slot>)
    ensures SameBindings(st, Release(st, slots))
  {
    hide ReleaseIn;
  }

  lemma ContentsSame(st: State, p: Place, contents: Contents)
    requires p in st.colls
    ensures SameBindings(st, SetContents(st, p, contents))
  {
  }

  lemma SameTwice(a: State, b: State, c: State)
    requires SameBindings(a, b) && SameBindings(b, c)
    ensures SameBindings(a, c)
  {
  }

  /** New contents, with what that releases and retains. */
  lemma ChangeSame(st: State, p: Place, contents: Contents, slots: seq<Slot>, slot: Slot)
    requires p in st.colls
    ensures var st1 := SetContents(st, p, contents);
            && SameBindings(st, st1) && SameBindings(st, Release(st1, slots)) && SameBindings(st, Retain(st1, slot))
            && SameBindings(st, Retain(Release(st1, slots), slot))
  {
    hide SameBindings, SetContents, Release, Retain;
    var st1 := SetContents(st, p, contents);
    ContentsSame(st, p, contents);
    ReleaseSame(st1, slots);
    SameTwice(st, st1, Release(st1, slots));
    RetainSame(st1, slot);
    SameTwice(st, st1, Retain(st1, slot));
    RetainSame(Release(st1, slots), slot);
    SameTwice(st, Release(st1, slots), Retain(Release(st1, slots), slot));
  }

  lemma SameSelf(st: State)
    ensures SameBindings(st, st)
  {
  }

  lemma PlacedSame(st: State, p: Place, key: Option<Val>, slot: Slot)
    requires p in st.colls && Replica.GoodKey(st.colls[p], key)
    ensures st.colls[p].contents.Members? && PlaceInSet(st, p, slot).Some? ==>
              SameBindings(st, PlaceInSet(st, p, slot).value)
    ensures st.colls[p].contents.Entries? && PlaceInMap(st, p, key.value, slot).Some? ==>
              SameBindings(st, PlaceInMap(st, p, key.value, slot).value)
    ensures st.colls[p].contents.Items? && PlaceInArray(st, p, Index(key.value).value, slot).Some? ==>
              SameBindings(st, PlaceInArray(st, p, Index(key.value).value, slot).value)
  {
    hide SameBindings, SetContents, Release, Retain, AddMember, Upsert, Insert;
    match st.colls[p].contents {
      case Members(members) => ChangeSame(st, p, Members(AddMember(members, slot).0), [], slot);
      case Entries(entries) =>
        var (after, previous) := Upsert(entries, key.value, slot);
        ChangeSame(st, p, Entries(after), Optional(previous), slot);
      case Items(items) =>
        var after := Insert(items, Index(key.value).value, slot);
        if after.Some? {
          ChangeSame(st, p, Items(after.value), [], slot);
        }
    }
  }

  lemma AddConforms(decl: Declarations, st: State, target: int, key: Option<Val>, v: Val, a: Alloc)
    requires Conforms(decl, st) && ApplyAdd(st, target, key, v, a).Some?
    requires target in st.refs && target !in st.ignored ==> MayPlace(st, v, a) && PlacesDeclared(decl, st, v, a)
    ensures Conforms(decl, ApplyAdd(st, target, key, v, a).value)
  {
    hide Replica.DecodeElement, Conforms, MayPlace, PlacesDeclared, IgnoreValue, SameBindings, PlaceInSet, PlaceInMap,
         PlaceInArray;
    var st' := ApplyAdd(st, target, key, v, a).value;
    if target in st.ignored {
      IgnoreSame(st, v);
      SameConforms(decl, st, st');
    } else {
      var p := st.refs[target].place;
      ElementConforms(decl, st, st.colls[p].of, v, a);
      var e := Replica.DecodeElement(st, st.colls[p].of, v, a).value;
      if e.slot.Some? {
        PlacedSame(e.st, p, key, e.slot.value);
        SameConforms(decl, e.st, st');
      }
    }
  }

  lemma ReplaceConforms(decl: Declarations, st: State, p: Place, index: nat, v: Val, a: Alloc)
    requires Conforms(decl, st) && ReplaceElement(st, p, index, v, a).Some?
    requires MayPlace(st, v, a) && PlacesDeclared(decl, st, v, a)
    ensures Conforms(decl, ReplaceElement(st, p, index, v, a).value)
  {
    hide Replica.DecodeElement, Conforms, MayPlace, PlacesDeclared, Release, Retain, SetContents, Replace, SameBindings;
    ElementConforms(decl, st, st.colls[p].of, v, a);
    var e := Replica.DecodeElement(st, st.colls[p].of, v, a).value;
    if e.slot.Some? {
      var (items, previous) := Replace(e.st.colls[p].contents.items, index, e.slot.value).value;
      ChangeSame(e.st, p, Items(items), [previous], e.slot.value);
      SameConforms(decl, e.st, ReplaceElement(st, p, index, v, a).value);
    }
  }

  lemma FieldConforms(decl: Declarations, st: State, id: Id, index: nat, key: Val, v: Val)
    requires Conforms(decl, st) && GraphShape(st) && Index(key) == Some(index) && ApplyFieldSet(st, id, index, v).Some?
    requires var child := NestedAt(st, id, key);
             child.Some? && child.value in st.classOf && v.Ref? && v.classId in st.classes ==>
               SameDeclaration(decl(st.classOf[child.value]), st.classes[v.classId])
    ensures Conforms(decl, ApplyFieldSet(st, id, index, v).value)
  {
    hide Conforms, GraphShape, BindInstance, Retain, IgnoreValue, SameDeclaration, SameBindings, Replica.Fits;
    var st' := ApplyFieldSet(st, id, index, v).value;
    var b := st.bindingOf[id];
    var l := b.local[index];
    if b.types[index].kind.Schema? {
      if l >= 0 && (id, l) in st.nested {
        var child := st.nested[(id, l)];
        NestedHasClass(st, (id, l));
        if !(child in st.refOf && st.refOf[child] == v.refId) {
          var bound := BindInstance(st, child, st.classes[v.classId], v.refId).value;
          BindConforms(decl, st, child, st.classes[v.classId], v.refId);
          RetainSame(bound, Obj(child));
          SameConforms(decl, bound, st');
        }
      } else {
        IgnoreSame(st, v);
        SameConforms(decl, st, st');
      }
    }
  }

  lemma NestedHasClass(st: State, p: Place)
    requires GraphShape(st) && p in st.nested
    ensures st.nested[p] in st.classOf
  {
    hide Held;
  }

  lemma DefineConforms(decl: Declarations, st: State, step: Step)
    requires Conforms(decl, st) && step.op.Define? && OneClass(decl, st, step) && ApplyDefine(st, step.op).Some?
    ensures Conforms(decl, ApplyDefine(st, step.op).value)
  {
    var op := step.op;
    var binding := Binding(op.name, op.fields, op.types, ParseAll(op.types).value);
    var st1 := st.(classes := st.classes[op.classId := binding]);
    hide BindInstance, ParseAll, CheckDefine;
    SameConforms(decl, st, st1);
    if !st.rootBound && st.root in st.classOf && st.classOf[st.root] == op.name {
      BindConforms(decl, st1, st.root, binding, 0);
      SameConforms(decl, BindInstance(st1, st.root, binding, 0).value, ApplyDefine(st, op).value);
    }
  }

  lemma RemovedSame(st: State, p: Place, key: Val)
    requires p in st.colls && RemoveKeyed(st, p, key).Some?
    ensures SameBindings(st, RemoveKeyed(st, p, key).value)
  {
    hide SameBindings, SetContents, Release, DeleteKey, RemoveAt, DeleteMember, Replica.Fits;
    SameSelf(st);
    match st.colls[p].contents {
      case Entries(entries) =>
        var (after, removed) := DeleteKey(entries, key);
        ChangeSame(st, p, Entries(after), Optional(removed), Plain(key));
      case Items(items) =>
        var (after, removed) := RemoveAt(items, Index(key).value).value;
        ChangeSame(st, p, Items(after), [removed], Plain(key));
      case Members(members) =>
        var held := st.colls[p].of.HoldsSchemas() && key.n in st.refs && st.refs[key.n].Inst?;
        var slot := if held then Obj(st.refs[key.n].id) else Plain(key);
        ChangeSame(st, p, Members(DeleteMember(members, slot).0), [slot], slot);
    }
  }

  lemma RemoveConforms(decl: Declarations, st: State, target: int, key: Val)
    requires Conforms(decl, st) && ApplyRemove(st, target, key).Some?
    ensures Conforms(decl, ApplyRemove(st, target, key).value)
  {
    hide Conforms, SameBindings, RemoveKeyed;
    if target !in st.ignored {
      RemovedSame(st, st.refs[target].place, key);
      SameConforms(decl, st, ApplyRemove(st, target, key).value);
    }
  }

  lemma ClearConforms(decl: Declarations, st: State, target: int)
    requires Conforms(decl, st) && ApplyClear(st, target).Some?
    ensures Conforms(decl, ApplyClear(st, target).value)
  {
    hide Conforms, SameBindings, SetContents, Release, SlotsOf;
    if target !in st.ignored {
      var p := st.refs[target].place;
      var contents := st.colls[p].contents;
      var empty := match contents
        case Entries(_) => Entries([])
        case Items(_) => Items([])
        case Members(_) => Members([]);
      ChangeSame(st, p, empty, SlotsOf(contents), Plain(Null));
      SameConforms(decl, st, ApplyClear(st, target).value);
    }
  }

  lemma OpConforms(decl: Declarations, st: State, step: Step)
    requires Conforms(decl, st) && OpInv(st, {}) && Orderly(st, step) && OneClass(decl, st, step)
    requires ApplyOp(st, step.op, step.made).Some?
    ensures Conforms(decl, ApplyOp(st, step.op, step.made).value)
  {
    OpGraph(st);
    hide Conforms, OpInv, GraphShape, ApplyDefine, ApplyAdd, ApplyRemove, ApplyClear, ApplyFieldSet, ReplaceElement,
         MayPlace, PlacesDeclared, NestedAt, IgnoreValue;
    match step.op {
      case Define(_, _, _, _) => DefineConforms(decl, st, step);
      case Set(target, key, v) =>
        if target in st.ignored {
          IgnoreSame(st, v);
          SameConforms(decl, st, IgnoreValue(st, v).value);
        } else if st.refs[target].Inst? {
          FieldConforms(decl, st, st.refs[target].id, Index(key).value, key, v);
        } else {
          ReplaceConforms(decl, st, st.refs[target].place, Index(key).value, v, step.made);
        }
      case Add(target, key, v) => AddConforms(decl, st, target, Some(key), v, step.made);
      case AddToSet(target, v) => AddConforms(decl, st, target, None, v, step.made);
      case Remove(target, key) => RemoveConforms(decl, st, target, key);
      case Clear(target) => ClearConforms(decl, st, target);
    }
  }

  lemma OpGraph(st: State)
    requires OpInv(st, {})
    ensures GraphShape(st)
  {
    hide Held, Mapped, RefsShape, Exact, ZerosIn, ElementsRegistered;
  }

  /** With one server class per local class, rebinding keeps what is nested mapped. */
  lemma OpDisciplined(decl: Declarations, st: State, step: Step)
    requires Conforms(decl, st) && OpInv(st, {}) && Orderly(st, step) && OneClass(decl, st, step)
    ensures Disciplined(st, step)
  {
    if step.op.Set? && step.op.target in st.refs && step.op.target !in st.ignored && st.refs[step.op.target].Inst? {
      var id, key, v := st.refs[step.op.target].id, step.op.key, step.op.value;
      var child := NestedAt(st, id, key);
      if child.Some? && child.value in st.refOf && v.Ref? && v.classId in st.classes {
        Registered(st, child.value);
        hide OpInv, MappedAs, NestedAt, MayRebind;
        OneClassIsEnough(st, id, key, v, decl(st.classOf[child.value]));
      }
    }
  }

  lemma Registered(st: State, id: Id)
    requires OpInv(st, {}) && id in st.refOf
    ensures id in st.bindingOf
  {
    hide Held, GraphShape, Exact, ZerosIn, ElementsRegistered, Distinct;
  }

  // ------------------------------------------------------------------- runs

  ghost predicate OrderlyOps(decl: Declarations, st: State, steps: seq<Step>)
    decreases |steps|
  {
    steps == [] ||
    (&& Orderly(st, steps[0]) && OneClass(decl, st, steps[0])
     && (ApplyOp(st, steps[0].op, steps[0].made).Some? ==>
           OrderlyOps(decl, ApplyOp(st, steps[0].op, steps[0].made).value, steps[1..])))
  }

  lemma {:induction false} OpsDisciplined(decl: Declarations, st: State, steps: seq<Step>)
    requires Conforms(decl, st) && OpInv(st, {}) && OrderlyOps(decl, st, steps)
    ensures DisciplinedOps(st, steps)
    ensures ApplyOps(st, steps).Some? ==> Conforms(decl, ApplyOps(st, steps).value)
    decreases |steps|
  {
    hide Conforms, OpInv, ApplyOp, Disciplined, Orderly, OneClass;
    if steps != [] {
      OpDisciplined(decl, st, steps[0]);
      if ApplyOp(st, steps[0].op, steps[0].made).Some? {
        OpConforms(decl, st, steps[0]);
        OpKeeps(st, steps[0]);
        OpsDisciplined(decl, ApplyOp(st, steps[0].op, steps[0].made).value, steps[1..]);
      }
    }
  }

  ghost predicate OrderlyRun(decl: Declarations, st: State, frames: seq<seq<Step>>)
    decreases |frames|
  {
    frames == [] ||
    (&& OrderlyOps(decl, st.(released := []), frames[0])
     && (ApplyFrame(st, frames[0]).Some? ==> OrderlyRun(decl, ApplyFrame(st, frames[0]).value, frames[1..])))
  }

  lemma DropConforms(decl: Declarations, st: State, released: seq<Id>)
    requires Conforms(decl, st)
    ensures Conforms(decl, DropReleased(st, released))
  {
    var st' := DropReleased(st, released);
    DropReleasedOnly(st, released);
    hide DropReleased, LocalFields;
    forall id | id in st'.bindingOf
      ensures id in st'.classOf && MappedAs(st', id, decl(st'.classOf[id]))
    {
      assert MappedAs(st, id, decl(st.classOf[id]));
    }
  }

  lemma {:induction false} RunDisciplined(decl: Declarations, st: State, frames: seq<seq<Step>>)
    requires Conforms(decl, st) && Settled(st) && OrderlyRun(decl, st, frames)
    ensures DisciplinedRun(st, frames)
    decreases |frames|
  {
    hide Conforms, Settled, OpInv, DropReleased, OrderlyOps, DisciplinedOps, ApplyOps;
    if frames != [] {
      var st1 := st.(released := []);
      SettledStarts(st);
      Relisted(decl, st);
      OpsDisciplined(decl, st1, frames[0]);
      if ApplyFrame(st, frames[0]).Some? {
        var st2 := ApplyOps(st1, frames[0]).value;
        DropConforms(decl, st2, st2.released);
        FrameKeeps(st, frames[0]);
        RunDisciplined(decl, ApplyFrame(st, frames[0]).value, frames[1..]);
      }
    }
  }

  lemma Relisted(decl: Declarations, st: State)
    requires Conforms(decl, st)
    ensures Conforms(decl, st.(released := []))
  {
    hide Conforms;
    SameConforms(decl, st, st.(released := []));
  }

  /**
   One server class per local class: a run from the start whose ops bind every
   instance as its local class's one server class, and are orderly otherwise,
   is disciplined, so its holder counts are exact.
   */
  lemma OneClassRuns(decl: Declarations, start: State, frames: seq<seq<Step>>)
    requires Starting(start) && OrderlyRun(decl, start, frames)
    ensures DisciplinedRun(start, frames)
  {
    StartingSettled(start);
    hide Settled, OrderlyRun, DisciplinedRun;
    assert Conforms(decl, start);
    RunDisciplined(decl, start, frames);
  }
}
