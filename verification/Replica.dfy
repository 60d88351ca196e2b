/**
 The replica: state ops applied to a graph of instances, with refId blocks,
 holder counts, rebinding of nested instances and drops at the end of a frame.
 This module is the decoder as functions on its whole state; `StateDecoder`
 is the class that updates it in place, and `ReplicaProofs` shows what every
 frame keeps. A function that returns `None` is an op that fails; the replica
 is not used after one.
 */
module Replica {
  import opened Wrappers
  import opened Wire
  import opened StateTypes
  import opened OpCodec
  import opened Containers

  /** A field of an instance, by local index. */
  type Place = (Id, nat)

  datatype Coll = Coll(of: StateType, contents: Contents)

  /** What a refId denotes here. */
  datatype Denoted = Inst(id: Id) | CollAt(place: Place)

  /** A server class, as its DEFINE stated it. */
  datatype Binding = Binding(name: string, fields: seq<string>, texts: seq<string>, types: seq<StateType>)

  /** The class an instance is bound as: its types, and each server field's local index (-1: skipped). */
  datatype Bound = Bound(types: seq<StateType>, local: seq<int>)

  /** The local classes: name and type string of each field. */
  type Shapes = map<string, seq<(string, string)>>

  /** Instances made by one constructor call: the new instance and what it nests. */
  datatype Alloc = Alloc(
    id: Id,
    classOf: map<Id, string>,
    nested: map<Place, Id>,
    parent: map<Id, Place>,
    colls: map<Place, Coll>)

  datatype State = State(
    // What the receiver has classes for, and its root object.
    shapes: Shapes,
    registry: set<string>,
    root: Id,
    // The object graph.
    classOf: map<Id, string>,
    nested: map<Place, Id>,
    parent: map<Id, Place>,
    colls: map<Place, Coll>,
    // The stream.
    classes: map<int, Binding>,
    refs: map<int, Denoted>,
    ignored: set<int>,
    refOf: map<Id, int>,
    bindingOf: map<Id, Bound>,
    holders: map<Id, int>,
    rootBound: bool,
    released: seq<Id>)

  /** The root's holder count, which is never counted down. */
  const FOREVER: int := 0x7FFF_FFFF

  // ---------------------------------------------------------- holder counts

  function CountOf(holders: map<Id, int>, id: Id): int {
    if id in holders then holders[id] else 0
  }

  function RetainIn(holders: map<Id, int>, slot: Slot): map<Id, int> {
    if slot.Plain? || CountOf(holders, slot.id) == FOREVER then holders
    else holders[slot.id := CountOf(holders, slot.id) + 1]
  }

  /** The counts after the releases, and the instances left without a holder by one. */
  function ReleaseIn(holders: map<Id, int>, slots: seq<Slot>): (map<Id, int>, seq<Id>)
    decreases |slots|
  {
    if slots == [] then (holders, [])
    else if slots[0].Plain? || CountOf(holders, slots[0].id) == FOREVER then ReleaseIn(holders, slots[1..])
    else
      var id := slots[0].id;
      var count := CountOf(holders, id) - 1;
      var (after, emptied) := ReleaseIn(holders[id := count], slots[1..]);
      (after, (if count <= 0 then [id] else []) + emptied)
  }

  function Retain(st: State, slot: Slot): State {
    st.(holders := RetainIn(st.holders, slot))
  }

  function Release(st: State, slots: seq<Slot>): State {
    var (holders, emptied) := ReleaseIn(st.holders, slots);
    st.(holders := holders, released := st.released + emptied)
  }

  function Optional(slot: Option<Slot>): seq<Slot> {
    if slot.Some? then [slot.value] else []
  }

  // -------------------------------------------------------- blocks of refIds

  function CollectionCount(types: seq<StateType>): nat { |OpCodec.Collections(types)| }

  predicate Within(lo: int, k: int, n: nat) { lo <= k < lo + n }

  /** The `n` refIds from `lo` on. */
  function Span(lo: int, n: nat): set<int> {
    set k | lo <= k < lo + n && Within(lo, k, n)
  }

  function Unregister(st: State, refId: int, types: seq<StateType>): State {
    var n := CollectionCount(types);
    st.(refs := st.refs - Span(refId, n + 1), ignored := st.ignored - Span(refId + 1, n))
  }

  function Ignore(st: State, refId: int, types: seq<StateType>): State {
    st.(ignored := st.ignored + Span(refId, CollectionCount(types) + 1))
  }

  /** What happens to a value whose target is ignored: an object it would create is ignored with it. */
  function IgnoreValue(st: State, v: Val): Option<State> {
    if !v.Ref? || v.refId in st.refs || v.refId in st.ignored then Some(st)
    else if v.classId !in st.classes then None
    else Some(Ignore(st, v.refId, st.classes[v.classId].types))
  }

  // ----------------------------------------------------------------- binding

  /** The last local field of that name, or -1. */
  function FieldIndex(shape: seq<(string, string)>, name: string): (i: int)
    ensures -1 <= i < |shape|
    ensures i >= 0 ==> shape[i].0 == name
  {
    if shape == [] then -1
    else if shape[|shape| - 1].0 == name then |shape| - 1
    else FieldIndex(shape[..|shape| - 1], name)
  }

  /** Server fields to local ones; `None` if a shared field's types differ. */
  function LocalFields(shape: seq<(string, string)>, fields: seq<string>, texts: seq<string>): (r: Option<seq<int>>)
    ensures r.Some? ==> |r.value| == |fields|
  {
    if fields == [] || texts == [] then (if fields == [] then Some([]) else None)
    else
      var i := FieldIndex(shape, fields[0]);
      if i >= 0 && shape[i].1 != texts[0] then None
      else
        var rest :- LocalFields(shape, fields[1..], texts[1..]);
        Some([i] + rest)
  }

  /** The schema elements of the collections at the mapped fields of `id`. */
  function HeldSlots(st: State, id: Id, local: seq<int>): seq<Slot> {
    if local == [] then []
    else
      var l := local[0];
      (if l >= 0 && (id, l) in st.colls && (id, l) !in st.nested then SlotsOf(st.colls[(id, l)].contents) else [])
      + HeldSlots(st, id, local[1..])
  }

  function EmptyOf(of: StateType): Contents {
    if of.IsMap() then Entries([]) else if of.IsArray() then Items([]) else Members([])
  }

  /** Every collection of `id`, emptied without notice. */
  function ResetColls(colls: map<Place, Coll>, id: Id): map<Place, Coll> {
    map p | p in colls :: if p.0 == id then Coll(colls[p].of, EmptyOf(colls[p].of)) else colls[p]
  }

  /** The refIds `next`, `next` + 1, ... of the collections of `id`, in server field order. */
  function BindCollections(colls: map<Place, Coll>, nested: map<Place, Id>, refs: map<int, Denoted>, ignored: set<int>,
                           id: Id, types: seq<StateType>, local: seq<int>, next: int): (map<int, Denoted>, set<int>)
    requires |types| == |local|
    decreases |types|
  {
    if types == [] then (refs, ignored)
    else if !types[0].IsCollection() then
      BindCollections(colls, nested, refs, ignored, id, types[1..], local[1..], next)
    else if local[0] >= 0 && (id, local[0]) in colls && (id, local[0]) !in nested then
      BindCollections(colls, nested, refs[next := CollAt((id, local[0]))], ignored - {next},
                      id, types[1..], local[1..], next + 1)
    else
      BindCollections(colls, nested, refs - {next}, ignored + {next}, id, types[1..], local[1..], next + 1)
  }

  predicate Rebinds(st: State, id: Id, refId: int) {
    id in st.refOf && st.refOf[id] != refId && id in st.bindingOf
  }

  /**
   A nested instance rebound to a new refId: its old block is forgotten, its
   holders are counted afresh and what its collections held is released.
   */
  function Rebind(st: State, id: Id): State
    requires id in st.refOf && id in st.bindingOf
  {
    var st1 := Unregister(st, st.refOf[id], st.bindingOf[id].types);
    Release(st1.(holders := st1.holders[id := 0]), HeldSlots(st, id, st.bindingOf[id].local))
  }

  function LocalOf(st: State, id: Id, binding: Binding): (r: Option<seq<int>>)
    ensures r.Some? ==> |r.value| == |binding.types|
  {
    if id !in st.classOf || st.classOf[id] !in st.shapes || |binding.fields| != |binding.types| then None
    else LocalFields(st.shapes[st.classOf[id]], binding.fields, binding.texts)
  }

  /** Registers `id` as `refId`, its collections as the refIds after it, and resets it. */
  function BindInstance(st: State, id: Id, binding: Binding, refId: int): Option<State> {
    var local :- LocalOf(st, id, binding);
    var st1 := if Rebinds(st, id, refId) then Rebind(st, id) else st;
    var (refs, ignored) := BindCollections(
      st.colls, st.nested, st1.refs[refId := Inst(id)], st1.ignored - {refId}, id, binding.types, local, refId + 1);
    Some(st1.(
      refs := refs,
      ignored := ignored,
      refOf := st1.refOf[id := refId],
      bindingOf := st1.bindingOf[id := Bound(binding.types, local)],
      holders := if id in st1.holders then st1.holders else st1.holders[id := 0],
      colls := ResetColls(st1.colls, id)))
  }

  // -------------------------------------------------------------------- drops

  /** What `id` holds through its mapped fields: nested instances and collection elements. */
  function Children(st: State, id: Id, local: seq<int>): seq<Id> {
    if local == [] then []
    else
      var l := local[0];
      (if l < 0 then []
       else if (id, l) in st.nested then [st.nested[(id, l)]]
       else if (id, l) in st.colls then Ids(SlotsOf(st.colls[(id, l)].contents))
       else [])
      + Children(st, id, local[1..])
  }

  function Forget(st: State, id: Id): State
    requires id in st.refOf && id in st.bindingOf
  {
    var st1 := Unregister(st, st.refOf[id], st.bindingOf[id].types);
    st1.(refOf := st.refOf - {id}, bindingOf := st.bindingOf - {id}, holders := st.holders - {id})
  }

  /** Forgets an instance and releases everything it holds; shrinks `refOf`, so any graph terminates. */
  function Drop(st: State, id: Id): (r: State)
    ensures r.refOf.Keys <= st.refOf.Keys
    decreases |st.refOf|, 0
  {
    if id !in st.refOf || id !in st.bindingOf then st
    else
      var children := Children(st, id, st.bindingOf[id].local);
      assert |st.refOf - {id}| < |st.refOf| by { Shrinks(st.refOf, id); }
      DropChildren(Forget(st, id), children)
  }

  function DropChildren(st: State, children: seq<Id>): (r: State)
    ensures r.refOf.Keys <= st.refOf.Keys
    decreases |st.refOf|, |children|
  {
    if children == [] then st
    else if children[0] !in st.holders then DropChildren(st, children[1..])
    else
      var count := st.holders[children[0]] - 1;
      var st1 := st.(holders := st.holders[children[0] := count]);
      var st2 := if count <= 0 then Drop(st1, children[0]) else st1;
      assert |st2.refOf| <= |st.refOf| by { SubsetSize(st2.refOf.Keys, st.refOf.Keys); }
      DropChildren(st2, children[1..])
  }

  lemma Shrinks(m: map<Id, int>, id: Id)
    requires id in m
    ensures |m - {id}| < |m|
  {
    assert (m - {id}).Keys == m.Keys - {id};
  }

  /** The end of a frame: every instance left without a holder goes. */
  function DropReleased(st: State, released: seq<Id>): State
    decreases |released|
  {
    if released == [] then st
    else
      var id := released[0];
      var st1 := if id in st.holders && st.holders[id] <= 0 then Drop(st, id) else st;
      DropReleased(st1, released[1..])
  }

  // ----------------------------------------------------------------- elements

  /** A wire value that fits a scalar type, as a value or as a key. */
  predicate Fits(of: Scalar, v: Val) {
    match of
    case Float64 => v.F64?
    case Float32 => v.F32?
    case Text => v.Str?
    case Bool => v.Flag?
    case Fixed(_) => v.Num? && IsInt32(v.n)
    case Integer(kind) => v.Num? && kind.Min() <= v.n <= kind.Max()
  }

  function Index(v: Val): Option<nat> {
    if v.Num? && 0 <= v.n <= MAX_INT32 then Some(v.n) else None
  }

  function Allocate(st: State, a: Alloc): State {
    st.(classOf := st.classOf + a.classOf, nested := st.nested + a.nested,
        parent := st.parent + a.parent, colls := st.colls + a.colls)
  }

  /** The state after decoding, and the element; no element if its class is unknown here. */
  datatype Element = Element(st: State, slot: Option<Slot>)

  function DecodeElement(st: State, of: StateType, v: Val, a: Alloc): Option<Element> {
    if !of.HoldsSchemas() then (if Fits(of.element, v) then Some(Element(st, Some(Plain(v)))) else None)
    else if !v.Ref? then None
    else if v.refId in st.refs then
      match st.refs[v.refId]
      case Inst(id) => Some(Element(st, Some(Obj(id))))
      case CollAt(_) => None
    else if v.classId !in st.classes then None
    else
      var binding := st.classes[v.classId];
      if binding.name !in st.registry then Some(Element(Ignore(st, v.refId, binding.types), None))
      else
        var st' :- BindInstance(Allocate(st, a), a.id, binding, v.refId);
        Some(Element(st', Some(Obj(a.id))))
  }

  // ---------------------------------------------------------------------- ops

  function SetContents(st: State, p: Place, contents: Contents): State
    requires p in st.colls
  {
    st.(colls := st.colls[p := st.colls[p].(contents := contents)])
  }

  function ApplyDefine(st: State, op: Op): Option<State>
    requires op.Define?
  {
    if !CheckDefine(op) then None
    else
      var binding := Binding(op.name, op.fields, op.types, ParseAll(op.types).value);
      var st1 := st.(classes := st.classes[op.classId := binding]);
      if !st.rootBound && st.root in st.classOf && st.classOf[st.root] == op.name then
        var st2 :- BindInstance(st1, st.root, binding, 0);
        Some(st2.(holders := st2.holders[st.root := FOREVER], rootBound := true))
      else Some(st1)
  }

  function ApplyFieldSet(st: State, id: Id, index: nat, v: Val): Option<State> {
    if id !in st.bindingOf then None
    else
      var b := st.bindingOf[id];
      if index >= |b.types| || index >= |b.local| then None
      else
        var l, of := b.local[index], b.types[index];
        if of.kind.Schema? then
          if !v.Ref? then None
          else if l < 0 || (id, l) !in st.nested then IgnoreValue(st, v)
          else
            var child := st.nested[(id, l)];
            if child in st.refOf && st.refOf[child] == v.refId then Some(st)
            else if v.classId !in st.classes then None
            else
              var st' :- BindInstance(st, child, st.classes[v.classId], v.refId);
              Some(Retain(st', Obj(child)))
        else if of.IsCollection() then None
        else if l < 0 || Fits(of.element, v) then Some(st)
        else None
  }

  function ApplySet(st: State, op: Op, a: Alloc): Option<State>
    requires op.Set?
  {
    var index :- Index(op.key);
    if op.target in st.ignored then IgnoreValue(st, op.value)
    else if op.target !in st.refs then None
    else match st.refs[op.target]
      case Inst(id) => ApplyFieldSet(st, id, index, op.value)
      case CollAt(p) => ReplaceElement(st, p, index, op.value, a)
  }

  /** SET on an array. */
  function ReplaceElement(st: State, p: Place, index: nat, v: Val, a: Alloc): Option<State> {
    if p !in st.colls || !st.colls[p].contents.Items? then None
    else
      var e :- DecodeElement(st, st.colls[p].of, v, a);
      if e.slot.None? then Some(e.st)
      else if p !in e.st.colls || !e.st.colls[p].contents.Items? then None
      else
        var (items, previous) :- Replace(e.st.colls[p].contents.items, index, e.slot.value);
        Some(Retain(Release(SetContents(e.st, p, Items(items)), [previous]), e.slot.value))
  }

  function PlaceInSet(st: State, p: Place, slot: Slot): Option<State>
    requires p in st.colls && st.colls[p].contents.Members?
  {
    var (members, added) := AddMember(st.colls[p].contents.members, slot);
    var st' := SetContents(st, p, Members(members));
    Some(if added then Retain(st', slot) else st')
  }

  function PlaceInMap(st: State, p: Place, key: Val, slot: Slot): Option<State>
    requires p in st.colls && st.colls[p].contents.Entries?
  {
    var (entries, previous) := Upsert(st.colls[p].contents.entries, key, slot);
    var st' := SetContents(st, p, Entries(entries));
    Some(if previous == Some(slot) then st' else Retain(Release(st', Optional(previous)), slot))
  }

  function PlaceInArray(st: State, p: Place, index: nat, slot: Slot): Option<State>
    requires p in st.colls && st.colls[p].contents.Items?
  {
    var items :- Insert(st.colls[p].contents.items, index, slot);
    Some(Retain(SetContents(st, p, Items(items)), slot))
  }

  /** The key of a map or array ADD, checked against what it is added to. */
  predicate GoodKey(c: Coll, key: Option<Val>) {
    match c.contents
    case Members(_) => key.None?
    case Entries(_) => key.Some? && Fits(c.of.key, key.value)
    case Items(_) => key.Some? && Index(key.value).Some?
  }

  function ApplyAdd(st: State, target: int, key: Option<Val>, v: Val, a: Alloc): Option<State> {
    if target in st.ignored then IgnoreValue(st, v)
    else if target !in st.refs then None
    else match st.refs[target]
      case Inst(_) => None
      case CollAt(p) =>
        if p !in st.colls then None
        else
          var e :- DecodeElement(st, st.colls[p].of, v, a);
          if p !in e.st.colls || !GoodKey(e.st.colls[p], key) then None
          else if e.slot.None? then
            // Skipping an array element would shift every later index out of step.
            (if e.st.colls[p].contents.Items? then None else Some(e.st))
          else match e.st.colls[p].contents
            case Members(_) => PlaceInSet(e.st, p, e.slot.value)
            case Entries(_) => PlaceInMap(e.st, p, key.value, e.slot.value)
            case Items(_) => PlaceInArray(e.st, p, Index(key.value).value, e.slot.value)
  }

  function ApplyRemove(st: State, target: int, key: Val): Option<State> {
    if target in st.ignored then Some(st)
    else if target !in st.refs then None
    else match st.refs[target]
      case Inst(_) => None
      case CollAt(p) => if p !in st.colls then None else RemoveKeyed(st, p, key)
  }

  function RemoveKeyed(st: State, p: Place, key: Val): Option<State>
    requires p in st.colls
  {
    match st.colls[p].contents
    case Entries(entries) =>
      if !Fits(st.colls[p].of.key, key) then None
      else
        var (after, removed) := DeleteKey(entries, key);
        Some(Release(SetContents(st, p, Entries(after)), Optional(removed)))
    case Items(items) =>
      var index :- Index(key);
      var (after, removed) :- RemoveAt(items, index);
      Some(Release(SetContents(st, p, Items(after)), [removed]))
    case Members(members) =>
      if st.colls[p].of.HoldsSchemas() then
        if !(key.Num? && IsUint32(key.n)) then None
        else if key.n in st.refs && st.refs[key.n].Inst? then
          var slot := Obj(st.refs[key.n].id);
          var (after, removed) := DeleteMember(members, slot);
          var st' := SetContents(st, p, Members(after));
          Some(if removed then Release(st', [slot]) else st')
        else Some(st)
      else if !Fits(st.colls[p].of.element, key) then None
      else
        var (after, _) := DeleteMember(members, Plain(key));
        Some(SetContents(st, p, Members(after)))
  }

  function ApplyClear(st: State, target: int): Option<State> {
    if target in st.ignored then Some(st)
    else if target !in st.refs then None
    else match st.refs[target]
      case Inst(_) => None
      case CollAt(p) =>
        if p !in st.colls then None
        else
          var c := st.colls[p];
          var empty := match c.contents
            case Entries(_) => Entries([])
            case Items(_) => Items([])
            case Members(_) => Members([]);
          Some(Release(SetContents(st, p, empty), SlotsOf(c.contents)))
  }

  /** One op; `a` is what a constructor call would make, if the op makes one. */
  function ApplyOp(st: State, op: Op, a: Alloc): Option<State> {
    match op
    case Define(_, _, _, _) => ApplyDefine(st, op)
    case Set(_, _, _) => ApplySet(st, op, a)
    case Add(target, key, v) => ApplyAdd(st, target, Some(key), v, a)
    case AddToSet(target, v) => ApplyAdd(st, target, None, v, a)
    case Remove(target, key) => ApplyRemove(st, target, key)
    case Clear(target) => ApplyClear(st, target)
  }

  datatype Step = Step(op: Op, made: Alloc)

  function ApplyOps(st: State, steps: seq<Step>): Option<State>
    decreases |steps|
  {
    if steps == [] then Some(st)
    else
      var st' :- ApplyOp(st, steps[0].op, steps[0].made);
      ApplyOps(st', steps[1..])
  }

  /** One frame: its ops, then the drops. */
  function ApplyFrame(st: State, steps: seq<Step>): Option<State> {
    var st' :- ApplyOps(st.(released := []), steps);
    Some(DropReleased(st', st'.released))
  }
}
