/**
 What a replica shows: the effect of each op on the contents of its target,
 element by element, and where the refIds of a bound instance lead.
 */
module ReplicaEffects {
  import opened Wrappers
  import opened Wire
  import opened StateTypes
  import opened OpCodec
  import opened Containers
  import opened Replica
  import opened ReplicaProofs
  import opened ReplicaOps
  import opened ReplicaFrames
  import OpFormat

  // ----------------------------------------------------------------- sequences

  /** `s` is new at `i`, and what was from there on has moved up by one. */
  predicate Inserted<T(==)>(before: seq<T>, after: seq<T>, i: nat, s: T) {
    && |after| == |before| + 1 && i <= |before| && after[i] == s
    && (forall j :: 0 <= j < i ==> after[j] == before[j])
    && (forall j :: i <= j < |before| ==> after[j + 1] == before[j])
  }

  /** What was at `i` is gone, and what came after it has moved down by one. */
  predicate Cut<T(==)>(before: seq<T>, after: seq<T>, i: nat) {
    && |after| + 1 == |before| && i < |before|
    && (forall j :: 0 <= j < i ==> after[j] == before[j])
    && (forall j :: i < j < |before| ==> after[j - 1] == before[j])
  }

  /** `s` is at `i` instead of what was there. */
  predicate Exchanged<T(==)>(before: seq<T>, after: seq<T>, i: nat, s: T) {
    && |after| == |before| && i < |before| && after[i] == s
    && (forall j :: 0 <= j < |before| && j != i ==> after[j] == before[j])
  }

  predicate HasKey(entries: seq<(Val, Slot)>, key: Val) { exists i :: 0 <= i < |entries| && entries[i].0 == key }

  /** The key's value is `s`, in the key's place if it has one, else at the end; nothing else has changed. */
  ghost predicate KeySet(before: seq<(Val, Slot)>, after: seq<(Val, Slot)>, key: Val, s: Slot) {
    if HasKey(before, key) then
      exists i: nat :: i < |before| && before[i].0 == key && Exchanged(before, after, i, (key, s))
    else Inserted(before, after, |before|, (key, s))
  }

  /** The key and its value are gone, if they were there; nothing else has changed. */
  ghost predicate KeyGone(before: seq<(Val, Slot)>, after: seq<(Val, Slot)>, key: Val) {
    if HasKey(before, key) then exists i: nat :: i < |before| && before[i].0 == key && Cut(before, after, i)
    else after == before
  }

  ghost predicate MemberAdded(before: seq<Slot>, after: seq<Slot>, s: Slot) {
    if s in before then after == before else Inserted(before, after, |before|, s)
  }

  ghost predicate MemberGone(before: seq<Slot>, after: seq<Slot>, s: Slot) {
    if s in before then exists i: nat :: i < |before| && before[i] == s && Cut(before, after, i) else after == before
  }

  lemma InsertIs(items: seq<Slot>, index: nat, s: Slot)
    ensures var r := Insert(items, index, s);
            (r.Some? <==> index <= |items|) && (r.Some? ==> Inserted(items, r.value, index, s))
  {
  }

  lemma RemoveAtIs(items: seq<Slot>, index: nat)
    ensures var r := RemoveAt(items, index);
            && (r.Some? <==> index < |items|)
            && (r.Some? ==> Cut(items, r.value.0, index) && r.value.1 == items[index])
  {
  }

  lemma ReplaceIs(items: seq<Slot>, index: nat, s: Slot)
    ensures var r := Replace(items, index, s);
            && (r.Some? <==> index < |items|)
            && (r.Some? ==> Exchanged(items, r.value.0, index, s) && r.value.1 == items[index])
  {
  }

  lemma {:induction false} KeyIndexIs(entries: seq<(Val, Slot)>, key: Val)
    ensures HasKey(entries, key) <==> KeyIndex(entries, key) < |entries|
    decreases |entries|
  {
    if entries != [] && entries[0].0 != key {
      KeyIndexIs(entries[1..], key);
      if i :| 0 <= i < |entries| && entries[i].0 == key {
        assert entries[1..][i - 1].0 == key;
      }
    } else if entries != [] {
      assert entries[0].0 == key;
    }
  }

  lemma UpsertIs(entries: seq<(Val, Slot)>, key: Val, s: Slot)
    ensures KeySet(entries, Upsert(entries, key, s).0, key, s)
  {
    KeyIndexIs(entries, key);
    hide KeyIndex;
    var i := KeyIndex(entries, key);
    if i < |entries| {
      assert Exchanged(entries, entries[i := (key, s)], i, (key, s));
    }
  }

  lemma DeleteKeyIs(entries: seq<(Val, Slot)>, key: Val)
    ensures KeyGone(entries, DeleteKey(entries, key).0, key)
  {
    KeyIndexIs(entries, key);
    hide KeyIndex;
    var i := KeyIndex(entries, key);
    if i < |entries| {
      assert Cut(entries, entries[..i] + entries[i + 1..], i);
    }
  }

  lemma MemberOpsAre(members: seq<Slot>, s: Slot)
    ensures MemberAdded(members, AddMember(members, s).0, s) && (AddMember(members, s).1 <==> s !in members)
    ensures MemberGone(members, DeleteMember(members, s).0, s) && (DeleteMember(members, s).1 <==> s in members)
  {
    SlotIndexIs(members, s);
    hide SlotIndex;
    var i := SlotIndex(members, s);
    if i < |members| {
      assert Cut(members, members[..i] + members[i + 1..], i);
    }
  }

  // ------------------------------------------------------------------- elements

  /** The slot a wire value stands for: itself, or the instance its refId leads to. */
  predicate StandsFor(st: State, of: StateType, v: Val, s: Slot) {
    if !of.HoldsSchemas() then s == Plain(v)
    else v.Ref? && v.refId in st.refs && st.refs[v.refId].Inst? && s == Obj(st.refs[v.refId].id)
  }

  /** A ref to an instance of a class that this receiver has nothing for, and has not met under this refId. */
  predicate IsUnknown(st: State, of: StateType, v: Val) {
    && of.HoldsSchemas() && v.Ref? && v.refId !in st.refs
    && v.classId in st.classes && st.classes[v.classId].name !in st.registry
  }

  /** All collections but the one at `p` show what they showed. */
  predicate OthersSame(st: State, st': State, p: Place) {
    forall q :: q in st.colls && q != p ==> q in st'.colls && st'.colls[q] == st.colls[q]
  }

  /** All of an unknown block is ignored from here on. */
  predicate BlockIgnored(st: State, refId: int, n: nat) { forall k :: refId <= k <= refId + n ==> k in st.ignored }

  lemma IgnoreIs(st: State, refId: int, types: seq<StateType>)
    ensures BlockIgnored(Ignore(st, refId, types), refId, CollectionCount(types))
    ensures Ignore(st, refId, types).colls == st.colls && Ignore(st, refId, types).refs == st.refs
    ensures forall k :: k in Ignore(st, refId, types).ignored <==>
              k in st.ignored || refId <= k <= refId + CollectionCount(types)
  {
    hide CollectionCount;
  }

  lemma BoundFrame(st: State, id: Id, b: Binding, refId: int)
    requires BindInstance(st, id, b, refId).Some?
    ensures var st' := BindInstance(st, id, b, refId).value;
            && refId in st'.refs && st'.refs[refId] == Inst(id) && st'.colls.Keys == st.colls.Keys
            && (forall q :: q in st.colls ==>
                  st'.colls[q] == if q.0 == id then Coll(st.colls[q].of, EmptyOf(st.colls[q].of)) else st.colls[q])
  {
    hide LocalFields, HeldSlots, ReleaseIn, Span, EmptyOf, Unregister;
    var local := LocalOf(st, id, b).value;
    var st1 := if Rebinds(st, id, refId) then Rebind(st, id) else st;
    BelowBlock(st.colls, st.nested, st1.refs[refId := Inst(id)], st1.ignored - {refId}, id, b.types, local, refId + 1,
               refId);
    assert st1.colls == st.colls by { RebindColls(st, id); }
  }

  lemma RebindColls(st: State, id: Id)
    ensures id in st.refOf && id in st.bindingOf ==> Rebind(st, id).colls == st.colls
  {
    hide HeldSlots, ReleaseIn, Span;
  }

  lemma {:induction false} BelowBlock(colls: map<Place, Coll>, nested: map<Place, Id>, refs: map<int, Denoted>,
                                      ignored: set<int>, id: Id, types: seq<StateType>, local: seq<int>, next: int,
                                          k: int)
    requires |types| == |local| && k < next
    ensures var (refs', ignored') := BindCollections(colls, nested, refs, ignored, id, types, local, next);
            && (k in refs' <==> k in refs) && (k in refs ==> refs'[k] == refs[k]) && (k in ignored' <==> k in ignored)
    decreases |types|
  {
    if types != [] {
      if !types[0].IsCollection() {
        BelowBlock(colls, nested, refs, ignored, id, types[1..], local[1..], next, k);
      } else if local[0] >= 0 && (id, local[0]) in colls && (id, local[0]) !in nested {
        BelowBlock(colls, nested, refs[next := CollAt((id, local[0]))], ignored - {next}, id, types[1..], local[1..],
                   next + 1, k);
      } else {
        BelowBlock(colls, nested, refs - {next}, ignored + {next}, id, types[1..], local[1..], next + 1, k);
      }
    }
  }

  /**
   Decoding an element changes no collection there is. It yields the slot the
   value stands for, or none for an unknown class, whose whole block it ignores.
   */
  lemma ElementIs(st: State, of: StateType, v: Val, a: Alloc)
    requires GraphShape(st) && MayPlace(st, v, a) && Replica.DecodeElement(st, of, v, a).Some?
    ensures var e := Replica.DecodeElement(st, of, v, a).value;
            && (forall q :: q in st.colls ==> q in e.st.colls && e.st.colls[q] == st.colls[q])
            && (e.slot.None? <==> IsUnknown(st, of, v))
            && (e.slot.Some? ==> StandsFor(e.st, of, v, e.slot.value))
            && (e.slot.None? ==> BlockIgnored(e.st, v.refId, CollectionCount(st.classes[v.classId].types)))
  {
    hide Held, BindInstance, Span, CollectionCount, Replica.Fits, Ignore;
    if of.HoldsSchemas() && v.refId !in st.refs {
      var b := st.classes[v.classId];
      if b.name !in st.registry {
        IgnoreIs(st, v.refId, b.types);
      } else {
        BoundFrame(Allocate(st, a), a.id, b, v.refId);
        Untouched(st, a);
      }
    }
  }

  lemma Untouched(st: State, a: Alloc)
    requires GraphShape(st) && GoodAlloc(st, a)
    ensures forall q :: q in st.colls ==>
              q.0 != a.id && q in Allocate(st, a).colls && Allocate(st, a).colls[q] == st.colls[q]
  {
    hide Held;
  }

  /** When an element is accepted: it fits its type, or is a ref that leads to an instance or whose class is known. */
  lemma ElementAccepted(st: State, of: StateType, v: Val, a: Alloc)
    ensures Replica.DecodeElement(st, of, v, a).Some? <==>
            if !of.HoldsSchemas() then Replica.Fits(of.element, v)
            else
              && v.Ref?
              && if v.refId in st.refs then st.refs[v.refId].Inst?
                 else
                   && v.classId in st.classes
                   && (st.classes[v.classId].name in st.registry ==>
                         BindInstance(Allocate(st, a), a.id, st.classes[v.classId], v.refId).Some?)
  {
    hide BindInstance, Allocate, Ignore;
  }

  // ------------------------------------------------------------------------ ops

  /** The target is the collection at `p`, and is not ignored. */
  predicate Targets(st: State, target: int, p: Place) {
    target !in st.ignored && target in st.refs && st.refs[target] == CollAt(p) && p in st.colls
  }

  /** What adding `s` makes of contents. */
  ghost predicate Added(before: Contents, after: Contents, key: Option<Val>, s: Slot) {
    match before
    case Members(m) => after.Members? && MemberAdded(m, after.members, s)
    case Entries(m) => after.Entries? && key.Some? && KeySet(m, after.entries, key.value, s)
    case Items(m) =>
      after.Items? && key.Some? && key.value.Num? && key.value.n >= 0 && Inserted(m, after.items, key.value.n, s)
  }

  /** An element, once placed. */
  ghost predicate Shown(st: State, st': State, p: Place, v: Val, key: Option<Val>, s: Slot)
    requires p in st.colls && p in st'.colls
  {
    StandsFor(st', st.colls[p].of, v, s) && Added(st.colls[p].contents, st'.colls[p].contents, key, s)
  }

  lemma RetainFrame(st: State, slot: Slot)
    ensures Retain(st, slot).colls == st.colls && Retain(st, slot).refs == st.refs
            && Retain(st, slot).ignored == st.ignored
  {
    hide RetainIn;
  }

  lemma ReleaseFrame(st: State, slots: seq<Slot>)
    ensures Release(st, slots).colls == st.colls && Release(st, slots).refs == st.refs
    ensures Release(st, slots).ignored == st.ignored
  {
    hide ReleaseIn;
  }

  lemma ContentsFrame(st: State, p: Place, contents: Contents)
    requires p in st.colls
    ensures var st' := SetContents(st, p, contents);
            && st'.refs == st.refs && st'.ignored == st.ignored && st'.colls.Keys == st.colls.Keys
            && st'.colls[p].contents == contents && st'.colls[p].of == st.colls[p].of && OthersSame(st, st', p)
  {
  }

  /** New contents, whatever is then released and retained. */
  lemma ChangeFrame(st: State, p: Place, contents: Contents, slots: seq<Slot>, slot: Slot)
    requires p in st.colls
    ensures var st1 := SetContents(st, p, contents);
            && Framed(st, st1, p, contents) && Framed(st, Release(st1, slots), p, contents)
            && Framed(st, Retain(st1, slot), p, contents)
            && Framed(st, Retain(Release(st1, slots), slot), p, contents)
  {
    hide SetContents, Release, Retain;
    var st1 := SetContents(st, p, contents);
    ContentsFrame(st, p, contents);
    ReleaseFrame(st1, slots);
    RetainFrame(st1, slot);
    RetainFrame(Release(st1, slots), slot);
  }

  predicate Framed(st: State, st': State, p: Place, contents: Contents)
    requires p in st.colls
  {
    && st'.refs == st.refs && st'.ignored == st.ignored && st'.colls.Keys == st.colls.Keys
    && st'.colls[p].contents == contents && st'.colls[p].of == st.colls[p].of && OthersSame(st, st', p)
  }

  lemma PlacedIs(st: State, p: Place, key: Option<Val>, slot: Slot)
    requires p in st.colls && Replica.GoodKey(st.colls[p], key)
    ensures var placed := match st.colls[p].contents
              case Members(_) => PlaceInSet(st, p, slot)
              case Entries(_) => PlaceInMap(st, p, key.value, slot)
              case Items(_) => PlaceInArray(st, p, Index(key.value).value, slot);
            && (placed.None? <==> st.colls[p].contents.Items? && key.value.n > |st.colls[p].contents.items|)
            && (placed.Some? ==>
                  && p in placed.value.colls && Framed(st, placed.value, p, placed.value.colls[p].contents)
                  && Added(st.colls[p].contents, placed.value.colls[p].contents, key, slot))
  {
    hide SetContents, Release, Retain, AddMember, Upsert, Insert, Framed, KeySet, MemberAdded;
    match st.colls[p].contents {
      case Members(members) =>
        MemberOpsAre(members, slot);
        ChangeFrame(st, p, Members(AddMember(members, slot).0), [], slot);
        FramedAt(st, SetContents(st, p, Members(AddMember(members, slot).0)), p, Members(AddMember(members, slot).0));
        FramedAt(st, Retain(SetContents(st, p, Members(AddMember(members, slot).0)), slot), p,
                 Members(AddMember(members, slot).0));
      case Entries(entries) =>
        var (after, previous) := Upsert(entries, key.value, slot);
        UpsertIs(entries, key.value, slot);
        ChangeFrame(st, p, Entries(after), Optional(previous), slot);
        FramedAt(st, SetContents(st, p, Entries(after)), p, Entries(after));
        FramedAt(st, Retain(Release(SetContents(st, p, Entries(after)), Optional(previous)), slot), p, Entries(after));
      case Items(items) =>
        var after := Insert(items, Index(key.value).value, slot);
        InsertIs(items, Index(key.value).value, slot);
        if after.Some? {
          ChangeFrame(st, p, Items(after.value), [], slot);
          FramedAt(st, Retain(SetContents(st, p, Items(after.value)), slot), p, Items(after.value));
        }
    }
  }

  lemma FramedAt(st: State, st': State, p: Place, contents: Contents)
    requires p in st.colls && Framed(st, st', p, contents)
    ensures p in st'.colls && st'.colls[p].contents == contents
  {
  }

  /**
   ADD: the element a value stands for is at its key or index, or in the set;
   what was at higher indices has moved up, and nothing else has changed. An
   element of an unknown class is left out, and its block ignored.
   */
  lemma AddIs(st: State, target: int, p: Place, key: Option<Val>, v: Val, a: Alloc)
    requires GraphShape(st) && Targets(st, target, p) && MayPlace(st, v, a) && ApplyAdd(st, target, key, v, a).Some?
    ensures var st', of := ApplyAdd(st, target, key, v, a).value, st.colls[p].of;
            && p in st'.colls && OthersSame(st, st', p)
            && if IsUnknown(st, of, v) then
                 && st'.colls[p] == st.colls[p] && !st.colls[p].contents.Items?
                 && BlockIgnored(st', v.refId, CollectionCount(st.classes[v.classId].types))
               else exists s :: Shown(st, st', p, v, key, s)
  {
    hide GraphShape, Replica.DecodeElement, MayPlace, PlaceInSet, PlaceInMap, PlaceInArray, IgnoreValue, Added, Framed,
         CollectionCount;
    var st', of := ApplyAdd(st, target, key, v, a).value, st.colls[p].of;
    ElementIs(st, of, v, a);
    var e := Replica.DecodeElement(st, of, v, a).value;
    if e.slot.Some? {
      PlacedIs(e.st, p, key, e.slot.value);
      StillStands(e.st, st', p, of, v, e.slot.value);
      assert Shown(st, st', p, v, key, e.slot.value);
    }
  }

  lemma StillStands(st: State, st': State, p: Place, of: StateType, v: Val, s: Slot)
    requires p in st.colls && p in st'.colls && Framed(st, st', p, st'.colls[p].contents) && StandsFor(st, of, v, s)
    ensures StandsFor(st', of, v, s) && OthersSame(st, st', p) && st'.colls[p].of == st.colls[p].of
  {
  }

  /** When an ADD is accepted. */
  lemma AddAccepted(st: State, target: int, p: Place, key: Option<Val>, v: Val, a: Alloc)
    requires GraphShape(st) && Targets(st, target, p) && MayPlace(st, v, a)
    ensures ApplyAdd(st, target, key, v, a).Some? <==>
            && Replica.DecodeElement(st, st.colls[p].of, v, a).Some?
            && match st.colls[p].contents
               case Members(_) => key.None?
               case Entries(_) => key.Some? && Replica.Fits(st.colls[p].of.key, key.value)
               case Items(items) =>
                 && key.Some? && key.value.Num? && 0 <= key.value.n <= MAX_INT32
                 && key.value.n <= |items| && !IsUnknown(st, st.colls[p].of, v)
  {
    hide GraphShape, Replica.DecodeElement, MayPlace, PlaceInSet, PlaceInMap, PlaceInArray, Added, Framed, Replica.Fits;
    if Replica.DecodeElement(st, st.colls[p].of, v, a).Some? {
      ElementIs(st, st.colls[p].of, v, a);
      var e := Replica.DecodeElement(st, st.colls[p].of, v, a).value;
      if e.slot.Some? && Replica.GoodKey(e.st.colls[p], key) {
        PlacedIs(e.st, p, key, e.slot.value);
      }
    }
  }

  /** SET on an array: the element is in the place of the one at its index, which must exist. */
  lemma SetItemIs(st: State, p: Place, index: nat, v: Val, a: Alloc)
    requires GraphShape(st) && p in st.colls && MayPlace(st, v, a) && ReplaceElement(st, p, index, v, a).Some?
    ensures var st', of := ReplaceElement(st, p, index, v, a).value, st.colls[p].of;
            && st.colls[p].contents.Items? && p in st'.colls && OthersSame(st, st', p)
            && if IsUnknown(st, of, v) then st'.colls[p] == st.colls[p]
               else exists s :: Replaced(st, st', p, v, index, s)
  {
    hide GraphShape, Replica.DecodeElement, MayPlace, SetContents, Release, Retain, Replace, Framed, CollectionCount;
    var st', of := ReplaceElement(st, p, index, v, a).value, st.colls[p].of;
    ElementIs(st, of, v, a);
    var e := Replica.DecodeElement(st, of, v, a).value;
    if e.slot.Some? {
      var (items, previous) := Replace(e.st.colls[p].contents.items, index, e.slot.value).value;
      ReplaceIs(e.st.colls[p].contents.items, index, e.slot.value);
      ChangeFrame(e.st, p, Items(items), [previous], e.slot.value);
      FramedAt(e.st, st', p, Items(items));
      StillStands(e.st, st', p, of, v, e.slot.value);
      assert Replaced(st, st', p, v, index, e.slot.value);
    }
  }

  ghost predicate Replaced(st: State, st': State, p: Place, v: Val, index: nat, s: Slot)
    requires p in st.colls && p in st'.colls
  {
    && StandsFor(st', st.colls[p].of, v, s) && st.colls[p].contents.Items? && st'.colls[p].contents.Items?
    && Exchanged(st.colls[p].contents.items, st'.colls[p].contents.items, index, s)
  }

  /** What removing under `key` makes of contents; a set of instances is keyed by refId. */
  ghost predicate Removed(st: State, of: StateType, before: Contents, after: Contents, key: Val) {
    match before
    case Entries(m) => after.Entries? && KeyGone(m, after.entries, key)
    case Items(m) => after.Items? && key.Num? && key.n >= 0 && Cut(m, after.items, key.n)
    case Members(m) =>
      && after.Members?
      && if !of.HoldsSchemas() then MemberGone(m, after.members, Plain(key))
         else if key.Num? && key.n in st.refs && st.refs[key.n].Inst? then
           MemberGone(m, after.members, Obj(st.refs[key.n].id))
         else after == before
  }

  /** REMOVE: the key, the index or the member is gone, and nothing else; a missing index is refused. */
  lemma RemoveIs(st: State, target: int, p: Place, key: Val)
    requires Targets(st, target, p)
    ensures var r, of := ApplyRemove(st, target, key), st.colls[p].of;
            && (r.Some? <==>
                  match st.colls[p].contents
                  case Entries(_) => Replica.Fits(of.key, key)
                  case Items(items) => key.Num? && 0 <= key.n <= MAX_INT32 && key.n < |items|
                  case Members(_) =>
                    if of.HoldsSchemas() then key.Num? && 0 <= key.n <= MAX_UINT32 else Replica.Fits(of.element, key))
            && (r.Some? ==>
                  && p in r.value.colls && OthersSame(st, r.value, p)
                  && Removed(st, of, st.colls[p].contents, r.value.colls[p].contents, key))
  {
    hide SetContents, Release, DeleteKey, RemoveAt, DeleteMember, Replica.Fits, Framed, MemberGone, KeyGone;
    match st.colls[p].contents {
      case Entries(entries) =>
        var (after, removed) := DeleteKey(entries, key);
        DeleteKeyIs(entries, key);
        ChangeFrame(st, p, Entries(after), Optional(removed), Plain(key));
        FrameGives(st, Release(SetContents(st, p, Entries(after)), Optional(removed)), p, Entries(after));
      case Items(items) =>
        if key.Num? && 0 <= key.n <= MAX_INT32 {
          RemoveAtIs(items, key.n);
          if key.n < |items| {
            var (after, removed) := RemoveAt(items, key.n).value;
            ChangeFrame(st, p, Items(after), [removed], Plain(key));
            FrameGives(st, Release(SetContents(st, p, Items(after)), [removed]), p, Items(after));
          }
        }
      case Members(members) =>
        if st.colls[p].of.HoldsSchemas() && key.Num? && key.n in st.refs && st.refs[key.n].Inst? {
          MemberRemoved(st, p, Obj(st.refs[key.n].id));
        } else if !st.colls[p].of.HoldsSchemas() {
          MemberRemoved(st, p, Plain(key));
        }
    }
  }

  lemma FrameGives(st: State, st': State, p: Place, contents: Contents)
    requires p in st.colls && Framed(st, st', p, contents)
    ensures p in st'.colls && st'.colls[p].contents == contents && OthersSame(st, st', p)
  {
  }

  lemma MemberRemoved(st: State, p: Place, slot: Slot)
    requires p in st.colls && st.colls[p].contents.Members?
    ensures var (after, removed) := DeleteMember(st.colls[p].contents.members, slot);
            var st1 := SetContents(st, p, Members(after));
            && MemberGone(st.colls[p].contents.members, after, slot)
            && p in st1.colls && st1.colls[p].contents == Members(after) && OthersSame(st, st1, p)
            && Release(st1, [slot]).colls == st1.colls
  {
    hide SetContents, Release, DeleteMember, MemberGone;
    var (after, removed) := DeleteMember(st.colls[p].contents.members, slot);
    MemberOpsAre(st.colls[p].contents.members, slot);
    ContentsFrame(st, p, Members(after));
    ReleaseFrame(SetContents(st, p, Members(after)), [slot]);
  }

  /** CLEAR: nothing is left of that collection, and nothing else has changed. */
  lemma ClearIs(st: State, target: int, p: Place)
    requires Targets(st, target, p)
    ensures ApplyClear(st, target).Some?
    ensures var st' := ApplyClear(st, target).value;
            && p in st'.colls && OthersSame(st, st', p) && st'.refs == st.refs && st'.ignored == st.ignored
            && |SlotsOf(st'.colls[p].contents)| == 0
            && (st.colls[p].contents.Entries? <==> st'.colls[p].contents.Entries?)
            && (st.colls[p].contents.Items? <==> st'.colls[p].contents.Items?)
  {
    hide SetContents, Release, Framed;
    var contents := st.colls[p].contents;
    var empty := match contents
      case Entries(_) => Entries([])
      case Items(_) => Items([])
      case Members(_) => Members([]);
    ChangeFrame(st, p, empty, SlotsOf(contents), Plain(Null));
    FrameGives(st, Release(SetContents(st, p, empty), SlotsOf(contents)), p, empty);
    RefsStay(st, p, empty, SlotsOf(contents));
  }

  lemma RefsStay(st: State, p: Place, contents: Contents, slots: seq<Slot>)
    requires p in st.colls
    ensures var st' := Release(SetContents(st, p, contents), slots); st'.refs == st.refs && st'.ignored == st.ignored
  {
    hide ReleaseIn;
  }

  /** Ops on what is ignored show nothing; a new ref among them is ignored too, with its block. */
  lemma IgnoredIs(st: State, target: int, key: Val, v: Val, a: Alloc)
    requires target in st.ignored
    ensures ApplyRemove(st, target, key) == Some(st) && ApplyClear(st, target) == Some(st)
    ensures var r := ApplyAdd(st, target, Some(key), v, a);
            && r == ApplyAdd(st, target, None, v, a)
            && (Index(key).Some? ==> ApplySet(st, Op.Set(target, key, v), a) == r)
            && (r.None? <==> v.Ref? && v.refId !in st.refs && v.refId !in st.ignored && v.classId !in st.classes)
            && (r.Some? ==>
                  && r.value.colls == st.colls && r.value.refs == st.refs && r.value.refOf == st.refOf
                  && if v.Ref? && v.refId !in st.refs && v.refId !in st.ignored then
                       var end := v.refId + CollectionCount(st.classes[v.classId].types);
                       forall k :: k in r.value.ignored <==> (k in st.ignored || v.refId <= k <= end)
                     else r.value == st)
  {
    hide CollectionCount;
    if v.Ref? && v.refId !in st.refs && v.refId !in st.ignored && v.classId in st.classes {
      IgnoreIs(st, v.refId, st.classes[v.classId].types);
      hide Ignore;
    }
  }

  /** A refId that leads nowhere and is not ignored is refused. */
  lemma UnknownRefused(st: State, target: int, key: Val, v: Val, a: Alloc)
    requires target !in st.ignored && target !in st.refs
    ensures ApplyAdd(st, target, Some(key), v, a).None? && ApplyAdd(st, target, None, v, a).None?
    ensures ApplyRemove(st, target, key).None? && ApplyClear(st, target).None?
    ensures ApplySet(st, Op.Set(target, key, v), a).None?
  {
  }

  /** When a SET on an array is accepted. */
  lemma SetItemAccepted(st: State, target: int, p: Place, key: Val, v: Val, a: Alloc)
    requires GraphShape(st) && Targets(st, target, p) && MayPlace(st, v, a)
    ensures ApplySet(st, Op.Set(target, key, v), a).Some? <==>
            && key.Num? && 0 <= key.n <= MAX_INT32 && st.colls[p].contents.Items?
            && Replica.DecodeElement(st, st.colls[p].of, v, a).Some?
            && (IsUnknown(st, st.colls[p].of, v) || key.n < |st.colls[p].contents.items|)
    ensures key.Num? && 0 <= key.n <= MAX_INT32 ==>
              ApplySet(st, Op.Set(target, key, v), a) == ReplaceElement(st, p, key.n, v, a)
  {
    hide GraphShape, Replica.DecodeElement, MayPlace, SetContents, Release, Retain, Replace, Framed, CollectionCount;
    if Replica.DecodeElement(st, st.colls[p].of, v, a).Some? && Index(key).Some? {
      ElementIs(st, st.colls[p].of, v, a);
      var e := Replica.DecodeElement(st, st.colls[p].of, v, a).value;
      if e.slot.Some? && st.colls[p].contents.Items? {
        ReplaceIs(st.colls[p].contents.items, key.n, e.slot.value);
      }
    }
  }

  // -------------------------------------------------------------------- binding

  /** The local field a server field is mapped to: the one of its name, or none. */
  predicate IsLocal(shape: seq<(string, string)>, name: string, text: string, l: int) {
    if exists k :: 0 <= k < |shape| && shape[k].0 == name then
      0 <= l < |shape| && shape[l].0 == name && shape[l].1 == text && forall k :: l < k < |shape| ==> shape[k].0 != name
    else l == -1
  }

  lemma {:induction false} FieldIndexIs(shape: seq<(string, string)>, name: string)
    ensures var l := FieldIndex(shape, name);
            if exists k :: 0 <= k < |shape| && shape[k].0 == name then
              0 <= l && forall k :: l < k < |shape| ==> shape[k].0 != name
            else l == -1
    decreases |shape|
  {
    if shape != [] && shape[|shape| - 1].0 != name {
      FieldIndexIs(shape[..|shape| - 1], name);
    }
  }

  /** A field that both sides have under different types makes the class unusable here; nothing else does. */
  lemma {:induction false} LocalFieldsAre(shape: seq<(string, string)>, fields: seq<string>, texts: seq<string>)
    requires |fields| == |texts|
    ensures LocalFields(shape, fields, texts).Some? ==>
              forall i :: 0 <= i < |fields| ==>
                IsLocal(shape, fields[i], texts[i], LocalFields(shape, fields, texts).value[i])
    ensures LocalFields(shape, fields, texts).None? ==>
              exists i :: 0 <= i < |fields| && FieldIndex(shape, fields[i]) >= 0
                && shape[FieldIndex(shape, fields[i])].1 != texts[i]
    decreases |fields|
  {
    hide FieldIndex;
    if fields != [] {
      FieldIndexIs(shape, fields[0]);
      LocalFieldsAre(shape, fields[1..], texts[1..]);
      if LocalFields(shape, fields, texts).None? && LocalFields(shape, fields[1..], texts[1..]).None? {
        var i :| 0 <= i < |fields[1..]| && FieldIndex(shape, fields[1..][i]) >= 0
          && shape[FieldIndex(shape, fields[1..][i])].1 != texts[1..][i];
        assert fields[i + 1] == fields[1..][i] && texts[i + 1] == texts[1..][i];
      }
    }
  }

  /** The refId of a collection field: the refIds after the instance's go to its collections in field order. */
  function RefOfField(refId: int, types: seq<StateType>, i: nat): int
    requires i < |types|
  {
    refId + 1 + OpFormat.CollectionsBefore(types, i)
  }

  lemma {:induction false} BlockLeads(colls: map<Place, Coll>, nested: map<Place, Id>, refs: map<int, Denoted>,
                                      ignored: set<int>, id: Id, types: seq<StateType>, local: seq<int>, next: int,
                                      i: nat)
    requires |types| == |local| && i < |types| && types[i].IsCollection()
    ensures var (refs', ignored') := BindCollections(colls, nested, refs, ignored, id, types, local, next);
            var k := next + OpFormat.CollectionsBefore(types, i);
            if local[i] >= 0 && (id, local[i]) in colls && (id, local[i]) !in nested
            then k in refs' && refs'[k] == CollAt((id, local[i])) && k !in ignored'
            else k !in refs' && k in ignored'
    decreases |types|
  {
    var next' := if types[0].IsCollection() then next + 1 else next;
    var mapped := local[0] >= 0 && (id, local[0]) in colls && (id, local[0]) !in nested;
    var refs1 := if !types[0].IsCollection() then refs else if mapped then refs[next := CollAt((id, local[0]))]
        else refs - {next};
    var ignored1 := if !types[0].IsCollection() then ignored else if mapped then ignored - {next} else ignored + {next};
    if i == 0 {
      BelowBlock(colls, nested, refs1, ignored1, id, types[1..], local[1..], next', next);
    } else {
      OpFormat.BeforeTail(types, i);
      BlockLeads(colls, nested, refs1, ignored1, id, types[1..], local[1..], next', i - 1);
    }
  }

  /**
   A bound instance: its refId leads to it, and the refIds after it to its
   collections in the server's field order, each mapped by name. A collection
   that is missing here is ignored. Its own collections start empty, and no
   other collection changes.
   */
  lemma BindIs(st: State, id: Id, b: Binding, refId: int)
    requires BindInstance(st, id, b, refId).Some? && |b.fields| == |b.texts| == |b.types|
    ensures var st' := BindInstance(st, id, b, refId).value;
            && id in st.classOf && st.classOf[id] in st.shapes && id in st'.bindingOf
            && st'.refOf == st.refOf[id := refId] && refId in st'.refs && st'.refs[refId] == Inst(id)
            && st'.colls.Keys == st.colls.Keys
            && (forall q :: q in st.colls ==>
                  st'.colls[q] == if q.0 == id then Coll(st.colls[q].of, EmptyOf(st.colls[q].of)) else st.colls[q])
            && |st'.bindingOf[id].local| == |b.fields|
            && (forall i :: 0 <= i < |b.fields| ==>
                  IsLocal(st.shapes[st.classOf[id]], b.fields[i], b.texts[i], st'.bindingOf[id].local[i]))
            && (forall i :: 0 <= i < |b.types| && b.types[i].IsCollection() ==>
                  var k, at := RefOfField(refId, b.types, i), (id, st'.bindingOf[id].local[i]);
                  if at.1 >= 0 && (at.0, at.1 as nat) in st.colls && (at.0, at.1 as nat) !in st.nested
                  then k in st'.refs && st'.refs[k] == CollAt((at.0, at.1 as nat)) && k !in st'.ignored
                  else k !in st'.refs && k in st'.ignored)
  {
    BoundFrame(st, id, b, refId);
    var local := LocalOf(st, id, b).value;
    LocalFieldsAre(st.shapes[st.classOf[id]], b.fields, b.texts);
    BoundTables(st, id, b, refId);
    hide BindInstance, LocalFields, LocalOf, EmptyOf, IsLocal;
    forall i | 0 <= i < |b.types| && b.types[i].IsCollection()
      ensures var st', k := BindInstance(st, id, b, refId).value, RefOfField(refId, b.types, i);
              if local[i] >= 0 && (id, local[i]) in st.colls && (id, local[i]) !in st.nested
              then k in st'.refs && st'.refs[k] == CollAt((id, local[i])) && k !in st'.ignored
              else k !in st'.refs && k in st'.ignored
    {
      BlockBound(st, id, b, refId, i);
    }
  }

  lemma BoundTables(st: State, id: Id, b: Binding, refId: int)
    requires BindInstance(st, id, b, refId).Some?
    ensures var st' := BindInstance(st, id, b, refId).value;
            st'.refOf == st.refOf[id := refId] && id in st'.bindingOf
                && LocalOf(st, id, b) == Some(st'.bindingOf[id].local)
  {
    hide LocalFields, BindCollections, ResetColls, HeldSlots, ReleaseIn, Span;
  }

  lemma BlockBound(st: State, id: Id, b: Binding, refId: int, i: nat)
    requires BindInstance(st, id, b, refId).Some? && i < |b.types| && b.types[i].IsCollection()
    ensures var st', k, local := BindInstance(st, id, b, refId).value, RefOfField(refId, b.types, i),
            LocalOf(st, id, b).value;
            if local[i] >= 0 && (id, local[i]) in st.colls && (id, local[i]) !in st.nested
            then k in st'.refs && st'.refs[k] == CollAt((id, local[i])) && k !in st'.ignored
            else k !in st'.refs && k in st'.ignored
  {
    hide LocalFields, HeldSlots, ReleaseIn, Span, Unregister, ResetColls, BindCollections;
    var local := LocalOf(st, id, b).value;
    var st1 := if Rebinds(st, id, refId) then Rebind(st, id) else st;
    BlockLeads(st.colls, st.nested, st1.refs[refId := Inst(id)], st1.ignored - {refId}, id, b.types, local, refId + 1,
               i);
  }

  /** The last field of that name, which is the one that counts. */
  predicate IsLast(shape: seq<(string, string)>, name: string, l: nat) {
    l < |shape| && shape[l].0 == name && forall k :: l < k < |shape| ==> shape[k].0 != name
  }


  /** A bind of a class that is known here fails exactly if a field that both sides have differs in type. */
  lemma BindAccepted(st: State, id: Id, b: Binding, refId: int)
    requires |b.fields| == |b.texts| == |b.types| && id in st.classOf && st.classOf[id] in st.shapes
    ensures BindInstance(st, id, b, refId).Some? <==>
            forall i: nat, l: nat :: 0 <= i < |b.fields| && IsLast(st.shapes[st.classOf[id]], b.fields[i], l) ==>
              st.shapes[st.classOf[id]][l].1 == b.texts[i]
  {
    hide BindCollections, ResetColls, HeldSlots, ReleaseIn, Span, FieldIndex;
    var shape := st.shapes[st.classOf[id]];
    LocalFieldsAre(shape, b.fields, b.texts);
    if LocalFields(shape, b.fields, b.texts).Some? {
      forall i: nat, l: nat | 0 <= i < |b.fields| && IsLast(shape, b.fields[i], l)
        ensures shape[l].1 == b.texts[i]
      {
        assert IsLocal(shape, b.fields[i], b.texts[i], LocalFields(shape, b.fields, b.texts).value[i]);
      }
    } else {
      var i :| 0 <= i < |b.fields| && FieldIndex(shape, b.fields[i]) >= 0
        && shape[FieldIndex(shape, b.fields[i])].1 != b.texts[i];
      FieldIndexIs(shape, b.fields[i]);
      assert IsLast(shape, b.fields[i], FieldIndex(shape, b.fields[i]));
    }
  }

  // --------------------------------------------------------------- fields and classes

  /**
   SET on an instance: a scalar must fit and leaves the graph alone, a
   collection field has no value, and a nested object is bound to the new refId.
   What is missing here is skipped, or ignored if it is an object.
   */
  lemma FieldSetIs(st: State, id: Id, index: nat, v: Val)
    requires id in st.bindingOf && index < |st.bindingOf[id].types| == |st.bindingOf[id].local|
    ensures var r, of, l := ApplyFieldSet(st, id, index, v), st.bindingOf[id].types[index],
            st.bindingOf[id].local[index];
            && (of.kind.Schema? ==>
                  if !v.Ref? then r == None
                  else if l < 0 || (id, l) !in st.nested then r == IgnoreValue(st, v)
                  else
                    var child := st.nested[(id, l)];
                    if child in st.refOf && st.refOf[child] == v.refId then r == Some(st)
                    else if v.classId !in st.classes then r == None
                    else
                      var bound := BindInstance(st, child, st.classes[v.classId], v.refId);
                      && (r.Some? <==> bound.Some?)
                      && (r.Some? ==> r.value == bound.value.(holders := r.value.holders)))
            && (of.IsCollection() ==> r == None)
            && (!of.kind.Schema? && !of.IsCollection() ==>
                  r == if l < 0 || Replica.Fits(of.element, v) then Some(st) else None)
  {
    hide BindInstance, RetainIn, IgnoreValue, Replica.Fits;
  }

  /** A field past the class's is refused. */
  lemma FieldRefused(st: State, id: Id, index: nat, v: Val)
    requires id in st.bindingOf && index >= |st.bindingOf[id].types|
    ensures ApplyFieldSet(st, id, index, v) == None
  {
  }

  /** DEFINE records the class; the first that names the root's class binds the root to refId 0, for good. */
  lemma DefineIs(st: State, op: Op)
    requires op.Define? && ApplyDefine(st, op).Some?
    ensures var st', root := ApplyDefine(st, op).value, st.root;
            && op.classId in st'.classes && st'.classes[op.classId].name == op.name
            && st'.classes[op.classId].fields == op.fields && st'.classes[op.classId].texts == op.types
            && (forall c :: c in st.classes && c != op.classId ==> c in st'.classes && st'.classes[c] == st.classes[c])
            && if !st.rootBound && root in st.classOf && st.classOf[root] == op.name then
                 && st'.rootBound && 0 in st'.refs && st'.refs[0] == Inst(root)
                 && root in st'.holders && st'.holders[root] == 0x7FFF_FFFF
               else st' == st.(classes := st'.classes)
  {
    var binding := Binding(op.name, op.fields, op.types, ParseAll(op.types).value);
    var st1 := st.(classes := st.classes[op.classId := binding]);
    hide BindInstance, CheckDefine, ParseAll;
    if !st.rootBound && st.root in st.classOf && st.classOf[st.root] == op.name {
      BoundFrame(st1, st.root, binding, 0);
      BindClasses(st1, st.root, binding, 0);
    }
  }

  lemma BindClasses(st: State, id: Id, b: Binding, refId: int)
    requires BindInstance(st, id, b, refId).Some?
    ensures BindInstance(st, id, b, refId).value.classes == st.classes
  {
    hide LocalOf, BindCollections, ResetColls, HeldSlots, ReleaseIn, Span;
  }

  /** A wire value fits a scalar type by its kind and, for an integer, by the range of the type's bits. */
  lemma FitsIs(of: Scalar, v: Val)
    ensures Replica.Fits(of, v) <==>
            match v
            case F64(_) => of.Float64?
            case F32(_) => of.Float32?
            case Str(_) => of.Text?
            case Flag(_) => of.Bool?
            case Num(n) => (of.Fixed? && OpFormat.InRange(Int32, n)) || (of.Integer? && OpFormat.InRange(of.kind, n))
            case _ => false
  {
  }

  // --------------------------------------------------------------------- frames

  /** What an op asks for, and of which target; a SET goes to a field or to an element as its target is. */
  lemma OpIs(st: State, op: Op, a: Alloc)
    ensures match op
            case Define(_, _, _, _) => ApplyOp(st, op, a) == ApplyDefine(st, op)
            case Add(target, key, v) => ApplyOp(st, op, a) == ApplyAdd(st, target, Some(key), v, a)
            case AddToSet(target, v) => ApplyOp(st, op, a) == ApplyAdd(st, target, None, v, a)
            case Remove(target, key) => ApplyOp(st, op, a) == ApplyRemove(st, target, key)
            case Clear(target) => ApplyOp(st, op, a) == ApplyClear(st, target)
            case Set(target, key, v) =>
              if !(key.Num? && 0 <= key.n <= MAX_INT32) then ApplyOp(st, op, a) == None
              else if target !in st.ignored && target in st.refs && st.refs[target].Inst? then
                ApplyOp(st, op, a) == ApplyFieldSet(st, st.refs[target].id, key.n, v)
              else ApplyOp(st, op, a) == ApplySet(st, op, a)
  {
    hide ApplyDefine, ApplyAdd, ApplyRemove, ApplyClear, ApplyFieldSet, ReplaceElement, IgnoreValue;
  }

  /** The states a frame leads through, from `st`: one op takes each to the next. */
  ghost predicate Leads(st: State, steps: seq<Step>, states: seq<State>) {
    && |states| == |steps| + 1 && states[0] == st
    && forall i :: 0 <= i < |steps| ==> ApplyOp(states[i], steps[i].op, steps[i].made) == Some(states[i + 1])
  }

  /** Both show the same objects: which there are, of which class, and what they hold. */
  predicate SameGraph(a: State, b: State) {
    && a.root == b.root && a.classOf == b.classOf && a.nested == b.nested && a.parent == b.parent && a.colls == b.colls
    && a.classes == b.classes && a.rootBound == b.rootBound && a.shapes == b.shapes && a.registry == b.registry
  }

  lemma {:induction false} OpsLead(st: State, steps: seq<Step>)
    ensures match ApplyOps(st, steps)
            case Some(end) => exists states :: Leads(st, steps, states) && states[|steps|] == end
            case None =>
              exists n, states ::
                && 0 <= n < |steps| && Leads(st, steps[..n], states)
                && ApplyOp(states[n], steps[n].op, steps[n].made) == None
    decreases |steps|
  {
    hide ApplyOp;
    if steps == [] {
      assert Leads(st, steps, [st]);
    } else if ApplyOp(st, steps[0].op, steps[0].made) == None {
      assert Leads(st, steps[..0], [st]);
    } else {
      var st1 := ApplyOp(st, steps[0].op, steps[0].made).value;
      OpsLead(st1, steps[1..]);
      if ApplyOps(st1, steps[1..]).Some? {
        var states :| Leads(st1, steps[1..], states) && states[|steps| - 1] == ApplyOps(st1, steps[1..]).value;
        OneMoreOp(st, steps, states);
      } else {
        var n, states :| 0 <= n < |steps[1..]| && Leads(st1, steps[1..][..n], states)
          && ApplyOp(states[n], steps[1..][n].op, steps[1..][n].made) == None;
        assert steps[..n + 1][1..] == steps[1..][..n] && steps[..n + 1][0] == steps[0];
        OneMoreOp(st, steps[..n + 1], states);
        assert steps[n + 1] == steps[1..][n];
      }
    }
  }

  lemma OneMoreOp(st: State, steps: seq<Step>, states: seq<State>)
    requires steps != [] && ApplyOp(st, steps[0].op, steps[0].made).Some?
    requires Leads(ApplyOp(st, steps[0].op, steps[0].made).value, steps[1..], states)
    ensures Leads(st, steps, [st] + states)
  {
    hide ApplyOp;
    var more := [st] + states;
    forall i | 0 <= i < |steps|
      ensures ApplyOp(more[i], steps[i].op, steps[i].made) == Some(more[i + 1])
    {
      assert i > 0 ==> steps[1..][i - 1] == steps[i];
    }
  }

  lemma {:induction false} DropShows(st: State, id: Id)
    ensures SameGraph(st, Drop(st, id))
    decreases |st.refOf|, 0
  {
    hide Children, Unregister;
    if id in st.refOf && id in st.bindingOf {
      assert |st.refOf - {id}| < |st.refOf| by { Shrinks(st.refOf, id); }
      DropChildrenShows(Forget(st, id), Children(st, id, st.bindingOf[id].local));
      ForgetShows(st, id);
    }
  }

  lemma ForgetShows(st: State, id: Id)
    requires id in st.refOf && id in st.bindingOf
    ensures SameGraph(st, Forget(st, id))
  {
    hide Span;
  }

  lemma {:induction false} DropChildrenShows(st: State, children: seq<Id>)
    ensures SameGraph(st, DropChildren(st, children))
    decreases |st.refOf|, |children|
  {
    hide Drop;
    if children != [] {
      if children[0] !in st.holders {
        DropChildrenShows(st, children[1..]);
      } else {
        var count := st.holders[children[0]] - 1;
        var st1 := st.(holders := st.holders[children[0] := count]);
        var st2 := if count <= 0 then Drop(st1, children[0]) else st1;
        DropShows(st1, children[0]);
        assert |st2.refOf| <= |st.refOf| by { SubsetSize(st2.refOf.Keys, st.refOf.Keys); }
        DropChildrenShows(st2, children[1..]);
      }
    }
  }

  lemma {:induction false} ReleasedShows(st: State, released: seq<Id>)
    ensures SameGraph(st, DropReleased(st, released))
    decreases |released|
  {
    hide Drop;
    if released != [] {
      var id := released[0];
      DropShows(st, id);
      ReleasedShows(if id in st.holders && st.holders[id] <= 0 then Drop(st, id) else st, released[1..]);
    }
  }

  /**
   A frame does every op in turn, each on what the one before it left, and then
   shows what the last one left: the drops at its end change bookkeeping only. A
   frame fails exactly if one of its ops does.
   */
  lemma FrameIs(st: State, steps: seq<Step>)
    ensures match ApplyFrame(st, steps)
            case Some(end) =>
              exists states :: Leads(st.(released := []), steps, states) && SameGraph(states[|steps|], end)
            case None =>
              exists n, states ::
                && 0 <= n < |steps| && Leads(st.(released := []), steps[..n], states)
                && ApplyOp(states[n], steps[n].op, steps[n].made) == None
  {
    hide ApplyOp, DropReleased;
    OpsLead(st.(released := []), steps);
    if ApplyOps(st.(released := []), steps).Some? {
      var end := ApplyOps(st.(released := []), steps).value;
      ReleasedShows(end, end.released);
    }
  }
}
