/**
 The mutation primitives of replicated maps, arrays and sets, and how each
 changes the instances a collection holds. Contents are kept in enumeration
 order; map keys and set members are unique.
 */
module Containers {
  import opened Wrappers
  import opened OpCodec

  type Id = nat

  /** An element: a schema instance, or a plain value. */
  datatype Slot = Obj(id: Id) | Plain(v: Val)

  datatype Contents =
    | Entries(entries: seq<(Val, Slot)>)
    | Items(items: seq<Slot>)
    | Members(members: seq<Slot>)

  function ValuesOf(entries: seq<(Val, Slot)>): seq<Slot> {
    if entries == [] then [] else [entries[0].1] + ValuesOf(entries[1..])
  }

  function SlotsOf(c: Contents): seq<Slot> {
    match c
    case Entries(entries) => ValuesOf(entries)
    case Items(items) => items
    case Members(members) => members
  }

  /** The instances among `slots`, in order, with repeats. */
  function Ids(slots: seq<Slot>): seq<Id> {
    if slots == [] then []
    else (if slots[0].Obj? then [slots[0].id] else []) + Ids(slots[1..])
  }

  function SlotIds(slot: Option<Slot>): seq<Id> {
    if slot.Some? && slot.value.Obj? then [slot.value.id] else []
  }

  /** How often each instance is held. */
  function Held(c: Contents): multiset<Id> { multiset(Ids(SlotsOf(c))) }

  // -------------------------------------------------------------- primitives

  function KeyIndex(entries: seq<(Val, Slot)>, key: Val): (i: nat)
    ensures i <= |entries|
    ensures i < |entries| ==> entries[i].0 == key
  {
    if entries == [] || entries[0].0 == key then 0 else 1 + KeyIndex(entries[1..], key)
  }

  function SlotIndex(members: seq<Slot>, s: Slot): (i: nat)
    ensures i <= |members|
    ensures i < |members| ==> members[i] == s
  {
    if members == [] || members[0] == s then 0 else 1 + SlotIndex(members[1..], s)
  }

  /** Inserts or replaces; the value replaced, if any. */
  function Upsert(entries: seq<(Val, Slot)>, key: Val, s: Slot): (seq<(Val, Slot)>, Option<Slot>) {
    var i := KeyIndex(entries, key);
    if i < |entries| then (entries[i := (key, s)], Some(entries[i].1)) else (entries + [(key, s)], None)
  }

  function DeleteKey(entries: seq<(Val, Slot)>, key: Val): (seq<(Val, Slot)>, Option<Slot>) {
    var i := KeyIndex(entries, key);
    if i < |entries| then (entries[..i] + entries[i + 1..], Some(entries[i].1)) else (entries, None)
  }

  function Insert(items: seq<Slot>, index: nat, s: Slot): Option<seq<Slot>> {
    if index <= |items| then Some(items[..index] + [s] + items[index..]) else None
  }

  function RemoveAt(items: seq<Slot>, index: nat): Option<(seq<Slot>, Slot)> {
    if index < |items| then Some((items[..index] + items[index + 1..], items[index])) else None
  }

  function Replace(items: seq<Slot>, index: nat, s: Slot): Option<(seq<Slot>, Slot)> {
    if index < |items| then Some((items[index := s], items[index])) else None
  }

  function AddMember(members: seq<Slot>, s: Slot): (seq<Slot>, bool) {
    if SlotIndex(members, s) < |members| then (members, false) else (members + [s], true)
  }

  function DeleteMember(members: seq<Slot>, s: Slot): (seq<Slot>, bool) {
    var i := SlotIndex(members, s);
    if i < |members| then (members[..i] + members[i + 1..], true) else (members, false)
  }

  // ------------------------------------------------- what a collection holds

  lemma {:induction false} IdsAppend(a: seq<Slot>, b: seq<Slot>)
    ensures Ids(a + b) == Ids(a) + Ids(b)
  {
    if a == [] {
      assert a + b == b;
    } else {
      assert (a + b)[0] == a[0] && (a + b)[1..] == a[1..] + b;
      IdsAppend(a[1..], b);
    }
  }

  lemma {:induction false} ValuesAppend(a: seq<(Val, Slot)>, b: seq<(Val, Slot)>)
    ensures ValuesOf(a + b) == ValuesOf(a) + ValuesOf(b)
  {
    if a == [] {
      assert a + b == b;
    } else {
      assert (a + b)[0] == a[0] && (a + b)[1..] == a[1..] + b;
      ValuesAppend(a[1..], b);
    }
  }

  lemma IdsNone()
    ensures Ids([]) == []
  {
  }

  lemma IdsOne(s: Slot)
    ensures Ids([s]) == SlotIds(Some(s))
  {
    assert [s][1..] == [];
  }

  /** Taking a slot out at `i` and putting `put` in its place. */
  lemma IdsSplice(slots: seq<Slot>, i: nat, put: seq<Slot>)
    requires i < |slots|
    ensures multiset(Ids(slots[..i] + put + slots[i + 1..])) ==
            multiset(Ids(slots)) - multiset(SlotIds(Some(slots[i]))) + multiset(Ids(put))
  {
    hide Ids;
    var a, b := slots[..i], slots[i + 1..];
    assert slots == a + [slots[i]] + b;
    IdsAppend(a + [slots[i]], b);
    IdsAppend(a, [slots[i]]);
    IdsOne(slots[i]);
    IdsAppend(a + put, b);
    IdsAppend(a, put);
  }

  lemma IdsInsert(slots: seq<Slot>, i: nat, s: Slot)
    requires i <= |slots|
    ensures multiset(Ids(slots[..i] + [s] + slots[i..])) == multiset(Ids(slots)) + multiset(SlotIds(Some(s)))
  {
    hide Ids;
    var a, b := slots[..i], slots[i..];
    assert slots == a + b;
    IdsAppend(a, b);
    IdsAppend(a + [s], b);
    IdsAppend(a, [s]);
    IdsOne(s);
  }

  lemma {:induction false} ValuesAt(entries: seq<(Val, Slot)>)
    ensures |ValuesOf(entries)| == |entries|
    ensures forall i :: 0 <= i < |entries| ==> ValuesOf(entries)[i] == entries[i].1
  {
    if entries != [] {
      ValuesAt(entries[1..]);
    }
  }

  lemma ValuesSplice(entries: seq<(Val, Slot)>, i: nat, put: seq<(Val, Slot)>)
    requires i < |entries|
    ensures |ValuesOf(entries)| == |entries|
    ensures ValuesOf(entries[..i] + put + entries[i + 1..]) ==
            ValuesOf(entries)[..i] + ValuesOf(put) + ValuesOf(entries)[i + 1..]
  {
    hide ValuesOf;
    var a, b := entries[..i], entries[i + 1..];
    ValuesAppend(a + put, b);
    ValuesAppend(a, put);
    ValuesAt(entries);
    ValuesAt(a);
    ValuesAt(b);
    assert ValuesOf(a) == ValuesOf(entries)[..i];
    assert ValuesOf(b) == ValuesOf(entries)[i + 1..];
  }

  lemma UpsertHeld(entries: seq<(Val, Slot)>, key: Val, s: Slot)
    ensures var (after, previous) := Upsert(entries, key, s);
            Held(Entries(after)) ==
            Held(Entries(entries)) - multiset(SlotIds(previous)) + multiset(SlotIds(Some(s)))
  {
    hide Ids, ValuesOf;
    var i := KeyIndex(entries, key);
    assert ValuesOf([(key, s)]) == [s] by { ValuesAt([(key, s)]); }
    IdsOne(s);
    if i < |entries| {
      ValuesSplice(entries, i, [(key, s)]);
      ValuesAt(entries);
      assert entries[i := (key, s)] == entries[..i] + [(key, s)] + entries[i + 1..];
      IdsSplice(ValuesOf(entries), i, [s]);
    } else {
      ValuesAppend(entries, [(key, s)]);
      IdsAppend(ValuesOf(entries), [s]);
    }
  }

  lemma DeleteKeyHeld(entries: seq<(Val, Slot)>, key: Val)
    ensures var (after, removed) := DeleteKey(entries, key);
            Held(Entries(after)) == Held(Entries(entries)) - multiset(SlotIds(removed))
  {
    hide Ids, ValuesOf;
    var i := KeyIndex(entries, key);
    if i < |entries| {
      ValuesSplice(entries, i, []);
      ValuesAt(entries);
      ValuesAt([]);
      assert entries[..i] + [] + entries[i + 1..] == entries[..i] + entries[i + 1..];
      IdsSplice(ValuesOf(entries), i, []);
      IdsNone();
    }
  }

  lemma InsertHeld(items: seq<Slot>, index: nat, s: Slot)
    requires index <= |items|
    ensures Held(Items(Insert(items, index, s).value)) == Held(Items(items)) + multiset(SlotIds(Some(s)))
  {
    IdsInsert(items, index, s);
  }

  lemma RemoveAtHeld(items: seq<Slot>, index: nat)
    requires index < |items|
    ensures Held(Items(RemoveAt(items, index).value.0)) == Held(Items(items)) - multiset(SlotIds(Some(items[index])))
  {
    hide Ids;
    IdsSplice(items, index, []);
    assert items[..index] + [] + items[index + 1..] == items[..index] + items[index + 1..];
    IdsNone();
  }

  lemma ReplaceHeld(items: seq<Slot>, index: nat, s: Slot)
    requires index < |items|
    ensures Held(Items(Replace(items, index, s).value.0)) ==
            Held(Items(items)) - multiset(SlotIds(Some(items[index]))) + multiset(SlotIds(Some(s)))
  {
    hide Ids;
    IdsSplice(items, index, [s]);
    IdsOne(s);
    assert items[index := s] == items[..index] + [s] + items[index + 1..];
  }

  lemma AddMemberHeld(members: seq<Slot>, s: Slot)
    ensures var (after, added) := AddMember(members, s);
            Held(Members(after)) ==
            Held(Members(members)) + (if added then multiset(SlotIds(Some(s))) else multiset{})
  {
    hide Ids;
    IdsAppend(members, [s]);
    IdsOne(s);
  }

  lemma DeleteMemberHeld(members: seq<Slot>, s: Slot)
    ensures var (after, removed) := DeleteMember(members, s);
            Held(Members(after)) ==
            Held(Members(members)) - (if removed then multiset(SlotIds(Some(s))) else multiset{})
  {
    hide Ids;
    var i := SlotIndex(members, s);
    if i < |members| {
      IdsSplice(members, i, []);
      assert members[..i] + [] + members[i + 1..] == members[..i] + members[i + 1..];
      IdsNone();
    }
  }

  // ------------------------------------------------------ what an op leaves in it

  /** Map keys and set members are unique. */
  predicate UniqueKeys(entries: seq<(Val, Slot)>) {
    forall i, j :: 0 <= i < j < |entries| ==> entries[i].0 != entries[j].0
  }

  predicate UniqueMembers(members: seq<Slot>) {
    forall i, j :: 0 <= i < j < |members| ==> members[i] != members[j]
  }

  /** The value under a key. */
  function ValueAt(entries: seq<(Val, Slot)>, key: Val): Option<Slot> {
    var i := KeyIndex(entries, key);
    if i < |entries| then Some(entries[i].1) else None
  }

  lemma {:induction false} KeyIndexIs(entries: seq<(Val, Slot)>, key: Val, i: nat)
    requires UniqueKeys(entries) && i < |entries| && entries[i].0 == key
    ensures KeyIndex(entries, key) == i
    decreases |entries|
  {
    if i > 0 {
      assert entries[0].0 != entries[i].0;
      KeyIndexIs(entries[1..], key, i - 1);
    }
  }

  lemma {:induction false} KeyMissing(entries: seq<(Val, Slot)>, key: Val)
    requires KeyIndex(entries, key) == |entries|
    ensures forall i :: 0 <= i < |entries| ==> entries[i].0 != key
    decreases |entries|
  {
    if entries != [] {
      KeyMissing(entries[1..], key);
    }
  }

  lemma {:induction false} KeyMissed(entries: seq<(Val, Slot)>, key: Val)
    requires forall i :: 0 <= i < |entries| ==> entries[i].0 != key
    ensures KeyIndex(entries, key) == |entries|
    decreases |entries|
  {
    if entries != [] {
      KeyMissed(entries[1..], key);
    }
  }

  /** An upsert sets its key and touches no other; keys stay unique, and known keys keep their place. */
  lemma UpsertSets(entries: seq<(Val, Slot)>, key: Val, s: Slot, other: Val)
    requires UniqueKeys(entries)
    ensures var after := Upsert(entries, key, s).0;
            && UniqueKeys(after) && ValueAt(after, key) == Some(s)
            && (other != key ==> ValueAt(after, other) == ValueAt(entries, other))
    ensures Upsert(entries, key, s).1 == ValueAt(entries, key)
  {
    hide KeyIndex;
    var i, after := KeyIndex(entries, key), Upsert(entries, key, s).0;
    if i == |entries| {
      KeyMissing(entries, key);
    } else {
      forall j | 0 <= j < |entries| && j != i
        ensures entries[j].0 != key
      {
      }
    }
    assert UniqueKeys(after);
    KeyIndexIs(after, key, i);
    if other != key {
      forall j | 0 <= j < |entries| && entries[j].0 == other
        ensures entries[j] in after
      {
        assert after[j] == entries[j];
      }
      SameElsewhere(entries, after, other);
    }
  }

  /** If `other` has the same entry in both, it has the same value. */
  lemma SameElsewhere(a: seq<(Val, Slot)>, b: seq<(Val, Slot)>, other: Val)
    requires UniqueKeys(a) && UniqueKeys(b)
    requires forall i :: 0 <= i < |a| && a[i].0 == other ==> a[i] in b
    requires forall i :: 0 <= i < |b| && b[i].0 == other ==> b[i] in a
    ensures ValueAt(a, other) == ValueAt(b, other)
  {
    hide KeyIndex;
    var i := KeyIndex(a, other);
    if i < |a| {
      var j :| 0 <= j < |b| && b[j] == a[i];
      KeyIndexIs(b, other, j);
    } else {
      KeyMissing(a, other);
      KeyMissed(b, other);
    }
  }

  /** A deletion removes its key and touches no other. */
  lemma DeleteKeyRemoves(entries: seq<(Val, Slot)>, key: Val, other: Val)
    requires UniqueKeys(entries)
    ensures var after := DeleteKey(entries, key).0;
            && UniqueKeys(after) && ValueAt(after, key) == None
            && (other != key ==> ValueAt(after, other) == ValueAt(entries, other))
    ensures DeleteKey(entries, key).1 == ValueAt(entries, key)
  {
    hide KeyIndex;
    var i, after := KeyIndex(entries, key), DeleteKey(entries, key).0;
    if i == |entries| {
      KeyMissing(entries, key);
    } else {
      forall j | 0 <= j < |after|
        ensures after[j] == entries[if j < i then j else j + 1] && after[j].0 != key
      {
        var k := if j < i then j else j + 1;
        assert after[j] == entries[k];
      }
      forall j | 0 <= j < |entries| && entries[j].0 == other && other != key
        ensures entries[j] in after
      {
        var k := if j < i then j else j - 1;
        assert after[k] == entries[j];
      }
    }
    assert UniqueKeys(after);
    KeyMissed(after, key);
    if other != key {
      SameElsewhere(entries, after, other);
    }
  }

  lemma {:induction false} SlotIndexIs(members: seq<Slot>, s: Slot)
    ensures SlotIndex(members, s) < |members| <==> s in members
    decreases |members|
  {
    if members != [] {
      SlotIndexIs(members[1..], s);
      assert members == [members[0]] + members[1..];
    }
  }

  /** Adding and deleting a member touch no other, and members stay unique. */
  lemma MembersChange(members: seq<Slot>, s: Slot, other: Slot)
    requires UniqueMembers(members)
    ensures var (after, added) := AddMember(members, s);
            UniqueMembers(after) && (other in after <==> other in members || other == s) && (added <==> s !in members)
    ensures var (after, removed) := DeleteMember(members, s);
            UniqueMembers(after) && (other in after <==> other in members && other != s) && (removed <==> s in members)
  {
    SlotIndexIs(members, s);
    hide SlotIndex;
    var i := SlotIndex(members, s);
    if i < |members| {
      var after := members[..i] + members[i + 1..];
      assert members == members[..i] + [members[i]] + members[i + 1..];
      forall j | 0 <= j < |after|
        ensures after[j] == members[if j < i then j else j + 1]
      {
      }
    }
  }
}
