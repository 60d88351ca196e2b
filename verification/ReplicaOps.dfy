/** What every op keeps within a frame, and so what every frame keeps. */
module ReplicaOps {
  import opened Wrappers
  import opened Wire
  import opened StateTypes
  import opened OpCodec
  import opened Containers
  import opened Replica
  import opened ReplicaProofs

  // ---------------------------------------------------------------- invariant

  /** A nested instance is registered only while the instance it is nested in is. */
  ghost predicate Family(st: State) {
    forall y :: y in st.refOf && y in st.parent ==> st.parent[y].0 in st.refOf
  }

  /** No ordinary count has reached the root's. */
  ghost predicate Bounded(st: State) {
    forall y :: y in st.holders && y != st.root ==> st.holders[y] < FOREVER
  }

  predicate DistinctNames(names: seq<string>) {
    forall i, j :: 0 <= i < j < |names| ==> names[i] != names[j]
  }

  ghost predicate ClassesShape(st: State) {
    forall c :: c in st.classes ==> DistinctNames(st.classes[c].fields)
  }

  /**
   The invariant between the ops of a frame: exact counts, and whatever is
   without a holder waits in `released` (or is `exempt`, about to be placed).
   */
  ghost predicate OpInv(st: State, exempt: set<Id>) {
    && Inv(st, multiset{}, SetOf(st.released) + exempt)
    && Family(st) && Bounded(st) && ClassesShape(st) && Ordinary(st.root, st.released)
  }

  // ----------------------------------------------------------------- releases

  ghost predicate Releasable(holders: map<Id, int>, slots: seq<Slot>) {
    forall i :: 0 <= i < |slots| && slots[i].Obj? ==> slots[i].id in holders && holders[slots[i].id] < FOREVER
  }

  /** One release: what the rest of the list starts from. */
  ghost function AfterOne(holders: map<Id, int>, slot: Slot): map<Id, int>
    requires slot.Obj? ==> slot.id in holders
  {
    if slot.Plain? then holders else holders[slot.id := holders[slot.id] - 1]
  }

  lemma IdsStep(slots: seq<Slot>)
    requires slots != []
    ensures Ids(slots) == SlotIds(Some(slots[0])) + Ids(slots[1..])
  {
  }

  lemma ReleaseStep(holders: map<Id, int>, slots: seq<Slot>)
    requires slots != [] && Releasable(holders, slots)
    ensures Releasable(AfterOne(holders, slots[0]), slots[1..])
    ensures var h1 := AfterOne(holders, slots[0]);
            var id := SlotIds(Some(slots[0]));
            && ReleaseIn(holders, slots).0 == ReleaseIn(h1, slots[1..]).0
            && ReleaseIn(holders, slots).1 ==
               (if id != [] && h1[id[0]] <= 0 then id else []) + ReleaseIn(h1, slots[1..]).1
    ensures Ids(slots) == SlotIds(Some(slots[0])) + Ids(slots[1..])
  {
    IdsStep(slots);
    var h1 := AfterOne(holders, slots[0]);
    var rest := ReleaseIn(h1, slots[1..]);
    if slots[0].Plain? {
      assert ReleaseIn(holders, slots) == rest;
      assert [] + rest.1 == rest.1;
    } else {
      assert h1 == holders[slots[0].id := CountOf(holders, slots[0].id) - 1];
    }
  }

  lemma {:induction false} ReleaseCounts(holders: map<Id, int>, slots: seq<Slot>)
    requires Releasable(holders, slots)
    ensures ReleaseIn(holders, slots).0.Keys == holders.Keys
    ensures forall y :: y in holders ==> ReleaseIn(holders, slots).0[y] == holders[y] - multiset(Ids(slots))[y]
    decreases |slots|
  {
    if slots != [] {
      var h1 := AfterOne(holders, slots[0]);
      ReleaseStep(holders, slots);
      ReleaseCounts(h1, slots[1..]);
      hide ReleaseIn, Ids, Releasable;
    }
  }

  lemma {:induction false} ReleaseZeros(holders: map<Id, int>, slots: seq<Slot>, y: Id)
    requires Releasable(holders, slots) && y in holders && y in ReleaseIn(holders, slots).0
    requires ReleaseIn(holders, slots).0[y] <= 0 && ReleaseIn(holders, slots).0[y] != holders[y]
    ensures y in ReleaseIn(holders, slots).1
    decreases |slots|
  {
    if slots != [] {
      var h1 := AfterOne(holders, slots[0]);
      ReleaseStep(holders, slots);
      if ReleaseIn(h1, slots[1..]).0[y] != h1[y] {
        ReleaseZeros(h1, slots[1..], y);
      }
    }
  }

  lemma {:induction false} ReleaseEmptied(holders: map<Id, int>, slots: seq<Slot>)
    requires Releasable(holders, slots)
    ensures forall i :: 0 <= i < |ReleaseIn(holders, slots).1| ==>
              ReleaseIn(holders, slots).1[i] in multiset(Ids(slots))
    decreases |slots|
  {
    if slots != [] {
      var h1 := AfterOne(holders, slots[0]);
      ReleaseStep(holders, slots);
      ReleaseEmptied(h1, slots[1..]);
      hide ReleaseIn, Ids, Releasable;
      assert multiset(Ids(slots)) == multiset(SlotIds(Some(slots[0]))) + multiset(Ids(slots[1..]));
    }
  }

  // ----------------------------------------------------- changing the counts

  lemma HoldersFrame(st: State, holders: map<Id, int>, released: seq<Id>)
    requires Shape(st) && holders.Keys == st.holders.Keys
    requires st.root in st.holders ==> holders[st.root] == st.holders[st.root]
    ensures Shape(st.(holders := holders, released := released))
  {
    hide GraphShape, RefsShape, Mapped, Held, Distinct;
    var st' := st.(holders := holders, released := released);
    GraphFrame(st, st');
    RefsFrame(st, st');
    MappedFrame(st, st');
  }

  // --------------------------------------------------- changing a collection

  lemma ContentsGraph(st: State, p: Place, contents: Contents)
    requires GraphShape(st) && p in st.colls
    requires forall y :: y in Held(contents) ==> y in st.classOf && y !in st.parent && y != st.root
    ensures GraphShape(SetContents(st, p, contents))
  {
    hide Held;
  }

  lemma ContentsRefs(st: State, p: Place, contents: Contents)
    requires RefsShape(st) && p in st.colls
    ensures RefsShape(SetContents(st, p, contents))
  {
    var st' := SetContents(st, p, contents);
    forall k | k in st'.refs && st'.refs[k].CollAt?
      ensures var q := st'.refs[k].place; q.0 in st'.refOf && q.0 in st'.bindingOf && InSpan(st', q.0, k)
    {
      assert InSpan(st, st.refs[k].place.0, k);
    }
  }

  lemma ContentsMapped(st: State, p: Place, contents: Contents)
    requires Mapped(st) && p in st.colls && p.0 in st.bindingOf && (p.1 as int) in st.bindingOf[p.0].local
    ensures Mapped(SetContents(st, p, contents))
  {
    hide Held;
  }

  lemma ContentsShape(st: State, p: Place, contents: Contents)
    requires Shape(st) && p in st.colls && p.0 in st.bindingOf && (p.1 as int) in st.bindingOf[p.0].local
    requires forall y :: y in Held(contents) ==> y in st.classOf && y !in st.parent && y != st.root
    ensures Shape(SetContents(st, p, contents))
  {
    hide GraphShape, RefsShape, Mapped, Held;
    ContentsGraph(st, p, contents);
    ContentsRefs(st, p, contents);
    ContentsMapped(st, p, contents);
  }

  lemma ContentsCount(st: State, p: Place, contents: Contents, y: Id)
    requires p in Live(st)
    ensures Count(SetContents(st, p, contents), y) ==
            Count(st, y) - Held(st.colls[p].contents)[y] + Held(contents)[y]
  {
    hide Held, Slots;
    var st' := SetContents(st, p, contents);
    assert Live(st') == Live(st);
    SlotsRemove(st.colls, Live(st), y, p);
    SlotsRemove(st'.colls, Live(st), y, p);
    SlotsFrame(st.colls, st'.colls, Live(st) - {p}, y);
  }

  /** A collection ops can reach: registered, and through a mapped field. */
  ghost predicate Reachable(st: State, p: Place) {
    p in Live(st) && p.0 in st.bindingOf && (p.1 as int) in st.bindingOf[p.0].local
  }

  /** An instance an op may place: registered, not nested, not the root, its count not near the root's. */
  ghost predicate Placeable(st: State, slot: Slot) {
    slot.Obj? ==>
      && slot.id in st.refOf && slot.id in st.holders && slot.id !in st.parent && slot.id != st.root
      && st.holders[slot.id] + 1 < FOREVER
  }

  /** The change of one collection and the counts that go with it. */
  ghost function Changed(st: State, p: Place, contents: Contents, out: seq<Slot>, put: Option<Slot>): State
    requires p in st.colls
  {
    var st1 := Release(SetContents(st, p, contents), out);
    if put.Some? then Retain(st1, put.value) else st1
  }

  ghost predicate Moves(before: multiset<Id>, after: multiset<Id>, out: seq<Slot>, put: Option<Slot>) {
    multiset(Ids(out)) <= before && after == before - multiset(Ids(out)) + multiset(SlotIds(put))
  }

  lemma HeldOrdinary(st: State, p: Place, y: Id)
    requires GraphShape(st) && p in st.colls && y in Held(st.colls[p].contents)
    ensures y in st.classOf && y !in st.parent && y != st.root
  {
  }

  lemma {:induction false} ReleasableOut(holders: map<Id, int>, out: seq<Slot>)
    requires forall y :: y in multiset(Ids(out)) ==> y in holders && holders[y] < FOREVER
    ensures Releasable(holders, out)
    decreases |out|
  {
    if out != [] {
      var rest := out[1..];
      if out[0].Obj? {
        assert Ids(out) == [out[0].id] + Ids(rest);
        assert out[0].id in multiset(Ids(out));
      }
      assert forall y :: y in multiset(Ids(rest)) ==> y in multiset(Ids(out));
      ReleasableOut(holders, rest);
      forall i | 0 <= i < |out| && out[i].Obj?
        ensures out[i].id in holders && holders[out[i].id] < FOREVER
      {
        assert i > 0 ==> out[i] == rest[i - 1];
      }
    }
  }

  /** The counts after a change, pointwise. */
  ghost function NewHolders(st: State, out: seq<Slot>, put: Option<Slot>): map<Id, int> {
    var h := ReleaseIn(st.holders, out).0;
    if put.Some? then RetainIn(h, put.value) else h
  }

  lemma OutReleasable(st: State, exempt: set<Id>, p: Place, out: seq<Slot>)
    requires OpInv(st, exempt) && p in Live(st) && multiset(Ids(out)) <= Held(st.colls[p].contents)
    ensures Releasable(st.holders, out)
    ensures st.root !in multiset(Ids(out))
  {
    hide Held, Ids, RefsShape, Mapped, Exact, ZerosIn, Slots, ClassesShape, Family;
    forall y | y in multiset(Ids(out))
      ensures y in st.holders && st.holders[y] < FOREVER && y != st.root
    {
      assert y in Held(st.colls[p].contents);
      HeldOrdinary(st, p, y);
    }
    ReleasableOut(st.holders, out);
  }

  lemma NewHoldersAt(st: State, out: seq<Slot>, put: Option<Slot>)
    requires Releasable(st.holders, out)
    requires put.Some? ==> Placeable(st, put.value)
    ensures NewHolders(st, out, put).Keys == st.holders.Keys
    ensures forall y :: y in st.holders ==>
              NewHolders(st, out, put)[y] ==
              st.holders[y] - multiset(Ids(out))[y] + multiset(SlotIds(put))[y]
  {
    hide Ids, ReleaseIn;
    ReleaseCounts(st.holders, out);
  }

  lemma ChangedIs(st: State, p: Place, contents: Contents, out: seq<Slot>, put: Option<Slot>)
    requires p in st.colls
    ensures Changed(st, p, contents, out, put) ==
            SetContents(st, p, contents).(
              holders := NewHolders(st, out, put),
              released := st.released + ReleaseIn(st.holders, out).1)
  {
    hide ReleaseIn;
  }

  lemma ChangeShape(st: State, exempt: set<Id>, p: Place, contents: Contents, out: seq<Slot>, put: Option<Slot>)
    requires OpInv(st, exempt) && Reachable(st, p)
    requires Moves(Held(st.colls[p].contents), Held(contents), out, put)
    requires put.Some? ==> Placeable(st, put.value)
    ensures Shape(Changed(st, p, contents, out, put)) && ElementsRegistered(Changed(st, p, contents, out, put))
  {
    hide Held, Ids, Slots, GraphShape, RefsShape, Mapped, Exact, ZerosIn, ReleaseIn, Releasable, Changed, NewHolders;
    hide ClassesShape, Bounded, Family;
    OutReleasable(st, exempt, p, out);
    NewHoldersAt(st, out, put);
    ChangedIs(st, p, contents, out, put);
    forall y | y in Held(contents)
      ensures y in st.refOf && y in st.classOf && y !in st.parent && y != st.root
    {
      if y in Held(st.colls[p].contents) {
        HeldOrdinary(st, p, y);
      } else {
        assert y in multiset(SlotIds(put));
      }
    }
    var st1 := SetContents(st, p, contents);
    ContentsShape(st, p, contents);
    HoldersFrame(st1, NewHolders(st, out, put), st.released + ReleaseIn(st.holders, out).1);
  }

  lemma ChangeCounts(st: State, exempt: set<Id>, p: Place, contents: Contents, out: seq<Slot>, put: Option<Slot>)
    requires OpInv(st, exempt) && Reachable(st, p)
    requires Moves(Held(st.colls[p].contents), Held(contents), out, put)
    requires put.Some? ==> Placeable(st, put.value)
    requires forall x :: x in exempt ==> put == Some(Obj(x))
    ensures var st' := Changed(st, p, contents, out, put);
            Exact(st', multiset{}) && ZerosIn(st', SetOf(st'.released)) && Bounded(st')
            && Ordinary(st'.root, st'.released)
  {
    hide Held, Ids, Slots, Shape, ElementsRegistered, ReleaseIn, Releasable, Changed, NewHolders, Count, SetOf;
    hide ClassesShape, Family;
    OutReleasable(st, exempt, p, out);
    NewHoldersAt(st, out, put);
    ChangedIs(st, p, contents, out, put);
    var st' := Changed(st, p, contents, out, put);
    ReleaseEmptied(st.holders, out);
    forall y | y in st'.refOf && y != st'.root && y in st'.holders
      ensures st'.holders[y] == Count(st', y)
    {
      ContentsCount(st, p, contents, y);
      CountFrame(SetContents(st, p, contents), st', y);
    }
    forall y | y in st'.holders && y != st'.root && st'.holders[y] <= 0
      ensures y in SetOf(st'.released)
    {
      SetOfAppend(st.released, ReleaseIn(st.holders, out).1);
      if y in multiset(SlotIds(put)) {
        RegisteredToo(st, multiset{}, SetOf(st.released) + exempt, y);
        ContentsCount(st, p, contents, y);
        CountFrame(SetContents(st, p, contents), st', y);
        CountAtLeast(st, p, y);
        assert false;
      } else {
        assert NewHolders(st, out, put)[y] == ReleaseIn(st.holders, out).0[y] by { NotPut(st, out, put, y); }
        if st'.holders[y] != st.holders[y] {
          ReleaseZeros(st.holders, out, y);
          InSetOf(ReleaseIn(st.holders, out).1, y);
        }
      }
    }
  }

  lemma NotPut(st: State, out: seq<Slot>, put: Option<Slot>, y: Id)
    requires Releasable(st.holders, out) && y in st.holders && y !in multiset(SlotIds(put))
    ensures y in ReleaseIn(st.holders, out).0 && NewHolders(st, out, put).Keys >= st.holders.Keys
    ensures NewHolders(st, out, put)[y] == ReleaseIn(st.holders, out).0[y]
  {
    hide Ids, ReleaseIn;
    ReleaseCounts(st.holders, out);
  }

  lemma CountAtLeast(st: State, p: Place, y: Id)
    requires p in Live(st)
    ensures Count(st, y) >= Held(st.colls[p].contents)[y]
  {
    hide Held, Slots;
    SlotsRemove(st.colls, Live(st), y, p);
  }

  lemma SetOfAppend(a: seq<Id>, b: seq<Id>)
    ensures SetOf(a + b) == SetOf(a) + SetOf(b)
  {
    forall y | y in SetOf(a) + SetOf(b)
      ensures y in SetOf(a + b)
    {
      if y in SetOf(a) {
        var i :| 0 <= i < |a| && a[i] == y;
        assert (a + b)[i] == y;
      } else {
        var i :| 0 <= i < |b| && b[i] == y;
        assert (a + b)[|a| + i] == y;
      }
    }
  }

  lemma InSetOf(a: seq<Id>, y: Id)
    requires y in a
    ensures y in SetOf(a)
  {
    var i :| 0 <= i < |a| && a[i] == y;
  }

  /** One collection changed, with the releases and the retain the change calls for. */
  lemma ChangeKeeps(st: State, exempt: set<Id>, p: Place, contents: Contents, out: seq<Slot>, put: Option<Slot>)
    requires OpInv(st, exempt) && Reachable(st, p)
    requires Moves(Held(st.colls[p].contents), Held(contents), out, put)
    requires put.Some? ==> Placeable(st, put.value)
    requires forall x :: x in exempt ==> put == Some(Obj(x))
    ensures OpInv(Changed(st, p, contents, out, put), {})
  {
    hide Held, Ids, Shape, ElementsRegistered, Exact, ZerosIn, Bounded, Ordinary, ReleaseIn, Moves, SetOf, NewHolders;
    ChangeShape(st, exempt, p, contents, out, put);
    ChangeCounts(st, exempt, p, contents, out, put);
    ChangedIs(st, p, contents, out, put);
    var st' := Changed(st, p, contents, out, put);
    assert SetOf(st'.released) + {} == SetOf(st'.released);
  }
}
