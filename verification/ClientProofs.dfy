/** What the client's steps keep of its rooms and joins. */
module ClientProofs {
  import opened Wrappers
  import opened ClientSteps

  // ---------------------------------------------------------------- the tables

  ghost predicate Resumes(t: Tables, r: RoomId) {
    exists q :: q in t.pending && t.pending[q].room == r && t.pending[q].resume
  }

  /** Some join waits for this promise. */
  ghost predicate Waited(t: Tables, p: Promise) {
    exists q :: q in t.pending && t.pending[q].promise == p
  }

  /** The tables name rooms that exist, and every waiting join has a promise of its own, not resolved yet. */
  ghost predicate Linked(t: Tables) {
    && (forall ref :: ref in t.byRef ==> t.byRef[ref] in t.rooms && t.rooms[t.byRef[ref]].ref == ref)
    && t.resuming <= t.rooms.Keys
    && (forall q :: q in t.pending ==>
          && t.pending[q].room in t.rooms && (!t.pending[q].resume ==> !t.rooms[t.pending[q].room].given)
          && t.pending[q].promise in t.answers && t.answers[t.pending[q].promise] == Answer(t.pending[q].resume, 0))
    && (forall q, q' :: q in t.pending && q' in t.pending && q != q' ==>
          t.pending[q].room != t.pending[q'].room && t.pending[q].promise != t.pending[q'].promise)
    && (forall p :: p in t.answers ==> t.answers[p].times <= 1)
  }

  /** A room its caller holds and has not left is reachable by frames, or waits to be resumed. */
  ghost predicate Kept(t: Tables, r: RoomId) {
    r in t.rooms && t.rooms[r].given ==>
      && (t.rooms[r].status != Left ==> InByRef(t, r) || r in t.resuming || Resumes(t, r))
      && (t.rooms[r].status == Joining ==> Resumes(t, r))
  }

  ghost predicate AllKept(t: Tables) {
    forall r :: r in t.rooms ==> Kept(t, r)
  }

  ghost predicate KeptOutside(t: Tables, s: set<RoomId>) {
    forall x :: x in t.rooms && x !in s ==> Kept(t, x)
  }

  /**
   No first-time join waits for a room that was left, and none is forgotten: its
   promise is resolved or waited for.
   */
  ghost predicate Fair(t: Tables) {
    && (forall q :: q in t.pending && !t.pending[q].resume ==>
          t.pending[q].room in t.rooms && t.rooms[t.pending[q].room].status != Left)
    && (forall p :: p in t.answers && !t.answers[p].resume && t.answers[p].times == 0 ==> Waited(t, p))
  }

  ghost predicate Sound(t: Tables) { Linked(t) && AllKept(t) && Fair(t) }

  predicate Fewer<K(!new), V(==)>(a: map<K, V>, b: map<K, V>) {
    forall k :: k in a ==> k in b && a[k] == b[k]
  }

  /** The tables lead to no more rooms than before, rooms keep their handles, and a left room stays left. */
  ghost predicate Dwindles(t: Tables, t': Tables) {
    && Fewer(t'.byRef, t.byRef) && t'.resuming <= t.resuming && t'.rooms.Keys == t.rooms.Keys
    && (forall x :: x in t.rooms ==>
          t'.rooms[x].ref == t.rooms[x].ref && (t.rooms[x].status == Left ==> t'.rooms[x] == t.rooms[x]))
  }

  lemma DwindlesTwice(a: Tables, b: Tables, c: Tables)
    requires Dwindles(a, b) && Dwindles(b, c)
    ensures Dwindles(a, c)
  {
  }

  lemma LinkedAt(t: Tables, q: Request)
    requires Linked(t) && q in t.pending
    ensures t.pending[q].room in t.rooms && t.pending[q].promise in t.answers
    ensures t.answers[t.pending[q].promise] == Answer(t.pending[q].resume, 0)
    ensures !t.pending[q].resume ==> !t.rooms[t.pending[q].room].given
    ensures forall x :: x in t.pending && x != q ==>
              t.pending[x].room != t.pending[q].room && t.pending[x].promise != t.pending[q].promise
  {
  }

  lemma ResumesStill(t: Tables, t': Tables, x: RoomId, q: Request)
    requires Resumes(t, x) && q in t.pending && t.pending[q].room != x && t'.pending == t.pending - {q}
    ensures Resumes(t', x)
  {
    var q' :| q' in t.pending && t.pending[q'].room == x && t.pending[q'].resume;
    assert t'.pending[q'] == t.pending[q'];
  }

  lemma WaitedStill(t: Tables, t': Tables, p: Promise, q: Request)
    requires Waited(t, p) && q in t.pending && t.pending[q].promise != p && t'.pending == t.pending - {q}
    ensures Waited(t', p)
  {
    var q' :| q' in t.pending && t.pending[q'].promise == p;
    assert t'.pending[q'] == t.pending[q'];
  }

  // ------------------------------------------------------------- one room or join

  lemma AnsweredLinked(t: Tables, q: Request)
    requires Linked(t) && q in t.pending
    ensures Linked(Answered(t, q))
  {
  }

  lemma AnsweredKept(t: Tables, q: Request, x: RoomId)
    requires q in t.pending && x != t.pending[q].room && Kept(t, x)
    ensures Kept(Answered(t, q), x)
  {
    if Resumes(t, x) {
      ResumesStill(t, Answered(t, q), x, q);
    }
  }

  lemma AnsweredFair(t: Tables, q: Request)
    requires Linked(t) && Fair(t) && q in t.pending
    ensures Fair(Answered(t, q))
  {
    LinkedAt(t, q);
    var t' := Answered(t, q);
    forall p | p in t'.answers && !t'.answers[p].resume && t'.answers[p].times == 0
      ensures Waited(t', p)
    {
      assert p != t.pending[q].promise;
      WaitedStill(t, t', p, q);
    }
  }

  lemma UnseatedSound(t: Tables, r: RoomId)
    requires Linked(t) && r in t.rooms && KeptOutside(t, {r})
    ensures Linked(Unseated(t, r)) && KeptOutside(Unseated(t, r), {r}) && Dwindles(t, Unseated(t, r))
    ensures Fair(t) ==> Fair(Unseated(t, r))
  {
    var t' := Unseated(t, r);
    assert forall x :: Resumes(t, x) <==> Resumes(t', x);
    assert forall p :: Waited(t, p) <==> Waited(t', p);
  }

  lemma ForgottenLinked(t: Tables, r: RoomId)
    requires Linked(t) && r in t.rooms
    ensures Linked(Forgotten(t, r)) && Dwindles(t, Forgotten(t, r))
  {
  }

  lemma ForgottenKept(t: Tables, r: RoomId, x: RoomId)
    requires Linked(t) && r in t.rooms && (x != r ==> Kept(t, x))
    ensures Kept(Forgotten(t, r), x)
  {
    assert Resumes(t, x) <==> Resumes(Forgotten(t, r), x);
  }

  /** Leaving a room keeps the others; whatever the room was, nothing is owed to it any more. */
  lemma LeaveSound(t: Tables, r: RoomId, s: set<RoomId>)
    requires Linked(t) && Fair(t) && KeptOutside(t, s) && r in t.rooms
    ensures Linked(Leave(t, r)) && Fair(Leave(t, r)) && KeptOutside(Leave(t, r), s - {r}) && Dwindles(t, Leave(t, r))
  {
    if t.rooms[r].status == Left {
      assert Kept(t, r);
    } else {
      var t1 := Forgotten(t, r);
      ForgottenLinked(t, r);
      forall x | x in t1.rooms && x !in s - {r}
        ensures Kept(t1, x)
      {
        ForgottenKept(t, r, x);
      }
      hide Kept;
      LeftFair(t, r);
      var q := JoinOf(t1, r);
      if q.Some? {
        LinkedAt(t1, q.value);
        AnsweredLinked(t1, q.value);
        forall x | x in t1.rooms && x !in s - {r}
          ensures Kept(Answered(t1, q.value), x)
        {
          if x == r {
            NotGivenKept(Answered(t1, q.value), r);
          } else {
            AnsweredKept(t1, q.value, x);
          }
        }
      }
    }
  }

  lemma NotGivenKept(t: Tables, r: RoomId)
    requires r in t.rooms && !t.rooms[r].given
    ensures Kept(t, r)
  {
  }

  lemma LeftFair(t: Tables, r: RoomId)
    requires Linked(t) && Fair(t) && r in t.rooms && t.rooms[r].status != Left
    ensures Fair(Leave(t, r))
  {
    var t1 := Forgotten(t, r);
    var q := JoinOf(t1, r);
    assert forall p :: Waited(t, p) <==> Waited(t1, p);
    if q.Some? {
      LinkedAt(t, q.value);
      var t' := Answered(t1, q.value);
      forall p | p in t'.answers && !t'.answers[p].resume && t'.answers[p].times == 0
        ensures Waited(t', p)
      {
        assert p != t.pending[q.value].promise;
        WaitedStill(t1, t', p, q.value);
      }
    }
  }

  /** What a leave leaves. */
  lemma LeaveEffect(t: Tables, r: RoomId)
    requires Linked(t) && r in t.rooms
    ensures var t' := Leave(t, r);
            && t'.rooms == t.rooms[r := t.rooms[r].(status := Left)]
            && (t.rooms[r].status != Left ==>
                  && !InByRef(t', r) && r !in t'.resuming
                  && (forall q :: q in t'.pending && t'.pending[q].room == r ==> t'.pending[q].resume))
            && Fewer(t'.pending, t.pending)
            && (forall q :: q in t.pending && (t.pending[q].room != r || t.pending[q].resume) ==> q in t'.pending)
  {
    assert t.rooms[r].status == Left ==> t.rooms[r := t.rooms[r].(status := Left)] == t.rooms;
    var t1 := Forgotten(t, r);
    if t.rooms[r].status != Left && JoinOf(t1, r).Some? {
      LinkedAt(t, JoinOf(t1, r).value);
    }
  }

  /** A join that failed: its seat is given up, and a room that could not be resumed is left. */
  lemma FailSound(t: Tables, q: Request)
    requires Sound(t)
    ensures Sound(Settle(t, q, false)) && Dwindles(t, Settle(t, q, false))
  {
    if q in t.pending {
      LinkedAt(t, q);
      var r, t1 := t.pending[q].room, Answered(t, q);
      AnsweredLinked(t, q);
      AnsweredFair(t, q);
      forall x | x in t1.rooms && x != r
        ensures Kept(t1, x)
      {
        AnsweredKept(t, q, x);
      }
      hide Kept, Linked, Fair;
      UnseatedSound(t1, r);
      var t2 := Unseated(t1, r);
      if t.pending[q].resume {
        LeaveSound(t2, r, {r});
        DwindlesTwice(t, t2, Leave(t2, r));
      } else {
        NotGivenKept(t2, r);
      }
    }
  }

  lemma GivenLinked(t: Tables, q: Request)
    requires Linked(t) && q in t.pending && InByRef(t, t.pending[q].room)
    ensures Linked(Settle(t, q, true)) && Dwindles(t, Settle(t, q, true).(rooms := t.rooms))
  {
    LinkedAt(t, q);
    AnsweredLinked(t, q);
  }

  lemma GivenFair(t: Tables, q: Request)
    requires Linked(t) && Fair(t) && q in t.pending
    ensures Fair(Settle(t, q, true))
  {
    LinkedAt(t, q);
    AnsweredFair(t, q);
    hide Linked;
    assert forall p :: Waited(Answered(t, q), p) <==> Waited(Settle(t, q, true), p);
  }

  lemma GivenKept(t: Tables, q: Request, x: RoomId)
    requires Kept(t, x) && q in t.pending && InByRef(t, t.pending[q].room)
    requires t.rooms[t.pending[q].room].status != Joining
    ensures Kept(Settle(t, q, true), x)
  {
    if x != t.pending[q].room {
      AnsweredKept(t, q, x);
      assert Resumes(Answered(t, q), x) <==> Resumes(Settle(t, q, true), x);
    }
  }

  /** A join answered with its room hands over a room that frames reach. */
  lemma GiveSound(t: Tables, q: Request)
    requires Sound(t) && q in t.pending && InByRef(t, t.pending[q].room)
    requires t.rooms[t.pending[q].room].status != Joining
    ensures Sound(Settle(t, q, true)) && Dwindles(t, Settle(t, q, true).(rooms := t.rooms))
  {
    hide Linked, Fair, Kept, Settle, Dwindles;
    GivenLinked(t, q);
    GivenFair(t, q);
    forall x | x in Settle(t, q, true).rooms
      ensures Kept(Settle(t, q, true), x)
    {
      GivenKept(t, q, x);
    }
  }

  // ------------------------------------------------------------------ all of them

  lemma {:induction false} FailAllSound(t: Tables)
    requires Sound(t)
    ensures Sound(FailAll(t)) && Dwindles(t, FailAll(t))
    decreases |t.pending|
  {
    hide Sound, Settle, Dwindles;
    if t.pending == map[] {
      DwindlesSelf(t);
    } else {
      var q := Least(t.pending.Keys);
      FailSound(t, q);
      Smaller(t, Settle(t, q, false), q);
      FailAllSound(Settle(t, q, false));
      DwindlesTwice(t, Settle(t, q, false), FailAll(t));
    }
  }

  lemma DwindlesSelf(t: Tables)
    ensures Dwindles(t, t)
  {
  }

  lemma {:induction false} LeaveEachSound(t: Tables, todo: set<RoomId>)
    requires Linked(t) && Fair(t) && KeptOutside(t, todo) && todo <= t.rooms.Keys
    ensures Sound(LeaveEach(t, todo)) && Dwindles(t, LeaveEach(t, todo))
    ensures forall r :: r in todo ==> r in LeaveEach(t, todo).rooms && LeaveEach(t, todo).rooms[r].status == Left
    decreases |todo|
  {
    if todo == {} {
      DwindlesSelf(t);
    } else {
      var r := Least(todo);
      var t1 := Leave(t, r);
      LeaveSound(t, r, todo);
      LeaveEffect(t, r);
      hide Linked, Fair, Kept, KeptOutside, Leave;
      LeaveEachSound(t1, todo - {r});
      DwindlesTwice(t, t1, LeaveEach(t, todo));
    }
  }

  lemma Cleared(t: Tables)
    requires Sound(t) && t.pending == map[]
    ensures var t' := t.(byRef := map[], resuming := {});
            Linked(t') && Fair(t') && KeptOutside(t', t.byRef.Values + t.resuming)
    ensures t.byRef.Values + t.resuming <= t.rooms.Keys
  {
    var t' := t.(byRef := map[], resuming := {});
    forall x | x in t'.rooms && x !in t.byRef.Values + t.resuming
      ensures Kept(t', x)
    {
      assert Kept(t, x);
    }
    assert forall p :: Waited(t, p) <==> Waited(t', p);
  }

  /** Once everything is ended, no table leads anywhere, and every room a caller holds is left. */
  lemma EndSound(t: Tables)
    requires Sound(t)
    ensures var t' := EndRooms(t);
            && Sound(t') && Dwindles(t, t') && t'.byRef == map[] && t'.resuming == {} && t'.pending == map[]
            && (forall r :: r in t'.rooms && t'.rooms[r].given ==> t'.rooms[r].status == Left)
  {
    hide FailAll, LeaveEach;
    var t1 := FailAll(t);
    FailAllSound(t);
    Cleared(t1);
    var t2, todo := t1.(byRef := map[], resuming := {}), t1.byRef.Values + t1.resuming;
    LeaveEachSound(t2, todo);
    DwindlesTwice(t, t1, t2);
    DwindlesTwice(t, t2, LeaveEach(t2, todo));
    EndedRooms(LeaveEach(t2, todo));
  }

  lemma EndedRooms(t: Tables)
    requires Sound(t) && t.pending == map[] && t.byRef == map[] && t.resuming == {}
    ensures forall r :: r in t.rooms && t.rooms[r].given ==> t.rooms[r].status == Left
  {
    forall r | r in t.rooms && t.rooms[r].given
      ensures t.rooms[r].status == Left
    {
      assert Kept(t, r);
    }
  }

  // ------------------------------------------------------------- a lost connection

  /** Rooms their callers hold and have not left are still held, and not left. */
  ghost predicate Holds(t: Tables, t': Tables) {
    forall r :: r in t.rooms && t.rooms[r].given && t.rooms[r].status != Left ==>
      r in t'.rooms && t'.rooms[r].given && t'.rooms[r].status != Left
  }

  /** Handles stay, a left room stays left, and what waits to be resumed still does. */
  ghost predicate Steady(t: Tables, t': Tables) {
    && t'.rooms.Keys == t.rooms.Keys && t.resuming <= t'.resuming && Fewer(t'.byRef, t.byRef)
    && (forall x :: x in t.rooms ==>
          t'.rooms[x].ref == t.rooms[x].ref && (t.rooms[x].status == Left ==> t'.rooms[x] == t.rooms[x]))
  }

  lemma HoldsTwice(a: Tables, b: Tables, c: Tables)
    requires Holds(a, b) && Holds(b, c)
    ensures Holds(a, c)
  {
  }

  lemma SteadyTwice(a: Tables, b: Tables, c: Tables)
    requires Steady(a, b) && Steady(b, c)
    ensures Steady(a, c)
  {
  }

  lemma SuspendedSound(t: Tables, q: Request)
    requires Sound(t) && q in t.pending && t.pending[q].resume && t.pending[q].room in t.rooms
    ensures var t' := Suspended(t.(pending := t.pending - {q}), t.pending[q].room);
            Sound(t') && Holds(t, t') && Steady(t, t')
  {
    var r := t.pending[q].room;
    var t' := Suspended(t.(pending := t.pending - {q}), r);
    forall x | x in t'.rooms
      ensures Kept(t', x)
    {
      if x != r {
        assert Kept(t, x);
        if Resumes(t, x) {
          ResumesStill(t, t', x, q);
        }
      }
    }
    SuspendedFair(t, q);
  }

  lemma SuspendedFair(t: Tables, q: Request)
    requires Linked(t) && Fair(t) && q in t.pending && t.pending[q].resume && t.pending[q].room in t.rooms
    ensures Fair(Suspended(t.(pending := t.pending - {q}), t.pending[q].room))
  {
    LinkedAt(t, q);
    var t' := Suspended(t.(pending := t.pending - {q}), t.pending[q].room);
    forall p | p in t'.answers && !t'.answers[p].resume && t'.answers[p].times == 0
      ensures Waited(t', p)
    {
      WaitedStill(t, t', p, q);
    }
  }

  /** A first-time join that fails takes no room from a caller, and sends none to be resumed. */
  lemma FailHolds(t: Tables, q: Request)
    requires Linked(t) && q in t.pending && !t.pending[q].resume
    ensures Holds(t, Settle(t, q, false)) && Steady(t, Settle(t, q, false))
    ensures Settle(t, q, false).resuming == t.resuming && Settle(t, q, false).pending == t.pending - {q}
  {
    LinkedAt(t, q);
  }

  /** The rooms that resumes wait for. */
  ghost function Awaited(t: Tables): set<RoomId> {
    set q | q in t.pending && t.pending[q].resume :: t.pending[q].room
  }

  lemma SuspendOneSound(t: Tables, q: Request)
    requires Sound(t) && q in t.pending
    ensures Sound(SuspendOne(t, q)) && Holds(t, SuspendOne(t, q)) && Steady(t, SuspendOne(t, q))
    ensures SuspendOne(t, q).resuming + Awaited(SuspendOne(t, q)) == t.resuming + Awaited(t)
  {
    LinkedAt(t, q);
    var t' := SuspendOne(t, q);
    if t.pending[q].resume {
      SuspendedSound(t, q);
    } else {
      FailSound(t, q);
      FailHolds(t, q);
    }
    hide Sound;
    assert t'.pending == t.pending - {q};
    AwaitedLess(t, t', q);
  }

  lemma AwaitedLess(t: Tables, t': Tables, q: Request)
    requires q in t.pending && t'.pending == t.pending - {q}
    ensures Awaited(t) == Awaited(t') + (if t.pending[q].resume then {t.pending[q].room} else {})
  {
    forall r | r in Awaited(t) && !(t.pending[q].resume && r == t.pending[q].room)
      ensures r in Awaited(t')
    {
      var x :| x in t.pending && t.pending[x].resume && t.pending[x].room == r;
      assert t'.pending[x] == t.pending[x];
    }
    forall r | r in Awaited(t')
      ensures r in Awaited(t)
    {
      var x :| x in t'.pending && t'.pending[x].resume && t'.pending[x].room == r;
      assert t.pending[x] == t'.pending[x];
    }
  }

  lemma {:induction false} SuspendPendingSound(t: Tables)
    requires Sound(t)
    ensures Sound(SuspendPending(t)) && Holds(t, SuspendPending(t)) && Steady(t, SuspendPending(t))
    ensures SuspendPending(t).resuming == t.resuming + Awaited(t)
    decreases |t.pending|
  {
    if t.pending == map[] {
      assert Awaited(t) == {};
    } else {
      hide Sound, SuspendOne, Holds, Steady, Awaited;
      var q := Least(t.pending.Keys);
      var t1 := SuspendOne(t, q);
      SuspendOneSound(t, q);
      Smaller(t, t1, q);
      SuspendPendingSound(t1);
      HoldsTwice(t, t1, SuspendPending(t));
      SteadyTwice(t, t1, SuspendPending(t));
    }
  }

  /** A bound room, unbound: one that is not suspended was never handed out. */
  lemma UnbindSound(t: Tables, ref: Ref)
    requires Sound(t) && t.pending == map[] && ref in t.byRef
    ensures Sound(UnbindOne(t, ref)) && Holds(t, UnbindOne(t, ref))
    ensures UnbindOne(t, ref).pending == map[] && UnbindOne(t, ref).rooms.Keys == t.rooms.Keys
  {
    var r, t1 := t.byRef[ref], t.(byRef := t.byRef - {ref});
    UnboundKept(t, ref);
    UnboundLinked(t, ref);
    hide Kept, Waited, Linked, Fair, KeptOutside, AllKept;
    if t.rooms[r].status == Joining {
      LeaveSound(t1, r, {r});
      LeaveEffect(t1, r);
      assert {r} - {r} == {};
      NoneOutside(Leave(t1, r));
    }
  }

  lemma UnboundLinked(t: Tables, ref: Ref)
    requires Linked(t) && ref in t.byRef
    ensures var t1 := t.(byRef := t.byRef - {ref});
            t.byRef[ref] in t.rooms && Linked(t1) && Linked(Suspended(t1, t.byRef[ref]))
  {
  }

  lemma UnboundKept(t: Tables, ref: Ref)
    requires Sound(t) && t.pending == map[] && ref in t.byRef
    ensures var r, t1 := t.byRef[ref], t.(byRef := t.byRef - {ref});
            && KeptOutside(t1, {r}) && Fair(t1)
            && (t.rooms[r].status == Joining ==> !t.rooms[r].given)
            && (t.rooms[r].status != Joining ==> AllKept(Suspended(t1, r)) && Fair(Suspended(t1, r)))
  {
    var r, t1 := t.byRef[ref], t.(byRef := t.byRef - {ref});
    assert Kept(t, r);
    assert forall x :: x in t.rooms && x != r && InByRef(t, x) ==> t.rooms[x].ref != ref;
    forall x | x in t.rooms && x != r
      ensures Kept(t1, x) && Kept(Suspended(t1, r), x)
    {
      assert Kept(t, x);
    }
    assert forall p :: !Waited(t, p);
  }

  /** Which left rooms unbinding sends to be resumed: those that were bound. */
  lemma UnbindLeft(t: Tables, ref: Ref, r: RoomId)
    requires Linked(t) && t.pending == map[] && ref in t.byRef && r in t.rooms && t.rooms[r].status == Left
    ensures var t' := UnbindOne(t, ref);
            && r in t'.rooms && t'.rooms[r] == t.rooms[r]
            && (r in t'.resuming <==> r in t.resuming || t.byRef[ref] == r)
            && (InByRef(t', r) <==> InByRef(t, r) && t.byRef[ref] != r)
  {
    var x, t1 := t.byRef[ref], t.(byRef := t.byRef - {ref});
    if t.rooms[x].status == Joining {
      LeaveEffect(t1, x);
    }
  }

  lemma {:induction false} SuspendBoundSound(t: Tables)
    requires Sound(t) && t.pending == map[]
    ensures Sound(SuspendBound(t)) && Holds(t, SuspendBound(t)) && SuspendBound(t).pending == map[]
    decreases |t.byRef|
  {
    hide Sound, UnbindOne;
    if t.byRef != map[] {
      var ref := Least(t.byRef.Keys);
      var t1 := UnbindOne(t, ref);
      UnbindSound(t, ref);
      SubsetSize(t1.byRef.Keys, t.byRef.Keys - {ref});
      SuspendBoundSound(t1);
    }
  }

  lemma {:induction false} SuspendBoundLeft(t: Tables, r: RoomId)
    requires Sound(t) && t.pending == map[] && r in t.rooms && t.rooms[r].status == Left
    ensures var t' := SuspendBound(t);
            r in t'.rooms && t'.rooms[r] == t.rooms[r] && (r in t'.resuming <==> r in t.resuming || InByRef(t, r))
    decreases |t.byRef|
  {
    hide UnbindOne;
    if t.byRef != map[] {
      var ref := Least(t.byRef.Keys);
      var t1 := UnbindOne(t, ref);
      UnbindSound(t, ref);
      UnbindLeft(t, ref, r);
      SubsetSize(t1.byRef.Keys, t.byRef.Keys - {ref});
      SuspendBoundLeft(t1, r);
    }
  }

  // --------------------------------------------------------------------- requests

  /** The room has no join waiting. */
  ghost predicate Unanswered(t: Tables, r: RoomId) {
    forall q :: q in t.pending ==> t.pending[q].room != r
  }

  /** Names are given out once. */
  ghost predicate Numbered(l: Line, t: Tables) {
    && (forall f :: f in l.fetches ==> f <= l.tokenFetch) && (!l.fetchesToken ==> l.fetches == {})
    && (l.connection.Some? ==> l.connection.value.id < l.sockets)
    && (forall q :: q in t.pending ==> q < l.nextRequest) && (forall p: nat :: p in t.answers <==> p < l.nextPromise)
  }

  lemma NumberedStill(l: Line, t: Tables, t': Tables)
    requires Numbered(l, t) && t'.pending.Keys <= t.pending.Keys && t'.answers.Keys == t.answers.Keys
    ensures Numbered(l, t')
  {
  }

  lemma AskedSound(l: Line, t: Tables, r: RoomId, resume: bool)
    requires Linked(t) && Fair(t) && Numbered(l, t) && KeptOutside(t, {r}) && r in t.rooms && Unanswered(t, r)
    requires if resume then true else !t.rooms[r].given && t.rooms[r].status != Left
    ensures Sound(Asked(l, t, r, resume)) && l.nextRequest !in t.pending && l.nextPromise !in t.answers
  {
    var t' := Asked(l, t, r, resume);
    assert t'.pending[l.nextRequest] == Pending(r, resume, l.nextPromise);
    assert l.nextRequest !in t.pending && l.nextPromise !in t.answers;
    AskedLinked(l, t, r, resume);
    AskedFair(l, t, r, resume);
    forall x | x in t'.rooms
      ensures Kept(t', x)
    {
      if x != r {
        AskedKept(l, t, r, resume, x);
      }
    }
    hide Kept, Linked, Fair;
  }

  lemma AskedLinked(l: Line, t: Tables, r: RoomId, resume: bool)
    requires Linked(t) && r in t.rooms && Unanswered(t, r) && (!resume ==> !t.rooms[r].given)
    requires l.nextRequest !in t.pending && l.nextPromise !in t.answers
    ensures Linked(Asked(l, t, r, resume))
  {
  }

  lemma AskedFair(l: Line, t: Tables, r: RoomId, resume: bool)
    requires Fair(t) && r in t.rooms && (!resume ==> t.rooms[r].status != Left) && l.nextRequest !in t.pending
    ensures Fair(Asked(l, t, r, resume))
  {
    var t' := Asked(l, t, r, resume);
    assert t'.pending[l.nextRequest] == Pending(r, resume, l.nextPromise);
    forall p | p in t'.answers && !t'.answers[p].resume && t'.answers[p].times == 0
      ensures Waited(t', p)
    {
      if p != l.nextPromise {
        var q :| q in t.pending && t.pending[q].promise == p;
        assert t'.pending[q] == t.pending[q];
      }
    }
  }

  lemma AskedKept(l: Line, t: Tables, r: RoomId, resume: bool, x: RoomId)
    requires x != r && Kept(t, x) && l.nextRequest !in t.pending
    ensures Kept(Asked(l, t, r, resume), x)
  {
    if Resumes(t, x) {
      var q :| q in t.pending && t.pending[q].room == x && t.pending[q].resume;
      assert Asked(l, t, r, resume).pending[q] == t.pending[q];
    }
  }

  lemma AskedFrame(l: Line, t: Tables, r: RoomId, resume: bool)
    requires Numbered(l, t)
    ensures var t' := Asked(l, t, r, resume);
            && Dwindles(t, t') && t'.pending.Keys == t.pending.Keys + {l.nextRequest}
            && Numbered(l.(nextRequest := l.nextRequest + 1, nextPromise := l.nextPromise + 1), t')
  {
  }

  /** A request that cannot be sent leaves nothing waiting. */
  lemma AskSound(st: State, r: RoomId, resume: bool, sent: bool)
    requires var l, t := st.line, st.tables;
             Linked(t) && Fair(t) && Numbered(l, t) && KeptOutside(t, {r}) && r in t.rooms && Unanswered(t, r)
    requires if resume then true else !st.tables.rooms[r].given && st.tables.rooms[r].status != Left
    ensures var st' := Ask(st, r, resume, sent);
            && Sound(st'.tables) && Numbered(st'.line, st'.tables)
            && st'.tables.pending.Keys <= st.tables.pending.Keys + (if sent then {st.line.nextRequest} else {})
            && Dwindles(st.tables, st'.tables)
  {
    hide Sound, Linked, Fair, KeptOutside, Unanswered, Settle, Dwindles, Numbered, Asked;
    var l, t := st.line, st.tables;
    var t1 := Asked(l, t, r, resume);
    AskedSound(l, t, r, resume);
    AskedFrame(l, t, r, resume);
    if !sent {
      var t2 := Settle(t1, l.nextRequest, false);
      FailSound(t1, l.nextRequest);
      DwindlesTwice(t, t1, t2);
      NumberedStill(l.(nextRequest := l.nextRequest + 1, nextPromise := l.nextPromise + 1), t1, t2);
    }
  }

  /** Only numbers were given out. */
  predicate SameLine(l: Line, l': Line) { l' == l.(nextRequest := l'.nextRequest, nextPromise := l'.nextPromise) }

  /** The seats in `todo` wait to be resumed, and nothing has been asked for them yet. */
  ghost predicate Resumable(t: Tables, todo: set<RoomId>) {
    t.resuming == todo && todo <= t.rooms.Keys && forall q :: q in t.pending ==> t.pending[q].room !in todo
  }

  lemma ResumeSound(st: State, r: RoomId, sent: bool, todo: set<RoomId>)
    requires Sound(st.tables) && Numbered(st.line, st.tables) && Resumable(st.tables, todo) && r in todo
    ensures var st' := Resume(st, r, sent);
            && Sound(st'.tables) && Numbered(st'.line, st'.tables) && Resumable(st'.tables, todo - {r})
            && Dwindles(st.tables, st'.tables) && SameLine(st.line, st'.line)
  {
    var t := st.tables.(resuming := st.tables.resuming - {r});
    WithoutOne(st.tables, r);
    hide Sound, Linked, Fair, KeptOutside, Settle, Leave;
    assert Dwindles(st.tables, t);
    if t.rooms[r].token {
      AskSound(st.(tables := t), r, true, sent);
      AskResumable(st.(tables := t), r, sent, todo - {r});
      DwindlesTwice(st.tables, t, Ask(st.(tables := t), r, true, sent).tables);
    } else {
      LeaveSound(t, r, {r});
      LeaveEffect(t, r);
      assert {r} - {r} == {};
      NoneOutside(Leave(t, r));
      NumberedStill(st.line, t, Leave(t, r));
      LeaveResumable(t, r, todo - {r});
      DwindlesTwice(st.tables, t, Leave(t, r));
    }
  }

  lemma NoneOutside(t: Tables)
    requires Linked(t) && Fair(t) && KeptOutside(t, {})
    ensures Sound(t)
  {
  }

  lemma WithoutOne(t: Tables, r: RoomId)
    requires Sound(t) && r in t.resuming
    ensures var t' := t.(resuming := t.resuming - {r});
            Linked(t') && Fair(t') && KeptOutside(t', {r}) && r in t.rooms
  {
    var t' := t.(resuming := t.resuming - {r});
    assert forall x :: Resumes(t, x) <==> Resumes(t', x);
    assert forall p :: Waited(t, p) <==> Waited(t', p);
    forall x | x in t'.rooms && x != r
      ensures Kept(t', x)
    {
      assert Kept(t, x);
    }
  }

  lemma LeaveResumable(t: Tables, r: RoomId, todo: set<RoomId>)
    requires r in t.rooms && Resumable(t, todo) && r !in todo
    ensures Resumable(Leave(t, r), todo)
  {
    assert todo - {r} == todo;
  }

  lemma AskResumable(st: State, r: RoomId, sent: bool, todo: set<RoomId>)
    requires r in st.tables.rooms && Resumable(st.tables, todo) && r !in todo
             && st.line.nextRequest !in st.tables.pending
    ensures Resumable(Ask(st, r, true, sent).tables, todo)
  {
    var t := Asked(st.line, st.tables, r, true);
    assert Resumable(t, todo);
    if !sent {
      var q := st.line.nextRequest;
      var t1 := Answered(t, q);
      assert Resumable(t1, todo) && Resumable(Unseated(t1, r), todo);
      LeaveResumable(Unseated(t1, r), r, todo);
    }
  }

  lemma {:induction false} ResumeEachSound(st: State, todo: set<RoomId>, sends: set<RoomId>)
    requires Sound(st.tables) && Numbered(st.line, st.tables) && Resumable(st.tables, todo)
    ensures var st' := ResumeEach(st, todo, sends);
            && Sound(st'.tables) && Numbered(st'.line, st'.tables) && st'.tables.resuming == {}
            && SameLine(st.line, st'.line) && Dwindles(st.tables, st'.tables)
    decreases |todo|
  {
    if todo == {} {
      DwindlesSelf(st.tables);
    } else {
      hide Dwindles;
      var r := Least(todo);
      var st1 := Resume(st, r, r in sends);
      ResumeSound(st, r, r in sends, todo);
      assert r in st.tables.rooms;
      hide Sound, Numbered, Resumable, Dwindles, Resume;
      ResumeEachSound(st1, todo - {r}, sends);
      DwindlesTwice(st.tables, st1.tables, ResumeEach(st, todo, sends).tables);
    }
  }
}
