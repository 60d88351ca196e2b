/**
 What each event does to a client, in terms of the state before it: which
 attempts are made, who is asked for again, who is answered and who is left.
 */
module ClientEffects {
  import opened Wrappers
  import opened ClientSteps
  import opened ClientProofs
  import opened ClientRuns

  // ------------------------------------------------------------------ attempts

  /** All that is left of a client that has ended. */
  ghost predicate Over(st: State) {
    && st.line.phase == Disconnected && st.line.attempt == 0 && !st.line.retryTimer && st.line.waiters == 0
    && st.tables.pending == map[] && st.tables.byRef == map[] && st.tables.resuming == {}
    && forall r :: r in st.tables.rooms && st.tables.rooms[r].given ==> st.tables.rooms[r].status == Left
  }

  lemma EndIs(st: State)
    requires Sound(st.tables)
    ensures Over(SetDisconnected(st)) && SetDisconnected(st).line.connection == st.line.connection
  {
    hide Sound, EndRooms;
    EndSound(st.tables);
  }

  /** An attempt is a token fetch with the next number, a new socket, or an end; `before` is the state without it. */
  ghost predicate Attempted(before: State, after: State, opens: bool) {
    var l := before.line;
    if l.fetchesToken then
      after == before.(line := l.(tokenFetch := l.tokenFetch + 1, fetches := l.fetches + {l.tokenFetch + 1}))
    else if opens then
      after == before.(line := l.(connection := Some(Socket(l.sockets, false)), sockets := l.sockets + 1))
    else Failed(before, after)
  }

  /** A failed attempt is retried while retries are left; the first connect never is. */
  ghost predicate Failed(before: State, after: State) {
    var l := before.line;
    if l.phase == Connecting || l.attempt >= l.options.maxAttempts then Over(after)
    else
      && after.tables == before.tables && |after.line.waits| == |l.waits| + 1
      && after.line ==
         l.(phase := Reopening, attempt := l.attempt + 1, retryTimer := true, waits := after.line.waits)
  }

  lemma FailIs(st: State)
    requires Sound(st.tables)
    ensures Failed(st, FailedAttempt(st))
  {
    hide Sound, EndRooms, Wait, SetDisconnected;
    EndIs(st);
  }

  lemma AttemptIs(st: State, opens: bool)
    requires Sound(st.tables)
    ensures Attempted(st, Open(st, opens), opens)
  {
    hide Sound, FailedAttempt, Failed;
    FailIs(st);
  }

  /** Connecting starts an attempt if there is none, and otherwise only waits for the one there is. */
  lemma ConnectIs(st: State, opens: bool)
    requires Ok(st)
    ensures var after := Next(st, Connects(opens));
            if st.line.phase == Connected then after == st
            else
              var waiting := st.(line := st.line.(waiters := st.line.waiters + 1));
              if st.line.phase == Disconnected then
                Attempted(waiting.(line := waiting.line.(phase := Connecting)), after, opens)
              else after == waiting
  {
    hide Sound, Open, Attempted;
    AttemptIs(st.(line := st.line.(waiters := st.line.waiters + 1, phase := Connecting)), opens);
  }

  lemma RetryIs(st: State, opens: bool)
    requires Ok(st) && st.line.retryTimer
    ensures Attempted(st.(line := st.line.(retryTimer := false)), Next(st, RetryFired(opens)), opens)
  {
    hide Sound, Open, Attempted;
    AttemptIs(st.(line := st.line.(retryTimer := false)), opens);
  }

  /** Only the latest token fetch moves an attempt on, and only while one is wanted. */
  lemma FetchIs(st: State, fetch: nat, ok: bool, opens: bool)
    requires Ok(st) && fetch in st.line.fetches
    ensures var back := st.(line := st.line.(fetches := st.line.fetches - {fetch}));
            var l, after := back.line, Next(st, FetchReturned(fetch, ok, opens));
            if fetch != st.line.tokenFetch || st.line.phase == Disconnected then after == back
            else if ok && opens then
              after == back.(line := l.(connection := Some(Socket(l.sockets, false)), sockets := l.sockets + 1))
            else Failed(back, after)
  {
    hide Sound, FailedAttempt, Failed;
    FailIs(st.(line := st.line.(fetches := st.line.fetches - {fetch})));
  }

  lemma DisconnectIs(st: State)
    requires Ok(st)
    ensures Over(Next(st, Disconnects)) && Next(st, Disconnects).line.connection == None
  {
    hide LeaveEach, SetDisconnected, Wait, AllRooms, Over, Kept;
    var t := LeaveEach(st.tables, AllRooms(st.tables));
    KnownRooms(st.tables);
    LeaveEachSound(st.tables, AllRooms(st.tables));
    hide Sound;
    EndIs(State(st.line.(retryTimer := false, connection := None), t));
  }

  // ------------------------------------------------------------- losing a connection

  /** Every room its caller holds and has not left waits to be resumed. */
  predicate KeepsRooms(t: Tables, t': Tables) {
    forall r :: r in t.rooms && t.rooms[r].given && t.rooms[r].status != Left ==>
      r in t'.resuming && r in t'.rooms && t'.rooms[r].status != Left
  }

  /**
   A close that is not the connection's changes nothing. Otherwise the client
   goes on if it had been connected, the close is not terminal, reconnection is
   on and retries are left, and it is over if not.
   */
  lemma CloseIs(st: State, id: nat, terminal: bool)
    requires Ok(st)
    ensures var l, after := st.line, Next(st, Closed(id, terminal));
            var current := l.connection.Some? && l.connection.value.id == id;
            var again := l.phase != Connecting && !terminal && l.options.enabled && l.attempt < l.options.maxAttempts;
            && (!current ==> after == st)
            && (current ==> after.line.connection == None)
            && (current && !again ==> Over(after))
            && (current && again ==>
                  && after.line.phase == Reopening && after.line.retryTimer && after.line.attempt == l.attempt + 1
                  && after.tables.pending == map[] && after.tables.byRef == map[]
                  && KeepsRooms(st.tables, after.tables))
  {
    hide Ok, Lost, Over, KeepsRooms;
    if st.line.connection.Some? && st.line.connection.value.id == id {
      LossEffect(st, terminal);
    }
  }

  lemma LossEffect(st: State, terminal: bool)
    requires Ok(st) && st.line.connection.Some?
    ensures var l, after := st.line, Lost(st, terminal);
            var again := l.phase != Connecting && !terminal && l.options.enabled && l.attempt < l.options.maxAttempts;
            && after.line.connection == None
            && (!again ==> Over(after))
            && (again ==>
                  && after.line.phase == Reopening && after.line.retryTimer && after.line.attempt == l.attempt + 1
                  && after.tables.pending == map[] && after.tables.byRef == map[]
                  && KeepsRooms(st.tables, after.tables))
  {
    hide Sound, SuspendPending, SuspendBound, SetDisconnected, FailedAttempt, Wait, Holds, Over, PhaseOk, Paced, Lost,
         Numbered, KeepsRooms;
    var l := st.line;
    SuspendedAll(st);
    LossIs(st, terminal);
    var t1 := SuspendPending(st.tables);
    if Retries(l, terminal) {
      FailIs(State(l.(connection := None, phase := Reopening), SuspendBound(t1)));
      if l.attempt < l.options.maxAttempts {
        RoomsKept(st, terminal);
      } else {
        EndIs(State(l.(connection := None, phase := Reopening), SuspendBound(t1)));
        OverLine(l, State(l.(connection := None, phase := Reopening), SuspendBound(t1)));
      }
    } else {
      EndIs(State(l.(connection := None), t1));
    }
  }

  lemma OverLine(l: Line, st: State)
    requires st.line.attempt >= st.line.options.maxAttempts && st.line.connection == None
    ensures FailedAttempt(st) == SetDisconnected(st) && SetDisconnected(st).line.connection == None
  {
    hide EndRooms;
  }

  lemma RoomsKept(st: State, terminal: bool)
    requires Ok(st) && st.line.connection.Some? && Retries(st.line, terminal)
    requires st.line.attempt < st.line.options.maxAttempts
    ensures KeepsRooms(st.tables, Lost(st, terminal).tables)
  {
    hide Ok, Lost, Retries, Wait;
    forall r | r in st.tables.rooms && st.tables.rooms[r].given && st.tables.rooms[r].status != Left
      ensures var after := Lost(st, terminal).tables;
              r in after.resuming && r in after.rooms && after.rooms[r].status != Left
    {
      LostKeepsRooms(st, terminal, r);
    }
  }

  /**
   On a loss that is followed by a retry, a bound room that never got a snapshot
   is left, every other bound room waits to be resumed, and the rest are as they were.
   */
  lemma {:induction false} SuspendBoundIs(t: Tables, r: RoomId)
    requires Linked(t) && t.pending == map[] && r in t.rooms
    ensures var t' := SuspendBound(t);
            && r in t'.rooms && t'.byRef == map[]
            && if !InByRef(t, r) then t'.rooms[r] == t.rooms[r] && (r in t'.resuming <==> r in t.resuming)
               else if t.rooms[r].status == Joining then
                 t'.rooms[r] == t.rooms[r].(status := Left) && r !in t'.resuming
               else
                 && r in t'.resuming
                 && t'.rooms[r] == t.rooms[r].(status := if t.rooms[r].status == Left then Left else Reconnecting)
    decreases |t.byRef|
  {
    if t.byRef != map[] {
      var ref := Least(t.byRef.Keys);
      UnbindIs(t, ref, r);
      hide UnbindOne, Linked;
      var t1 := UnbindOne(t, ref);
      assert |t1.byRef| < |t.byRef| by {
        SubsetSize(t1.byRef.Keys, t.byRef.Keys - {ref});
      }
      SuspendBoundIs(t1, r);
    }
  }

  lemma UnbindIs(t: Tables, ref: Ref, r: RoomId)
    requires Linked(t) && t.pending == map[] && r in t.rooms && ref in t.byRef
    ensures var t', bound := UnbindOne(t, ref), t.byRef[ref];
            && Linked(t') && t'.pending == map[] && r in t'.rooms
            && (r != bound ==>
                  && t'.rooms[r] == t.rooms[r] && (InByRef(t', r) <==> InByRef(t, r))
                  && (r in t'.resuming <==> r in t.resuming))
            && (r == bound ==>
                  && InByRef(t, r) && !InByRef(t', r)
                  && if t.rooms[r].status == Joining then
                       t'.rooms[r] == t.rooms[r].(status := Left) && r !in t'.resuming
                     else
                       && r in t'.resuming
                       && t'.rooms[r] ==
                          t.rooms[r].(status := if t.rooms[r].status == Left then Left else Reconnecting))
  {
    UnboundLinked(t, ref);
  }

  lemma LossIs(st: State, terminal: bool)
    requires Ok(st) && st.line.connection.Some?
    ensures var l, after := st.line, Lost(st, terminal);
            var t1 := SuspendPending(st.tables);
            if Retries(l, terminal) then
              after == FailedAttempt(State(l.(connection := None, phase := Reopening), SuspendBound(t1)))
            else after == SetDisconnected(State(l.(connection := None), t1))
  {
    hide SuspendPending, SuspendBound, SetDisconnected, FailedAttempt, Sound, PhaseOk, Paced, Numbered;
  }

  // ----------------------------------------------------------------------- joins

  /** A new room's join waits under the next number for an answer, unless it could not be sent: then it has failed. */
  lemma JoinIs(st: State, r: RoomId, sent: bool)
    requires Ok(st) && r !in st.tables.rooms
    ensures var t, after := st.tables, Next(st, Joins(r, sent));
            var open := st.line.connection.Some? && st.line.connection.value.open;
            var q, p := st.line.nextRequest, st.line.nextPromise;
            && after.line == st.line.(nextRequest := q + 1, nextPromise := p + 1)
            && after.tables.rooms == t.rooms[r := Link(Joining, 0, false, false)]
            && after.tables.pending == (if sent && open then t.pending[q := Pending(r, false, p)] else t.pending)
            && after.tables.answers == t.answers[p := Answer(false, if sent && open then 0 else 1)]
            && after.tables.resuming == t.resuming
            && (sent && open ==> after.tables.byRef == t.byRef)
  {
    hide Ok, Settle, Wait;
    NewNumbers(st);
    var t := st.tables.(rooms := st.tables.rooms[r := Link(Joining, 0, false, false)]);
    if !(sent && CanSend(st.line)) {
      UnsentIs(st.line, t, r);
    }
  }

  lemma UnsentIs(l: Line, t: Tables, r: RoomId)
    requires l.nextRequest !in t.pending && l.nextPromise !in t.answers
    ensures var t', p := Settle(Asked(l, t, r, false), l.nextRequest, false), l.nextPromise;
            t'.rooms == t.rooms && t'.pending == t.pending && t'.resuming == t.resuming
            && t'.answers == t.answers[p := Answer(false, 1)]
  {
    var asked := Asked(l, t, r, false);
    assert asked.pending[l.nextRequest] == Pending(r, false, l.nextPromise);
    assert asked.pending - {l.nextRequest} == t.pending;
    assert asked.answers[l.nextPromise := Answer(false, 1)] == t.answers[l.nextPromise := Answer(false, 1)];
  }

  lemma NewNumbers(st: State)
    requires Ok(st)
    ensures st.line.nextRequest !in st.tables.pending && st.line.nextPromise !in st.tables.answers
  {
    hide Sound, PhaseOk, Paced;
  }

  /** A join that fails is answered and its seat given up; a resume that fails leaves its room; nobody else notices. */
  lemma FailureIs(st: State, q: Request)
    requires Ok(st)
    ensures var t, t' := st.tables, Next(st, JoinFailed(q)).tables;
            if q !in t.pending then t' == t
            else
              var p := t.pending[q];
              && p.room in t.rooms && p.promise in t.answers
              && t'.pending == t.pending - {q}
              && t'.answers == t.answers[p.promise := Answer(p.resume, 1)]
              && t'.rooms == (if p.resume then t.rooms[p.room := t.rooms[p.room].(status := Left)] else t.rooms)
              && (t.rooms[p.room].status != Left ==> !InByRef(t', p.room))
              && (forall x :: x in t.rooms && x != p.room && InByRef(t, x) ==> InByRef(t', x))
              && (forall x :: x in t.resuming && x != p.room ==> x in t'.resuming)
  {
    if q in st.tables.pending {
      hide PhaseOk, Paced, Numbered, AllKept;
      LinkedAt(st.tables, q);
      SettleFails(st.tables, q);
    }
  }

  lemma SettleFails(t: Tables, q: Request)
    requires Linked(t) && q in t.pending
    ensures var t', p := Settle(t, q, false), t.pending[q];
            && p.room in t.rooms && p.promise in t.answers
            && t'.pending == t.pending - {q}
            && t'.answers == t.answers[p.promise := Answer(p.resume, 1)]
            && t'.rooms == (if p.resume then t.rooms[p.room := t.rooms[p.room].(status := Left)] else t.rooms)
            && (t.rooms[p.room].status != Left ==> !InByRef(t', p.room))
            && (forall x :: x in t.rooms && x != p.room && InByRef(t, x) ==> InByRef(t', x))
            && (forall x :: x in t.resuming && x != p.room ==> x in t'.resuming)
  {
    LinkedAt(t, q);
    var r, t1 := t.pending[q].room, Answered(t, q);
    assert t1.answers == t.answers[t.pending[q].promise := Answer(t.pending[q].resume, 1)];
    var t2 := Unseated(t1, r);
    if t.pending[q].resume {
      assert t.rooms[r].status == Left ==> t.rooms[r := t.rooms[r].(status := Left)] == t.rooms;
      assert JoinOf(Forgotten(t2, r), r).None?;
    }
  }

  /** A usable JOIN_SUCCESS binds the room to the handle, with its token; any other fails the join. */
  lemma SuccessIs(st: State, q: Request, ref: Ref, good: bool, token: bool)
    requires Ok(st) && Enabled(st, JoinSucceeded(q, ref, good, token))
    ensures var t, t' := st.tables, Next(st, JoinSucceeded(q, ref, good, token)).tables;
            && (q !in t.pending ==> t' == t)
            && (q in t.pending && !good ==> t' == Next(st, JoinFailed(q)).tables)
            && (q in t.pending && good ==>
                  var r := t.pending[q].room;
                  && r in t.rooms && t'.pending == t.pending && t'.answers == t.answers && t'.resuming == t.resuming
                  && t'.byRef == t.byRef[ref := r]
                  && t'.rooms ==
                     t.rooms[r := t.rooms[r].(ref := ref, token := token,
                             status := if t.rooms[r].status == Reconnecting then Joining else t.rooms[r].status)])
  {
    if q in st.tables.pending {
      LinkedAt(st.tables, q);
    }
    hide Sound, PhaseOk, Paced, Numbered, Settle;
  }

  /**
   A snapshot that applies makes its room joined and completes the join that
   waits for it: the caller gets the room. One that does not apply is a loss of
   the connection. One for no room here, or a left one, completes nothing.
   */
  lemma SnapshotIs(st: State, ref: Ref, applies: bool)
    requires Ok(st)
    ensures var t, after := st.tables, Next(st, Snapshots(ref, applies));
            if ref !in t.byRef then after == st
            else
              var r := t.byRef[ref];
              var link := t.rooms[r];
              var shown := t.(rooms := t.rooms[r := if link.status == Joining then link.(status := Joined) else link]);
              && r in t.rooms
              && (!applies ==> st.line.connection.Some?
                               && after == Next(st.(tables := shown), Closed(st.line.connection.value.id, false)))
              && (applies && link.status == Left ==> after == st.(tables := shown))
              && (applies && link.status != Left && (forall q :: q in t.pending ==> t.pending[q].room != r) ==>
                    after == st.(tables := shown))
              && (forall q :: applies && link.status != Left && q in t.pending && t.pending[q].room == r ==>
                    && after.line == st.line && after.tables.pending == t.pending - {q}
                    && after.tables.rooms == shown.rooms[r := shown.rooms[r].(given := true)]
                    && t.pending[q].promise in t.answers
                    && after.tables.answers == t.answers[t.pending[q].promise := Answer(t.pending[q].resume, 1)]
                    && after.tables.byRef == t.byRef && after.tables.resuming == t.resuming)
  {
    var t := st.tables;
    hide Sound, PhaseOk, Paced, Numbered, Lost, Settle;
    if ref in t.byRef {
      var r := t.byRef[ref];
      BoundRoom(t, ref);
      BoundConnects(st, ref);
      ShownSound(t, r);
      forall q | q in t.pending && t.pending[q].room == r
        ensures RequestOf(Shown(t, r), r) == Some(q) && Gives(Shown(t, r), Settle(Shown(t, r), q, true), q)
      {
        OnlyRequest(Shown(t, r), r, q);
        GiveIs(Shown(t, r), q);
      }
    }
  }

  /** The join is answered, and its room handed out. */
  predicate Gives(t: Tables, t': Tables, q: Request)
    requires q in t.pending
  {
    var p := t.pending[q];
    && p.room in t.rooms && p.promise in t.answers
    && t' == t.(pending := t.pending - {q}, rooms := t.rooms[p.room := t.rooms[p.room].(given := true)],
                answers := t.answers[p.promise := Answer(p.resume, 1)])
  }

  lemma GiveIs(t: Tables, q: Request)
    requires Sound(t) && q in t.pending
    ensures Gives(t, Settle(t, q, true), q)
  {
    hide AllKept, Fair;
    LinkedAt(t, q);
    hide Linked;
  }

  lemma OnlyRequest(t: Tables, r: RoomId, q: Request)
    requires Sound(t) && q in t.pending && t.pending[q].room == r
    ensures RequestOf(t, r) == Some(q)
  {
    hide AllKept, Fair;
    LinkedAt(t, q);
    hide Linked;
    var found := RequestOf(t, r);
    assert found.Some? && found.value in t.pending;
  }

  lemma BoundConnects(st: State, ref: Ref)
    requires Ok(st) && ref in st.tables.byRef
    ensures st.line.connection.Some?
  {
    hide Sound, Paced, Numbered;
  }

  // ---------------------------------------------------------------- an open connection

  /** What is made of a held seat: asked for again if it has a token and that could be sent, else left. */
  ghost predicate Handled(before: Tables, after: Tables, r: RoomId, sent: bool) {
    && r in before.rooms && r in after.rooms
    && if before.rooms[r].token && sent then after.rooms[r] == before.rooms[r] && Resumes(after, r)
       else after.rooms[r].status == Left
  }

  /** Other rooms, and their resumes, are as they were. */
  ghost predicate Spared(before: Tables, after: Tables, r: RoomId) {
    && (forall x :: x in before.rooms && x != r ==> x in after.rooms && after.rooms[x] == before.rooms[x])
    && (forall x :: x != r && Resumes(before, x) ==> Resumes(after, x))
  }

  lemma ResumeSent(st: State, r: RoomId)
    requires r in st.tables.rooms && st.tables.rooms[r].token && st.line.nextRequest !in st.tables.pending
    ensures var after := Resume(st, r, true).tables; Handled(st.tables, after, r, true) && Spared(st.tables, after, r)
  {
    var after := Resume(st, r, true).tables;
    assert after.pending[st.line.nextRequest] == Pending(r, true, st.line.nextPromise);
    forall x | x != r && Resumes(st.tables, x)
      ensures Resumes(after, x)
    {
      var q :| q in st.tables.pending && st.tables.pending[q].room == x && st.tables.pending[q].resume;
      assert after.pending[q] == st.tables.pending[q];
    }
  }

  lemma ResumeUnsent(st: State, r: RoomId)
    requires Sound(st.tables) && Numbered(st.line, st.tables) && r in st.tables.resuming && st.tables.rooms[r].token
    requires forall q :: q in st.tables.pending ==> st.tables.pending[q].room != r
    ensures var after := Resume(st, r, false).tables;
            r in after.rooms && after.rooms[r].status == Left && Spared(st.tables, after, r)
  {
    hide Sound, Linked, Fair, KeptOutside, Settle, Leave;
    var t := st.tables.(resuming := st.tables.resuming - {r});
    WithoutOne(st.tables, r);
    AskedSound(st.line, t, r, true);
    UnsentLeaves(st.line, t, r);
    assert forall x :: Resumes(st.tables, x) <==> Resumes(t, x);
  }

  lemma UnsentLeaves(l: Line, t: Tables, r: RoomId)
    requires Sound(Asked(l, t, r, true)) && l.nextRequest !in t.pending && r in t.rooms
    ensures var t' := Settle(Asked(l, t, r, true), l.nextRequest, false);
            && r in t'.rooms && t'.rooms[r].status == Left && Spared(t, t', r)
  {
    hide Linked, Fair, AllKept;
    UnsentResume(l, t, r);
  }

  lemma ResumeTokenless(st: State, r: RoomId)
    requires Sound(st.tables) && r in st.tables.resuming && !st.tables.rooms[r].token
    ensures var after := Resume(st, r, false).tables;
            && Resume(st, r, true).tables == after
            && r in after.rooms && after.rooms[r].status == Left && Spared(st.tables, after, r)
  {
    hide Sound, Linked, Fair, KeptOutside, Settle, Leave;
    var t := st.tables.(resuming := st.tables.resuming - {r});
    WithoutOne(st.tables, r);
    LeaveEffect(t, r);
    StillResumes(t, Leave(t, r), r);
    assert forall x :: Resumes(st.tables, x) <==> Resumes(t, x);
  }

  lemma StillResumes(t: Tables, t': Tables, r: RoomId)
    requires Fewer(t'.pending, t.pending)
    requires forall q :: q in t.pending && (t.pending[q].room != r || t.pending[q].resume) ==> q in t'.pending
    ensures forall x :: x != r && Resumes(t, x) ==> Resumes(t', x)
  {
    forall x | x != r && Resumes(t, x)
      ensures Resumes(t', x)
    {
      var q :| q in t.pending && t.pending[q].room == x && t.pending[q].resume;
      assert t'.pending[q] == t.pending[q];
    }
  }

  lemma UnsentResume(l: Line, t: Tables, r: RoomId)
    requires Linked(Asked(l, t, r, true)) && l.nextRequest !in t.pending && r in t.rooms
    ensures var t' := Settle(Asked(l, t, r, true), l.nextRequest, false);
            && r in t'.rooms && t'.rooms[r].status == Left && Spared(t, t', r)
  {
    var asked := Asked(l, t, r, true);
    assert asked.pending[l.nextRequest] == Pending(r, true, l.nextPromise);
    hide Linked;
    SettleFails(asked, l.nextRequest);
    var t' := Settle(asked, l.nextRequest, false);
    forall x | x != r && Resumes(t, x)
      ensures Resumes(t', x)
    {
      var q :| q in t.pending && t.pending[q].room == x && t.pending[q].resume;
      assert t'.pending[q] == t.pending[q];
    }
  }

  /** The room, and its resume if one is awaited, are as they were. */
  ghost predicate Kept(before: Tables, after: Tables, r: RoomId)
    requires r in before.rooms
  {
    r in after.rooms && after.rooms[r] == before.rooms[r] && (Resumes(before, r) ==> Resumes(after, r))
  }

  lemma ResumeOneIs(st: State, r: RoomId, sent: bool, todo: set<RoomId>)
    requires Sound(st.tables) && Numbered(st.line, st.tables) && Resumable(st.tables, todo) && r in todo
    ensures var after := Resume(st, r, sent).tables; Handled(st.tables, after, r, sent) && Spared(st.tables, after, r)
  {
    hide Sound, Resume, Resumes;
    NextNumber(st);
    if !st.tables.rooms[r].token {
      ResumeTokenless(st, r);
    } else if sent {
      ResumeSent(st, r);
    } else {
      ResumeUnsent(st, r);
    }
  }

  lemma {:induction false} ResumedAre(st: State, todo: set<RoomId>, sends: set<RoomId>, r: RoomId)
    requires Sound(st.tables) && Numbered(st.line, st.tables) && Resumable(st.tables, todo) && r in st.tables.rooms
    ensures var t, after := st.tables, ResumeEach(st, todo, sends).tables;
            && (r in todo ==> Handled(t, after, r, r in sends))
            && (r !in todo ==> Kept(t, after, r))
    decreases |todo|
  {
    if todo != {} {
      var x := Least(todo);
      var st1 := Resume(st, x, x in sends);
      ResumeOneIs(st, x, x in sends, todo);
      ResumeSound(st, x, x in sends, todo);
      hide Sound, Numbered, Resumable, Resume, Resumes;
      ResumedAre(st1, todo - {x}, sends, r);
    }
  }

  lemma NextNumber(st: State)
    requires Numbered(st.line, st.tables)
    ensures st.line.nextRequest !in st.tables.pending
  {
  }

  /**
   A connection that opens, if it is still the one: retries are forgotten, and
   every held seat is asked for again with its token, or left if it has none or
   that could not be sent. Every other room is as it was.
   */
  lemma OpenIs(st: State, id: nat, sends: set<RoomId>, r: RoomId)
    requires Ok(st) && Enabled(st, Opened(id, sends)) && r in st.tables.rooms
    ensures var t, after := st.tables, Next(st, Opened(id, sends));
            if !(st.line.connection.Some? && st.line.connection.value.id == id) then after == st
            else
              && after.line.phase == Connected && after.line.connection == Some(Socket(id, true))
              && after.line.attempt == 0 && after.line.waits == [] && after.line.waiters == 0
              && after.tables.resuming == {}
              && (r in t.resuming ==> Handled(t, after.tables, r, r in sends))
              && (r !in t.resuming ==> r in after.tables.rooms && after.tables.rooms[r] == t.rooms[r])
  {
    if IsCurrent(st.line, id) {
      var l :=
        st.line.(connection := Some(Socket(id, true)), phase := Connected, attempt := 0, waits := [], waiters := 0);
      ResumingExist(st.tables);
      hide Sound, ResumeEach, Wait, Handled;
      ResumeEachSound(State(l, st.tables), st.tables.resuming, sends);
      ResumedAre(State(l, st.tables), st.tables.resuming, sends, r);
    }
  }

  /** Leaving a room answers the join that waits for it, and leaves every other room and join alone. */
  lemma LeaveIs(st: State, r: RoomId)
    requires Ok(st) && r in st.tables.rooms
    ensures var t, t' := st.tables, Next(st, Leaves(r)).tables;
            if t.rooms[r].status == Left then t' == t
            else
              && t'.rooms == t.rooms[r := t.rooms[r].(status := Left)] && t'.resuming == t.resuming - {r}
              && (forall q :: q in t'.pending <==> q in t.pending && (t.pending[q].room != r || t.pending[q].resume))
              && (forall q :: q in t'.pending ==> t'.pending[q] == t.pending[q])
              && (forall q :: q in t.pending && q !in t'.pending ==>
                    t.pending[q].promise in t'.answers && t'.answers[t.pending[q].promise] == Answer(false, 1))
              && (forall x :: x in t.rooms && x != r && InByRef(t, x) ==> InByRef(t', x))
  {
    hide PhaseOk, Paced, Numbered, AllKept, Fair;
    var t := st.tables;
    if t.rooms[r].status != Left {
      LeaveEffect(t, r);
      LeftJoin(t, r);
    }
  }

  lemma LeftJoin(t: Tables, r: RoomId)
    requires Linked(t) && r in t.rooms && t.rooms[r].status != Left
    ensures var t' := Leave(t, r);
            && t'.resuming == t.resuming - {r}
            && (forall q :: q in t'.pending ==> q in t.pending && (t.pending[q].room != r || t.pending[q].resume))
            && (forall q :: q in t.pending && q !in t'.pending ==>
                  t.pending[q].promise in t'.answers && t'.answers[t.pending[q].promise] == Answer(false, 1))
            && (forall x :: x in t.rooms && x != r && InByRef(t, x) ==> InByRef(t', x))
  {
    var t1 := Forgotten(t, r);
    var q := JoinOf(t1, r);
    if q.Some? {
      LinkedAt(t, q.value);
    }
    forall x | x in t.rooms && x != r && InByRef(t, x)
      ensures InByRef(Leave(t, r), x)
    {
    }
  }
}
