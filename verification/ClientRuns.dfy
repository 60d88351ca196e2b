/**
 What holds of a client after every sequence of events: it is never stuck, no
 room its caller holds is lost, and every join is answered exactly once.
 */
module ClientRuns {
  import opened Wrappers
  import opened ClientSteps
  import opened ClientProofs

  // ---------------------------------------------------------------- invariant

  /** What is under way that will move a client that is not connected. */
  function Drivers(l: Line): nat {
    (if l.retryTimer then 1 else 0) + (if l.tokenFetch in l.fetches then 1 else 0)
    + (if l.connection.Some? then 1 else 0)
  }

  predicate Opening(l: Line) { l.connection.Some? ==> !l.connection.value.open }

  predicate NoJoins(t: Tables) { t.pending == map[] && t.byRef == map[] }

  /** What each phase means. */
  ghost predicate PhaseOk(l: Line, t: Tables) {
    match l.phase
    case Disconnected =>
      l.connection.None? && !l.retryTimer && l.waiters == 0 && l.attempt == 0 && NoJoins(t) && t.resuming == {}
    case Connecting => Drivers(l) == 1 && Opening(l) && l.attempt == 0 && NoJoins(t) && t.resuming == {}
    case Connected => Drivers(l) == 1 && CanSend(l) && l.waiters == 0 && l.attempt == 0 && t.resuming == {}
    case Reopening => Drivers(l) == 1 && Opening(l) && NoJoins(t)
  }

  /** The retries since the last open: how many, and how long each waits. */
  ghost predicate Paced(l: Line) {
    && |l.waits| == l.attempt && l.attempt <= l.options.maxAttempts
    && forall k :: 0 <= k < |l.waits| ==> l.waits[k] == Wait(l.options, k)
  }

  ghost predicate Ok(st: State) {
    Sound(st.tables) && Numbered(st.line, st.tables) && PhaseOk(st.line, st.tables) && Paced(st.line)
  }

  /** Between attempts: the next thing is to open or to give up; an old token fetch may still be out. */
  ghost predicate MayOpen(st: State) {
    var l, t := st.line, st.tables;
    && Sound(t) && Numbered(l, t) && Paced(l) && NoJoins(t) && !l.retryTimer && l.connection.None?
    && (l.phase == Connecting || l.phase == Reopening) && (l.phase == Connecting ==> t.resuming == {} && l.attempt == 0)
  }

  /** As `MayOpen`, with nothing under way. */
  ghost predicate Idle(st: State) { MayOpen(st) && Drivers(st.line) == 0 }

  // ---------------------------------------------------------------- every event

  lemma EndedOk(st: State)
    requires Sound(st.tables) && Numbered(st.line, st.tables) && st.line.connection.None?
    ensures Ok(SetDisconnected(st)) && SetDisconnected(st).line.phase == Disconnected
    ensures forall r :: r in SetDisconnected(st).tables.rooms && SetDisconnected(st).tables.rooms[r].given ==>
              SetDisconnected(st).tables.rooms[r].status == Left
  {
    hide Sound, EndRooms, Wait;
    EndSound(st.tables);
    NumberedStill(st.line, st.tables, EndRooms(st.tables));
  }

  lemma FailedAttemptOk(st: State)
    requires Idle(st)
    ensures Ok(FailedAttempt(st))
  {
    hide Sound, SetDisconnected, Wait;
    if st.line.phase == Connecting || st.line.attempt >= st.line.options.maxAttempts {
      EndedOk(st);
    }
  }

  lemma OpenSocketOk(st: State, opens: bool)
    requires Idle(st)
    ensures Ok(OpenSocket(st, opens))
  {
    hide Sound, FailedAttempt, Wait;
    if !opens {
      FailedAttemptOk(st);
    }
  }

  lemma OpenOk(st: State, opens: bool)
    requires MayOpen(st)
    ensures Ok(Open(st, opens))
  {
    hide Sound, OpenSocket, Wait;
    if !st.line.fetchesToken {
      OpenSocketOk(st, opens);
    }
  }

  lemma ConnectOk(st: State, opens: bool)
    requires Ok(st)
    ensures Ok(Connect(st, opens))
  {
    hide Sound, Open, Wait;
    if st.line.phase == Disconnected {
      OpenOk(st.(line := st.line.(waiters := st.line.waiters + 1, phase := Connecting)), opens);
    }
  }

  lemma FetchOk(st: State, fetch: nat, ok: bool, opens: bool)
    requires Ok(st) && fetch in st.line.fetches
    ensures Ok(FetchReturns(st, fetch, ok, opens))
  {
    hide Sound, OpenSocket, FailedAttempt, Wait;
    var st' := st.(line := st.line.(fetches := st.line.fetches - {fetch}));
    if fetch == st.line.tokenFetch && st.line.phase != Disconnected {
      OpenSocketOk(st', opens);
      FailedAttemptOk(st');
    }
  }

  lemma RetryOk(st: State, opens: bool)
    requires Ok(st) && st.line.retryTimer
    ensures Ok(RetryFires(st, opens))
  {
    hide Sound, Open, Wait;
    OpenOk(st.(line := st.line.(retryTimer := false)), opens);
  }

  lemma DisconnectOk(st: State)
    requires Ok(st)
    ensures Ok(Disconnect(st)) && Disconnect(st).line.phase == Disconnected
  {
    hide LeaveEach, SetDisconnected, Wait, AllRooms;
    var t := LeaveEach(st.tables, AllRooms(st.tables));
    KnownRooms(st.tables);
    LeaveEachSound(st.tables, AllRooms(st.tables));
    hide Sound;
    var st' := State(st.line.(retryTimer := false, connection := None), t);
    NumberedStill(st'.line, st.tables, t);
    EndedOk(st');
  }

  lemma KnownRooms(t: Tables)
    requires Sound(t)
    ensures AllRooms(t) <= t.rooms.Keys && KeptOutside(t, AllRooms(t))
  {
    hide Kept, Fair;
  }

  lemma OpenedOk(st: State, id: nat, sends: set<RoomId>)
    requires Ok(st) && (IsCurrent(st.line, id) ==> !st.line.connection.value.open)
    ensures Ok(SocketOpened(st, id, sends))
  {
    if IsCurrent(st.line, id) {
      var l := st.line.(connection := Some(Socket(id, true)), phase := Connected, attempt := 0, waits := [],
                        waiters := 0);
      ResumingExist(st.tables);
      hide Sound, ResumeEach, Wait;
      ResumeEachSound(State(l, st.tables), st.tables.resuming, sends);
    }
  }

  lemma ResumingExist(t: Tables)
    requires Sound(t)
    ensures t.resuming <= t.rooms.Keys
  {
    hide Kept, Fair;
  }

  /** The tables once the connection is gone. */
  lemma SuspendedAll(st: State)
    requires Ok(st)
    ensures var t1 := SuspendPending(st.tables);
            var t2 := SuspendBound(t1);
            && Sound(t1) && Sound(t2) && NoJoins(t2) && Holds(st.tables, t2)
            && Numbered(st.line.(connection := None), t1) && Numbered(st.line.(connection := None), t2)
  {
    hide Sound, SuspendPending, SuspendBound, Holds, Wait;
    var t1 := SuspendPending(st.tables);
    SuspendPendingSound(st.tables);
    SuspendBoundSound(t1);
    HoldsTwice(st.tables, t1, SuspendBound(t1));
    NumberedStill(st.line.(connection := None), st.tables, t1);
    NumberedStill(st.line.(connection := None), t1, SuspendBound(t1));
  }

  lemma LostOk(st: State, terminal: bool)
    requires Ok(st) && st.line.connection.Some?
    ensures Ok(Lost(st, terminal))
  {
    hide Sound, SuspendPending, SuspendBound, SetDisconnected, FailedAttempt, Wait;
    SuspendedAll(st);
    var st1 := State(st.line.(connection := None), SuspendPending(st.tables));
    if !Retries(st.line, terminal) {
      EndedOk(st1);
    } else {
      FailedAttemptOk(State(st1.line.(phase := Reopening), SuspendBound(st1.tables)));
    }
  }

  /** A lost connection that is opened again keeps every room a caller holds among those to resume. */
  lemma LostKeepsRooms(st: State, terminal: bool, r: RoomId)
    requires Ok(st) && st.line.connection.Some? && Retries(st.line, terminal)
             && st.line.attempt < st.line.options.maxAttempts
    requires r in st.tables.rooms && st.tables.rooms[r].given && st.tables.rooms[r].status != Left
    ensures var st' := Lost(st, terminal);
            && r in st'.tables.resuming && r in st'.tables.rooms && st'.tables.rooms[r].status != Left
            && st'.line.phase == Reopening && st'.line.retryTimer
            && st'.line.waits == st.line.waits + [Wait(st.line.options, st.line.attempt)]
  {
    hide SuspendPending, SuspendBound, Wait;
    SuspendedAll(st);
    var t := SuspendBound(SuspendPending(st.tables));
    assert Kept(t, r);
  }

  lemma JoinOk(st: State, r: RoomId, sent: bool)
    requires Ok(st) && r !in st.tables.rooms
    ensures Ok(Join(st, r, sent))
  {
    hide Ask, Wait, Sound, Linked, Fair, KeptOutside, Unanswered, Dwindles, Numbered;
    var t := st.tables.(rooms := st.tables.rooms[r := Link(Joining, 0, false, false)]);
    NewRoomSound(st.tables, r);
    NumberedStill(st.line, st.tables, t);
    AskSound(st.(tables := t), r, false, sent && CanSend(st.line));
    AskLine(st.(tables := t), r, false, sent && CanSend(st.line));
    AskTables(st.(tables := t), r, false, sent && CanSend(st.line));
  }

  lemma NewRoomSound(t: Tables, r: RoomId)
    requires Sound(t) && r !in t.rooms
    ensures var t' := t.(rooms := t.rooms[r := Link(Joining, 0, false, false)]);
            Linked(t') && Fair(t') && KeptOutside(t', {r}) && Unanswered(t', r)
  {
    var t' := t.(rooms := t.rooms[r := Link(Joining, 0, false, false)]);
    assert forall x :: Resumes(t, x) <==> Resumes(t', x);
    assert forall p :: Waited(t, p) <==> Waited(t', p);
    forall x | x in t'.rooms && x != r
      ensures Kept(t', x)
    {
      assert Kept(t, x);
    }
  }

  lemma AskTables(st: State, r: RoomId, resume: bool, sent: bool)
    requires Dwindles(st.tables, Ask(st, r, resume, sent).tables)
    ensures st.tables.byRef == map[] ==> Ask(st, r, resume, sent).tables.byRef == map[]
    ensures st.tables.resuming == {} ==> Ask(st, r, resume, sent).tables.resuming == {}
  {
    hide Ask;
  }

  lemma AskLine(st: State, r: RoomId, resume: bool, sent: bool)
    ensures SameLine(st.line, Ask(st, r, resume, sent).line)
  {
    hide Settle;
  }

  /** Fewer tables do not disturb the phase. */
  lemma LessOk(st: State, t: Tables)
    requires Ok(st) && Sound(t) && Dwindles(st.tables, t.(rooms := st.tables.rooms))
    requires t.pending.Keys <= st.tables.pending.Keys && t.answers.Keys == st.tables.answers.Keys
    ensures Ok(st.(tables := t))
  {
    hide Sound, Wait;
    NumberedStill(st.line, st.tables, t);
  }

  lemma DwindlesRooms(t: Tables, t': Tables)
    requires Dwindles(t, t')
    ensures Dwindles(t, t'.(rooms := t.rooms))
  {
  }

  lemma JoinFailsOk(st: State, q: Request)
    requires Ok(st)
    ensures Ok(st.(tables := Settle(st.tables, q, false)))
  {
    hide Sound, Settle, Dwindles, Wait, PhaseOk, Numbered;
    FailSound(st.tables, q);
    DwindlesRooms(st.tables, Settle(st.tables, q, false));
    LessOk(st, Settle(st.tables, q, false));
  }

  lemma LeaveOk(st: State, r: RoomId)
    requires Ok(st) && r in st.tables.rooms
    ensures Ok(st.(tables := Leave(st.tables, r)))
  {
    hide Leave, Dwindles, Wait, PhaseOk, Numbered, Linked, Fair, Kept;
    assert KeptOutside(st.tables, {});
    assert {} - {r} == {};
    LeaveSound(st.tables, r, {});
    NoneOutside(Leave(st.tables, r));
    DwindlesRooms(st.tables, Leave(st.tables, r));
    LessOk(st, Leave(st.tables, r));
  }

  lemma BoundLinked(t: Tables, q: Request, ref: Ref, token: bool)
    requires Linked(t) && q in t.pending && ref !in t.byRef && !InByRef(t, t.pending[q].room)
    requires t.pending[q].room in t.rooms
    ensures Linked(Bound(t, t.pending[q].room, ref, token))
    ensures InByRef(Bound(t, t.pending[q].room, ref, token), t.pending[q].room)
  {
  }

  /** Waiting joins, and the rooms first-time joins wait for, are as they were. */
  lemma FairStill(t: Tables, t': Tables)
    requires Fair(t) && t'.pending == t.pending && t'.answers == t.answers && t'.rooms.Keys == t.rooms.Keys
    requires forall r :: r in t.rooms && t.rooms[r].status != Left ==> t'.rooms[r].status != Left
    ensures Fair(t')
  {
    assert forall p :: Waited(t, p) <==> Waited(t', p);
  }

  lemma BoundKept(t: Tables, q: Request, ref: Ref, token: bool, x: RoomId)
    requires Kept(t, x) && q in t.pending && ref !in t.byRef
    requires t.pending[q].room in t.rooms && (!t.pending[q].resume ==> !t.rooms[t.pending[q].room].given)
    ensures Kept(Bound(t, t.pending[q].room, ref, token), x)
  {
    var r := t.pending[q].room;
    var t' := Bound(t, r, ref, token);
    assert Resumes(t, x) <==> Resumes(t', x);
    if x == r && t.rooms[r].given {
      assert t'.pending[q].resume;
    }
  }

  lemma BoundSound(t: Tables, q: Request, ref: Ref, token: bool)
    requires Sound(t) && q in t.pending && ref !in t.byRef && !InByRef(t, t.pending[q].room)
    requires t.pending[q].room in t.rooms
    ensures Sound(Bound(t, t.pending[q].room, ref, token))
    ensures InByRef(Bound(t, t.pending[q].room, ref, token), t.pending[q].room)
  {
    hide Kept, Linked, Fair, Bound;
    BoundLinked(t, q, ref, token);
    LinkedAt(t, q);
    var t' := Bound(t, t.pending[q].room, ref, token);
    BoundFair(t, t.pending[q].room, ref, token);
    forall x | x in t'.rooms
      ensures Kept(t', x)
    {
      BoundKept(t, q, ref, token, x);
    }
  }

  lemma BoundFair(t: Tables, r: RoomId, ref: Ref, token: bool)
    requires r in t.rooms && Fair(t)
    ensures Bound(t, r, ref, token).rooms.Keys == t.rooms.Keys && Fair(Bound(t, r, ref, token))
  {
    hide Fair;
    FairStill(t, Bound(t, r, ref, token));
  }

  lemma JoinSucceedsOk(st: State, q: Request, ref: Ref, good: bool, token: bool)
    requires Ok(st) && Enabled(st, JoinSucceeded(q, ref, good, token))
    ensures Ok(st.(tables := JoinSucceeds(st.tables, q, ref, good, token)))
  {
    hide Sound, Wait, Settle;
    JoinFailsOk(st, q);
    if q in st.tables.pending && st.tables.pending[q].room in st.tables.rooms {
      BoundSound(st.tables, q, ref, token);
    }
  }

  lemma ShownLinked(t: Tables, r: RoomId)
    requires Linked(t) && InByRef(t, r)
    ensures Linked(Shown(t, r)) && InByRef(Shown(t, r), r)
  {
  }

  lemma ShownKept(t: Tables, r: RoomId, x: RoomId)
    requires Kept(t, x) && InByRef(t, r)
    ensures Kept(Shown(t, r), x)
  {
    assert Resumes(t, x) <==> Resumes(Shown(t, r), x);
  }

  lemma ShownSound(t: Tables, r: RoomId)
    requires Sound(t) && InByRef(t, r)
    ensures Sound(Shown(t, r)) && InByRef(Shown(t, r), r)
  {
    hide Kept, Linked, Fair;
    var t' := Shown(t, r);
    ShownLinked(t, r);
    FairStill(t, t');
    forall x | x in t'.rooms
      ensures Kept(t', x)
    {
      ShownKept(t, r, x);
    }
  }

  lemma SnapshotOk(st: State, ref: Ref, applies: bool)
    requires Ok(st)
    ensures Ok(Snapshot(st, ref, applies))
  {
    var t := st.tables;
    if ref in t.byRef && t.byRef[ref] in t.rooms {
      var r := t.byRef[ref];
      assert InByRef(t, r);
      ShownSound(t, r);
      var t1 := Shown(t, r);
      hide Sound, Wait, Lost, Settle;
      assert Ok(st.(tables := t1));
      if !applies {
        LostOk(st.(tables := t1), false);
      } else if t1.rooms[r].status != Left && RequestOf(t1, r).Some? {
        var q := RequestOf(t1, r).value;
        GiveSound(t1, q);
        LessOk(st.(tables := t1), Settle(t1, q, true));
      }
    }
  }

  lemma NextOk(st: State, e: Event)
    requires Ok(st) && Enabled(st, e)
    ensures Ok(Next(st, e))
  {
    hide Ok, Connect, Disconnect, FetchReturns, RetryFires, SocketOpened, Lost, Join, Settle, JoinSucceeds, Snapshot,
         Leave;
    match e {
      case Connects(opens) => ConnectOk(st, opens);
      case Disconnects => DisconnectOk(st);
      case FetchReturned(fetch, ok, opens) => FetchOk(st, fetch, ok, opens);
      case RetryFired(opens) => RetryOk(st, opens);
      case Opened(id, sends) => OpenedOk(st, id, sends);
      case Closed(id, terminal) =>
        if IsCurrent(st.line, id) {
          LostOk(st, terminal);
        }
      case Joins(room, sent) => JoinOk(st, room, sent);
      case JoinFailed(q) => JoinFailsOk(st, q);
      case JoinSucceeded(q, ref, good, token) => JoinSucceedsOk(st, q, ref, good, token);
      case Snapshots(ref, applies) => SnapshotOk(st, ref, applies);
      case Leaves(room) => LeaveOk(st, room);
    }
  }

  // ---------------------------------------------------------------- the waits

  predicate IsLesser(m: real, a: real, b: real) { m <= a && m <= b && (m == a || m == b) }

  /** `u` starts with `first`, and each next one is `factor` times the one before. */
  ghost predicate Geometric(u: seq<real>, first: real, factor: real) {
    (u != [] ==> u[0] == first) && forall k :: 0 <= k < |u| - 1 ==> u[k + 1] == factor * u[k]
  }

  /**
   The waits of successive retries: `delay`, `delay * factor` and so on, each cut
   to `delayMax`. With a sensible schedule each is so made from the one before.
   */
  ghost predicate Backoff(o: Reconnection, waits: seq<real>) {
    && (forall k :: 0 <= k < |waits| ==> waits[k] <= o.delayMax)
    && (waits != [] ==> IsLesser(waits[0], o.delay, o.delayMax))
    && (forall u :: |u| == |waits| && Geometric(u, o.delay, o.factor) ==>
          forall k :: 0 <= k < |u| ==> IsLesser(waits[k], u[k], o.delayMax))
    && (o.delay >= 0.0 && o.factor >= 1.0 && o.delayMax >= 0.0 ==>
          forall k :: 0 <= k < |waits| - 1 ==> Lengthens(o, waits[k], waits[k + 1]))
  }

  predicate Lengthens(o: Reconnection, wait: real, next: real) { IsLesser(next, o.factor * wait, o.delayMax) }

  lemma {:induction false} PowersGrow(o: Reconnection, u: seq<real>, k: nat)
    requires Geometric(u, o.delay, o.factor) && k < |u|
    ensures u[k] == o.delay * Power(o.factor, k)
    decreases k
  {
    if k > 0 {
      PowersGrow(o, u, k - 1);
      Regroup(o.delay, o.factor, Power(o.factor, k - 1));
    }
  }

  lemma Regroup(a: real, b: real, c: real)
    ensures b * (a * c) == a * (b * c)
  {
  }

  lemma NextWait(o: Reconnection, k: nat, wait: real, next: real)
    requires o.delay >= 0.0 && o.factor >= 1.0 && o.delayMax >= 0.0
    requires wait == Wait(o, k) && next == Wait(o, k + 1)
    ensures Lengthens(o, wait, next)
  {
    var p := Power(o.factor, k);
    Regroup(o.delay, o.factor, p);
    var full := o.delay * p;
    assert o.delay * Power(o.factor, k + 1) == o.factor * full;
    Larger(o.factor, full);
    Larger(o.factor, o.delayMax);
    if full > o.delayMax {
      Ordered(o.factor, o.delayMax, full);
    }
  }

  lemma Larger(f: real, x: real)
    requires f >= 1.0
    ensures x >= 0.0 ==> f * x >= x
  {
  }

  lemma Ordered(f: real, x: real, y: real)
    requires f >= 1.0 && x < y
    ensures f * x < f * y
  {
  }

  lemma WaitsBackOff(o: Reconnection, waits: seq<real>)
    requires forall k :: 0 <= k < |waits| ==> waits[k] == Wait(o, k)
    ensures Backoff(o, waits)
  {
    forall u | |u| == |waits| && Geometric(u, o.delay, o.factor)
      ensures forall k :: 0 <= k < |u| ==> IsLesser(waits[k], u[k], o.delayMax)
    {
      forall k | 0 <= k < |u|
        ensures IsLesser(waits[k], u[k], o.delayMax)
      {
        PowersGrow(o, u, k);
      }
    }
    if o.delay >= 0.0 && o.factor >= 1.0 && o.delayMax >= 0.0 {
      hide Wait, IsLesser, Lengthens;
      forall k | 0 <= k < |waits| - 1
        ensures Lengthens(o, waits[k], waits[k + 1])
      {
        NextWait(o, k, waits[k], waits[k + 1]);
      }
    }
    assert waits != [] ==> Wait(o, 0) == waits[0] && Power(o.factor, 0) == 1.0;
  }

  // -------------------------------------------------------------------- runs

  predicate Possible(st: State, events: seq<Event>)
    decreases |events|
  {
    events == [] || (Enabled(st, events[0]) && Possible(Next(st, events[0]), events[1..]))
  }

  function After(st: State, events: seq<Event>): State
    requires Possible(st, events)
    decreases |events|
  {
    if events == [] then st else After(Next(st, events[0]), events[1..])
  }

  lemma {:induction false} RunOk(st: State, events: seq<Event>)
    requires Ok(st) && Possible(st, events)
    ensures Ok(After(st, events))
    decreases |events|
  {
    hide Ok, Enabled, Next;
    if events != [] {
      NextOk(st, events[0]);
      RunOk(Next(st, events[0]), events[1..]);
    }
  }

  lemma NewClientOk(options: Reconnection, fetchesToken: bool)
    ensures Ok(NewClient(options, fetchesToken))
  {
    hide Wait;
  }

  /**
   After every sequence of events: a client that connects or reconnects has
   exactly one driver; joins wait only while it is connected; disconnected
   means nothing is left of it; every room a caller holds and has not left is
   bound, waits to be resumed or is being resumed; and since the last open at
   most `maxAttempts` retries were scheduled, the first after `delay`, each next
   one after `factor` times as long, and none after more than `delayMax`.
   */
  lemma NeverStuckNothingLost(options: Reconnection, fetchesToken: bool, events: seq<Event>)
    requires Possible(NewClient(options, fetchesToken), events)
    ensures var State(l, t) := After(NewClient(options, fetchesToken), events);
            && (l.phase == Connecting || l.phase == Reopening ==> Drivers(l) == 1)
            && (t.pending != map[] ==> l.phase == Connected)
            && (l.phase == Disconnected ==>
                  NoJoins(t) && t.resuming == {} && l.waiters == 0 && !l.retryTimer && l.connection.None?)
            && (forall r :: r in t.rooms && t.rooms[r].given && t.rooms[r].status != Left ==>
                  && l.phase != Disconnected && l.phase != Connecting
                  && (InByRef(t, r) || r in t.resuming || Resumes(t, r)))
            && |l.waits| <= options.maxAttempts && Backoff(options, l.waits)
  {
    NewClientOk(options, fetchesToken);
    RunOk(NewClient(options, fetchesToken), events);
    OptionsStay(NewClient(options, fetchesToken), events);
    hide After, Possible, Wait, NewClient, Backoff;
    var State(l, t) := After(NewClient(options, fetchesToken), events);
    WaitsBackOff(options, l.waits);
    forall r | r in t.rooms && t.rooms[r].given && t.rooms[r].status != Left
      ensures l.phase != Disconnected && l.phase != Connecting && (InByRef(t, r) || r in t.resuming || Resumes(t, r))
    {
      assert Kept(t, r);
    }
  }

  lemma {:induction false} OptionsStay(st: State, events: seq<Event>)
    requires Possible(st, events)
    ensures After(st, events).line.options == st.line.options
    decreases |events|
  {
    if events != [] {
      NextOptions(st, events[0]);
      hide Next, Enabled;
      OptionsStay(Next(st, events[0]), events[1..]);
    }
  }

  lemma NextOptions(st: State, e: Event)
    requires Enabled(st, e)
    ensures Next(st, e).line.options == st.line.options
  {
    hide Settle, Leave, LeaveEach, EndRooms, SuspendPending, SuspendBound, ResumeEach, JoinSucceeds;
    if e.Opened? {
      ResumeOptions(State(st.line.(connection := Some(Socket(e.id, true)), phase := Connected, attempt := 0,
                                   waits := [],
                                   waiters := 0), st.tables), st.tables.resuming, e.sends);
    }
  }

  lemma {:induction false} ResumeOptions(st: State, todo: set<RoomId>, sends: set<RoomId>)
    ensures SameLine(st.line, ResumeEach(st, todo, sends).line)
    decreases |todo|
  {
    hide Settle, Leave;
    if todo != {} {
      var r := Least(todo);
      ResumeOptions(if r in st.tables.rooms then Resume(st, r, r in sends) else st, todo - {r}, sends);
    }
  }

  /**
   Every first-time join ever made is answered exactly once: it still waits
   and was not answered, or was answered once; once disconnected, none waits.
   No answer, to a resume or not, is given twice.
   */
  lemma AnsweredExactlyOnce(options: Reconnection, fetchesToken: bool, events: seq<Event>, p: Promise)
    requires Possible(NewClient(options, fetchesToken), events)
    requires p < After(NewClient(options, fetchesToken), events).line.nextPromise
    ensures var State(l, t) := After(NewClient(options, fetchesToken), events);
            && p in t.answers && t.answers[p].times <= 1
            && (!t.answers[p].resume ==> (t.answers[p].times == 0 <==> Waited(t, p)))
            && (!t.answers[p].resume && l.phase != Connected ==> t.answers[p].times == 1)
  {
    NewClientOk(options, fetchesToken);
    RunOk(NewClient(options, fetchesToken), events);
    hide After, Possible, Wait, NewClient, Kept;
  }

  // ------------------------------------------------------------- rooms left behind

  /** A table leads to the room. */
  predicate Listed(t: Tables, r: RoomId) { InByRef(t, r) || r in t.resuming }

  /** Whether losing the connection now is followed by a retry. */
  predicate Reopens(l: Line, terminal: bool) { Retries(l, terminal) && l.attempt < l.options.maxAttempts }

  /**
   The events that bring a left room back into a table: JOIN_SUCCESS for its
   unanswered resume, and a lost connection over that resume.
   */
  ghost predicate Recalls(st: State, e: Event, r: RoomId) {
    match e
    case JoinSucceeded(q, _, good, _) =>
      good && q in st.tables.pending && st.tables.pending[q].room == r && st.tables.pending[q].resume
    case Closed(id, terminal) => IsCurrent(st.line, id) && Reopens(st.line, terminal) && Resumes(st.tables, r)
    case Snapshots(ref, applies) =>
      ref in st.tables.byRef && !applies && Reopens(st.line, false) && Resumes(st.tables, r)
    case _ => false
  }

  lemma DwindlesUnlisted(t: Tables, t': Tables, r: RoomId)
    requires Dwindles(t, t') && r in t.rooms && t.rooms[r].status == Left && !Listed(t, r)
    ensures !Listed(t', r)
  {
  }

  lemma EndUnlisted(st: State, r: RoomId)
    requires Sound(st.tables)
    ensures !Listed(SetDisconnected(st).tables, r)
  {
    hide Sound, EndRooms;
    EndSound(st.tables);
  }

  lemma FailedUnlisted(st: State, r: RoomId)
    requires Sound(st.tables)
    ensures Listed(FailedAttempt(st).tables, r) <==>
            st.line.phase != Connecting && st.line.attempt < st.line.options.maxAttempts && Listed(st.tables, r)
  {
    hide Sound, SetDisconnected, Wait;
    EndUnlisted(st, r);
  }

  lemma LostRecalls(st: State, terminal: bool, r: RoomId)
    requires Ok(st) && r in st.tables.rooms && st.tables.rooms[r].status == Left && !Listed(st.tables, r)
    ensures Listed(Lost(st, terminal).tables, r) <==> Reopens(st.line, terminal) && Resumes(st.tables, r)
  {
    hide Sound, SuspendPending, SuspendBound, SetDisconnected, FailedAttempt, Wait, Holds;
    var t1 := SuspendPending(st.tables);
    SuspendPendingSound(st.tables);
    assert r in t1.resuming <==> Resumes(st.tables, r);
    var st1 := State(st.line.(connection := None), t1);
    if !Retries(st.line, terminal) {
      EndUnlisted(st1, r);
    } else {
      SuspendBoundSound(t1);
      SuspendBoundLeft(t1, r);
      FailedUnlisted(State(st1.line.(phase := Reopening), SuspendBound(t1)), r);
    }
  }

  lemma ConnectUnlisted(st: State, e: Event, r: RoomId)
    requires Ok(st) && Enabled(st, e) && (e.Connects? || e.FetchReturned? || e.RetryFired?)
    requires !Listed(st.tables, r)
    ensures !Listed(Next(st, e).tables, r)
  {
    hide Sound, FailedAttempt, Wait;
    match e {
      case Connects(opens) =>
        var l := st.line.(waiters := st.line.waiters + 1);
        FailedUnlisted(st.(line := l.(phase := Connecting)), r);
      case FetchReturned(fetch, ok, opens) =>
        FailedUnlisted(st.(line := st.line.(fetches := st.line.fetches - {fetch})), r);
      case RetryFired(opens) =>
        FailedUnlisted(st.(line := st.line.(retryTimer := false)), r);
    }
  }

  lemma JoinUnlisted(st: State, room: RoomId, sent: bool, r: RoomId)
    requires Ok(st) && room !in st.tables.rooms && r in st.tables.rooms && st.tables.rooms[r].status == Left
    requires !Listed(st.tables, r)
    ensures !Listed(Join(st, room, sent).tables, r)
  {
    hide Ask, Wait, Sound, Linked, Fair, KeptOutside, Unanswered, Dwindles, Numbered;
    var t := st.tables.(rooms := st.tables.rooms[room := Link(Joining, 0, false, false)]);
    NewRoomSound(st.tables, room);
    NumberedStill(st.line, st.tables, t);
    AskSound(st.(tables := t), room, false, sent && CanSend(st.line));
    DwindlesUnlisted(t, Join(st, room, sent).tables, r);
  }

  lemma BoundLists(t: Tables, q: Request, ref: Ref, token: bool, r: RoomId)
    requires Linked(t) && Fair(t) && q in t.pending && ref !in t.byRef && t.pending[q].room in t.rooms
    requires r in t.rooms && t.rooms[r].status == Left && !Listed(t, r)
    ensures Listed(Bound(t, t.pending[q].room, ref, token), r) <==> t.pending[q].room == r && t.pending[q].resume
  {
  }

  lemma SettleUnlisted(t: Tables, q: Request, r: RoomId)
    requires Sound(t) && r in t.rooms && t.rooms[r].status == Left && !Listed(t, r)
    ensures !Listed(Settle(t, q, false), r)
  {
    hide Sound, Settle;
    FailSound(t, q);
    DwindlesUnlisted(t, Settle(t, q, false), r);
  }

  lemma LeaveUnlisted(t: Tables, room: RoomId, r: RoomId)
    requires Sound(t) && room in t.rooms && r in t.rooms && t.rooms[r].status == Left && !Listed(t, r)
    ensures !Listed(Leave(t, room), r)
  {
    hide Leave, Linked, Fair, Kept;
    assert KeptOutside(t, {});
    LeaveSound(t, room, {});
    DwindlesUnlisted(t, Leave(t, room), r);
  }

  lemma AnswerUnlisted(st: State, e: Event, r: RoomId)
    requires Ok(st) && Enabled(st, e)
    requires r in st.tables.rooms && st.tables.rooms[r].status == Left && !Listed(st.tables, r)
    requires e.JoinFailed? || e.JoinSucceeded? || e.Leaves?
    ensures Listed(Next(st, e).tables, r) <==> Recalls(st, e, r)
  {
    hide Settle, Leave, Wait, Linked, Fair, AllKept, PhaseOk, Paced, Numbered, Bound, Listed;
    match e {
      case JoinFailed(q) => SettleUnlisted(st.tables, q, r);
      case JoinSucceeded(q, ref, good, token) =>
        SettleUnlisted(st.tables, q, r);
        if q in st.tables.pending {
          LinkedAt(st.tables, q);
          BoundLists(st.tables, q, ref, token, r);
        }
      case Leaves(room) => LeaveUnlisted(st.tables, room, r);
    }
  }

  /** A bound room's snapshot brings no other room back. */
  lemma ShownUnlisted(t: Tables, ref: Ref, r: RoomId)
    requires Sound(t) && ref in t.byRef && r in t.rooms && t.rooms[r].status == Left && !Listed(t, r)
    ensures t.byRef[ref] in t.rooms && InByRef(t, t.byRef[ref]) && t.byRef[ref] != r
    ensures var t1 := Shown(t, t.byRef[ref]);
            && Sound(t1) && r in t1.rooms && t1.rooms[r].status == Left && !Listed(t1, r)
            && (Resumes(t, r) <==> Resumes(t1, r))
  {
    hide Kept, Fair;
    assert InByRef(t, t.byRef[ref]);
    ShownSound(t, t.byRef[ref]);
  }

  lemma ShownOk(st: State, r: RoomId)
    requires Ok(st) && InByRef(st.tables, r)
    ensures Ok(st.(tables := Shown(st.tables, r)))
  {
    hide Sound, Wait;
    ShownSound(st.tables, r);
  }

  lemma GiveUnlisted(t: Tables, q: Request, r: RoomId)
    requires Sound(t) && q in t.pending && InByRef(t, t.pending[q].room)
    requires t.rooms[t.pending[q].room].status != Joining
    requires r in t.rooms && t.rooms[r].status == Left && !Listed(t, r) && r != t.pending[q].room
    ensures !Listed(Settle(t, q, true), r)
  {
    hide Sound;
  }

  lemma SnapshotUnlisted(st: State, ref: Ref, applies: bool, r: RoomId)
    requires Ok(st) && r in st.tables.rooms && st.tables.rooms[r].status == Left && !Listed(st.tables, r)
    ensures Listed(Snapshot(st, ref, applies).tables, r) <==> Recalls(st, Snapshots(ref, applies), r)
  {
    hide Sound, Wait, Lost, Settle, Resumes, Listed, PhaseOk, Paced, Numbered;
    var t := st.tables;
    if ref in t.byRef {
      var x := t.byRef[ref];
      ShownUnlisted(t, ref, r);
      ShownOk(st, x);
      var t1 := Shown(t, x);
      if !applies {
        LostRecalls(st.(tables := t1), false, r);
      } else if t1.rooms[x].status != Left && RequestOf(t1, x).Some? {
        GiveUnlisted(t1, RequestOf(t1, x).value, r);
      }
    }
  }

  lemma EndsUnlisted(st: State, r: RoomId)
    requires Ok(st)
    ensures !Listed(Disconnect(st).tables, r)
  {
    hide LeaveEach, SetDisconnected, Wait, AllRooms;
    KnownRooms(st.tables);
    LeaveEachSound(st.tables, AllRooms(st.tables));
    hide Sound;
    EndUnlisted(State(st.line.(retryTimer := false, connection := None), LeaveEach(st.tables, AllRooms(st.tables))), r);
  }

  lemma OpenedUnlisted(st: State, id: nat, sends: set<RoomId>, r: RoomId)
    requires Ok(st) && (IsCurrent(st.line, id) ==> !st.line.connection.value.open)
    requires r in st.tables.rooms && st.tables.rooms[r].status == Left && !Listed(st.tables, r)
    ensures !Listed(SocketOpened(st, id, sends).tables, r)
  {
    if IsCurrent(st.line, id) {
      var l := st.line.(connection := Some(Socket(id, true)), phase := Connected, attempt := 0, waits := [],
                        waiters := 0);
      ResumingExist(st.tables);
      hide Sound, ResumeEach, Wait;
      ResumeEachSound(State(l, st.tables), st.tables.resuming, sends);
      DwindlesUnlisted(st.tables, SocketOpened(st, id, sends).tables, r);
    }
  }

  /** An event puts a left room that no table leads to back into one if and only if it is one of `Recalls`. */
  lemma LeftRoomReturns(st: State, e: Event, r: RoomId)
    requires Ok(st) && Enabled(st, e) && r in st.tables.rooms && st.tables.rooms[r].status == Left
             && !Listed(st.tables, r)
    ensures Listed(Next(st, e).tables, r) <==> Recalls(st, e, r)
  {
    if e.JoinFailed? || e.JoinSucceeded? || e.Leaves? {
      AnswerUnlisted(st, e, r);
    } else if e.Connects? || e.FetchReturned? || e.RetryFired? {
      ConnectUnlisted(st, e, r);
    } else {
      hide Ok, Disconnect, SocketOpened, Lost, Join, Snapshot;
      match e {
        case Disconnects => EndsUnlisted(st, r);
        case Opened(id, sends) => OpenedUnlisted(st, id, sends, r);
        case Closed(id, terminal) =>
          if IsCurrent(st.line, id) {
            LostRecalls(st, terminal, r);
          }
        case Joins(room, sent) => JoinUnlisted(st, room, sent, r);
        case Snapshots(ref, applies) => SnapshotUnlisted(st, ref, applies, r);
      }
    }
  }

  /** A room left once is in no table and no first-time join waits for it; only its resume may still be unanswered. */
  lemma LeaveUnlists(st: State, r: RoomId)
    requires Ok(st) && r in st.tables.rooms && st.tables.rooms[r].status != Left
    ensures var t' := Next(st, Leaves(r)).tables;
            && t'.rooms == st.tables.rooms[r := st.tables.rooms[r].(status := Left)] && !Listed(t', r)
            && (forall q :: q in t'.pending && t'.pending[q].room == r ==> t'.pending[q].resume)
            && (Resumes(t', r) <==> Resumes(st.tables, r))
  {
    LeaveEffect(st.tables, r);
    hide Leave, Kept, Fair;
  }

  /**
   One family that fails: whenever a resume is unanswered, leaving its room and
   then hearing the answer leaves a left room bound.
   */
  lemma LeftRoomBound(st: State, q: Request, ref: Ref, token: bool)
    requires Ok(st) && q in st.tables.pending && st.tables.pending[q].resume && ref !in st.tables.byRef
    requires var r := st.tables.pending[q].room;
             r in st.tables.rooms && st.tables.rooms[r].status != Left && !InByRef(st.tables, r)
    ensures var r, st1 := st.tables.pending[q].room, Next(st, Leaves(st.tables.pending[q].room));
            && Enabled(st1, JoinSucceeded(q, ref, true, token))
            && var t := Next(st1, JoinSucceeded(q, ref, true, token)).tables;
               InByRef(t, r) && t.rooms[r].status == Left
  {
    hide Leave, Sound, Wait, PhaseOk, Paced, Numbered, Fewer, Listed;
    var r := st.tables.pending[q].room;
    LeaveUnlists(st, r);
    LeaveKeepsResume(st.tables, q);
    LeaveRefs(st.tables, r);
    NotListed(Leave(st.tables, r), r);
  }

  /** The other: losing the connection instead leaves the left room waiting to be resumed. */
  lemma LeftRoomResumed(st: State, r: RoomId)
    requires Ok(st) && st.line.connection.Some? && Reopens(st.line, false) && Resumes(st.tables, r)
    requires r in st.tables.rooms && st.tables.rooms[r].status != Left
    ensures var st' := Next(Next(st, Leaves(r)), Closed(st.line.connection.value.id, false));
            r in st'.tables.resuming && r in st'.tables.rooms && st'.tables.rooms[r].status == Left
  {
    hide Leave, Sound, Wait, PhaseOk, Paced, Numbered, Listed, Lost, Resumes;
    LeaveUnlists(st, r);
    LeaveOk(st, r);
    LostResumes(Next(st, Leaves(r)), r);
  }

  lemma NotListed(t: Tables, r: RoomId)
    requires !Listed(t, r)
    ensures !InByRef(t, r)
  {
  }

  lemma LeaveKeepsResume(t: Tables, q: Request)
    requires Sound(t) && q in t.pending && t.pending[q].resume
    ensures t.pending[q].room in t.rooms
    ensures var t' := Leave(t, t.pending[q].room); q in t'.pending && t'.pending[q] == t.pending[q]
  {
    hide Linked, Fair, Leave;
    LinkedAt(t, q);
    LeaveEffect(t, t.pending[q].room);
  }

  lemma LeaveRefs(t: Tables, r: RoomId)
    requires r in t.rooms
    ensures Leave(t, r).byRef.Keys <= t.byRef.Keys
  {
  }

  lemma LostResumes(st: State, r: RoomId)
    requires Ok(st) && r in st.tables.rooms && st.tables.rooms[r].status == Left && !Listed(st.tables, r)
    requires Reopens(st.line, false) && Resumes(st.tables, r)
    ensures var t := Lost(st, false).tables; r in t.resuming && r in t.rooms && t.rooms[r].status == Left
  {
    hide SuspendPending, SuspendBound, Wait, Sound, PhaseOk, Paced, Numbered, Steady, Holds;
    SuspendPendingSound(st.tables);
    var t := SuspendPending(st.tables);
    SteadyLeft(st.tables, t, r);
    assert r in t.resuming;
    SuspendBoundLeft(t, r);
  }

  lemma SteadyLeft(t: Tables, t': Tables, r: RoomId)
    requires Steady(t, t') && r in t.rooms && t.rooms[r].status == Left
    ensures r in t'.rooms && t'.rooms[r].status == Left
  {
  }

  // ------------------------------------------------------- left rooms, over runs

  predicate IsLeft(t: Tables, r: RoomId) { r in t.rooms && t.rooms[r].status == Left }

  lemma DwindlesLeft(t: Tables, t': Tables, r: RoomId)
    requires Dwindles(t, t') && IsLeft(t, r)
    ensures IsLeft(t', r)
  {
  }

  lemma EndLeft(st: State, r: RoomId)
    requires Sound(st.tables) && IsLeft(st.tables, r)
    ensures IsLeft(SetDisconnected(st).tables, r) && IsLeft(FailedAttempt(st).tables, r)
  {
    hide Sound, EndRooms, Dwindles, Wait;
    EndSound(st.tables);
    DwindlesLeft(st.tables, EndRooms(st.tables), r);
  }

  lemma LostLeft(st: State, terminal: bool, r: RoomId)
    requires Ok(st) && IsLeft(st.tables, r)
    ensures IsLeft(Lost(st, terminal).tables, r)
  {
    hide Sound, SuspendPending, SuspendBound, SetDisconnected, FailedAttempt, Wait, Holds, Steady;
    var t1 := SuspendPending(st.tables);
    SuspendPendingSound(st.tables);
    SteadyLeft(st.tables, t1, r);
    var st1 := State(st.line.(connection := None), t1);
    EndLeft(st1, r);
    SuspendBoundSound(t1);
    SuspendBoundLeft(t1, r);
    EndLeft(State(st1.line.(phase := Reopening), SuspendBound(t1)), r);
  }

  lemma OpeningLeft(st: State, e: Event, r: RoomId)
    requires Ok(st) && Enabled(st, e) && (e.Connects? || e.FetchReturned? || e.RetryFired?) && IsLeft(st.tables, r)
    ensures IsLeft(Next(st, e).tables, r)
  {
    hide Sound, FailedAttempt, Wait;
    match e {
      case Connects(opens) =>
        EndLeft(st.(line := st.line.(waiters := st.line.waiters + 1, phase := Connecting)), r);
      case FetchReturned(fetch, ok, opens) =>
        EndLeft(st.(line := st.line.(fetches := st.line.fetches - {fetch})), r);
      case RetryFired(opens) =>
        EndLeft(st.(line := st.line.(retryTimer := false)), r);
    }
  }

  lemma JoiningLeft(st: State, room: RoomId, sent: bool, r: RoomId)
    requires Ok(st) && room !in st.tables.rooms && IsLeft(st.tables, r)
    ensures IsLeft(Join(st, room, sent).tables, r)
  {
    hide Ask, Wait, Sound, Linked, Fair, KeptOutside, Unanswered, Dwindles, Numbered;
    var t := st.tables.(rooms := st.tables.rooms[room := Link(Joining, 0, false, false)]);
    NewRoomSound(st.tables, room);
    NumberedStill(st.line, st.tables, t);
    AskSound(st.(tables := t), room, false, sent && CanSend(st.line));
    DwindlesLeft(t, Join(st, room, sent).tables, r);
  }

  lemma AnswerLeft(t: Tables, q: Request, ref: Ref, good: bool, token: bool, r: RoomId)
    requires Sound(t) && IsLeft(t, r)
    ensures IsLeft(Settle(t, q, false), r) && IsLeft(JoinSucceeds(t, q, ref, good, token), r)
  {
    hide Sound, Settle, Dwindles;
    FailSound(t, q);
    DwindlesLeft(t, Settle(t, q, false), r);
  }

  lemma SnapshotLeft(st: State, ref: Ref, applies: bool, r: RoomId)
    requires Ok(st) && IsLeft(st.tables, r)
    ensures IsLeft(Snapshot(st, ref, applies).tables, r)
  {
    hide Sound, Wait, Lost, PhaseOk, Paced, Numbered, Answered;
    var t := st.tables;
    if ref in t.byRef {
      BoundRoom(t, ref);
      ShownOk(st, t.byRef[ref]);
      assert IsLeft(Shown(t, t.byRef[ref]), r);
      if !applies {
        LostLeft(st.(tables := Shown(t, t.byRef[ref])), false, r);
      } else {
        GivenLeft(Shown(t, t.byRef[ref]), r);
      }
    }
  }

  lemma BoundRoom(t: Tables, ref: Ref)
    requires Sound(t) && ref in t.byRef
    ensures InByRef(t, t.byRef[ref])
  {
    hide Kept, Fair;
  }

  lemma GivenLeft(t: Tables, r: RoomId)
    requires IsLeft(t, r)
    ensures forall q :: IsLeft(Settle(t, q, true), r)
  {
  }

  lemma ClosingLeft(st: State, e: Event, r: RoomId)
    requires Ok(st) && Enabled(st, e) && (e.Disconnects? || e.Opened? || e.Leaves?) && IsLeft(st.tables, r)
    ensures IsLeft(Next(st, e).tables, r)
  {
    hide LeaveEach, Leave, ResumeEach, SetDisconnected, Wait, AllRooms, Dwindles, Linked, Fair, AllKept, KeptOutside,
         PhaseOk, Paced, Numbered, Resumable;
    match e {
      case Disconnects => DisconnectLeft(st, r);
      case Opened(id, sends) => OpenedLeft(st, id, sends, r);
      case Leaves(room) =>
        assert KeptOutside(st.tables, {}) by { AllOutside(st.tables); }
        LeaveSound(st.tables, room, {});
        DwindlesLeft(st.tables, Leave(st.tables, room), r);
    }
  }

  lemma AllOutside(t: Tables)
    requires AllKept(t)
    ensures KeptOutside(t, {})
  {
  }

  lemma DisconnectLeft(st: State, r: RoomId)
    requires Ok(st) && IsLeft(st.tables, r)
    ensures IsLeft(Disconnect(st).tables, r)
  {
    hide LeaveEach, SetDisconnected, Wait, AllRooms, Dwindles, Kept;
    var t := LeaveEach(st.tables, AllRooms(st.tables));
    KnownRooms(st.tables);
    LeaveEachSound(st.tables, AllRooms(st.tables));
    DwindlesLeft(st.tables, t, r);
    hide Sound;
    EndLeft(State(st.line.(retryTimer := false, connection := None), t), r);
  }

  lemma OpenedLeft(st: State, id: nat, sends: set<RoomId>, r: RoomId)
    requires Ok(st) && (IsCurrent(st.line, id) ==> !st.line.connection.value.open) && IsLeft(st.tables, r)
    ensures IsLeft(SocketOpened(st, id, sends).tables, r)
  {
    hide ResumeEach, Wait, Dwindles, Linked, Fair, AllKept;
    if IsCurrent(st.line, id) {
      var l :=
        st.line.(connection := Some(Socket(id, true)), phase := Connected, attempt := 0, waits := [], waiters := 0);
      ResumingExist(st.tables);
      ResumeEachSound(State(l, st.tables), st.tables.resuming, sends);
      DwindlesLeft(st.tables, SocketOpened(st, id, sends).tables, r);
    }
  }

  /** A room that was left stays left, whatever happens. */
  lemma StaysLeft(st: State, e: Event, r: RoomId)
    requires Ok(st) && Enabled(st, e) && IsLeft(st.tables, r)
    ensures IsLeft(Next(st, e).tables, r)
  {
    if e.Connects? || e.FetchReturned? || e.RetryFired? {
      OpeningLeft(st, e, r);
    } else if e.Disconnects? || e.Opened? || e.Leaves? {
      ClosingLeft(st, e, r);
    } else {
      hide Sound, PhaseOk, Paced, Numbered, Lost, Join, Settle, JoinSucceeds, Snapshot;
      match e {
        case Closed(id, terminal) => LostLeft(st, terminal, r);
        case Joins(room, sent) => JoiningLeft(st, room, sent, r);
        case JoinFailed(q) => AnswerLeft(st.tables, q, 0, false, false, r);
        case JoinSucceeded(q, ref, good, token) => AnswerLeft(st.tables, q, ref, good, token, r);
        case Snapshots(ref, applies) => SnapshotLeft(st, ref, applies, r);
      }
    }
  }

  /** No table leads to the room, now or after any of the events. */
  ghost predicate NeverListed(st: State, events: seq<Event>, r: RoomId)
    requires Possible(st, events)
    decreases |events|
  {
    !Listed(st.tables, r) && (events == [] || NeverListed(Next(st, events[0]), events[1..], r))
  }

  ghost predicate NeverRecalled(st: State, events: seq<Event>, r: RoomId)
    requires Possible(st, events)
    decreases |events|
  {
    events == [] || (!Recalls(st, events[0], r) && NeverRecalled(Next(st, events[0]), events[1..], r))
  }

  lemma {:induction false} NeverListedIff(st: State, events: seq<Event>, r: RoomId)
    requires Ok(st) && Possible(st, events) && IsLeft(st.tables, r) && !Listed(st.tables, r)
    ensures NeverListed(st, events, r) <==> NeverRecalled(st, events, r)
    decreases |events|
  {
    hide Ok, Enabled, Next, Listed, Recalls;
    if events != [] {
      NextOk(st, events[0]);
      StaysLeft(st, events[0], r);
      LeftRoomReturns(st, events[0], r);
      if !Listed(Next(st, events[0]).tables, r) {
        NeverListedIff(Next(st, events[0]), events[1..], r);
      }
    }
  }

  /**
   Over every run: a room that was held and then left is in no table ever after
   if and only if nothing recalled it, and it stays left in any case.
   */
  lemma LeftForGood(options: Reconnection, fetchesToken: bool, before: seq<Event>, r: RoomId, after: seq<Event>)
    requires Possible(NewClient(options, fetchesToken), before)
    requires var st := After(NewClient(options, fetchesToken), before);
             r in st.tables.rooms && st.tables.rooms[r].status != Left && Possible(Next(st, Leaves(r)), after)
    ensures var left := Next(After(NewClient(options, fetchesToken), before), Leaves(r));
            && (NeverListed(left, after, r) <==> NeverRecalled(left, after, r))
            && IsLeft(After(left, after).tables, r)
  {
    hide Possible, Ok, Next, Listed, NeverListed, NeverRecalled;
    NewClientOk(options, fetchesToken);
    RunOk(NewClient(options, fetchesToken), before);
    var st := After(NewClient(options, fetchesToken), before);
    hide After;
    NextOk(st, Leaves(r));
    LeaveUnlists(st, r);
    NeverListedIff(Next(st, Leaves(r)), after, r);
    RunStaysLeft(Next(st, Leaves(r)), after, r);
  }

  lemma {:induction false} RunStaysLeft(st: State, events: seq<Event>, r: RoomId)
    requires Ok(st) && Possible(st, events) && IsLeft(st.tables, r)
    ensures IsLeft(After(st, events).tables, r)
    decreases |events|
  {
    hide Ok, Enabled, Next;
    if events != [] {
      NextOk(st, events[0]);
      StaysLeft(st, events[0], r);
      RunStaysLeft(Next(st, events[0]), events[1..], r);
    }
  }

  // ------------------------------------------------------- a run that leads there

  lemma RunNone(st: State)
    ensures Possible(st, []) && After(st, []) == st
  {
  }

  lemma RunFirst(st: State, e: Event, rest: seq<Event>)
    requires Enabled(st, e) && Possible(Next(st, e), rest)
    ensures Possible(st, [e] + rest) && After(st, [e] + rest) == After(Next(st, e), rest)
  {
    hide Next, Enabled;
    assert ([e] + rest)[1..] == rest;
  }

  const Once: Reconnection := Reconnection(true, 1, 100.0, 2.0, 1000.0)

  /** A client that may retry once, on its `sockets`-th socket. */
  function Online(sockets: nat, open: bool, phase: Phase, requests: nat, t: Tables): State
    requires sockets > 0
  {
    var retries := if phase == Reopening then 1 else 0;
    var waiters := if phase == Connecting then 1 else 0;
    var waits := if phase == Reopening then [100.0] else [];
    State(Line(Once, false, phase, Some(Socket(sockets - 1, open)), sockets, retries, false, 0, {}, waiters, waits,
               requests + 1, requests), t)
  }

  const NoTables: Tables := Tables(map[], map[], {}, map[], map[])
  const Joining0: Tables :=
    Tables(map[0 := Link(Joining, 0, false, false)], map[], {}, map[1 := Pending(0, false, 0)],
           map[0 := Answer(false, 0)])
  const Bound0: Tables :=
    Tables(map[0 := Link(Joining, 7, true, false)], map[7 := 0], {}, map[1 := Pending(0, false, 0)],
           map[0 := Answer(false, 0)])
  const Joined0: Tables :=
    Tables(map[0 := Link(Joined, 7, true, true)], map[7 := 0], {}, map[], map[0 := Answer(false, 1)])
  const Waiting0: Tables :=
    Tables(map[0 := Link(Reconnecting, 7, true, true)], map[], {0}, map[], map[0 := Answer(false, 1)])
  const Resuming0: Tables :=
    Tables(map[0 := Link(Reconnecting, 7, true, true)], map[], {}, map[2 := Pending(0, true, 1)],
           map[0 := Answer(false, 1), 1 := Answer(true, 0)])

  lemma RunConnects()
    ensures Enabled(NewClient(Once, false), Connects(true))
    ensures Next(NewClient(Once, false), Connects(true)) == Online(1, false, Connecting, 0, NoTables)
    ensures Enabled(Online(1, false, Connecting, 0, NoTables), Opened(0, {}))
    ensures Next(Online(1, false, Connecting, 0, NoTables), Opened(0, {})) == Online(1, true, Connected, 0, NoTables)
  {
  }

  lemma RunJoins()
    ensures Enabled(Online(1, true, Connected, 0, NoTables), Joins(0, true))
    ensures Next(Online(1, true, Connected, 0, NoTables), Joins(0, true)) == Online(1, true, Connected, 1, Joining0)
    ensures Enabled(Online(1, true, Connected, 1, Joining0), JoinSucceeded(1, 7, true, true))
    ensures Next(Online(1, true, Connected, 1, Joining0), JoinSucceeded(1, 7, true, true))
            == Online(1, true, Connected, 1, Bound0)
  {
  }

  lemma RunShown()
    ensures Enabled(Online(1, true, Connected, 1, Bound0), Snapshots(7, true))
    ensures Next(Online(1, true, Connected, 1, Bound0), Snapshots(7, true)) == Online(1, true, Connected, 1, Joined0)
  {
    var t := Shown(Bound0, 0);
    assert 1 in t.pending && t.pending[1].room == 0;
    assert RequestOf(t, 0).value == 1;
    assert Settle(t, 1, true) == Joined0;
  }

  lemma RunDrops()
    ensures Enabled(Online(1, true, Connected, 1, Joined0), Closed(0, false))
    ensures Enabled(Next(Online(1, true, Connected, 1, Joined0), Closed(0, false)), RetryFired(true))
    ensures Next(Next(Online(1, true, Connected, 1, Joined0), Closed(0, false)), RetryFired(true))
            == Online(2, false, Reopening, 1, Waiting0)
  {
    assert Joined0.byRef.Keys == {7};
    assert Suspended(Joined0.(byRef := Joined0.byRef - {7}), 0) == Waiting0;
    assert UnbindOne(Joined0, 7) == Waiting0;
    assert SuspendBound(Waiting0) == Waiting0;
    assert SuspendBound(Joined0) == Waiting0;
    assert SuspendPending(Joined0) == Joined0;
    assert Power(2.0, 0) == 1.0;
    assert Wait(Once, 0) == 100.0;
  }

  lemma RunReopens()
    ensures Enabled(Online(2, false, Reopening, 1, Waiting0), Opened(1, {0}))
    ensures Next(Online(2, false, Reopening, 1, Waiting0), Opened(1, {0})) == Online(2, true, Connected, 2, Resuming0)
  {
    var st := Online(2, true, Connected, 1, Waiting0);
    assert Least(Waiting0.resuming) == 0;
    assert Resume(st, 0, true) == Online(2, true, Connected, 2, Resuming0);
    assert ResumeEach(Online(2, true, Connected, 2, Resuming0), {0} - {0}, {0})
        == Online(2, true, Connected, 2, Resuming0);
  }

  /** A run from a new client into a client whose resume is unanswered. */
  lemma UnansweredResume() returns (events: seq<Event>)
    ensures Possible(NewClient(Once, false), events)
    ensures After(NewClient(Once, false), events) == Online(2, true, Connected, 2, Resuming0)
  {
    hide Possible, After, Next, Enabled, Online, NewClient;
    RunConnects();
    RunJoins();
    RunShown();
    RunDrops();
    RunReopens();
    RunNone(Online(2, true, Connected, 2, Resuming0));
    events := [];
    RunFirst(Online(2, false, Reopening, 1, Waiting0), Opened(1, {0}), events);
    events := [Opened(1, {0})] + events;
    RunFirst(Next(Online(1, true, Connected, 1, Joined0), Closed(0, false)), RetryFired(true), events);
    events := [RetryFired(true)] + events;
    RunFirst(Online(1, true, Connected, 1, Joined0), Closed(0, false), events);
    events := [Closed(0, false)] + events;
    RunFirst(Online(1, true, Connected, 1, Bound0), Snapshots(7, true), events);
    events := [Snapshots(7, true)] + events;
    RunFirst(Online(1, true, Connected, 1, Joining0), JoinSucceeded(1, 7, true, true), events);
    events := [JoinSucceeded(1, 7, true, true)] + events;
    RunFirst(Online(1, true, Connected, 0, NoTables), Joins(0, true), events);
    events := [Joins(0, true)] + events;
    RunFirst(Online(1, false, Connecting, 0, NoTables), Opened(0, {}), events);
    events := [Opened(0, {})] + events;
    RunFirst(NewClient(Once, false), Connects(true), events);
    events := [Connects(true)] + events;
  }

  /**
   From a new client: a room is joined, its connection lost and reopened, the
   room left while its resume is unanswered, and then bound by the answer; or,
   had the connection been lost instead, sent to be resumed.
   */
  lemma LeftRoomRecalled() returns (events: seq<Event>)
    ensures Possible(NewClient(Once, false), events)
    ensures var st := After(NewClient(Once, false), events);
            && Enabled(st, Leaves(0))
            && var st1 := Next(st, Leaves(0));
               && Enabled(st1, JoinSucceeded(2, 9, true, true))
               && var t := Next(st1, JoinSucceeded(2, 9, true, true)).tables;
                  && InByRef(t, 0) && t.rooms[0].status == Left
                  && 0 in Next(st1, Closed(1, false)).tables.resuming
  {
    NewClientOk(Once, false);
    events := UnansweredResume();
    RunOk(NewClient(Once, false), events);
    var st := After(NewClient(Once, false), events);
    assert st.tables == Resuming0 && Reopens(st.line, false) && st.line.connection == Some(Socket(1, true));
    assert Enabled(st, Leaves(0));
    assert Resuming0.pending[2] == Pending(0, true, 1);
    hide Ok, Possible, After, NewClient, Next, Online;
    LeftRoomBound(st, 2, 9, true);
    LeftRoomResumed(st, 0);
  }
}
