/**
 The client's connection and join machine as functions on its whole state: one
 for every event it handles. `ClientMachine` is the object that changes in
 place, and `ClientRuns` shows what holds after every sequence of events.
 */
module ClientSteps {
  import opened Wrappers

  type RoomId = nat
  type Ref = nat
  type Request = nat
  type Promise = nat

  datatype Status = Joining | Joined | Reconnecting | Left

  /** A room object; `given` once its join has been answered with it. */
  datatype Link = Link(status: Status, ref: Ref, token: bool, given: bool)

  datatype Pending = Pending(room: RoomId, resume: bool, promise: Promise)

  /** A promise of an answer: whether to a resume, which nobody waits for, and how often it was resolved. */
  datatype Answer = Answer(resume: bool, times: nat)

  datatype Phase = Disconnected | Connecting | Connected | Reopening

  /** A socket that is opening or open. */
  datatype Socket = Socket(id: nat, open: bool)

  datatype Reconnection = Reconnection(enabled: bool, maxAttempts: nat, delay: real, factor: real, delayMax: real)

  /** The rooms and joins. */
  datatype Tables = Tables(
    rooms: map<RoomId, Link>,
    byRef: map<Ref, RoomId>,
    resuming: set<RoomId>,
    pending: map<Request, Pending>,
    answers: map<Promise, Answer>)

  /** The connection, its retry schedule and the numbers given out so far. */
  datatype Line = Line(
    options: Reconnection,
    fetchesToken: bool,
    phase: Phase,
    connection: Option<Socket>,
    sockets: nat,
    attempt: nat,
    retryTimer: bool,
    tokenFetch: nat,
    // Token fetches that have not returned yet.
    fetches: set<nat>,
    waiters: nat,
    // The waits scheduled since the connection was last open.
    waits: seq<real>,
    nextRequest: Request,
    nextPromise: Promise)

  datatype State = State(line: Line, tables: Tables)

  // --------------------------------------------------------------- the schedule

  function Power(x: real, k: nat): real { if k == 0 then 1.0 else x * Power(x, k - 1) }

  /** How long the retry after `k` failed ones waits. */
  function Wait(o: Reconnection, k: nat): real {
    var w := o.delay * Power(o.factor, k);
    if w <= o.delayMax then w else o.delayMax
  }

  function Ended(l: Line): Line {
    l.(phase := Disconnected, attempt := 0, retryTimer := false, waits := [], waiters := 0)
  }

  /** The schedule with one more retry in it. */
  function Retrying(l: Line): Line {
    l.(phase := Reopening, waits := l.waits + [Wait(l.options, l.attempt)], attempt := l.attempt + 1,
       retryTimer := true)
  }

  // ------------------------------------------------------------ one room or join

  /** Loops over a table go by number; the order makes no difference to what they leave. */
  function Least(s: set<nat>): (m: nat)
    requires s != {}
    ensures m in s && forall x :: x in s ==> m <= x
  {
    HasLeast(s);
    var m :| m in s && forall x :: x in s ==> m <= x;
    m
  }

  lemma HasLeast(s: set<nat>)
    requires s != {}
    ensures exists m :: m in s && forall x :: x in s ==> m <= x
  {
    var y :| y in s;
    LeastUpTo(s, y);
  }

  lemma LeastUpTo(s: set<nat>, y: nat)
    requires y in s
    ensures exists m :: m in s && forall x :: x in s ==> m <= x
    decreases y
  {
    if x: nat :| x in s && x < y {
      LeastUpTo(s, x);
    } else {
      assert forall x :: x in s ==> y <= x;
    }
  }

  predicate InByRef(t: Tables, r: RoomId) {
    r in t.rooms && t.rooms[r].ref in t.byRef && t.byRef[t.rooms[r].ref] == r
  }

  /** A join that waits no longer, its promise resolved once more. */
  function Answered(t: Tables, q: Request): (t': Tables)
    requires q in t.pending
    ensures t'.answers.Keys == t.answers.Keys
  {
    var p := t.pending[q].promise;
    t.(pending := t.pending - {q},
       answers := if p in t.answers then t.answers[p := t.answers[p].(times := t.answers[p].times + 1)] else t.answers)
  }

  /** A failed join gives up the seat it may have. */
  function Unseated(t: Tables, r: RoomId): Tables {
    if InByRef(t, r) && t.rooms[r].status != Left then t.(byRef := t.byRef - {t.rooms[r].ref}) else t
  }

  /** The first-time join that waits for `r`. */
  function JoinOf(t: Tables, r: RoomId): (q: Option<Request>)
    ensures q.Some? ==> q.value in t.pending && t.pending[q.value].room == r && !t.pending[q.value].resume
    ensures q.None? ==> forall x :: x in t.pending && t.pending[x].room == r ==> t.pending[x].resume
  {
    var joins := set q | q in t.pending && t.pending[q].room == r && !t.pending[q].resume;
    assert forall x :: x in t.pending && t.pending[x].room == r && !t.pending[x].resume ==> x in joins;
    if joins == {} then None else Some(Least(joins))
  }

  /** `r` left and taken out of the tables that lead to it. */
  function Forgotten(t: Tables, r: RoomId): Tables
    requires r in t.rooms
  {
    t.(byRef := if InByRef(t, r) then t.byRef - {t.rooms[r].ref} else t.byRef,
       rooms := t.rooms[r := t.rooms[r].(status := Left)],
       resuming := t.resuming - {r})
  }

  /** The room is over here; a first-time join that waits for it fails. Leaving twice is leaving once. */
  function Leave(t: Tables, r: RoomId): (t': Tables)
    requires r in t.rooms
    ensures t'.pending.Keys <= t.pending.Keys && t'.rooms.Keys == t.rooms.Keys && t'.answers.Keys == t.answers.Keys
  {
    if t.rooms[r].status == Left then t
    else
      var t1 := Forgotten(t, r);
      var q := JoinOf(t1, r);
      if q.Some? then Answered(t1, q.value) else t1
  }

  /** An answer to a waiting join; one that nobody waits for changes nothing. */
  function Settle(t: Tables, q: Request, ok: bool): (t': Tables)
    ensures t'.pending.Keys <= t.pending.Keys - {q} && t'.rooms.Keys == t.rooms.Keys
            && t'.answers.Keys == t.answers.Keys
  {
    if q !in t.pending then t
    else
      var p, t1 := t.pending[q], Answered(t, q);
      if p.room !in t.rooms then t1
      else if ok then t1.(rooms := t1.rooms[p.room := t1.rooms[p.room].(given := true)])
      else if p.resume then Leave(Unseated(t1, p.room), p.room)
      else Unseated(t1, p.room)
  }

  /** A room that waits to be resumed, unless it was left; it waits all the same. */
  function Suspended(t: Tables, r: RoomId): Tables
    requires r in t.rooms
  {
    t.(resuming := t.resuming + {r},
       rooms := t.rooms[r := if t.rooms[r].status == Left then t.rooms[r] else t.rooms[r].(status := Reconnecting)])
  }

  // ------------------------------------------------------------------ all of them

  /** Every waiting join failed. */
  function FailAll(t: Tables): (t': Tables)
    ensures t'.pending == map[] && t'.rooms.Keys == t.rooms.Keys && t'.answers.Keys == t.answers.Keys
    decreases |t.pending|
  {
    if t.pending == map[] then t
    else
      var q := Least(t.pending.Keys);
      assert |Settle(t, q, false).pending| < |t.pending| by { Smaller(t, Settle(t, q, false), q); }
      FailAll(Settle(t, q, false))
  }

  lemma Smaller(t: Tables, t': Tables, q: Request)
    requires t'.pending.Keys <= t.pending.Keys - {q} && q in t.pending
    ensures |t'.pending| < |t.pending|
  {
    SubsetSize(t'.pending.Keys, t.pending.Keys - {q});
  }

  function LeaveEach(t: Tables, todo: set<RoomId>): (t': Tables)
    ensures t'.rooms.Keys == t.rooms.Keys && t'.pending.Keys <= t.pending.Keys && t'.answers.Keys == t.answers.Keys
    decreases |todo|
  {
    if todo == {} then t
    else
      var r := Least(todo);
      LeaveEach(if r in t.rooms then Leave(t, r) else t, todo - {r})
  }

  /** Everything ended: joins failed, rooms left. */
  function EndRooms(t: Tables): (t': Tables)
    ensures t'.rooms.Keys == t.rooms.Keys && t'.pending == map[] && t'.answers.Keys == t.answers.Keys
  {
    var t1 := FailAll(t);
    LeaveEach(t1.(byRef := map[], resuming := {}), t1.byRef.Values + t1.resuming)
  }

  /** The connection is gone: joins in flight fail, resumes in flight go back to waiting. */
  function SuspendPending(t: Tables): (t': Tables)
    ensures t'.pending == map[] && t'.rooms.Keys == t.rooms.Keys && t'.answers.Keys == t.answers.Keys
    decreases |t.pending|
  {
    if t.pending == map[] then t
    else
      var q := Least(t.pending.Keys);
      var t1 := SuspendOne(t, q);
      assert |t1.pending| < |t.pending| by { Smaller(t, t1, q); }
      SuspendPending(t1)
  }

  function SuspendOne(t: Tables, q: Request): (t': Tables)
    requires q in t.pending
    ensures t'.pending.Keys <= t.pending.Keys - {q} && t'.rooms.Keys == t.rooms.Keys
            && t'.answers.Keys == t.answers.Keys
  {
    if t.pending[q].resume && t.pending[q].room in t.rooms
    then Suspended(t.(pending := t.pending - {q}), t.pending[q].room)
    else Settle(t, q, false)
  }

  /** Bound rooms wait to be resumed, but for those that never got a snapshot. */
  function SuspendBound(t: Tables): (t': Tables)
    ensures t'.rooms.Keys == t.rooms.Keys && t'.pending.Keys <= t.pending.Keys && t'.answers.Keys == t.answers.Keys
    ensures t'.byRef == map[]
    decreases |t.byRef|
  {
    if t.byRef == map[] then t
    else
      var t1 := UnbindOne(t, Least(t.byRef.Keys));
      assert |t1.byRef| < |t.byRef| by {
        SubsetSize(t1.byRef.Keys, t.byRef.Keys - {Least(t.byRef.Keys)});
      }
      SuspendBound(t1)
  }

  function UnbindOne(t: Tables, ref: Ref): (t': Tables)
    requires ref in t.byRef
    ensures t'.rooms.Keys == t.rooms.Keys && t'.pending.Keys <= t.pending.Keys && t'.answers.Keys == t.answers.Keys
    ensures t'.byRef.Keys <= t.byRef.Keys - {ref}
  {
    var r, t1 := t.byRef[ref], t.(byRef := t.byRef - {ref});
    if r !in t.rooms then t1
    else if t.rooms[r].status == Joining then Leave(t1, r)
    else Suspended(t1, r)
  }

  // --------------------------------------------------------------------- requests

  /** A join that waits for its answer, under the next number. */
  function Asked(l: Line, t: Tables, r: RoomId, resume: bool): Tables {
    t.(pending := t.pending[l.nextRequest := Pending(r, resume, l.nextPromise)],
       answers := t.answers[l.nextPromise := Answer(resume, 0)])
  }

  function Ask(st: State, r: RoomId, resume: bool, sent: bool): State {
    var l, t := st.line, Asked(st.line, st.tables, r, resume);
    State(l.(nextRequest := l.nextRequest + 1, nextPromise := l.nextPromise + 1),
          if sent then t else Settle(t, l.nextRequest, false))
  }

  /** A held seat asked for again, or left if it has no token. */
  function Resume(st: State, r: RoomId, sent: bool): (st': State)
    requires r in st.tables.rooms
  {
    var t := st.tables.(resuming := st.tables.resuming - {r});
    if t.rooms[r].token then Ask(st.(tables := t), r, true, sent) else st.(tables := Leave(t, r))
  }

  /** The held seats in `todo` asked for again; the socket takes the requests of `sends`. */
  function ResumeEach(st: State, todo: set<RoomId>, sends: set<RoomId>): State
    decreases |todo|
  {
    if todo == {} then st
    else
      var r := Least(todo);
      ResumeEach(if r in st.tables.rooms then Resume(st, r, r in sends) else st, todo - {r}, sends)
  }

  // -------------------------------------------------------------------- lifecycle

  function SetDisconnected(st: State): State {
    State(Ended(st.line), EndRooms(st.tables))
  }

  /** A retry, if any is left; the first connect has none. */
  function FailedAttempt(st: State): State {
    if st.line.phase == Connecting || st.line.attempt >= st.line.options.maxAttempts then SetDisconnected(st)
    else st.(line := Retrying(st.line))
  }

  function OpenSocket(st: State, opens: bool): State {
    if !opens then FailedAttempt(st)
    else st.(line := st.line.(connection := Some(Socket(st.line.sockets, false)), sockets := st.line.sockets + 1))
  }

  /** One attempt: with the token at hand, or after fetching it. */
  function Open(st: State, opens: bool): State {
    if !st.line.fetchesToken then OpenSocket(st, opens)
    else
      var fetch := st.line.tokenFetch + 1;
      st.(line := st.line.(tokenFetch := fetch, fetches := st.line.fetches + {fetch}))
  }

  function Connect(st: State, opens: bool): State {
    if st.line.phase == Connected then st
    else
      var l := st.line.(waiters := st.line.waiters + 1);
      if l.phase == Disconnected then Open(st.(line := l.(phase := Connecting)), opens) else st.(line := l)
  }

  /** Rooms that are bound, wait to be resumed or wait for an answer. */
  function AllRooms(t: Tables): set<RoomId> {
    t.byRef.Values + t.resuming + set q | q in t.pending :: t.pending[q].room
  }

  function Disconnect(st: State): State {
    var t := LeaveEach(st.tables, AllRooms(st.tables));
    SetDisconnected(State(st.line.(retryTimer := false, connection := None), t))
  }

  /** A token fetch returned; only the latest counts, and only while it is wanted. */
  function FetchReturns(st: State, fetch: nat, ok: bool, opens: bool): State {
    var st' := st.(line := st.line.(fetches := st.line.fetches - {fetch}));
    if fetch != st.line.tokenFetch || st.line.phase == Disconnected then st'
    else if ok then OpenSocket(st', opens)
    else FailedAttempt(st')
  }

  function RetryFires(st: State, opens: bool): State {
    Open(st.(line := st.line.(retryTimer := false)), opens)
  }

  predicate IsCurrent(l: Line, id: nat) { l.connection.Some? && l.connection.value.id == id }

  function SocketOpened(st: State, id: nat, sends: set<RoomId>): State {
    if !IsCurrent(st.line, id) then st
    else
      var l := st.line.(connection := Some(Socket(id, true)), phase := Connected, attempt := 0, waits := [],
                        waiters := 0);
      ResumeEach(State(l, st.tables), st.tables.resuming, sends)
  }

  /** Whether a lost connection is opened again; `terminal` closes are not. */
  predicate Retries(l: Line, terminal: bool) {
    l.phase != Connecting && !terminal && l.options.enabled
  }

  /** A connection that is gone, whether it was ever open or not. */
  function Lost(st: State, terminal: bool): State {
    var st1 := State(st.line.(connection := None), SuspendPending(st.tables));
    if !Retries(st.line, terminal) then SetDisconnected(st1)
    else FailedAttempt(State(st1.line.(phase := Reopening), SuspendBound(st1.tables)))
  }

  function SocketClosed(st: State, id: nat, terminal: bool): State {
    if IsCurrent(st.line, id) then Lost(st, terminal) else st
  }

  // ------------------------------------------------------------------------ joins

  predicate CanSend(l: Line) { l.connection.Some? && l.connection.value.open }

  /** A join of a new room, once `connect` has answered. */
  function Join(st: State, r: RoomId, sent: bool): State {
    var t := st.tables.(rooms := st.tables.rooms[r := Link(Joining, 0, false, false)]);
    Ask(st.(tables := t), r, false, sent && CanSend(st.line))
  }

  /** The room a JOIN_SUCCESS binds. */
  function Bound(t: Tables, r: RoomId, ref: Ref, token: bool): Tables
    requires r in t.rooms
  {
    var link := t.rooms[r];
    var status := if link.status == Reconnecting then Joining else link.status;
    t.(byRef := t.byRef[ref := r], rooms := t.rooms[r := link.(ref := ref, token := token, status := status)])
  }

  /** JOIN_SUCCESS; `good` is whether its handshake is one this client can use. */
  function JoinSucceeds(t: Tables, q: Request, ref: Ref, good: bool, token: bool): Tables {
    if q !in t.pending || t.pending[q].room !in t.rooms then t
    else if !good then Settle(t, q, false)
    else Bound(t, t.pending[q].room, ref, token)
  }

  /** A room's snapshot on this binding makes it joined. */
  function Shown(t: Tables, r: RoomId): Tables
    requires r in t.rooms
  {
    t.(rooms := t.rooms[r := if t.rooms[r].status == Joining then t.rooms[r].(status := Joined) else t.rooms[r]])
  }

  /** The join that waits for `r`, first-time or resume. */
  function RequestOf(t: Tables, r: RoomId): (q: Option<Request>)
    ensures q.Some? ==> q.value in t.pending && t.pending[q.value].room == r
    ensures q.None? ==> forall x :: x in t.pending ==> t.pending[x].room != r
  {
    var requests := set q | q in t.pending && t.pending[q].room == r;
    assert forall x :: x in t.pending && t.pending[x].room == r ==> x in requests;
    if requests == {} then None else Some(Least(requests))
  }

  /** A snapshot completes the room's join. One that does not apply drops the connection to re-sync. */
  function Snapshot(st: State, ref: Ref, applies: bool): State {
    if ref !in st.tables.byRef || st.tables.byRef[ref] !in st.tables.rooms then st
    else
      var r := st.tables.byRef[ref];
      var t := Shown(st.tables, r);
      if !applies then Lost(st.(tables := t), false)
      else if t.rooms[r].status == Left || RequestOf(t, r).None? then st.(tables := t)
      else st.(tables := Settle(t, RequestOf(t, r).value, true))
  }

  // ----------------------------------------------------------------------- events

  datatype Event =
    | Connects(opens: bool)
    | Disconnects
    | FetchReturned(fetch: nat, ok: bool, opens: bool)
    | RetryFired(opens: bool)
    | Opened(id: nat, sends: set<RoomId>)
    | Closed(id: nat, terminal: bool)
    | Joins(room: RoomId, sent: bool)
    // JOIN_ERROR, or the join's timeout.
    | JoinFailed(request: Request)
    | JoinSucceeded(request: Request, ref: Ref, good: bool, token: bool)
    | Snapshots(ref: Ref, applies: bool)
    // The caller's leave, or the server's LEAVE.
    | Leaves(room: RoomId)

  /**
   When an event can happen: what it is about exists, a socket opens once, and
   a server answers a join once, with a handle that is not in use.
   */
  predicate Enabled(st: State, e: Event) {
    match e
    case FetchReturned(fetch, _, _) => fetch in st.line.fetches
    case RetryFired(_) => st.line.retryTimer
    case Opened(id, _) => IsCurrent(st.line, id) ==> !st.line.connection.value.open
    case Joins(room, _) => room !in st.tables.rooms
    case JoinSucceeded(q, ref, _, _) =>
      ref !in st.tables.byRef && (q in st.tables.pending ==> !InByRef(st.tables, st.tables.pending[q].room))
    case Leaves(room) => room in st.tables.rooms
    case _ => true
  }

  function Next(st: State, e: Event): State
    requires Enabled(st, e)
  {
    match e
    case Connects(opens) => Connect(st, opens)
    case Disconnects => Disconnect(st)
    case FetchReturned(fetch, ok, opens) => FetchReturns(st, fetch, ok, opens)
    case RetryFired(opens) => RetryFires(st, opens)
    case Opened(id, sends) => SocketOpened(st, id, sends)
    case Closed(id, terminal) => SocketClosed(st, id, terminal)
    case Joins(room, sent) => Join(st, room, sent)
    case JoinFailed(q) => st.(tables := Settle(st.tables, q, false))
    case JoinSucceeded(q, ref, good, token) => st.(tables := JoinSucceeds(st.tables, q, ref, good, token))
    case Snapshots(ref, applies) => Snapshot(st, ref, applies)
    case Leaves(room) => st.(tables := Leave(st.tables, room))
  }

  /** A client as its constructor leaves it. */
  function NewClient(options: Reconnection, fetchesToken: bool): State {
    State(Line(options, fetchesToken, Disconnected, None, 0, 0, false, 0, {}, 0, [], 1, 0),
          Tables(map[], map[], {}, map[], map[]))
  }
}
