/**
 The seats of a room, as a state machine over its atomic steps: joins, drops,
 held seats, tokens, reservations, the pause of a room nobody is connected to,
 and the start of disposal. Times are milliseconds of one clock.
 */
module Seats {
  import opened Wrappers

  type SeatId = nat
  type Token = nat
  type Reservation = nat
  /** One binding of a seat to a connection: a connection and a room handle on it. */
  type Channel = nat

  datatype Status = Joining | Joined | Reconnecting

  datatype Seat = Seat(
    status: Status,
    channel: Option<Channel>,
    synced: bool,
    pausedSince: Option<int>,
    token: Option<Token>,
    // The room exists for this join: it created the room or used a reservation.
    keeps: bool)

  datatype Limits = Limits(pauseBytes: int, resumeBytes: int)

  datatype Config = Config(maxClients: nat, reconnects: bool, autoDispose: bool, limits: Limits)

  datatype Room = Room(
    config: Config,
    now: int,
    seats: map<SeatId, Seat>,
    tokens: map<Token, SeatId>,
    timers: set<SeatId>,
    // Seats held for reservations, until they expire.
    reservations: map<Reservation, int>,
    // Reservations the matchmaker still accepts, with their expiry.
    promised: map<Reservation, int>,
    issued: set<Reservation>,
    consumed: seq<Reservation>,
    locked: bool,
    ready: bool,
    disposing: bool,
    paused: bool,
    syncRunning: bool)

  // ------------------------------------------------------------------- seats

  function SeatCount(r: Room): nat { |r.seats| + |r.reservations| }

  predicate AcceptsNewSeat(r: Room) {
    !r.disposing && !r.locked && SeatCount(r) < r.config.maxClients
  }

  function StartDispose(r: Room): Room {
    r.(disposing := true, syncRunning := false)
  }

  function CheckEmpty(r: Room): Room {
    if r.config.autoDispose && r.ready && !r.disposing && r.seats == map[] && r.reservations == map[]
    then StartDispose(r) else r
  }

  predicate IsConnected(s: Seat) { s.status != Reconnecting && s.channel.Some? }

  predicate AnyConnected(seats: map<SeatId, Seat>) {
    exists id :: id in seats && IsConnected(seats[id])
  }

  predicate AnyHeld(seats: map<SeatId, Seat>) {
    exists id :: id in seats && seats[id].status == Reconnecting
  }

  /** Pauses a room with only held seats, resumes one that has a connection. */
  function UpdatePause(r: Room): Room {
    if r.disposing || !r.ready then r
    else if !r.paused && !AnyConnected(r.seats) && AnyHeld(r.seats) then r.(paused := true, syncRunning := false)
    else if r.paused && AnyConnected(r.seats) then r.(paused := false, syncRunning := true)
    else r
  }

  /** `None` if the seat is refused. */
  function TakeSeat(r: Room, id: SeatId, channel: Option<Channel>, reserved: bool, keeps: bool): Option<Room> {
    if (if reserved then r.disposing else !AcceptsNewSeat(r)) || id in r.seats then None
    else Some(r.(seats := r.seats[id := Seat(Joining, channel, false, None, None, keeps)]))
  }

  /** Undoes a seat whose join failed. */
  function Unseat(r: Room, id: SeatId): Room {
    if id !in r.seats then r
    else
      var r' := r.(seats := r.seats - {id});
      if r.seats[id].keeps then CheckEmpty(r') else r'
  }

  /** The tokens once the seat's own is revoked. */
  function Revoked(tokens: map<Token, SeatId>, s: Seat): map<Token, SeatId> {
    if s.token.Some? then tokens - {s.token.value} else tokens
  }

  function Granted(tokens: map<Token, SeatId>, s: Seat, id: SeatId, token: Option<Token>): map<Token, SeatId> {
    if token.Some? then Revoked(tokens, s)[token.value := id] else Revoked(tokens, s)
  }

  /** The old token stops working; there is a new one if reconnection is on. */
  function IssueToken(r: Room, id: SeatId, token: Token): Room
    requires id in r.seats
  {
    var granted := if r.config.reconnects then Some(token) else None;
    r.(tokens := Granted(r.tokens, r.seats[id], id, granted), seats := r.seats[id := r.seats[id].(token := granted)])
  }

  function Activate(r: Room, id: SeatId): Room
    requires id in r.seats
  {
    if r.seats[id].status != Joining then r
    else UpdatePause(r.(seats := r.seats[id := r.seats[id].(status := Joined)]))
  }

  function Release(r: Room, id: SeatId): Room {
    if id !in r.seats then r
    else
      var r' := r.(timers := r.timers - {id}, tokens := Revoked(r.tokens, r.seats[id]), seats := r.seats - {id});
      if r.seats[id].status == Joining then CheckEmpty(r') else r'
  }

  function ConnectionLost(r: Room, id: SeatId, shuttingDown: bool): Room {
    if id !in r.seats || r.seats[id].status == Reconnecting then r
    else
      var s := r.seats[id].(channel := None);
      var r1 := r.(seats := r.seats[id := s]);
      if s.status == Joining then r1
      else if r.config.reconnects && s.token.Some? && !shuttingDown && !r.disposing then
        UpdatePause(r1.(seats := r.seats[id := s.(status := Reconnecting, synced := false)], timers := r.timers + {id}))
      else Release(r1, id)
  }

  /** The held seat a token names. */
  function HeldSeat(r: Room, token: Token): Option<SeatId> {
    if token in r.tokens && r.tokens[token] in r.seats && r.seats[r.tokens[token]].status == Reconnecting
    then Some(r.tokens[token]) else None
  }

  function Reconnect(r: Room, id: SeatId, channel: Channel): Room
    requires id in r.seats
  {
    var s := r.seats[id].(channel := Some(channel), status := Joined, synced := false);
    UpdatePause(r.(timers := r.timers - {id}, seats := r.seats[id := s]))
  }

  /** A join's last step: token, handshake and activation, or a drop if the connection has closed. */
  function CompleteJoin(r: Room, id: SeatId, open: bool, token: Token, shuttingDown: bool): Room
    requires id in r.seats
  {
    if open then Activate(IssueToken(r, id, token), id) else ConnectionLost(Activate(r, id), id, shuttingDown)
  }

  /** A resumed seat's last step. */
  function CompleteResume(r: Room, id: SeatId, open: bool, token: Token, shuttingDown: bool): Room
    requires id in r.seats
  {
    if open then IssueToken(r, id, token) else ConnectionLost(r, id, shuttingDown)
  }

  // ------------------------------------------------------------ reservations

  function Hold(r: Room, res: Reservation, ms: nat): Room {
    r.(reservations := r.reservations[res := r.now + ms], promised := r.promised[res := r.now + ms],
       issued := r.issued + {res})
  }

  /** The hold's timer: it fires as soon as the expiry is reached. */
  function Expire(r: Room, res: Reservation): Room {
    CheckEmpty(r.(reservations := r.reservations - {res}))
  }

  /** Consuming is refused only after the expiry. */
  predicate Consumable(r: Room, res: Reservation) { res in r.promised && r.now <= r.promised[res] }

  /** Takes the reservation; `admitted` is whether the room's checks let the client sit down. */
  function Consume(r: Room, res: Reservation, admitted: bool, id: SeatId, channel: Channel): Room {
    var r1 := r.(promised := r.promised - {res}, reservations := r.reservations - {res},
                 consumed := r.consumed + [res]);
    if !admitted then r1
    else
      var seated := TakeSeat(r1, id, Some(channel), true, true);
      if seated.Some? then seated.value else r1
  }

  // ---------------------------------------------------------- sync boundaries

  /** Backpressure: a seat with too much queued leaves the patches, and rejoins once drained. */
  function Pressed(s: Seat, limits: Limits, queued: map<Channel, int>, now: int): Seat {
    if limits.pauseBytes <= 0 || s.status != Joined || s.channel.None? || s.channel.value !in queued then s
    else
      var bytes := queued[s.channel.value];
      if s.pausedSince.None? then
        if bytes <= limits.pauseBytes then s else s.(pausedSince := Some(now), synced := false)
      else if bytes <= limits.resumeBytes then s.(pausedSince := None)
      else s
  }

  /** Waits for a snapshot at this boundary. */
  predicate WantsSnapshot(s: Seat) {
    s.status == Joined && !s.synced && s.channel.Some? && s.pausedSince.None?
  }

  predicate WantsPatch(s: Seat) { s.status == Joined && s.synced }

  /** A seat once the boundary has decided on its frames; `replaced` means the state is a new tree. */
  function Considered(s: Seat, replaced: bool, limits: Limits, queued: map<Channel, int>, now: int): Seat {
    Pressed(if replaced then s.(synced := false) else s, limits, queued, now)
  }

  function AfterBoundary(s: Seat, replaced: bool, limits: Limits, queued: map<Channel, int>, now: int): Seat {
    var s' := Considered(s, replaced, limits, queued, now);
    if WantsSnapshot(s') then s'.(synced := true) else s'
  }

  function Boundary(r: Room, replaced: bool, queued: map<Channel, int>): Room {
    if r.disposing || !r.ready then r
    else r.(seats := map id | id in r.seats :: AfterBoundary(r.seats[id], replaced, r.config.limits, queued, r.now))
  }

  // ------------------------------------------------------------------- steps

  datatype Step =
    | Take(id: SeatId, at: Option<Channel>, keeps: bool)
    | Undo(id: SeatId)
    | Complete(id: SeatId, open: bool, token: Token, shuttingDown: bool)
    | AdmitBot(id: SeatId)
    | Lose(id: SeatId, shuttingDown: bool)
    | Resume(token: Token, channel: Channel)
    | CompleteResumed(id: SeatId, open: bool, token: Token, shuttingDown: bool)
    | Timer(id: SeatId)
    | Leave(id: SeatId)
    // What follows a seat's release, once `onLeave` has returned.
    | AfterLeave
    | Reserve(res: Reservation, ms: nat)
    | HoldExpires(res: Reservation)
    | UseReservation(res: Reservation, admitted: bool, id: SeatId, channel: Channel)
    | ForgetReservation(res: Reservation)
    | Lock(on: bool)
    | BecomeReady
    | Dispose
    | DisposeEnds
    | Sync(replaced: bool, queued: map<Channel, int>)
    | Tick(ms: nat)

  /** When a step can happen: names are new, and what it is about exists. */
  ghost predicate Enabled(r: Room, step: Step) {
    match step
    case Undo(id) => id in r.seats ==> r.seats[id].status == Joining
    case Complete(id, _, token, _) => id in r.seats && r.seats[id].status == Joining && token !in r.tokens
    case AdmitBot(id) => id in r.seats && r.seats[id].status == Joining
    case CompleteResumed(id, _, token, _) => id in r.seats && r.seats[id].status != Joining && token !in r.tokens
    case Timer(id) => id in r.timers
    case Reserve(res, _) => res !in r.issued
    case HoldExpires(res) => res in r.reservations && r.reservations[res] <= r.now
    case BecomeReady => !r.ready
    case DisposeEnds => r.disposing
    case _ => true
  }

  ghost function Next(r: Room, step: Step): Room
    requires Enabled(r, step)
  {
    match step
    case Take(id, channel, keeps) =>
      var seated := TakeSeat(r, id, channel, false, keeps);
      if seated.Some? then seated.value else r
    case Undo(id) => Unseat(r, id)
    case Complete(id, open, token, shuttingDown) => CompleteJoin(r, id, open, token, shuttingDown)
    case AdmitBot(id) => Activate(r, id)
    case Lose(id, shuttingDown) => ConnectionLost(r, id, shuttingDown)
    case Resume(token, channel) =>
      var held := HeldSeat(r, token);
      if held.Some? then Reconnect(r, held.value, channel) else r
    case CompleteResumed(id, open, token, shuttingDown) => CompleteResume(r, id, open, token, shuttingDown)
    case Timer(id) => Release(r.(timers := r.timers - {id}), id)
    case Leave(id) => Release(r, id)
    case AfterLeave => CheckEmpty(UpdatePause(r))
    case Reserve(res, ms) => if AcceptsNewSeat(r) then Hold(r, res, ms) else r
    case HoldExpires(res) => Expire(r, res)
    case UseReservation(res, admitted, id, channel) =>
      if Consumable(r, res) then Consume(r, res, admitted, id, channel) else r
    case ForgetReservation(res) => r.(promised := r.promised - {res})
    case Lock(on) => r.(locked := on)
    case BecomeReady => r.(ready := true, syncRunning := !r.disposing)
    case Dispose => StartDispose(r)
    case DisposeEnds => r.(reservations := map[])
    case Sync(replaced, queued) => Boundary(r, replaced, queued)
    case Tick(ms) => r.(now := r.now + ms)
  }

  // ---------------------------------------------------------------- invariant

  type Seating = map<SeatId, Seat>

  /** A reconnect timer runs exactly for the held seats. */
  ghost predicate TimersMatch(seats: Seating, timers: set<SeatId>) {
    forall id :: id in timers <==> id in seats && seats[id].status == Reconnecting
  }

  /** Tokens and the seats' current tokens are inverse: an old token names nothing. */
  ghost predicate TokensMatch(seats: Seating, tokens: map<Token, SeatId>) {
    && (forall t :: t in tokens ==> tokens[t] in seats && seats[tokens[t]].token == Some(t))
    && (forall id :: id in seats && seats[id].token.Some? ==>
          seats[id].token.value in tokens && tokens[seats[id].token.value] == id)
  }

  /** Only a joined, connected seat that is not held back gets patches; no seat has a token before it joins. */
  predicate SeatOk(s: Seat) {
    && (s.synced ==> s.status == Joined && s.channel.Some? && s.pausedSince.None?)
    && (s.status == Joining ==> s.token.None?)
    && (s.status == Reconnecting ==> s.channel.None?)
  }

  ghost predicate SeatsOk(seats: Seating) {
    forall id :: id in seats ==> SeatOk(seats[id])
  }

  ghost predicate NoneJoinedConnected(seats: Seating) {
    forall id :: id in seats && seats[id].status == Joined ==> seats[id].channel.None?
  }

  /** The sync loop runs exactly when it should. */
  predicate LoopMatches(r: Room) {
    r.syncRunning <==> r.ready && !r.disposing && !r.paused
  }

  /** While a room is paused and not going away, no joined seat has a connection. */
  ghost predicate PauseMatches(r: Room) {
    r.paused ==> r.ready && (!r.disposing ==> NoneJoinedConnected(r.seats))
  }

  ghost predicate Match(seats: Seating, tokens: map<Token, SeatId>, timers: set<SeatId>) {
    TimersMatch(seats, timers) && TokensMatch(seats, tokens) && SeatsOk(seats)
  }

  ghost predicate TablesMatch(r: Room) { Match(r.seats, r.tokens, r.timers) }

  ghost predicate SeatInv(r: Room) {
    TablesMatch(r) && LoopMatches(r) && PauseMatches(r)
  }
}
