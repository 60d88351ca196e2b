/**
 Replication over whole runs: every connection's state frames start with a
 snapshot, a synced client's replica is the room's state at the last sync
 boundary, and every replica is the state at some boundary.
 */
module Replication {
  import opened Wrappers
  import opened Seats
  import SeatProofs

  /** How a state of type `T` becomes ops: what changed since a base, and how ops apply. */
  datatype Deltas<!T(!new), !D> = Deltas(empty: T, delta: (T, T) -> D, apply: (T, D) -> T, none: D -> bool)

  /** Applying what changed gives the current state; no ops means nothing changed. */
  ghost predicate Lawful<T(!new), D>(c: Deltas<T, D>) {
    forall base, now :: c.apply(base, c.delta(base, now)) == now && (c.none(c.delta(base, now)) ==> base == now)
  }

  datatype Frame<D> = Snapshot(ops: D) | Patch(ops: D)

  /** A room, its state, and the state frames sent on each channel. */
  datatype World<T(!new), D> = World(
    room: Room,
    // The adopted state tree, if any, and its contents when its changes were last cleared.
    root: Option<T>,
    base: T,
    // A state assigned to the room but not adopted yet, and whether it is valid.
    pending: Option<(T, bool)>,
    logs: map<Channel, seq<Frame<D>>>,
    // The state at every boundary so far.
    bounds: seq<T>)

  // ---------------------------------------------------------------- the client

  /** A client's room: whether its stream has started, its replica, and whether it gave up. */
  datatype Replica<T> = Replica(session: bool, state: Option<T>, desynced: bool)

  /** A (re)join: nothing may be decoded against the old stream. */
  function Rebind<T>(r: Replica<T>): Replica<T> { r.(session := false) }

  function Receive<T(!new), D>(c: Deltas<T, D>, r: Replica<T>, frame: Frame<D>): Replica<T> {
    match frame
    case Snapshot(ops) => r.(session := true, state := Some(c.apply(c.empty, ops)))
    case Patch(ops) =>
      if !r.session || r.state.None? then r.(desynced := true)
      else r.(state := Some(c.apply(r.state.value, ops)))
  }

  function ReceiveAll<T(!new), D>(c: Deltas<T, D>, r: Replica<T>, frames: seq<Frame<D>>): Replica<T> {
    if frames == [] then r else Receive(c, ReceiveAll(c, r, frames[..|frames| - 1]), frames[|frames| - 1])
  }

  /** What a new client makes of a channel. */
  function Fold<T(!new), D>(c: Deltas<T, D>, frames: seq<Frame<D>>): Replica<T> {
    ReceiveAll(c, Replica(false, None, false), frames)
  }

  // ------------------------------------------------------------- the boundary

  function Content<T(!new), D>(c: Deltas<T, D>, root: Option<T>): T {
    if root.Some? then root.value else c.empty
  }

  predicate Adopts<T(!new), D>(w: World<T, D>) { w.pending.Some? && w.pending.value.1 }

  function NextRoot<T(!new), D>(w: World<T, D>): Option<T> {
    if Adopts(w) then Some(w.pending.value.0) else w.root
  }

  /** The state frame a boundary sends for a seat, if any. */
  function FrameFor<T(!new), D>(c: Deltas<T, D>, w: World<T, D>, queued: map<Channel, int>, s: Seat): seq<Frame<D>> {
    var s' := Considered(s, Adopts(w), w.room.config.limits, queued, w.room.now);
    var root := NextRoot(w);
    if WantsPatch(s') then
      if root.None? || c.none(c.delta(w.base, root.value)) then [] else [Patch(c.delta(w.base, root.value))]
    else if WantsSnapshot(s') then [Snapshot(c.delta(c.empty, Content(c, root)))]
    else []
  }

  /** The frames sent on a channel, over all seats. */
  ghost function SentOn<T(!new), D>(c: Deltas<T, D>, w: World<T, D>, queued: map<Channel, int>,
                                    ch: Channel): seq<Frame<D>> {
    if exists id :: id in w.room.seats && w.room.seats[id].channel == Some(ch) then
      var id :| id in w.room.seats && w.room.seats[id].channel == Some(ch);
      FrameFor(c, w, queued, w.room.seats[id])
    else []
  }

  ghost function SyncNow<T(!new), D>(c: Deltas<T, D>, w: World<T, D>, queued: map<Channel, int>): World<T, D> {
    if w.room.disposing || !w.room.ready then w
    else
      var content := Content(c, NextRoot(w));
      World(Boundary(w.room, Adopts(w), queued), NextRoot(w), content, if Adopts(w) then None else w.pending,
            map ch | ch in w.logs :: w.logs[ch] + SentOn(c, w, queued, ch),
            w.bounds + [content])
  }

  // -------------------------------------------------------------------- steps

  datatype Event<T(!new)> =
    | SeatStep(step: Step)
    // The room's code changes its state tree.
    | Mutate(now: T)
    // It assigns another tree, or puts the old one back.
    | Assign(tree: Option<(T, bool)>)
    | SyncPoint(queued: map<Channel, int>)

  /** The channel a step may bind a seat to. */
  function NewChannel(step: Step): Option<Channel> {
    match step
    case Take(_, at, _) => at
    case Resume(_, channel) => Some(channel)
    case UseReservation(_, _, _, channel) => Some(channel)
    case _ => None
  }

  ghost predicate Occurs<T(!new), D>(w: World<T, D>, e: Event<T>) {
    match e
    case SeatStep(step) =>
      Enabled(w.room, step) && !step.Sync? && (NewChannel(step).Some? ==> NewChannel(step).value !in w.logs)
    case Mutate(_) => w.root.Some?
    case Assign(_) => true
    case SyncPoint(_) => true
  }

  ghost function NextWorld<T(!new), D>(c: Deltas<T, D>, w: World<T, D>, e: Event<T>): World<T, D>
    requires Occurs(w, e)
  {
    match e
    case SeatStep(step) =>
      w.(room := Next(w.room, step),
         logs := if NewChannel(step).Some? then w.logs[NewChannel(step).value := []] else w.logs)
    case Mutate(now) => w.(root := Some(now))
    case Assign(tree) => w.(pending := tree)
    case SyncPoint(queued) => SyncNow(c, w, queued)
  }

  // ---------------------------------------------------------------- invariant

  /** Some boundary left this state. */
  predicate AtBoundary<T(==)>(t: T, bounds: seq<T>) {
    exists i :: 0 <= i < |bounds| && bounds[i] == t
  }

  /** However much of a channel has arrived, the client is not desynced and shows the state of some boundary. */
  ghost predicate LogOk<T(!new), D>(c: Deltas<T, D>, log: seq<Frame<D>>, bounds: seq<T>) {
    && (log != [] ==> log[0].Snapshot?)
    && forall n :: 1 <= n <= |log| ==>
         var r := Fold(c, log[..n]);
         r.session && !r.desynced && r.state.Some? && AtBoundary(r.state.value, bounds)
  }

  ghost predicate LogsOk<T(!new), D>(c: Deltas<T, D>, w: World<T, D>) {
    forall ch :: ch in w.logs ==> LogOk(c, w.logs[ch], w.bounds)
  }

  /** Every bound seat has its own channel. */
  ghost predicate ChannelsOk<T(!new), D>(w: World<T, D>) {
    && (forall id :: id in w.room.seats && w.room.seats[id].channel.Some? ==> w.room.seats[id].channel.value in w.logs)
    && (forall i, j :: i in w.room.seats && j in w.room.seats && i != j && w.room.seats[i].channel.Some? ==>
          w.room.seats[i].channel != w.room.seats[j].channel)
  }

  /** A synced client that has received everything shows the room's state at the last boundary. */
  ghost predicate UpToDate<T(!new), D>(c: Deltas<T, D>, w: World<T, D>, s: Seat) {
    && s.channel.Some? && s.channel.value in w.logs && w.logs[s.channel.value] != []
    && Fold(c, w.logs[s.channel.value]).state == Some(w.base)
  }

  ghost predicate SyncedOk<T(!new), D>(c: Deltas<T, D>, w: World<T, D>) {
    forall id :: id in w.room.seats && w.room.seats[id].synced ==> UpToDate(c, w, w.room.seats[id])
  }

  ghost predicate WorldInv<T(!new), D>(c: Deltas<T, D>, w: World<T, D>) {
    SeatInv(w.room) && ChannelsOk(w) && SyncedOk(c, w) && LogsOk(c, w) && (w.root.None? ==> w.base == c.empty)
  }

  // ---------------------------------------------------------- seats and channels

  /** Only seat `who` may change its binding, and only to `at`; nobody becomes synced. */
  ghost predicate Follows(seats: Seating, seats': Seating, who: SeatId, at: Option<Channel>) {
    && (forall id :: id in seats' && id != who ==>
          id in seats && seats'[id].channel == seats[id].channel && (seats'[id].synced ==> seats[id].synced))
    && (who in seats' ==>
          if who in seats && seats'[who].channel == seats[who].channel then seats'[who].synced ==> seats[who].synced
          else !seats'[who].synced && (seats'[who].channel.Some? ==> seats'[who].channel == at))
  }

  /** The seat a step is about. */
  function Who(r: Room, step: Step): SeatId {
    match step
    case Take(id, _, _) => id
    case Undo(id) => id
    case Complete(id, _, _, _) => id
    case AdmitBot(id) => id
    case Lose(id, _) => id
    case Resume(token, _) => if HeldSeat(r, token).Some? then HeldSeat(r, token).value else 0
    case CompleteResumed(id, _, _, _) => id
    case Timer(id) => id
    case Leave(id) => id
    case UseReservation(_, _, id, _) => id
    case _ => 0
  }

  lemma FollowsSelf(seats: Seating, who: SeatId, at: Option<Channel>)
    ensures Follows(seats, seats, who, at)
  {
  }

  lemma FollowsTwice(a: Seating, b: Seating, c: Seating, who: SeatId)
    requires Follows(a, b, who, None) && Follows(b, c, who, None)
    ensures Follows(a, c, who, None)
  {
  }

  lemma ActivateFollows(r: Room, id: SeatId)
    requires id in r.seats
    ensures Follows(r.seats, Activate(r, id).seats, id, None)
  {
    hide UpdatePause;
    SeatProofs.UpdatePauseFrame(r.(seats := r.seats[id := r.seats[id].(status := Joined)]));
  }

  lemma ReleaseFollows(r: Room, id: SeatId)
    ensures Follows(r.seats, Release(r, id).seats, id, None)
  {
    hide CheckEmpty, Revoked;
    if id in r.seats {
      SeatProofs.CheckEmptyFrame(r.(timers := r.timers - {id}, tokens := Revoked(r.tokens, r.seats[id]),
                                    seats := r.seats - {id}));
    }
  }

  lemma LoseFollows(r: Room, id: SeatId, shuttingDown: bool)
    requires SeatInv(r)
    ensures Follows(r.seats, ConnectionLost(r, id, shuttingDown).seats, id, None)
  {
    if id in r.seats && r.seats[id].status != Reconnecting {
      assert SeatOk(r.seats[id]);
      hide SeatInv, UpdatePause, Release, SeatOk;
      var s := r.seats[id].(channel := None);
      if s.status == Joined && !(r.config.reconnects && s.token.Some? && !shuttingDown && !r.disposing) {
        SeatProofs.ReleaseDetached(r, id);
        ReleaseFollows(r, id);
      } else {
        hide Release;
        SeatProofs.UpdatePauseFrame(r.(seats := r.seats[id := s.(status := Reconnecting, synced := false)],
                                       timers := r.timers + {id}));
      }
    }
  }

  lemma CompleteFollows(r: Room, id: SeatId, open: bool, token: Token, shuttingDown: bool)
    requires SeatInv(r) && id in r.seats
    ensures Follows(r.seats, CompleteJoin(r, id, open, token, shuttingDown).seats, id, None)
  {
    SeatProofs.ActivateKeeps(r, id);
    hide SeatInv, Activate, ConnectionLost;
    if open {
      var r1 := IssueToken(r, id, token);
      assert Follows(r.seats, r1.seats, id, None);
      ActivateFollows(r1, id);
      hide Follows;
      FollowsTwice(r.seats, r1.seats, Activate(r1, id).seats, id);
    } else {
      ActivateFollows(r, id);
      var r1 := Activate(r, id);
      LoseFollows(r1, id, shuttingDown);
      hide Follows;
      FollowsTwice(r.seats, r1.seats, ConnectionLost(r1, id, shuttingDown).seats, id);
    }
  }

  lemma UnseatFollows(r: Room, id: SeatId)
    ensures Follows(r.seats, Unseat(r, id).seats, id, None)
  {
    hide CheckEmpty;
    if id in r.seats {
      SeatProofs.CheckEmptyFrame(r.(seats := r.seats - {id}));
    }
  }

  lemma TakeFollows(r: Room, id: SeatId, channel: Option<Channel>, reserved: bool, keeps: bool)
    ensures var seated := TakeSeat(r, id, channel, reserved, keeps);
            seated.Some? ==> Follows(r.seats, seated.value.seats, id, channel)
  {
  }

  lemma ReconnectFollows(r: Room, id: SeatId, channel: Channel)
    requires id in r.seats
    ensures Follows(r.seats, Reconnect(r, id, channel).seats, id, Some(channel))
  {
    hide UpdatePause;
    var s := r.seats[id].(channel := Some(channel), status := Joined, synced := false);
    SeatProofs.UpdatePauseFrame(r.(timers := r.timers - {id}, seats := r.seats[id := s]));
  }

  /** Every step but a boundary changes the binding of one seat at most. */
  lemma StepFollows(r: Room, step: Step)
    requires SeatInv(r) && Enabled(r, step) && !step.Sync?
    ensures Follows(r.seats, Next(r, step).seats, Who(r, step), NewChannel(step))
  {
    hide Follows, SeatInv, TakeSeat, Unseat, CompleteJoin, Activate, ConnectionLost, Reconnect, Release, CheckEmpty,
         UpdatePause, Consume,
         IssueToken, AcceptsNewSeat;
    FollowsSelf(r.seats, Who(r, step), NewChannel(step));
    if NoSeats(step) {
      OtherSeats(r, step);
    }
    match step {
      case Take(id, at, keeps) => TakeFollows(r, id, at, false, keeps);
      case Undo(id) => UnseatFollows(r, id);
      case Complete(id, open, token, shuttingDown) => CompleteFollows(r, id, open, token, shuttingDown);
      case AdmitBot(id) => ActivateFollows(r, id);
      case Lose(id, shuttingDown) => LoseFollows(r, id, shuttingDown);
      case Resume(token, channel) =>
        if HeldSeat(r, token).Some? {
          ReconnectFollows(r, HeldSeat(r, token).value, channel);
        }
      case CompleteResumed(id, open, token, shuttingDown) =>
        if open {
          IssueFollows(r, id, token);
        } else {
          LoseFollows(r, id, shuttingDown);
        }
      case Timer(id) => ReleaseFollows(r.(timers := r.timers - {id}), id);
      case Leave(id) => ReleaseFollows(r, id);
      case AfterLeave =>
        SeatProofs.UpdatePauseFrame(r);
        SeatProofs.CheckEmptyFrame(UpdatePause(r));
      case HoldExpires(res) => SeatProofs.CheckEmptyFrame(r.(reservations := r.reservations - {res}));
      case UseReservation(res, admitted, id, channel) => ConsumeFollows(r, res, admitted, id, channel);
      case _ =>
    }
  }

  predicate NoSeats(step: Step) {
    step.Reserve? || step.ForgetReservation? || step.Lock? || step.BecomeReady? || step.Dispose? || step.DisposeEnds?
        || step.Tick?
  }

  lemma OtherSeats(r: Room, step: Step)
    requires Enabled(r, step) && NoSeats(step)
    ensures Next(r, step).seats == r.seats
  {
    hide TakeSeat, Unseat, CompleteJoin, Activate, ConnectionLost, Reconnect, Release, CheckEmpty, UpdatePause,
         Consume, HeldSeat,
         Boundary, CompleteResume, AcceptsNewSeat, Consumable, Expire;
    match step {
      case Reserve(_, _) =>
      case ForgetReservation(_) =>
      case Lock(_) =>
      case BecomeReady =>
      case Dispose =>
      case DisposeEnds =>
      case Tick(_) =>
    }
  }

  lemma ConsumeFollows(r: Room, res: Reservation, admitted: bool, id: SeatId, channel: Channel)
    ensures Follows(r.seats, Consume(r, res, admitted, id, channel).seats, id, Some(channel))
  {
    hide Follows, TakeSeat;
    FollowsSelf(r.seats, id, Some(channel));
    var r1 := r.(promised := r.promised - {res}, reservations := r.reservations - {res},
                 consumed := r.consumed + [res]);
    TakeFollows(r1, id, Some(channel), true, true);
  }

  lemma IssueFollows(r: Room, id: SeatId, token: Token)
    requires id in r.seats
    ensures Follows(r.seats, IssueToken(r, id, token).seats, id, None)
  {
  }

  // ------------------------------------------------------------- seat steps

  lemma ChannelsFollow<T(!new), D>(w: World<T, D>, w': World<T, D>, who: SeatId, at: Option<Channel>)
    requires ChannelsOk(w) && Follows(w.room.seats, w'.room.seats, who, at)
    requires at.Some? ==> at.value !in w.logs
    requires w'.logs.Keys == w.logs.Keys + (if at.Some? then {at.value} else {})
    ensures ChannelsOk(w')
  {
  }

  lemma SyncedFollow<T(!new), D>(c: Deltas<T, D>, w: World<T, D>, w': World<T, D>, who: SeatId, at: Option<Channel>)
    requires SyncedOk(c, w) && Follows(w.room.seats, w'.room.seats, who, at) && w'.base == w.base
    requires at.Some? ==> at.value !in w.logs
    requires w'.logs == if at.Some? then w.logs[at.value := []] else w.logs
    ensures SyncedOk(c, w')
  {
    hide Fold;
    forall id | id in w'.room.seats && w'.room.seats[id].synced
      ensures UpToDate(c, w', w'.room.seats[id])
    {
      assert UpToDate(c, w, w.room.seats[id]);
    }
  }

  lemma SeatStepKeeps<T(!new), D>(c: Deltas<T, D>, w: World<T, D>, step: Step)
    requires WorldInv(c, w) && Occurs(w, SeatStep(step))
    ensures WorldInv(c, NextWorld(c, w, SeatStep(step)))
  {
    hide SeatInv, Next, Enabled, LogOk, ChannelsOk, SyncedOk, Follows;
    SeatProofs.StepKeeps(w.room, step);
    StepFollows(w.room, step);
    var w' := NextWorld(c, w, SeatStep(step));
    var at := NewChannel(step);
    assert w'.logs.Keys == w.logs.Keys + (if at.Some? then {at.value} else {});
    ChannelsFollow(w, w', Who(w.room, step), at);
    SyncedFollow(c, w, w', Who(w.room, step), at);
    NoFrames(c, w.bounds);
  }

  lemma NoFrames<T(!new), D>(c: Deltas<T, D>, bounds: seq<T>)
    ensures LogOk(c, [], bounds)
  {
  }

  // ------------------------------------------------------------- a boundary

  lemma FoldAppend<T(!new), D>(c: Deltas<T, D>, log: seq<Frame<D>>, frame: Frame<D>)
    ensures Fold(c, log + [frame]) == Receive(c, Fold(c, log), frame)
  {
    assert (log + [frame])[..|log|] == log;
  }

  lemma MoreBounds<T(!new), D>(c: Deltas<T, D>, log: seq<Frame<D>>, bounds: seq<T>, t: T)
    requires LogOk(c, log, bounds)
    ensures LogOk(c, log, bounds + [t])
  {
    hide Fold;
    forall n | 1 <= n <= |log|
      ensures var r := Fold(c, log[..n]);
              r.session && !r.desynced && r.state.Some? && AtBoundary(r.state.value, bounds + [t])
    {
      var r := Fold(c, log[..n]);
      var i :| 0 <= i < |bounds| && bounds[i] == r.state.value;
      assert (bounds + [t])[i] == r.state.value;
    }
  }

  /** One more frame that leads to the newest boundary's state. */
  lemma LogGrows<T(!new), D>(c: Deltas<T, D>, log: seq<Frame<D>>, bounds: seq<T>, frame: Frame<D>, t: T)
    requires LogOk(c, log, bounds + [t]) && (log == [] ==> frame.Snapshot?)
    requires var r := Receive(c, Fold(c, log), frame); r.session && !r.desynced && r.state == Some(t)
    ensures LogOk(c, log + [frame], bounds + [t])
    ensures Fold(c, log + [frame]).state == Some(t)
  {
    hide Fold;
    FoldAppend(c, log, frame);
    assert (bounds + [t])[|bounds|] == t;
    forall n | 1 <= n <= |log + [frame]|
      ensures var r := Fold(c, (log + [frame])[..n]);
              r.session && !r.desynced && r.state.Some? && AtBoundary(r.state.value, bounds + [t])
    {
      if n <= |log| {
        assert (log + [frame])[..n] == log[..n];
      } else {
        assert (log + [frame])[..n] == log + [frame];
      }
    }
  }

  /** The channel's frames are its seat's. */
  lemma SentIs<T(!new), D>(c: Deltas<T, D>, w: World<T, D>, queued: map<Channel, int>, id: SeatId)
    requires ChannelsOk(w) && id in w.room.seats && w.room.seats[id].channel.Some?
    ensures SentOn(c, w, queued, w.room.seats[id].channel.value) == FrameFor(c, w, queued, w.room.seats[id])
  {
    hide FrameFor;
  }

  lemma FoldLast<T(!new), D>(c: Deltas<T, D>, log: seq<Frame<D>>, bounds: seq<T>)
    requires LogOk(c, log, bounds)
    ensures !Fold(c, log).desynced && (log != [] ==> Fold(c, log).session && Fold(c, log).state.Some?)
  {
    if log != [] {
      assert log[..|log|] == log;
    }
  }

  /** What a boundary does for one bound seat. */
  lemma SeatAtBoundary<T(!new), D>(c: Deltas<T, D>, w: World<T, D>, queued: map<Channel, int>, s: Seat)
    requires Lawful(c) && SeatOk(s) && s.channel.Some? && s.channel.value in w.logs
    requires LogOk(c, w.logs[s.channel.value], w.bounds) && (s.synced ==> UpToDate(c, w, s))
    requires w.root.None? ==> w.base == c.empty
    ensures var log := w.logs[s.channel.value] + FrameFor(c, w, queued, s);
            var t := Content(c, NextRoot(w));
            && LogOk(c, log, w.bounds + [t])
            && (AfterBoundary(s, Adopts(w), w.room.config.limits, queued, w.room.now).synced ==>
                  log != [] && Fold(c, log).state == Some(t))
  {
    var log, t := w.logs[s.channel.value], Content(c, NextRoot(w));
    var s' := Considered(s, Adopts(w), w.room.config.limits, queued, w.room.now);
    MoreBounds(c, log, w.bounds, t);
    FoldLast(c, log, w.bounds);
    hide Fold, LogOk, Lawful;
    if WantsPatch(s') {
      assert s.synced && !Adopts(w);
      LawAt(c, w.base, t);
      if w.root.None? || c.none(c.delta(w.base, w.root.value)) {
        assert log + [] == log;
      } else {
        LogGrows(c, log, w.bounds, Patch(c.delta(w.base, t)), t);
      }
    } else if WantsSnapshot(s') {
      LawAt(c, c.empty, t);
      LogGrows(c, log, w.bounds, Snapshot(c.delta(c.empty, t)), t);
    } else {
      assert log + [] == log;
    }
  }

  lemma LawAt<T(!new), D>(c: Deltas<T, D>, base: T, now: T)
    requires Lawful(c)
    ensures c.apply(base, c.delta(base, now)) == now && (c.none(c.delta(base, now)) ==> base == now)
  {
  }

  lemma SyncKeeps<T(!new), D>(c: Deltas<T, D>, w: World<T, D>, queued: map<Channel, int>)
    requires Lawful(c) && WorldInv(c, w)
    ensures WorldInv(c, SyncNow(c, w, queued))
  {
    if !w.room.disposing && w.room.ready {
      SeatProofs.BoundaryKeeps(w.room, Adopts(w), queued);
      BoundaryLogs(c, w, queued);
      BoundarySynced(c, w, queued);
      BoundaryChannels(c, w, queued);
    }
  }

  lemma BoundaryLogs<T(!new), D>(c: Deltas<T, D>, w: World<T, D>, queued: map<Channel, int>)
    requires Lawful(c) && WorldInv(c, w) && !w.room.disposing && w.room.ready
    ensures LogsOk(c, SyncNow(c, w, queued))
  {
    hide LogOk, Lawful, Fold, FrameFor, Boundary;
    var w', t := SyncNow(c, w, queued), Content(c, NextRoot(w));
    forall ch | ch in w.logs
      ensures LogOk(c, w'.logs[ch], w'.bounds)
    {
      if id :| id in w.room.seats && w.room.seats[id].channel == Some(ch) {
        SentIs(c, w, queued, id);
        assert SeatOk(w.room.seats[id]);
        SeatAtBoundary(c, w, queued, w.room.seats[id]);
      } else {
        assert w.logs[ch] + [] == w.logs[ch];
        MoreBounds(c, w.logs[ch], w.bounds, t);
      }
    }
  }

  lemma BoundarySeats<T(!new), D>(c: Deltas<T, D>, w: World<T, D>, queued: map<Channel, int>)
    requires !w.room.disposing && w.room.ready
    ensures var w' := SyncNow(c, w, queued);
            && w'.room.seats.Keys == w.room.seats.Keys && w'.logs.Keys == w.logs.Keys
            && w'.base == Content(c, NextRoot(w)) && w'.bounds == w.bounds + [w'.base]
            && (forall id :: id in w.room.seats ==>
                  && w'.room.seats[id] == AfterBoundary(w.room.seats[id], Adopts(w), w.room.config.limits, queued,
                                                        w.room.now)
                  && w'.room.seats[id].channel == w.room.seats[id].channel)
            && (forall ch :: ch in w.logs ==> w'.logs[ch] == w.logs[ch] + SentOn(c, w, queued, ch))
  {
    forall id | id in w.room.seats
      ensures AfterBoundary(w.room.seats[id], Adopts(w), w.room.config.limits, queued, w.room.now).channel
              == w.room.seats[id].channel
    {
    }
    hide FrameFor, SentOn, AfterBoundary, Adopts, NextRoot, Content;
  }

  lemma BoundarySynced<T(!new), D>(c: Deltas<T, D>, w: World<T, D>, queued: map<Channel, int>)
    requires Lawful(c) && WorldInv(c, w) && !w.room.disposing && w.room.ready
    ensures SyncedOk(c, SyncNow(c, w, queued))
  {
    hide LogOk, Lawful, Fold, FrameFor, SentOn, SyncNow, Boundary;
    BoundarySeats(c, w, queued);
    var w' := SyncNow(c, w, queued);
    forall id | id in w'.room.seats && w'.room.seats[id].synced
      ensures UpToDate(c, w', w'.room.seats[id])
    {
      var s := w.room.seats[id];
      assert SeatOk(s) && s.channel.Some?;
      hide AfterBoundary;
      SentIs(c, w, queued, id);
      SeatAtBoundary(c, w, queued, s);
    }
  }

  lemma BoundaryChannels<T(!new), D>(c: Deltas<T, D>, w: World<T, D>, queued: map<Channel, int>)
    requires ChannelsOk(w) && !w.room.disposing && w.room.ready
    ensures ChannelsOk(SyncNow(c, w, queued))
  {
    hide SentOn, SyncNow, AfterBoundary;
    BoundarySeats(c, w, queued);
  }

  // -------------------------------------------------------------------- runs

  lemma EventKeeps<T(!new), D>(c: Deltas<T, D>, w: World<T, D>, e: Event<T>)
    requires Lawful(c) && WorldInv(c, w) && Occurs(w, e)
    ensures WorldInv(c, NextWorld(c, w, e))
  {
    match e {
      case SeatStep(step) => SeatStepKeeps(c, w, step);
      case Mutate(now) => SameFrames(c, w, w.(root := Some(now)));
      case Assign(tree) => SameFrames(c, w, w.(pending := tree));
      case SyncPoint(queued) => SyncKeeps(c, w, queued);
    }
  }

  lemma SameFrames<T(!new), D>(c: Deltas<T, D>, w: World<T, D>, w': World<T, D>)
    requires WorldInv(c, w) && w'.room == w.room && w'.base == w.base && w'.logs == w.logs && w'.bounds == w.bounds
    requires w'.root.None? ==> w.root.None?
    ensures WorldInv(c, w')
  {
    hide SeatInv, LogOk, Fold;
    forall id | id in w'.room.seats && w'.room.seats[id].synced
      ensures UpToDate(c, w', w'.room.seats[id])
    {
      assert UpToDate(c, w, w.room.seats[id]);
    }
  }

  ghost predicate History<T(!new), D>(c: Deltas<T, D>, w: World<T, D>, events: seq<Event<T>>)
    decreases |events|
  {
    events == [] || (Occurs(w, events[0]) && History(c, NextWorld(c, w, events[0]), events[1..]))
  }

  ghost function AfterAll<T(!new), D>(c: Deltas<T, D>, w: World<T, D>, events: seq<Event<T>>): World<T, D>
    requires History(c, w, events)
    decreases |events|
  {
    if events == [] then w else AfterAll(c, NextWorld(c, w, events[0]), events[1..])
  }

  /** A room with or without a state, before anyone joins. */
  function NewWorld<T(!new), D>(c: Deltas<T, D>, config: Config, now: int, root: Option<T>): World<T, D> {
    World(SeatProofs.NewRoom(config, now), root, Content(c, root), None, map[], [])
  }

  lemma {:induction false} HistoryKeeps<T(!new), D>(c: Deltas<T, D>, w: World<T, D>, events: seq<Event<T>>)
    requires Lawful(c) && WorldInv(c, w) && History(c, w, events)
    ensures WorldInv(c, AfterAll(c, w, events))
    decreases |events|
  {
    hide WorldInv, Lawful, Occurs, NextWorld;
    if events != [] {
      EventKeeps(c, w, events[0]);
      HistoryKeeps(c, NextWorld(c, w, events[0]), events[1..]);
    }
  }

  lemma NewWorldOk<T(!new), D>(c: Deltas<T, D>, config: Config, now: int, root: Option<T>)
    ensures WorldInv(c, NewWorld(c, config, now, root))
  {
    hide Fold;
  }

  /**
   Replication safety: after any history, every channel starts with a snapshot
   and shows the state of some boundary however much of it has arrived, and
   all of a synced seat's channel shows the state at the last boundary.
   */
  lemma ReplicationSafety<T(!new), D>(c: Deltas<T, D>, config: Config, now: int, root: Option<T>, events: seq<Event<T>>)
    requires Lawful(c) && History(c, NewWorld(c, config, now, root), events)
    ensures var w := AfterAll(c, NewWorld(c, config, now, root), events);
            && (forall ch :: ch in w.logs ==> LogOk(c, w.logs[ch], w.bounds))
            && (forall id :: id in w.room.seats && w.room.seats[id].synced ==> UpToDate(c, w, w.room.seats[id]))
  {
    hide WorldInv, AfterAll, History;
    NewWorldOk(c, config, now, root);
    HistoryKeeps(c, NewWorld(c, config, now, root), events);
    WorldGives(c, AfterAll(c, NewWorld(c, config, now, root), events));
  }

  lemma WorldGives<T(!new), D>(c: Deltas<T, D>, w: World<T, D>)
    requires WorldInv(c, w)
    ensures forall ch :: ch in w.logs ==> LogOk(c, w.logs[ch], w.bounds)
    ensures forall id :: id in w.room.seats && w.room.seats[id].synced ==> UpToDate(c, w, w.room.seats[id])
  {
    hide SeatInv, LogOk, UpToDate;
  }

  /** Right after a boundary, a synced client that has received everything shows the room's state as it is. */
  lemma ExactAtBoundaries<T(!new), D>(c: Deltas<T, D>, w: World<T, D>, queued: map<Channel, int>, id: SeatId)
    requires Lawful(c) && WorldInv(c, w) && !w.room.disposing && w.room.ready
    requires id in SyncNow(c, w, queued).room.seats && SyncNow(c, w, queued).room.seats[id].synced
    ensures var w' := SyncNow(c, w, queued);
            var ch := w'.room.seats[id].channel;
            && ch.Some? && ch.value in w'.logs
            && Fold(c, w'.logs[ch.value]).state == Some(Content(c, w'.root)) && !Fold(c, w'.logs[ch.value]).desynced
  {
    SyncKeeps(c, w, queued);
    var w' := SyncNow(c, w, queued);
    assert w'.base == Content(c, w'.root);
    hide SyncNow, LogOk, Fold;
    WorldGives(c, w');
    assert UpToDate(c, w', w'.room.seats[id]);
    FoldLast(c, w'.logs[w'.room.seats[id].channel.value], w'.bounds);
  }

  /** What waits on the seat's connection is too much for it to get state frames at this boundary. */
  predicate HeldBack(s: Seat, limits: Limits, queued: map<Channel, int>) {
    if limits.pauseBytes <= 0 || s.channel.None? || s.channel.value !in queued then s.pausedSince.Some?
    else queued[s.channel.value] > if s.pausedSince.None? then limits.pauseBytes else limits.resumeBytes
  }

  lemma HeldBackIs<T(!new), D>(c: Deltas<T, D>, w: World<T, D>, queued: map<Channel, int>, s: Seat)
    requires SeatOk(s) && s.status == Joined && s.channel.Some?
    ensures AfterBoundary(s, Adopts(w), w.room.config.limits, queued, w.room.now).synced <==>
            !HeldBack(s, w.room.config.limits, queued)
    ensures HeldBack(s, w.room.config.limits, queued) ==> FrameFor(c, w, queued, s) == []
  {
  }

  /**
   What a boundary sends for a seat: a snapshot of the whole tree if it is new
   to the client, else what changed, if anything did; nothing to a seat that is
   held back, or not joined, or without a connection.
   */
  lemma FrameIs<T(!new), D>(c: Deltas<T, D>, w: World<T, D>, queued: map<Channel, int>, s: Seat)
    requires SeatOk(s)
    ensures var replaced := w.pending.Some? && w.pending.value.1;
            var root := if replaced then Some(w.pending.value.0) else w.root;
            FrameFor(c, w, queued, s) ==
            if s.status != Joined || s.channel.None? || HeldBack(s, w.room.config.limits, queued) then []
            else if !s.synced || replaced then [Snapshot(c.delta(c.empty, if root.Some? then root.value else c.empty))]
            else if root.None? || c.none(c.delta(w.base, root.value)) then []
            else [Patch(c.delta(w.base, root.value))]
  {
  }

  /**
   Backpressure of a joined seat whose queue is known: paused above one limit,
   resumed at the other, never synced meanwhile.
   */
  lemma PressedIs(s: Seat, limits: Limits, queued: map<Channel, int>, now: int)
    requires SeatOk(s)
    ensures var s' := Pressed(s, limits, queued, now);
            if limits.pauseBytes <= 0 || s.status != Joined || s.channel.None? || s.channel.value !in queued
                then s' == s
            else
              var bytes := queued[s.channel.value];
              && (s.pausedSince.None? ==>
                    s' == if bytes > limits.pauseBytes then s.(pausedSince := Some(now), synced := false) else s)
              && (s.pausedSince.Some? ==> s' == if bytes <= limits.resumeBytes then s.(pausedSince := None) else s)
              && (s'.pausedSince.Some? ==> !s'.synced)
  {
  }

  /** What a client makes of a frame. */
  lemma ReceiveIs<T(!new), D>(c: Deltas<T, D>, r: Replica<T>, ops: D)
    ensures Receive(c, r, Snapshot(ops)) == Replica(true, Some(c.apply(c.empty, ops)), r.desynced)
    ensures r.session && r.state.Some? ==>
              Receive(c, r, Patch(ops)) == Replica(true, Some(c.apply(r.state.value, ops)), r.desynced)
    ensures !r.session ==> Receive(c, r, Patch(ops)) == Replica(false, r.state, true)
    ensures !Rebind(r).session && Rebind(r).state == r.state
  {
  }

  lemma BoundaryShows<T(!new), D>(c: Deltas<T, D>, w: World<T, D>, queued: map<Channel, int>, id: SeatId)
    requires Lawful(c) && WorldInv(c, w) && w.room.ready && !w.room.disposing && id in w.room.seats
    requires w.room.seats[id].status == Joined && w.room.seats[id].channel.Some?
    ensures var s, w' := w.room.seats[id], SyncNow(c, w, queued);
            && s.channel.value in w.logs && s.channel.value in w'.logs
            && if HeldBack(s, w.room.config.limits, queued) then w'.logs[s.channel.value] == w.logs[s.channel.value]
               else
                 && Fold(c, w'.logs[s.channel.value]).state == Some(Content(c, w'.root))
                 && !Fold(c, w'.logs[s.channel.value]).desynced
  {
    var s, w' := w.room.seats[id], SyncNow(c, w, queued);
    assert SeatOk(s);
    HeldBackIs(c, w, queued, s);
    SentIs(c, w, queued, id);
    assert w'.room.seats[id] == AfterBoundary(s, Adopts(w), w.room.config.limits, queued, w.room.now);
    assert w'.room.seats[id].channel == s.channel;
    hide Fold, LogOk, Lawful, FrameFor, SentOn, AfterBoundary, HeldBack, SeatInv, SyncedOk, LogsOk;
    if !HeldBack(s, w.room.config.limits, queued) {
      ExactAtBoundaries(c, w, queued, id);
    } else {
      assert w.logs[s.channel.value] + [] == w.logs[s.channel.value];
    }
  }

  /**
   Over every history: at a boundary, each joined, connected seat either is held
   back by what waits on its connection, and then hears nothing, or shows the
   room's state as it is once it has received what was sent. Only the queue
   decides: not how the seat joined, was held back before or was resumed.
   */
  lemma ShownOrHeldBack<T(!new), D>(c: Deltas<T, D>, config: Config, now: int, root: Option<T>, events: seq<Event<T>>,
                                    queued: map<Channel, int>, id: SeatId)
    requires Lawful(c) && History(c, NewWorld(c, config, now, root), events)
    requires var w := AfterAll(c, NewWorld(c, config, now, root), events);
             && w.room.ready && !w.room.disposing && id in w.room.seats
             && w.room.seats[id].status == Joined && w.room.seats[id].channel.Some?
    ensures var w := AfterAll(c, NewWorld(c, config, now, root), events);
            var s, w' := w.room.seats[id], NextWorld(c, w, SyncPoint(queued));
            && s.channel.value in w.logs && s.channel.value in w'.logs
            && if HeldBack(s, w.room.config.limits, queued) then w'.logs[s.channel.value] == w.logs[s.channel.value]
               else
                 && Fold(c, w'.logs[s.channel.value]).state == Some(Content(c, w'.root))
                 && !Fold(c, w'.logs[s.channel.value]).desynced
  {
    hide WorldInv, AfterAll, History, SyncNow, Fold, HeldBack;
    NewWorldOk(c, config, now, root);
    HistoryKeeps(c, NewWorld(c, config, now, root), events);
    BoundaryShows(c, AfterAll(c, NewWorld(c, config, now, root), events), queued, id);
  }

  // ------------------------------------------------------------ which state it is

  /**
   Where the room's tree comes from: what its code last made of it, until a
   boundary of a running room finds a valid tree offered and takes that.
   */
  lemma TreeStep<T(!new), D>(c: Deltas<T, D>, w: World<T, D>, e: Event<T>)
    requires Occurs(w, e)
    ensures var w' := NextWorld(c, w, e);
            match e
            case SeatStep(_) => w'.root == w.root && w'.pending == w.pending
            case Mutate(now) => w'.root == Some(now) && w'.pending == w.pending
            case Assign(tree) => w'.root == w.root && w'.pending == tree
            case SyncPoint(_) =>
              if w.room.ready && !w.room.disposing && w.pending.Some? && w.pending.value.1
              then w'.root == Some(w.pending.value.0) && w'.pending == None
              else w'.root == w.root && w'.pending == w.pending
  {
  }

  /** Every joined, connected client that is not held back shows `t` once it has received everything. */
  ghost predicate Shows<T(!new), D>(c: Deltas<T, D>, seats: Seating, limits: Limits, queued: map<Channel, int>,
                                    logs: map<Channel, seq<Frame<D>>>, t: T) {
    forall id :: id in seats && Hears(seats[id], limits, queued) ==>
      && seats[id].channel.value in logs
      && Fold(c, logs[seats[id].channel.value]).state == Some(t) && !Fold(c, logs[seats[id].channel.value]).desynced
  }

  predicate Hears(s: Seat, limits: Limits, queued: map<Channel, int>) {
    s.status == Joined && s.channel.Some? && !HeldBack(s, limits, queued)
  }

  lemma BoundaryShowsAll<T(!new), D>(c: Deltas<T, D>, w: World<T, D>, queued: map<Channel, int>)
    requires Lawful(c) && WorldInv(c, w) && w.room.ready && !w.room.disposing
    ensures var w' := SyncNow(c, w, queued);
            Shows(c, w.room.seats, w.room.config.limits, queued, w'.logs, Content(c, w'.root))
  {
    hide WorldInv, SyncNow, Fold, HeldBack, Lawful;
    var seats := w.room.seats;
    forall id | id in seats && Hears(seats[id], w.room.config.limits, queued)
      ensures var ch, logs := seats[id].channel.value, SyncNow(c, w, queued).logs;
              ch in logs && Fold(c, logs[ch]).state == Some(Content(c, SyncNow(c, w, queued).root))
              && !Fold(c, logs[ch]).desynced
    {
      BoundaryShows(c, w, queued, id);
    }
  }

  /**
   Over every history of a running room: a valid tree that its code assigns is
   what everybody shows after the next boundary; an invalid one is not taken,
   and everybody goes on showing the old one.
   */
  lemma AssignedIsShown<T(!new), D>(c: Deltas<T, D>, config: Config, now: int, root: Option<T>, events: seq<Event<T>>,
                                    tree: T, valid: bool, queued: map<Channel, int>)
    requires Lawful(c) && History(c, NewWorld(c, config, now, root), events)
    requires var room := AfterAll(c, NewWorld(c, config, now, root), events).room; room.ready && !room.disposing
    ensures var w := AfterAll(c, NewWorld(c, config, now, root), events);
            var offered := NextWorld(c, w, Assign(Some((tree, valid))));
            var synced := NextWorld(c, offered, SyncPoint(queued));
            var shown := if valid then tree else if w.root.Some? then w.root.value else c.empty;
            && synced.root == (if valid then Some(tree) else w.root)
            && synced.pending == (if valid then None else Some((tree, false)))
            && Shows(c, w.room.seats, w.room.config.limits, queued, synced.logs, shown)
  {
    hide WorldInv, AfterAll, History, SyncNow, Shows, Lawful;
    NewWorldOk(c, config, now, root);
    HistoryKeeps(c, NewWorld(c, config, now, root), events);
    var w := AfterAll(c, NewWorld(c, config, now, root), events);
    var offered := NextWorld(c, w, Assign(Some((tree, valid))));
    EventKeeps(c, w, Assign(Some((tree, valid))));
    TreeStep(c, w, Assign(Some((tree, valid))));
    TreeStep(c, offered, SyncPoint(queued));
    BoundaryShowsAll(c, offered, queued);
  }

  /** A change the room's code makes to its tree is shown after the next boundary. */
  lemma ChangedIsShown<T(!new), D>(c: Deltas<T, D>, config: Config, now: int, root: Option<T>, events: seq<Event<T>>,
                                   tree: T, queued: map<Channel, int>)
    requires Lawful(c) && History(c, NewWorld(c, config, now, root), events)
    requires var w := AfterAll(c, NewWorld(c, config, now, root), events);
             w.room.ready && !w.room.disposing && w.root.Some? && w.pending == None
    ensures var w := AfterAll(c, NewWorld(c, config, now, root), events);
            var synced := NextWorld(c, NextWorld(c, w, Mutate(tree)), SyncPoint(queued));
            synced.root == Some(tree) && Shows(c, w.room.seats, w.room.config.limits, queued, synced.logs, tree)
  {
    hide WorldInv, AfterAll, History, SyncNow, Shows, Lawful;
    NewWorldOk(c, config, now, root);
    HistoryKeeps(c, NewWorld(c, config, now, root), events);
    var w := AfterAll(c, NewWorld(c, config, now, root), events);
    var changed := NextWorld(c, w, Mutate(tree));
    EventKeeps(c, w, Mutate(tree));
    TreeStep(c, w, Mutate(tree));
    TreeStep(c, changed, SyncPoint(queued));
    BoundaryShowsAll(c, changed, queued);
  }

  // ----------------------------------------------------- a client over its life

  /** What a client has received: for each (re)join, a prefix of its channel. */
  ghost predicate Received<T(!new), D>(w: World<T, D>, parts: seq<(Channel, nat)>) {
    forall i :: 0 <= i < |parts| ==> parts[i].0 in w.logs && parts[i].1 <= |w.logs[parts[i].0]|
  }

  ghost function Life<T(!new), D>(c: Deltas<T, D>, w: World<T, D>, parts: seq<(Channel, nat)>): Replica<T>
    requires Received(w, parts)
  {
    if parts == [] then Replica(false, None, false)
    else
      var last := parts[|parts| - 1];
      ReceiveAll(c, Rebind(Life(c, w, parts[..|parts| - 1])), w.logs[last.0][..last.1])
  }

  /** Frames from a snapshot on do not depend on what came before. */
  lemma {:induction false} SnapshotForgets<T(!new), D>(c: Deltas<T, D>, r: Replica<T>, frames: seq<Frame<D>>)
    requires frames != [] && frames[0].Snapshot? && !r.desynced
    ensures ReceiveAll(c, r, frames) == Fold(c, frames)
    decreases |frames|
  {
    var before := frames[..|frames| - 1];
    if before != [] {
      SnapshotForgets(c, r, before);
    } else {
      assert |frames| == 1 && frames[|frames| - 1] == frames[0];
      var blank := Replica(false, None, false);
      assert ReceiveAll(c, r, before) == r && ReceiveAll(c, blank, before) == blank;
      assert Receive(c, r, frames[0]) == Receive(c, blank, frames[0]);
    }
  }

  /** Across drops and reconnections a client never desyncs, and always shows the state of some boundary. */
  lemma {:induction false} ClientSafety<T(!new), D>(c: Deltas<T, D>, w: World<T, D>, parts: seq<(Channel, nat)>)
    requires LogsOk(c, w) && Received(w, parts)
    ensures var r := Life(c, w, parts);
            !r.desynced && (r.state.Some? ==> AtBoundary(r.state.value, w.bounds))
    decreases |parts|
  {
    if parts != [] {
      var last, before := parts[|parts| - 1], parts[..|parts| - 1];
      ClientSafety(c, w, before);
      var log := w.logs[last.0];
      assert LogOk(c, log, w.bounds);
      if last.1 > 0 {
        assert log[..last.1][0] == log[0];
        SnapshotForgets(c, Rebind(Life(c, w, before)), log[..last.1]);
        hide ReceiveAll;
      }
    }
  }

  // ------------------------------------------------------------- an instance

  type Table = map<nat, int>

  /** States that are tables: the keys gone, and the entries that are new or changed. */
  function TableDeltas(): Deltas<Table, (set<nat>, Table)> {
    Deltas(map[],
           (base: Table, now: Table) => (base.Keys - now.Keys, map k | k in now && (k !in base || base[k] != now[k]) ::
                                         now[k]),
           (base: Table, d: (set<nat>, Table)) => (base - d.0) + d.1,
           (d: (set<nat>, Table)) => d == ({}, map[]))
  }

  lemma TablesAreLawful()
    ensures Lawful(TableDeltas())
  {
    var c := TableDeltas();
    forall base: Table, now: Table
      ensures c.apply(base, c.delta(base, now)) == now && (c.none(c.delta(base, now)) ==> base == now)
    {
      var d := c.delta(base, now);
      assert (base - d.0) + d.1 == now;
      if c.none(d) {
        assert forall k :: k in now ==> k !in d.1;
        assert forall k :: k in base ==> k !in d.0;
      }
    }
  }
}
