/**
 When a paused room has no joined seat with a connection: always, until it
 starts to go away; from then on, exactly as long as no step connects a seat.
 */
module PauseProofs {
  import opened Wrappers
  import opened Seats
  import opened SeatProofs

  ghost predicate PauseExact(r: Room) { r.paused ==> NoneJoinedConnected(r.seats) }

  /** The steps that leave a joined seat with a connection where there was none. */
  predicate Connects(r: Room, step: Step) {
    match step
    case Complete(id, open, _, _) => open && id in r.seats && r.seats[id].channel.Some?
    case AdmitBot(id) => id in r.seats && r.seats[id].channel.Some?
    case Resume(token, _) => HeldSeat(r, token).Some?
    case _ => false
  }

  // ------------------------------------------------------------- what steps do

  /** A room that is going away keeps its pause; one that starts to has no seats or keeps its pause too. */
  predicate Steered(r: Room, r': Room) {
    && (r.disposing ==> r'.disposing && r'.paused == r.paused)
    && (r'.disposing && !r.disposing ==> r'.seats == map[] || r'.paused == r.paused)
  }

  /** As `Steered`, and disposal does not start. */
  predicate Mild(r: Room, r': Room) { r'.disposing == r.disposing && (r.disposing ==> r'.paused == r.paused) }

  predicate IsLive(s: Seat) { s.status == Joined && s.channel.Some? }

  /** No more joined, connected seats than before. */
  ghost predicate Calmer(seats: Seating, seats': Seating) {
    forall id :: id in seats' && IsLive(seats'[id]) ==> id in seats && IsLive(seats[id])
  }

  lemma CalmerTwice(a: Seating, b: Seating, c: Seating)
    requires Calmer(a, b) && Calmer(b, c)
    ensures Calmer(a, c)
  {
  }

  lemma CalmerExact(seats: Seating, seats': Seating)
    requires NoneJoinedConnected(seats) && Calmer(seats, seats')
    ensures NoneJoinedConnected(seats')
  {
  }

  lemma Cut(seats: Seating, id: SeatId)
    ensures Calmer(seats, seats - {id})
  {
  }

  lemma Put(seats: Seating, id: SeatId, s: Seat)
    requires IsLive(s) ==> id in seats && IsLive(seats[id])
    ensures Calmer(seats, seats[id := s])
  {
  }

  lemma UpdatePauseMild(r: Room)
    ensures Mild(r, UpdatePause(r)) && UpdatePause(r).seats == r.seats
  {
  }

  lemma CheckEmptySteered(r: Room)
    ensures Steered(r, CheckEmpty(r)) && CheckEmpty(r).seats == r.seats
    ensures CheckEmpty(r).disposing && !r.disposing ==> r.seats == map[]
  {
  }

  lemma UnseatQuiet(r: Room, id: SeatId)
    ensures Steered(r, Unseat(r, id)) && Calmer(r.seats, Unseat(r, id).seats)
  {
    hide CheckEmpty, Calmer;
    Cut(r.seats, id);
    CheckEmptySteered(r.(seats := r.seats - {id}));
    CalmerSelf(r.seats);
  }

  lemma CalmerSelf(seats: Seating)
    ensures Calmer(seats, seats)
  {
  }

  lemma ReleaseQuiet(r: Room, id: SeatId)
    ensures Steered(r, Release(r, id)) && Calmer(r.seats, Release(r, id).seats)
  {
    hide CheckEmpty, Calmer, Revoked;
    Cut(r.seats, id);
    CalmerSelf(r.seats);
    if id in r.seats {
      CheckEmptySteered(r.(timers := r.timers - {id}, tokens := Revoked(r.tokens, r.seats[id]),
                           seats := r.seats - {id}));
    }
  }

  /** After a loss no joined seat is connected that was not, and the lost one is not. */
  lemma LoseQuiet(r: Room, id: SeatId, shuttingDown: bool)
    ensures var r' := ConnectionLost(r, id, shuttingDown);
            Steered(r, r') && Calmer(if id in r.seats then r.seats[id := r.seats[id].(channel := None)] else r.seats,
                                     r'.seats)
  {
    hide UpdatePause, Release, Calmer;
    CalmerSelf(r.seats);
    if id in r.seats {
      var s := r.seats[id].(channel := None);
      var r1 := r.(seats := r.seats[id := s]);
      CalmerSelf(r1.seats);
      ReleaseQuiet(r1, id);
      var seats := r.seats[id := s.(status := Reconnecting, synced := false)];
      UpdatePauseMild(r1.(seats := seats, timers := r.timers + {id}));
      Put(r1.seats, id, s.(status := Reconnecting, synced := false));
      assert r1.seats[id := s.(status := Reconnecting, synced := false)] == seats;
      if r.seats[id].status == Reconnecting {
        Put(r1.seats, id, r.seats[id]);
        assert r1.seats[id := r.seats[id]] == r.seats;
      }
    }
  }

  lemma ActivateMild(r: Room, id: SeatId)
    requires id in r.seats
    ensures var r' := Activate(r, id);
            Mild(r, r') && r'.seats == (if r.seats[id].status == Joining
                                        then r.seats[id := r.seats[id].(status := Joined)] else r.seats)
  {
    hide UpdatePause;
    UpdatePauseMild(r.(seats := r.seats[id := r.seats[id].(status := Joined)]));
  }

  lemma BoundaryQuiet(r: Room, replaced: bool, queued: map<Channel, int>)
    ensures Mild(r, Boundary(r, replaced, queued)) && Calmer(r.seats, Boundary(r, replaced, queued).seats)
  {
  }

  lemma ConsumeQuiet(r: Room, res: Reservation, admitted: bool, id: SeatId, channel: Channel)
    ensures var r' := Consume(r, res, admitted, id, channel); Mild(r, r') && Calmer(r.seats, r'.seats)
  {
    hide SeatCount;
  }

  lemma TakeQuiet(r: Room, id: SeatId, channel: Option<Channel>, keeps: bool)
    ensures var seated := TakeSeat(r, id, channel, false, keeps);
            seated.Some? ==> Mild(r, seated.value) && Calmer(r.seats, seated.value.seats)
  {
    hide SeatCount;
  }

  predicate MayConnect(step: Step) { step.Complete? || step.AdmitBot? || step.Resume? }

  lemma PlainQuiet(r: Room, step: Step)
    requires Enabled(r, step)
    requires step.Reserve? || step.ForgetReservation? || step.Lock? || step.BecomeReady? || step.Dispose?
             || step.DisposeEnds? || step.Tick?
    ensures Steered(r, Next(r, step)) && Next(r, step).seats == r.seats
  {
    hide SeatCount;
  }

  lemma QuietSteps(r: Room, step: Step)
    requires Enabled(r, step) && !MayConnect(step)
    ensures Steered(r, Next(r, step)) && Calmer(r.seats, Next(r, step).seats)
  {
    hide Calmer, TakeSeat, Unseat, Activate, ConnectionLost, Reconnect, Release, CheckEmpty, UpdatePause, Consume,
         Boundary,
         SeatCount, IssueToken;
    CalmerSelf(r.seats);
    match step {
      case Take(id, at, keeps) => TakeQuiet(r, id, at, keeps);
      case Undo(id) => UnseatQuiet(r, id);
      case Lose(id, shuttingDown) => LoseCalmer(r, id, shuttingDown);
      case CompleteResumed(id, open, token, shuttingDown) =>
        LoseCalmer(r, id, shuttingDown);
        IssueCalmer(r, id, token);
      case Timer(id) => ReleaseQuiet(r.(timers := r.timers - {id}), id);
      case Leave(id) => ReleaseQuiet(r, id);
      case AfterLeave =>
        UpdatePauseMild(r);
        CheckEmptySteered(UpdatePause(r));
      case HoldExpires(res) => CheckEmptySteered(r.(reservations := r.reservations - {res}));
      case UseReservation(res, admitted, id, channel) => ConsumeQuiet(r, res, admitted, id, channel);
      case Sync(replaced, queued) => BoundaryQuiet(r, replaced, queued);
      case _ => PlainQuiet(r, step);
    }
  }

  lemma LoseCalmer(r: Room, id: SeatId, shuttingDown: bool)
    ensures var r' := ConnectionLost(r, id, shuttingDown); Steered(r, r') && Calmer(r.seats, r'.seats)
  {
    hide ConnectionLost, Calmer;
    LoseQuiet(r, id, shuttingDown);
    if id in r.seats {
      var s := r.seats[id].(channel := None);
      Put(r.seats, id, s);
      CalmerTwice(r.seats, r.seats[id := s], ConnectionLost(r, id, shuttingDown).seats);
    }
  }

  lemma IssueCalmer(r: Room, id: SeatId, token: Token)
    requires id in r.seats
    ensures var r' := IssueToken(r, id, token);
            && Mild(r, r') && r'.paused == r.paused && Calmer(r.seats, r'.seats) && r'.seats.Keys == r.seats.Keys
            && r'.seats[id] == r.seats[id].(token := r'.seats[id].token)
            && (forall x :: x in r.seats && x != id ==> r'.seats[x] == r.seats[x])
  {
    hide Granted;
  }

  // -------------------------------------------------------------- one step

  lemma QuietExact(r: Room, step: Step)
    requires SeatInv(r) && Enabled(r, step) && PauseExact(r) && !MayConnect(step)
    ensures PauseExact(Next(r, step))
  {
    hide TablesMatch, Next, Enabled, Calmer, LoopMatches;
    QuietSteps(r, step);
    StepKeeps(r, step);
    if r.paused {
      CalmerExact(r.seats, Next(r, step).seats);
    }
  }

  /** A joined, connected seat is what the room resumes for, unless it is going away. */
  lemma ActivateExact(r: Room, id: SeatId)
    requires id in r.seats && r.seats[id].status == Joining && r.paused && r.ready && NoneJoinedConnected(r.seats)
    ensures PauseExact(Activate(r, id)) <==> !(r.disposing && r.seats[id].channel.Some?)
  {
    var r1 := r.(seats := r.seats[id := r.seats[id].(status := Joined)]);
    assert r1.seats[id].channel == r.seats[id].channel;
    assert r.seats[id].channel.Some? ==> IsConnected(r1.seats[id]) && AnyConnected(r1.seats);
  }

  lemma IssuedExact(r: Room, id: SeatId, token: Token)
    requires id in r.seats && r.seats[id].status == Joining && r.paused && r.ready && NoneJoinedConnected(r.seats)
    ensures PauseExact(Activate(IssueToken(r, id, token), id)) <==> !(r.disposing && r.seats[id].channel.Some?)
  {
    hide Activate, IssueToken, Calmer, NoneJoinedConnected;
    var r1 := IssueToken(r, id, token);
    IssueCalmer(r, id, token);
    IssueReady(r, id, token);
    CalmerExact(r.seats, r1.seats);
    ActivateExact(r1, id);
  }

  lemma IssueReady(r: Room, id: SeatId, token: Token)
    requires id in r.seats
    ensures IssueToken(r, id, token).ready == r.ready
  {
  }

  lemma FailedExact(r: Room, id: SeatId, shuttingDown: bool)
    requires id in r.seats && r.seats[id].status == Joining && NoneJoinedConnected(r.seats)
    ensures PauseExact(ConnectionLost(Activate(r, id), id, shuttingDown))
  {
    hide Activate, ConnectionLost, Calmer;
    ActivateMild(r, id);
    var r1 := Activate(r, id);
    LoseQuiet(r1, id, shuttingDown);
    var seats := r1.seats[id := r1.seats[id].(channel := None)];
    CalmerExact(seats, ConnectionLost(r1, id, shuttingDown).seats);
  }

  lemma ReconnectExact(r: Room, id: SeatId, channel: Channel)
    requires id in r.seats && r.paused && r.ready && NoneJoinedConnected(r.seats)
    ensures PauseExact(Reconnect(r, id, channel)) <==> !r.disposing
  {
    var s := r.seats[id].(channel := Some(channel), status := Joined, synced := false);
    var r1 := r.(timers := r.timers - {id}, seats := r.seats[id := s]);
    assert r1.seats[id] == s && IsConnected(s) && AnyConnected(r1.seats);
  }

  /**
   A step breaks the pause of a paused room if and only if the room is going
   away and the step connects a seat: a join that completes, or a resume.
   */
  lemma PauseBreaks(r: Room, step: Step)
    requires SeatInv(r) && Enabled(r, step) && r.paused && NoneJoinedConnected(r.seats)
    ensures PauseExact(Next(r, step)) <==> !(r.disposing && Connects(r, step))
  {
    hide TablesMatch, NoneJoinedConnected, PauseExact, Activate, IssueToken, ConnectionLost, Reconnect;
    match step {
      case Complete(id, open, token, shuttingDown) =>
        if open {
          IssuedExact(r, id, token);
        } else {
          FailedExact(r, id, shuttingDown);
        }
      case AdmitBot(id) => ActivateExact(r, id);
      case Resume(token, channel) =>
        if HeldSeat(r, token).Some? {
          ReconnectExact(r, HeldSeat(r, token).value, channel);
        } else {
          Unchanged(r);
        }
      case _ =>
        hide Next, Enabled;
        Unchanged(r);
        QuietExact(r, step);
    }
  }

  lemma Unchanged(r: Room)
    requires NoneJoinedConnected(r.seats)
    ensures PauseExact(r)
  {
  }

  /** No step pauses a room over a joined, connected seat. */
  lemma PauseStarts(r: Room, step: Step)
    requires SeatInv(r) && Enabled(r, step) && !r.paused
    ensures PauseExact(Next(r, step))
  {
    hide TablesMatch, NoneJoinedConnected, LoopMatches, Next;
    StepKeeps(r, step);
    if MayConnect(step) {
      ConnectingMild(r, step);
    } else {
      QuietExact(r, step);
    }
  }

  lemma ConnectingMild(r: Room, step: Step)
    requires Enabled(r, step) && MayConnect(step)
    ensures Next(r, step).disposing ==> Next(r, step).paused == r.paused
  {
    hide Activate, IssueToken, UpdatePause, Granted, Release;
    match step {
      case Complete(id, open, token, shuttingDown) =>
        if open {
          IssueCalmer(r, id, token);
          ActivateMild(IssueToken(r, id, token), id);
        } else {
          ActivateMild(r, id);
          LoseMild(Activate(r, id), id, shuttingDown);
        }
      case AdmitBot(id) => ActivateMild(r, id);
      case Resume(token, channel) =>
        if HeldSeat(r, token).Some? {
          var id := HeldSeat(r, token).value;
          var s := r.seats[id].(channel := Some(channel), status := Joined, synced := false);
          UpdatePauseMild(r.(timers := r.timers - {id}, seats := r.seats[id := s]));
        }
    }
  }

  lemma LoseMild(r: Room, id: SeatId, shuttingDown: bool)
    requires id in r.seats ==> r.seats[id].status != Joining
    ensures Mild(r, ConnectionLost(r, id, shuttingDown))
  {
    hide UpdatePause, Revoked;
    if id in r.seats {
      var s := r.seats[id].(channel := None);
      var seats := r.seats[id := s.(status := Reconnecting, synced := false)];
      UpdatePauseMild(r.(seats := seats, timers := r.timers + {id}));
    }
  }

  // -------------------------------------------------------------- every run

  ghost predicate AlwaysExact(r: Room, steps: seq<Step>)
    requires Possible(r, steps)
    decreases |steps|
  {
    PauseExact(r) && (steps == [] || AlwaysExact(Next(r, steps[0]), steps[1..]))
  }

  /** No seat of a paused room is connected once the room has started to go away. */
  ghost predicate NoneLate(r: Room, steps: seq<Step>)
    requires Possible(r, steps)
    decreases |steps|
  {
    steps == [] || (!(r.paused && r.disposing && Connects(r, steps[0])) && NoneLate(Next(r, steps[0]), steps[1..]))
  }

  lemma {:induction false} ExactThroughout(r: Room, steps: seq<Step>)
    requires SeatInv(r) && PauseExact(r) && Possible(r, steps)
    ensures AlwaysExact(r, steps) <==> NoneLate(r, steps)
    decreases |steps|
  {
    hide SeatInv, Next, Enabled, NoneJoinedConnected, Connects;
    if steps != [] {
      StepKeeps(r, steps[0]);
      if r.paused {
        PauseBreaks(r, steps[0]);
      } else {
        PauseStarts(r, steps[0]);
      }
      if PauseExact(Next(r, steps[0])) {
        ExactThroughout(Next(r, steps[0]), steps[1..]);
      }
    }
  }

  /**
   Over every run, a paused room never has a joined, connected seat if and only
   if no join completed and no seat was resumed while it was paused and going away.
   */
  lemma PauseThroughout(config: Config, now: int, steps: seq<Step>)
    requires Possible(NewRoom(config, now), steps)
    ensures AlwaysExact(NewRoom(config, now), steps) <==> NoneLate(NewRoom(config, now), steps)
  {
    hide AlwaysExact, NoneLate, Possible;
    ExactThroughout(NewRoom(config, now), steps);
  }
}
