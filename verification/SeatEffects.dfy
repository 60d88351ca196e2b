/**
 What each operation on seats does, in terms of the fields before it, and what
 follows over runs: who may sit down, what a lock stops, who is held, and how a
 token brings a seat back.
 */
module SeatEffects {
  import opened Wrappers
  import opened Seats
  import opened SeatProofs

  // ------------------------------------------------------------ pause and disposal

  /** A running room pauses if someone is held and nobody connected; a paused one runs again once someone is. */
  lemma PauseIs(r: Room)
    ensures var r' := UpdatePause(r);
            var connected :=
              exists id :: id in r.seats && r.seats[id].status != Reconnecting && r.seats[id].channel.Some?;
            var held := exists id :: id in r.seats && r.seats[id].status == Reconnecting;
            var moves := r.ready && !r.disposing && if r.paused then connected else held && !connected;
            r' == if moves then r.(paused := !r.paused, syncRunning := r.paused) else r
  {
    assert AnyConnected(r.seats) <==>
           exists id :: id in r.seats && r.seats[id].status != Reconnecting && r.seats[id].channel.Some?;
  }

  /** A ready room that disposes itself starts to when nobody is seated and no place is held. */
  lemma EmptyIs(r: Room)
    ensures var goes := r.config.autoDispose && r.ready && !r.disposing && |r.seats| == 0 && |r.reservations| == 0;
            CheckEmpty(r) == if goes then r.(disposing := true, syncRunning := false) else r
  {
  }

  /** All but the seats, their tokens and timers, the pause and disposal. */
  predicate SameRest(r: Room, r': Room) {
    r' == r.(seats := r'.seats, tokens := r'.tokens, timers := r'.timers,
             disposing := r'.disposing, paused := r'.paused, syncRunning := r'.syncRunning)
  }

  lemma PauseRest(r: Room)
    ensures SameRest(r, UpdatePause(r)) && UpdatePause(r).seats == r.seats && UpdatePause(r).tokens == r.tokens
    ensures UpdatePause(r).timers == r.timers && UpdatePause(r).disposing == r.disposing
  {
  }

  lemma EmptyRest(r: Room)
    ensures SameRest(r, CheckEmpty(r)) && CheckEmpty(r).seats == r.seats && CheckEmpty(r).tokens == r.tokens
    ensures CheckEmpty(r).timers == r.timers && CheckEmpty(r).paused == r.paused
  {
  }

  // ---------------------------------------------------------------- sitting down

  /** A seat is refused while disposing or if it is taken; one without a reservation also when locked or full. */
  lemma SeatGiven(r: Room, id: SeatId, channel: Option<Channel>, reserved: bool, keeps: bool)
    ensures var seated := TakeSeat(r, id, channel, reserved, keeps);
            && (seated.Some? <==>
                  && !r.disposing && id !in r.seats
                  && (reserved || (!r.locked && |r.seats| + |r.reservations| < r.config.maxClients)))
            && (seated.Some? ==>
                  seated.value == r.(seats := r.seats[id := Seat(Joining, channel, false, None, None, keeps)]))
  {
  }

  /** A failed join leaves no seat; a room that was made for it may go away. */
  lemma SeatUndone(r: Room, id: SeatId)
    ensures var r' := Unseat(r, id);
            SameRest(r, r') && r'.seats == r.seats - {id} && r'.tokens == r.tokens && r'.timers == r.timers
    ensures Unseat(r, id).disposing ==>
              r.disposing || (id in r.seats && r.seats[id].keeps && r.config.autoDispose && r.ready)
  {
    hide CheckEmpty;
    EmptyRest(r.(seats := r.seats - {id}));
    EmptyIs(r.(seats := r.seats - {id}));
    assert id !in r.seats ==> r.seats - {id} == r.seats;
  }

  /** The seat's old token is gone and the new one, if any, leads to it. */
  lemma TokenIssued(r: Room, id: SeatId, token: Token)
    requires id in r.seats && token !in r.tokens && TokensMatch(r.seats, r.tokens)
    ensures var r' := IssueToken(r, id, token);
            && r' == r.(seats := r'.seats, tokens := r'.tokens) && r'.seats.Keys == r.seats.Keys
            && r'.seats[id] == r.seats[id].(token := if r.config.reconnects then Some(token) else None)
            && (forall x :: x in r.seats && x != id ==> r'.seats[x] == r.seats[x])
            && (forall t :: t in r'.tokens <==>
                  (t in r.tokens && r.seats[id].token != Some(t)) || (r.config.reconnects && t == token))
            && (forall t :: t in r'.tokens ==> r'.tokens[t] == if t == token then id else r.tokens[t])
  {
  }

  /** A joining seat joins, and nothing else happens to any seat. */
  lemma SeatActivated(r: Room, id: SeatId)
    requires id in r.seats
    ensures var r' := Activate(r, id);
            && SameRest(r, r') && r'.tokens == r.tokens && r'.timers == r.timers && r'.disposing == r.disposing
            && r'.seats == r.seats[id := if r.seats[id].status == Joining then r.seats[id].(status := Joined)
                                         else r.seats[id]]
  {
    hide UpdatePause;
    PauseRest(r.(seats := r.seats[id := r.seats[id].(status := Joined)]));
    assert r.seats[id := r.seats[id]] == r.seats;
  }

  // ------------------------------------------------------------- leaving and coming back

  /** A released seat is gone, with its token and its timer. */
  lemma SeatReleased(r: Room, id: SeatId)
    requires TokensMatch(r.seats, r.tokens) && TimersMatch(r.seats, r.timers)
    ensures var r' := Release(r, id);
            && SameRest(r, r') && r'.seats == r.seats - {id} && r'.timers == r.timers - {id}
            && (forall t :: t in r'.tokens <==> t in r.tokens && r.tokens[t] != id)
            && (forall t :: t in r'.tokens ==> r'.tokens[t] == r.tokens[t])
  {
    hide CheckEmpty;
    if id in r.seats {
      EmptyRest(r.(timers := r.timers - {id}, tokens := Revoked(r.tokens, r.seats[id]), seats := r.seats - {id}));
    } else {
      assert r.seats - {id} == r.seats && r.timers - {id} == r.timers;
    }
  }

  /** Whether a seat that loses its connection is held for its client. */
  predicate IsHeld(r: Room, id: SeatId, shuttingDown: bool) {
    && id in r.seats && r.seats[id].status == Joined && r.seats[id].token.Some?
    && r.config.reconnects && !shuttingDown && !r.disposing
  }

  /** A joined seat that may be held is, with a timer, and keeps its token. */
  lemma SeatHeld(r: Room, id: SeatId, shuttingDown: bool)
    requires IsHeld(r, id, shuttingDown)
    ensures var r' := ConnectionLost(r, id, shuttingDown);
            && SameRest(r, r') && r'.timers == r.timers + {id} && r'.tokens == r.tokens
            && r'.seats == r.seats[id := r.seats[id].(status := Reconnecting, channel := None, synced := false)]
  {
    hide UpdatePause, Release;
    var s := r.seats[id].(channel := None, status := Reconnecting, synced := false);
    PauseRest(r.(seats := r.seats[id := s], timers := r.timers + {id}));
  }

  /** A joined seat that may not be held is gone, as if released. */
  lemma SeatDropped(r: Room, id: SeatId, shuttingDown: bool)
    requires TokensMatch(r.seats, r.tokens) && TimersMatch(r.seats, r.timers)
    requires id in r.seats && r.seats[id].status == Joined && !IsHeld(r, id, shuttingDown)
    ensures var r' := ConnectionLost(r, id, shuttingDown);
            && SameRest(r, r') && r'.seats == r.seats - {id} && r'.timers == r.timers - {id}
            && (forall t :: t in r'.tokens <==> t in r.tokens && r.tokens[t] != id)
            && (forall t :: t in r'.tokens ==> r'.tokens[t] == r.tokens[t])
  {
    hide UpdatePause;
    ReleaseDetached(r, id);
    SeatReleased(r, id);
    hide Release;
  }

  /** One that was joining stays, without a connection, until its join is over; a held one is left alone. */
  lemma SeatUnbound(r: Room, id: SeatId, shuttingDown: bool)
    requires id in r.seats && r.seats[id].status != Joined
    ensures ConnectionLost(r, id, shuttingDown) ==
            if r.seats[id].status == Joining then r.(seats := r.seats[id := r.seats[id].(channel := None)]) else r
  {
  }

  /** A held seat bound again: joined on the new channel, waiting for a snapshot, its timer stopped. */
  lemma SeatBack(r: Room, id: SeatId, channel: Channel)
    requires id in r.seats
    ensures var r' := Reconnect(r, id, channel);
            && SameRest(r, r') && r'.tokens == r.tokens && r'.disposing == r.disposing
            && r'.timers == r.timers - {id}
            && r'.seats == r.seats[id := r.seats[id].(channel := Some(channel), status := Joined, synced := false)]
  {
    hide UpdatePause;
    var s := r.seats[id].(channel := Some(channel), status := Joined, synced := false);
    PauseRest(r.(timers := r.timers - {id}, seats := r.seats[id := s]));
  }

  /** A token names the seat it was issued to, while that seat is held, and nothing else. */
  lemma TokenNames(r: Room, token: Token)
    requires TokensMatch(r.seats, r.tokens)
    ensures forall id :: HeldSeat(r, token) == Some(id) <==>
              id in r.seats && r.seats[id].status == Reconnecting && r.seats[id].token == Some(token)
  {
  }

  /** A joined client that drops while it may be held comes back to its own seat with the token it has. */
  lemma DropAndResume(r: Room, id: SeatId, channel: Channel)
    requires SeatInv(r) && IsHeld(r, id, false)
    ensures var r1 := Next(r, Lose(id, false));
            var token := r.seats[id].token.value;
            var r2 := Next(r1, Resume(token, channel));
            && id in r1.timers && HeldSeat(r1, token) == Some(id)
            && id in r2.seats && id !in r2.timers
            && r2.seats[id] == r.seats[id].(channel := Some(channel), synced := false)
  {
    hide ConnectionLost, Reconnect, UpdatePause;
    var token := r.seats[id].token.value;
    SeatHeld(r, id, false);
    var r1 := Next(r, Lose(id, false));
    assert r1.seats[id].status == Reconnecting && r1.tokens[token] == id;
    SeatBack(r1, id, channel);
  }

  /** Once a held seat's time is up, its token resumes nothing. */
  lemma TooLate(r: Room, id: SeatId, channel: Channel)
    requires SeatInv(r) && id in r.timers && r.seats[id].token.Some?
    ensures var r1 := Next(r, Timer(id));
            var token := r.seats[id].token.value;
            id !in r1.seats && id !in r1.timers && token !in r1.tokens && Next(r1, Resume(token, channel)) == r1
  {
    hide Release, Reconnect;
    TimerIsRelease(r, id);
    SeatReleased(r, id);
  }

  /** A join's last step: joined with its token, or gone if its connection has closed. */
  lemma JoinCompletes(r: Room, id: SeatId, open: bool, token: Token, shuttingDown: bool)
    requires SeatInv(r) && Enabled(r, Complete(id, open, token, shuttingDown))
    ensures var r', granted := Next(r, Complete(id, open, token, shuttingDown)), r.config.reconnects;
            if open then
              && r'.seats == r.seats[id := r.seats[id].(status := Joined,
                                                        token := if granted then Some(token) else None)]
              && (granted ==> token in r'.tokens && r'.tokens[token] == id)
            else id !in r'.seats
  {
    hide Activate, ConnectionLost, IssueToken, TimersMatch, TokensMatch;
    if open {
      JoinWelcomed(r, id, token);
    } else {
      JoinLost(r, id, shuttingDown);
    }
  }

  lemma JoinWelcomed(r: Room, id: SeatId, token: Token)
    requires id in r.seats && r.seats[id].status == Joining && token !in r.tokens && TokensMatch(r.seats, r.tokens)
    ensures var r', granted := Activate(IssueToken(r, id, token), id), r.config.reconnects;
            && r'.seats == r.seats[id := r.seats[id].(status := Joined, token := if granted then Some(token) else None)]
            && (granted ==> token in r'.tokens && r'.tokens[token] == id)
  {
    hide Activate, IssueToken, TokensMatch;
    TokenIssued(r, id, token);
    SeatActivated(IssueToken(r, id, token), id);
  }

  lemma JoinLost(r: Room, id: SeatId, shuttingDown: bool)
    requires SeatInv(r) && id in r.seats && r.seats[id].status == Joining
    ensures id !in ConnectionLost(Activate(r, id), id, shuttingDown).seats
  {
    hide Activate, ConnectionLost, TimersMatch, TokensMatch;
    var r1 := Activate(r, id);
    assert SeatOk(r.seats[id]);
    SeatActivated(r, id);
    ActivateKeeps(r, id);
    SeatDropped(r1, id, shuttingDown);
  }

  /** Some seat is connected, and not held. */
  predicate SomeoneHere(seats: Seating) {
    exists id :: id in seats && seats[id].status != Reconnecting && seats[id].channel.Some?
  }

  /** When a client of a running room drops and is held, the room pauses unless someone else is here. */
  lemma HeldPauses(r: Room, id: SeatId, shuttingDown: bool)
    requires SeatInv(r) && IsHeld(r, id, shuttingDown) && r.ready
    ensures var r' := Next(r, Lose(id, shuttingDown));
            r'.disposing == r.disposing && (r'.paused <==> !SomeoneHere(r'.seats)) && r'.syncRunning == !r'.paused
  {
    var s := r.seats[id].(channel := None, status := Reconnecting, synced := false);
    var r1 := r.(seats := r.seats[id := s], timers := r.timers + {id});
    assert r1.seats[id].status == Reconnecting;
    assert Next(r, Lose(id, shuttingDown)) == UpdatePause(r1);
    PauseIs(r1);
    PauseRest(r1);
    hide UpdatePause, ConnectionLost;
    if r1.paused {
      assert PauseMatches(r);
    }
  }

  /** A resumed seat's last step: a new token in the old one's place, or as a loss if its connection has closed. */
  lemma ResumeCompletes(r: Room, id: SeatId, open: bool, token: Token, shuttingDown: bool)
    requires SeatInv(r) && Enabled(r, CompleteResumed(id, open, token, shuttingDown))
    ensures var r', granted := Next(r, CompleteResumed(id, open, token, shuttingDown)), r.config.reconnects;
            if open then
              && r' == r.(seats := r'.seats, tokens := r'.tokens)
              && r'.seats == r.seats[id := r.seats[id].(token := if granted then Some(token) else None)]
              && (granted ==> token in r'.tokens && r'.tokens[token] == id)
              && (r.seats[id].token.Some? ==> r.seats[id].token.value !in r'.tokens)
            else r' == Next(r, Lose(id, shuttingDown))
  {
    hide IssueToken, ConnectionLost, TimersMatch, TokensMatch;
    if open {
      TokenIssued(r, id, token);
      if r.seats[id].token.Some? {
        OwnToken(r, id);
      }
    }
  }

  lemma OwnToken(r: Room, id: SeatId)
    requires TokensMatch(r.seats, r.tokens) && id in r.seats && r.seats[id].token.Some?
    ensures r.seats[id].token.value in r.tokens
  {
  }

  /** Whoever leaves is gone, with token and timer, at once; a bot is joined as soon as it is admitted. */
  lemma LeavesIs(r: Room, id: SeatId)
    requires SeatInv(r)
    ensures var r' := Next(r, Leave(id));
            && SameRest(r, r') && r'.seats == r.seats - {id} && r'.timers == r.timers - {id}
            && (forall t :: t in r'.tokens <==> t in r.tokens && r.tokens[t] != id)
    ensures id in r.seats && r.seats[id].status == Joining ==>
              Next(r, AdmitBot(id)).seats == r.seats[id := r.seats[id].(status := Joined)]
              && Next(r, AdmitBot(id)).tokens == r.tokens
  {
    hide Release, Activate;
    SeatReleased(r, id);
    if id in r.seats {
      SeatActivated(r, id);
    }
  }

  /** After a seat is given up: an empty room that disposes itself goes, one with only held seats pauses. */
  lemma AfterLeaveIs(r: Room)
    requires SeatInv(r) && r.ready && !r.disposing
    ensures var r' := Next(r, AfterLeave);
            && SameRest(r, r') && r'.seats == r.seats && r'.tokens == r.tokens && r'.timers == r.timers
            && (r'.disposing <==> r.config.autoDispose && |r.seats| == 0 && |r.reservations| == 0)
            && (r'.paused <==>
                  && !SomeoneHere(r.seats)
                  && (r.paused || exists id :: id in r.seats && r.seats[id].status == Reconnecting))
  {
    PauseIs(r);
    PauseRest(r);
    EmptyIs(UpdatePause(r));
    EmptyRest(UpdatePause(r));
    hide UpdatePause, CheckEmpty;
  }

  /** The steps that only set a field. */
  lemma PlainStepIs(r: Room, step: Step)
    requires Enabled(r, step)
    requires step.Dispose? || step.BecomeReady? || step.DisposeEnds? || step.Tick? || step.Lock?
             || step.ForgetReservation?
    ensures Next(r, step) ==
            match step
            case Dispose => r.(disposing := true, syncRunning := false)
            case BecomeReady => r.(ready := true, syncRunning := !r.disposing)
            case DisposeEnds => r.(reservations := map[])
            case Tick(ms) => r.(now := r.now + ms)
            case Lock(on) => r.(locked := on)
            case ForgetReservation(res) => r.(promised := r.promised - {res})
            case _ => r
  {
  }

  // ---------------------------------------------------------------- reservations

  /** A reservation holds its place, and is accepted, from now for exactly as long as it was made for. */
  lemma HeldFor(r: Room, res: Reservation, ms: nat)
    requires Enabled(r, Reserve(res, ms))
    ensures var r' := Next(r, Reserve(res, ms));
            if r.disposing || r.locked || |r.seats| + |r.reservations| >= r.config.maxClients then r' == r
            else
              && r'.reservations == r.reservations[res := r.now + ms] && r'.promised == r.promised[res := r.now + ms]
              && r' == r.(reservations := r'.reservations, promised := r'.promised, issued := r.issued + {res})
  {
  }

  /** An expired hold gives its place back, and does not fire before its time. */
  lemma HoldEnds(r: Room, res: Reservation)
    requires Enabled(r, HoldExpires(res))
    ensures var r' := Next(r, HoldExpires(res));
            && res in r.reservations && r.now >= r.reservations[res] && r'.reservations == r.reservations - {res}
            && r'.seats == r.seats && r'.promised == r.promised && SameRest(r.(reservations := r'.reservations), r')
  {
    hide CheckEmpty;
    EmptyRest(r.(reservations := r.reservations - {res}));
  }

  /** A reservation is used up by the first use that is not past its expiry, whether or not the client sits down. */
  lemma ReservationUsed(r: Room, res: Reservation, admitted: bool, id: SeatId, channel: Channel)
    ensures var r' := Next(r, UseReservation(res, admitted, id, channel));
            if res !in r.promised || r.now > r.promised[res] then r' == r
            else
              && r'.promised == r.promised - {res} && r'.reservations == r.reservations - {res}
              && r'.consumed == r.consumed + [res]
              && r'.seats == (if admitted && !r.disposing && id !in r.seats
                              then r.seats[id := Seat(Joining, Some(channel), false, None, None, true)] else r.seats)
              && r' == r.(promised := r'.promised, reservations := r'.reservations, consumed := r'.consumed,
                          seats := r'.seats)
  {
    hide SeatCount;
  }

  // ---------------------------------------------------------------------- the lock

  /** No seat is added, and no reservation. */
  predicate AddsNone(r: Room, r': Room) {
    r'.seats.Keys <= r.seats.Keys && r'.reservations.Keys <= r.reservations.Keys && r'.promised.Keys <= r.promised.Keys
  }

  lemma RestSteps(r: Room, step: Step)
    requires Enabled(r, step)
    requires step.Undo? || step.Complete? || step.AdmitBot? || step.Lose? || step.Resume? || step.CompleteResumed?
             || step.Timer? || step.Leave? || step.AfterLeave? || step.Sync?
    ensures SameRest(r, Next(r, step)) && Next(r, step).seats.Keys <= r.seats.Keys
  {
    hide Unseat, Activate, ConnectionLost, Release, Reconnect, CheckEmpty, UpdatePause, SameRest, AfterBoundary,
         Granted;
    RestSelf(r);
    match step {
      case Undo(id) => UnseatRest(r, id);
      case Complete(id, open, token, shuttingDown) =>
        if open {
          IssueRest(r, id, token);
          ActivateRest(IssueToken(r, id, token), id);
          RestTwice(r, IssueToken(r, id, token), Next(r, step));
        } else {
          ActivateRest(r, id);
          LoseRest(Activate(r, id), id, shuttingDown);
          RestTwice(r, Activate(r, id), Next(r, step));
        }
      case AdmitBot(id) => ActivateRest(r, id);
      case Lose(id, shuttingDown) => LoseRest(r, id, shuttingDown);
      case Resume(token, channel) =>
        if HeldSeat(r, token).Some? {
          SeatBack(r, HeldSeat(r, token).value, channel);
        }
      case CompleteResumed(id, open, token, shuttingDown) =>
        IssueRest(r, id, token);
        LoseRest(r, id, shuttingDown);
      case Timer(id) =>
        ReleaseRest(r.(timers := r.timers - {id}), id);
        TimerRest(r, id);
        RestTwice(r, r.(timers := r.timers - {id}), Next(r, step));
      case Leave(id) => ReleaseRest(r, id);
      case AfterLeave =>
        PauseRest(r);
        EmptyRest(UpdatePause(r));
        RestTwice(r, UpdatePause(r), Next(r, step));
      case Sync(replaced, queued) => BoundaryRest(r, replaced, queued);
    }
  }

  lemma RestSelf(r: Room)
    ensures SameRest(r, r)
  {
  }

  lemma RestTwice(a: Room, b: Room, c: Room)
    requires SameRest(a, b) && SameRest(b, c)
    ensures SameRest(a, c)
  {
  }

  lemma TimerRest(r: Room, id: SeatId)
    ensures SameRest(r, r.(timers := r.timers - {id}))
  {
  }

  lemma UnseatRest(r: Room, id: SeatId)
    ensures SameRest(r, Unseat(r, id)) && Unseat(r, id).seats.Keys <= r.seats.Keys
  {
    hide CheckEmpty;
    EmptyRest(r.(seats := r.seats - {id}));
  }

  lemma IssueRest(r: Room, id: SeatId, token: Token)
    requires id in r.seats
    ensures SameRest(r, IssueToken(r, id, token)) && IssueToken(r, id, token).seats.Keys == r.seats.Keys
  {
    hide Granted;
  }

  lemma ActivateRest(r: Room, id: SeatId)
    requires id in r.seats
    ensures SameRest(r, Activate(r, id)) && Activate(r, id).seats.Keys == r.seats.Keys
  {
    hide UpdatePause;
    PauseRest(r.(seats := r.seats[id := r.seats[id].(status := Joined)]));
  }

  lemma ReleaseRest(r: Room, id: SeatId)
    ensures SameRest(r, Release(r, id)) && Release(r, id).seats.Keys <= r.seats.Keys
  {
    hide CheckEmpty, Revoked;
    if id in r.seats {
      EmptyRest(r.(timers := r.timers - {id}, tokens := Revoked(r.tokens, r.seats[id]), seats := r.seats - {id}));
    }
  }

  lemma LoseRest(r: Room, id: SeatId, shuttingDown: bool)
    ensures SameRest(r, ConnectionLost(r, id, shuttingDown))
    ensures ConnectionLost(r, id, shuttingDown).seats.Keys <= r.seats.Keys
  {
    hide UpdatePause, Release;
    if id in r.seats {
      var s := r.seats[id].(channel := None);
      PauseRest(r.(seats := r.seats[id := s.(status := Reconnecting, synced := false)], timers := r.timers + {id}));
      ReleaseRest(r.(seats := r.seats[id := s]), id);
    }
  }

  lemma BoundaryRest(r: Room, replaced: bool, queued: map<Channel, int>)
    ensures SameRest(r, Boundary(r, replaced, queued)) && Boundary(r, replaced, queued).seats.Keys == r.seats.Keys
  {
    hide AfterBoundary;
  }

  lemma PlainAdds(r: Room, step: Step)
    requires Enabled(r, step) && r.locked
    requires step.Take? || step.Reserve? || step.HoldExpires? || step.ForgetReservation? || step.BecomeReady?
             || step.Dispose? || step.DisposeEnds? || step.Tick?
    ensures AddsNone(r, Next(r, step)) && Next(r, step).locked
  {
    hide SeatCount;
  }

  /** In a locked room only a reservation gives a seat, and no reservation is made. */
  lemma LockedStep(r: Room, step: Step)
    requires r.locked && Enabled(r, step)
    ensures step.Lock? || Next(r, step).locked
    ensures !step.UseReservation? ==> AddsNone(r, Next(r, step))
    ensures Next(r, step).reservations.Keys <= r.reservations.Keys && Next(r, step).promised.Keys <= r.promised.Keys
  {
    if step.UseReservation? {
      ReservationUsed(r, step.res, step.admitted, step.id, step.channel);
    } else if step.Undo? || step.Complete? || step.AdmitBot? || step.Lose? || step.Resume? || step.CompleteResumed?
              || step.Timer? || step.Leave? || step.AfterLeave? || step.Sync? {
      hide Next, Enabled;
      RestSteps(r, step);
    } else if !step.Lock? {
      hide Next, Enabled;
      PlainAdds(r, step);
    }
  }

  /** No step unlocks the room or uses a reservation. */
  predicate StaysLocked(steps: seq<Step>) {
    forall i :: 0 <= i < |steps| ==> !steps[i].Lock? && !steps[i].UseReservation?
  }

  /** Over every run: a locked room seats nobody new but by reservation, and reserves no place. */
  lemma {:induction false} LockedThroughout(r: Room, steps: seq<Step>)
    requires r.locked && Possible(r, steps) && StaysLocked(steps)
    ensures After(r, steps).locked && AddsNone(r, After(r, steps))
    decreases |steps|
  {
    hide Next, Enabled;
    if steps != [] {
      LockedStep(r, steps[0]);
      assert forall i :: 0 <= i < |steps[1..]| ==> steps[1..][i] == steps[i + 1];
      LockedThroughout(Next(r, steps[0]), steps[1..]);
    }
  }
}
