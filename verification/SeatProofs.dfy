/** What every step of the seat machine keeps, over every run. */
module SeatProofs {
  import opened Wrappers
  import opened Seats

  // ------------------------------------------------------------ one seat at a time

  /** A seat added or changed, with its token and whether it is held as they were. */
  lemma PutKeeps(r: Room, id: SeatId, s: Seat)
    requires TablesMatch(r) && SeatOk(s)
    requires s.token == if id in r.seats then r.seats[id].token else None
    requires s.status == Reconnecting <==> id in r.seats && r.seats[id].status == Reconnecting
    ensures TablesMatch(r.(seats := r.seats[id := s]))
  {
    hide SeatOk;
    PutTokens(r.seats, r.tokens, id, s);
  }

  lemma PutTokens(seats: Seating, tokens: map<Token, SeatId>, id: SeatId, s: Seat)
    requires TokensMatch(seats, tokens) && s.token == if id in seats then seats[id].token else None
    ensures TokensMatch(seats[id := s], tokens)
  {
  }

  lemma CutTokens(seats: Seating, tokens: map<Token, SeatId>, id: SeatId)
    requires TokensMatch(seats, tokens) && id in seats
    ensures TokensMatch(seats - {id}, Revoked(tokens, seats[id]))
  {
  }

  /** A seat removed, with its token and its timer. */
  lemma CutKeeps(r: Room, id: SeatId)
    requires TablesMatch(r) && id in r.seats
    ensures TablesMatch(r.(seats := r.seats - {id}, tokens := Revoked(r.tokens, r.seats[id]),
                           timers := r.timers - {id}))
  {
    hide SeatOk;
    CutTokens(r.seats, r.tokens, id);
  }

  lemma GrantTokens(seats: Seating, tokens: map<Token, SeatId>, id: SeatId, s: Seat)
    requires TokensMatch(seats, tokens) && id in seats && (s.token.Some? ==> s.token.value !in tokens)
    ensures TokensMatch(seats[id := s], Granted(tokens, seats[id], id, s.token))
  {
  }

  /** A seat given a new token, or none. */
  lemma GrantKeeps(seats: Seating, tokens: map<Token, SeatId>, timers: set<SeatId>, id: SeatId, s: Seat)
    requires Match(seats, tokens, timers) && id in seats && (s.token.Some? ==> s.token.value !in tokens)
    requires SeatOk(s) && (s.status == Reconnecting <==> seats[id].status == Reconnecting)
    ensures Match(seats[id := s], Granted(tokens, seats[id], id, s.token), timers)
  {
    GrantTokens(seats, tokens, id, s);
    hide TokensMatch, Granted, SeatOk;
  }

  lemma IssueKeeps(r: Room, id: SeatId, token: Token)
    requires TablesMatch(r) && id in r.seats && r.seats[id].status != Joining && token !in r.tokens
    ensures TablesMatch(IssueToken(r, id, token))
  {
    var granted := if r.config.reconnects then Some(token) else None;
    assert SeatOk(r.seats[id]);
    GrantKeeps(r.seats, r.tokens, r.timers, id, r.seats[id].(token := granted));
    hide Match, Granted;
  }

  // ---------------------------------------------------------- seat bookkeeping

  lemma UpdatePauseKeeps(r: Room)
    requires TablesMatch(r) && LoopMatches(r) && (r.paused ==> r.ready)
    requires PauseMatches(r) || AnyConnected(r.seats)
    ensures SeatInv(UpdatePause(r))
  {
    hide SeatsOk, TokensMatch, TimersMatch;
  }

  lemma CheckEmptyKeeps(r: Room)
    requires SeatInv(r)
    ensures SeatInv(CheckEmpty(r))
  {
    hide SeatsOk, TokensMatch, TimersMatch, NoneJoinedConnected;
  }

  lemma TakeKeeps(r: Room, id: SeatId, channel: Option<Channel>, reserved: bool, keeps: bool)
    requires SeatInv(r)
    ensures var seated := TakeSeat(r, id, channel, reserved, keeps); seated.Some? ==> SeatInv(seated.value)
  {
    if id !in r.seats {
      PutKeeps(r, id, Seat(Joining, channel, false, None, None, keeps));
      hide TablesMatch;
    }
  }

  lemma UnseatKeeps(r: Room, id: SeatId)
    requires SeatInv(r) && (id in r.seats ==> r.seats[id].status == Joining)
    ensures SeatInv(Unseat(r, id))
  {
    if id in r.seats {
      assert SeatOk(r.seats[id]);
      CutKeeps(r, id);
      assert id !in r.timers && r.timers - {id} == r.timers && Revoked(r.tokens, r.seats[id]) == r.tokens;
      hide TablesMatch;
      CheckEmptyKeeps(r.(seats := r.seats - {id}));
    }
  }

  lemma ReleaseKeeps(r: Room, id: SeatId)
    requires SeatInv(r)
    ensures SeatInv(Release(r, id))
  {
    if id in r.seats {
      CutKeeps(r, id);
      hide TablesMatch;
      CheckEmptyKeeps(r.(timers := r.timers - {id}, tokens := Revoked(r.tokens, r.seats[id]), seats := r.seats - {id}));
    }
  }

  /** The rest of a released seat does not matter. */
  lemma ReleaseDetached(r: Room, id: SeatId)
    requires id in r.seats && r.seats[id].status == Joined
    ensures Release(r.(seats := r.seats[id := r.seats[id].(channel := None)]), id) == Release(r, id)
  {
    assert r.seats[id := r.seats[id].(channel := None)] - {id} == r.seats - {id};
  }

  lemma ActivateKeeps(r: Room, id: SeatId)
    requires SeatInv(r) && id in r.seats
    ensures SeatInv(Activate(r, id))
  {
    if r.seats[id].status == Joining {
      var s := r.seats[id].(status := Joined);
      assert SeatOk(r.seats[id]);
      PutKeeps(r, id, s);
      hide TablesMatch;
      var r1 := r.(seats := r.seats[id := s]);
      if s.channel.Some? {
        assert IsConnected(r1.seats[id]);
      }
      UpdatePauseKeeps(r1);
    }
  }

  lemma LoseKeeps(r: Room, id: SeatId, shuttingDown: bool)
    requires SeatInv(r)
    ensures SeatInv(ConnectionLost(r, id, shuttingDown))
  {
    if id in r.seats && r.seats[id].status != Reconnecting {
      var s := r.seats[id].(channel := None, synced := false);
      assert SeatOk(r.seats[id]);
      PutKeeps(r, id, s);
      if s.status == Joined {
        if r.config.reconnects && s.token.Some? && !shuttingDown && !r.disposing {
          HoldSeatKeeps(r, id);
          hide TablesMatch;
          UpdatePauseKeeps(r.(seats := r.seats[id := s.(status := Reconnecting)], timers := r.timers + {id}));
        } else {
          ReleaseDetached(r, id);
          ReleaseKeeps(r, id);
        }
      }
    }
  }

  lemma HoldSeatKeeps(r: Room, id: SeatId)
    requires TablesMatch(r) && id in r.seats && r.seats[id].status == Joined
    ensures var s := r.seats[id].(channel := None, synced := false, status := Reconnecting);
            TablesMatch(r.(seats := r.seats[id := s], timers := r.timers + {id}))
  {
    var s := r.seats[id].(channel := None, synced := false, status := Reconnecting);
    PutTokens(r.seats, r.tokens, id, s);
    hide TokensMatch;
  }

  lemma ReconnectKeeps(r: Room, id: SeatId, channel: Channel)
    requires SeatInv(r) && id in r.seats && r.seats[id].status == Reconnecting
    ensures SeatInv(Reconnect(r, id, channel))
  {
    var s := r.seats[id].(channel := Some(channel), status := Joined, synced := false);
    var r1 := r.(timers := r.timers - {id}, seats := r.seats[id := s]);
    PutTokens(r.seats, r.tokens, id, s);
    assert TablesMatch(r1) by { hide TokensMatch; }
    hide TablesMatch;
    assert IsConnected(r1.seats[id]);
    UpdatePauseKeeps(r1);
  }

  lemma CompleteKeeps(r: Room, id: SeatId, open: bool, token: Token, shuttingDown: bool)
    requires SeatInv(r) && id in r.seats && r.seats[id].status == Joining && token !in r.tokens
    ensures SeatInv(CompleteJoin(r, id, open, token, shuttingDown))
  {
    if open {
      WelcomeKeeps(r, id, token);
    } else {
      ActivateKeeps(r, id);
      hide SeatInv, Activate, ConnectionLost;
      LoseKeeps(Activate(r, id), id, shuttingDown);
    }
  }

  /** The seat has no token until it is joined, so only both together keep the tables. */
  lemma WelcomeKeeps(r: Room, id: SeatId, token: Token)
    requires SeatInv(r) && id in r.seats && r.seats[id].status == Joining && token !in r.tokens
    ensures SeatInv(Activate(IssueToken(r, id, token), id))
  {
    var granted := if r.config.reconnects then Some(token) else None;
    var s := r.seats[id].(token := granted, status := Joined);
    assert SeatOk(r.seats[id]);
    GrantKeeps(r.seats, r.tokens, r.timers, id, s);
    var r1 := IssueToken(r, id, token);
    assert r1.seats[id := r1.seats[id].(status := Joined)] == r.seats[id := s];
    var r2 := r1.(seats := r.seats[id := s]);
    hide Match, Granted;
    if s.channel.Some? {
      assert IsConnected(r2.seats[id]);
    }
    hide UpdatePause;
    UpdatePauseKeeps(r2);
  }

  lemma IssueFrame(r: Room, id: SeatId, token: Token)
    requires SeatInv(r) && id in r.seats
    ensures LoopMatches(IssueToken(r, id, token)) && PauseMatches(IssueToken(r, id, token))
  {
    hide TablesMatch;
  }

  lemma BoundaryKeeps(r: Room, replaced: bool, queued: map<Channel, int>)
    requires SeatInv(r)
    ensures SeatInv(Boundary(r, replaced, queued))
  {
    if !r.disposing && r.ready {
      var r' := Boundary(r, replaced, queued);
      forall id | id in r.seats
        ensures r'.seats[id].status == r.seats[id].status && r'.seats[id].channel == r.seats[id].channel
        ensures r'.seats[id].token == r.seats[id].token && SeatOk(r'.seats[id])
      {
        assert SeatOk(r.seats[id]);
      }
    }
  }

  /** A reservation used: its seat, if it gets one, is an ordinary one. */
  lemma ConsumeKeeps(r: Room, res: Reservation, admitted: bool, id: SeatId, channel: Channel)
    requires SeatInv(r)
    ensures SeatInv(Consume(r, res, admitted, id, channel))
  {
    hide TablesMatch, TakeSeat;
    var r1 := r.(promised := r.promised - {res}, reservations := r.reservations - {res},
                 consumed := r.consumed + [res]);
    assert TablesMatch(r1) by { SameTables(r, r1); }
    TakeKeeps(r1, id, Some(channel), true, true);
  }

  lemma SameTables(r: Room, r': Room)
    requires TablesMatch(r) && r'.seats == r.seats && r'.tokens == r.tokens && r'.timers == r.timers
    ensures TablesMatch(r')
  {
  }

  lemma TimerIsRelease(r: Room, id: SeatId)
    ensures Release(r.(timers := r.timers - {id}), id) == if id in r.seats then Release(r, id)
            else r.(timers := r.timers - {id})
  {
    assert r.timers - {id} - {id} == r.timers - {id};
  }

  /** Steps that touch no seat. */
  lemma PlainStepKeeps(r: Room, step: Step)
    requires SeatInv(r) && Enabled(r, step)
    requires step.Reserve? || step.ForgetReservation? || step.Lock? || step.BecomeReady? || step.Dispose?
             || step.DisposeEnds? || step.Tick?
    ensures SeatInv(Next(r, step))
  {
    hide Match, NoneJoinedConnected;
  }

  /** Every step keeps the bookkeeping. */
  lemma StepKeeps(r: Room, step: Step)
    requires SeatInv(r) && Enabled(r, step)
    ensures SeatInv(Next(r, step))
  {
    if step.Timer? {
      assert step.id in r.seats;
      TimerIsRelease(r, step.id);
    }
    hide TablesMatch, TakeSeat, Unseat, CompleteJoin, CompleteResume, Activate, ConnectionLost, Reconnect, Release,
         CheckEmpty, UpdatePause, Consume, Boundary;
    match step {
      case Take(id, at, keeps) => TakeKeeps(r, id, at, false, keeps);
      case Undo(id) => UnseatKeeps(r, id);
      case Complete(id, open, token, shuttingDown) => CompleteKeeps(r, id, open, token, shuttingDown);
      case AdmitBot(id) => ActivateKeeps(r, id);
      case Lose(id, shuttingDown) => LoseKeeps(r, id, shuttingDown);
      case Resume(token, channel) =>
        if HeldSeat(r, token).Some? {
          ReconnectKeeps(r, HeldSeat(r, token).value, channel);
        }
      case CompleteResumed(id, open, token, shuttingDown) => CompleteResumeKeeps(r, id, open, token, shuttingDown);
      case Timer(id) => ReleaseKeeps(r, id);
      case Leave(id) => ReleaseKeeps(r, id);
      case AfterLeave =>
        UpdatePauseKeeps(r);
        CheckEmptyKeeps(UpdatePause(r));
      case HoldExpires(res) =>
        var r1 := r.(reservations := r.reservations - {res});
        SameTables(r, r1);
        CheckEmptyKeeps(r1);
      case UseReservation(res, admitted, id, channel) => ConsumeKeeps(r, res, admitted, id, channel);
      case Sync(replaced, queued) => BoundaryKeeps(r, replaced, queued);
      case _ => PlainStepKeeps(r, step);
    }
  }

  lemma CompleteResumeKeeps(r: Room, id: SeatId, open: bool, token: Token, shuttingDown: bool)
    requires SeatInv(r) && id in r.seats && r.seats[id].status != Joining && token !in r.tokens
    ensures SeatInv(CompleteResume(r, id, open, token, shuttingDown))
  {
    hide SeatInv, IssueToken, ConnectionLost;
    if open {
      IssuedKeeps(r, id, token);
    } else {
      LoseKeeps(r, id, shuttingDown);
    }
  }

  lemma PauseKeeps(r: Room)
    requires SeatInv(r)
    ensures SeatInv(UpdatePause(r))
  {
    hide TablesMatch, UpdatePause;
    UpdatePauseKeeps(r);
  }

  lemma IssuedKeeps(r: Room, id: SeatId, token: Token)
    requires id in r.seats
    ensures SeatInv(r) && r.seats[id].status != Joining && token !in r.tokens ==> SeatInv(IssueToken(r, id, token))
  {
    hide TablesMatch, IssueToken;
    if SeatInv(r) && r.seats[id].status != Joining && token !in r.tokens {
      IssueKeeps(r, id, token);
      IssueFrame(r, id, token);
    }
  }

  lemma ReconnectedKeeps(r: Room, id: SeatId, channel: Channel)
    requires id in r.seats
    ensures SeatInv(r) && r.seats[id].status == Reconnecting ==> SeatInv(Reconnect(r, id, channel))
  {
    hide SeatInv, Reconnect;
    if SeatInv(r) && r.seats[id].status == Reconnecting {
      ReconnectKeeps(r, id, channel);
    }
  }

  lemma HoldKeeps(r: Room, res: Reservation, ms: nat)
    requires SeatInv(r)
    ensures SeatInv(Hold(r, res, ms))
  {
    hide TablesMatch, NoneJoinedConnected;
    SameTables(r, Hold(r, res, ms));
  }

  // ------------------------------------------------------------ reservations

  /** A reservation is held by the room until it expires, and is consumed once. */
  ghost predicate ReservationInv(r: Room) {
    && r.promised.Keys <= r.issued && r.reservations.Keys <= r.issued
    && (forall res :: res in r.promised && r.now < r.promised[res] && !r.disposing ==> res in r.reservations)
    && (forall res :: res in r.promised && res in r.reservations ==> r.reservations[res] == r.promised[res])
    && (forall i :: 0 <= i < |r.consumed| ==>
          r.consumed[i] in r.issued && r.consumed[i] !in r.promised && r.consumed[i] !in r.reservations)
    && (forall i, j :: 0 <= i < j < |r.consumed| ==> r.consumed[i] != r.consumed[j])
  }

  /** Everything reservations are about. */
  predicate SameReservations(r: Room, r': Room) {
    && r'.reservations == r.reservations && r'.promised == r.promised && r'.issued == r.issued
    && r'.consumed == r.consumed && r'.now == r.now && r'.config == r.config && (r.disposing ==> r'.disposing)
  }

  lemma SameReservationsKeep(r: Room, r': Room)
    requires ReservationInv(r) && SameReservations(r, r')
    ensures ReservationInv(r')
  {
  }

  /** What a reservation's own steps do. */
  lemma ReservationStepKeeps(r: Room, step: Step)
    requires ReservationInv(r) && Enabled(r, step)
    requires step.Reserve? || step.HoldExpires? || step.ForgetReservation? || step.DisposeEnds? || step.Tick?
    ensures ReservationInv(Next(r, step))
  {
    hide SeatCount;
  }

  lemma ConsumeReservation(r: Room, res: Reservation, admitted: bool, id: SeatId, channel: Channel)
    requires ReservationInv(r) && Consumable(r, res)
    ensures ReservationInv(Consume(r, res, admitted, id, channel))
  {
    hide SeatCount;
  }

  /** The other steps leave reservations alone, and add a seat only where there is room. */
  lemma OtherStepCounts(r: Room, step: Step)
    requires Enabled(r, step)
    requires !step.Reserve? && !step.HoldExpires? && !step.ForgetReservation? && !step.DisposeEnds? && !step.Tick?
             && !step.UseReservation?
    ensures SameReservations(r, Next(r, step))
    ensures |Next(r, step).seats| <= |r.seats| || (step.Take? && AcceptsNewSeat(r)
                                                   && |Next(r, step).seats| == |r.seats| + 1)
  {
    hide UpdatePause, CheckEmpty, SeatCount, AcceptsNewSeat, TakeSeat, Revoked, Granted, IssueToken, Activate,
         ConnectionLost,
         Release, Unseat, Boundary, SameReservations;
    SameAlways(r);
    match step {
      case Take(id, at, keeps) => TakeCounts(r, id, at, false, keeps);
      case Undo(id) => UnseatCounts(r, id);
      case Complete(id, open, token, shuttingDown) => CompleteCounts(r, id, open, token, shuttingDown);
      case AdmitBot(id) => ActivateCounts(r, id);
      case Lose(id, shuttingDown) => LoseCounts(r, id, shuttingDown);
      case Resume(token, channel) =>
        if HeldSeat(r, token).Some? {
          ReconnectCounts(r, HeldSeat(r, token).value, channel);
        }
      case CompleteResumed(id, open, token, shuttingDown) =>
        if open {
          IssueCounts(r, id, token);
        } else {
          LoseCounts(r, id, shuttingDown);
        }
      case Timer(id) => ReleaseCounts(r.(timers := r.timers - {id}), id); SameTimers(r, id);
      case Leave(id) => ReleaseCounts(r, id);
      case AfterLeave =>
        UpdatePauseFrame(r);
        CheckEmptyFrame(UpdatePause(r));
        SameTwice(r, UpdatePause(r), CheckEmpty(UpdatePause(r)));
      case Sync(replaced, queued) => BoundaryCounts(r, replaced, queued);
      case _ => SameFlags(r, step);
    }
  }

  lemma SameAlways(r: Room)
    ensures SameReservations(r, r)
  {
  }

  lemma SameTwice(a: Room, b: Room, c: Room)
    requires SameReservations(a, b) && SameReservations(b, c)
    ensures SameReservations(a, c)
  {
  }

  lemma SameTimers(r: Room, id: SeatId)
    requires SameReservations(r.(timers := r.timers - {id}), Release(r.(timers := r.timers - {id}), id))
    ensures SameReservations(r, Release(r.(timers := r.timers - {id}), id))
  {
    hide Release;
  }

  lemma SameFlags(r: Room, step: Step)
    requires Enabled(r, step) && (step.Lock? || step.BecomeReady? || step.Dispose?)
    ensures SameReservations(r, Next(r, step)) && Next(r, step).seats == r.seats
  {
  }

  lemma TakeCounts(r: Room, id: SeatId, channel: Option<Channel>, reserved: bool, keeps: bool)
    ensures var seated := TakeSeat(r, id, channel, reserved, keeps);
            && (seated.None? <==> ((if reserved then r.disposing else !AcceptsNewSeat(r)) || id in r.seats))
            && (seated.Some? ==> SameReservations(r, seated.value) && |seated.value.seats| == |r.seats| + 1)
  {
    hide SeatCount;
  }

  lemma UnseatCounts(r: Room, id: SeatId)
    ensures SameReservations(r, Unseat(r, id)) && |Unseat(r, id).seats| <= |r.seats|
  {
    hide CheckEmpty;
    if id in r.seats {
      CheckEmptyFrame(r.(seats := r.seats - {id}));
      Fewer(r.seats, id);
    }
  }

  lemma IssueCounts(r: Room, id: SeatId, token: Token)
    requires id in r.seats
    ensures SameReservations(r, IssueToken(r, id, token)) && |IssueToken(r, id, token).seats| == |r.seats|
    ensures id in IssueToken(r, id, token).seats
  {
    hide Granted;
  }

  lemma CompleteCounts(r: Room, id: SeatId, open: bool, token: Token, shuttingDown: bool)
    requires id in r.seats
    ensures var r' := CompleteJoin(r, id, open, token, shuttingDown);
            SameReservations(r, r') && |r'.seats| <= |r.seats|
  {
    hide SameReservations, IssueToken, Activate, ConnectionLost;
    if open {
      IssueCounts(r, id, token);
      var r1 := IssueToken(r, id, token);
      ActivateCounts(r1, id);
      SameTwice(r, r1, Activate(r1, id));
    } else {
      ActivateCounts(r, id);
      var r1 := Activate(r, id);
      LoseCounts(r1, id, shuttingDown);
      SameTwice(r, r1, ConnectionLost(r1, id, shuttingDown));
    }
  }

  lemma ReconnectCounts(r: Room, id: SeatId, channel: Channel)
    requires id in r.seats
    ensures SameReservations(r, Reconnect(r, id, channel)) && |Reconnect(r, id, channel).seats| == |r.seats|
  {
    hide UpdatePause;
    var s := r.seats[id].(channel := Some(channel), status := Joined, synced := false);
    UpdatePauseFrame(r.(timers := r.timers - {id}, seats := r.seats[id := s]));
  }

  lemma BoundaryCounts(r: Room, replaced: bool, queued: map<Channel, int>)
    ensures SameReservations(r, Boundary(r, replaced, queued)) && |Boundary(r, replaced, queued).seats| == |r.seats|
  {
    hide AfterBoundary;
    if !r.disposing && r.ready {
      var seats := Boundary(r, replaced, queued).seats;
      assert seats.Keys == r.seats.Keys;
      assert |seats| == |seats.Keys| && |r.seats| == |r.seats.Keys|;
    }
  }

  lemma Fewer(seats: Seating, id: SeatId)
    ensures |seats - {id}| <= |seats|
    ensures id in seats ==> |seats - {id}| == |seats| - 1
  {
    assert (seats - {id}).Keys == seats.Keys - {id};
    assert |seats - {id}| == |(seats - {id}).Keys|;
  }

  lemma CheckEmptyFrame(r: Room)
    ensures SameReservations(r, CheckEmpty(r)) && CheckEmpty(r).seats == r.seats
  {
  }

  lemma UpdatePauseFrame(r: Room)
    ensures SameReservations(r, UpdatePause(r)) && UpdatePause(r).seats == r.seats
  {
  }

  lemma ActivateCounts(r: Room, id: SeatId)
    requires id in r.seats
    ensures SameReservations(r, Activate(r, id)) && |Activate(r, id).seats| == |r.seats|
  {
    hide UpdatePause;
    UpdatePauseFrame(r.(seats := r.seats[id := r.seats[id].(status := Joined)]));
  }

  lemma ReleaseCounts(r: Room, id: SeatId)
    ensures SameReservations(r, Release(r, id)) && |Release(r, id).seats| <= |r.seats|
  {
    hide CheckEmpty, Revoked;
    if id in r.seats {
      CheckEmptyFrame(r.(timers := r.timers - {id}, tokens := Revoked(r.tokens, r.seats[id]), seats := r.seats - {id}));
      Fewer(r.seats, id);
    }
  }

  lemma LoseCounts(r: Room, id: SeatId, shuttingDown: bool)
    ensures SameReservations(r, ConnectionLost(r, id, shuttingDown))
            && |ConnectionLost(r, id, shuttingDown).seats| <= |r.seats|
  {
    hide UpdatePause, Release;
    if id in r.seats {
      var s := r.seats[id].(channel := None);
      ReleaseCounts(r.(seats := r.seats[id := s]), id);
      UpdatePauseFrame(r.(seats := r.seats[id := s.(status := Reconnecting, synced := false)],
                          timers := r.timers + {id}));
    }
  }

  lemma ReservationsKeep(r: Room, step: Step)
    requires ReservationInv(r) && Enabled(r, step)
    ensures ReservationInv(Next(r, step))
  {
    hide ReservationInv;
    if step.Reserve? || step.HoldExpires? || step.ForgetReservation? || step.DisposeEnds? || step.Tick? {
      ReservationStepKeeps(r, step);
    } else if step.UseReservation? {
      if Consumable(r, step.res) {
        ConsumeReservation(r, step.res, step.admitted, step.id, step.channel);
      }
    } else {
      OtherStepCounts(r, step);
      SameReservationsKeep(r, Next(r, step));
    }
  }

  // ------------------------------------------------------------------ the cap

  predicate WithinCap(r: Room) { SeatCount(r) <= r.config.maxClients }

  lemma FewerHeld(held: map<Reservation, int>, res: Reservation)
    ensures |held - {res}| <= |held|
    ensures res in held ==> |held - {res}| == |held| - 1
  {
    assert (held - {res}).Keys == held.Keys - {res};
    assert |held - {res}| == |(held - {res}).Keys|;
    assert |held| == |held.Keys|;
  }

  /**
   A reservation's seat is taken without a capacity check. It stays within the
   cap exactly when the room still holds the reservation's place, or has another.
   */
  lemma ConsumeWithinCap(r: Room, res: Reservation, admitted: bool, id: SeatId, channel: Channel)
    requires WithinCap(r)
    ensures WithinCap(Consume(r, res, admitted, id, channel)) <==>
            (res in r.reservations || SeatCount(r) < r.config.maxClients || !admitted || r.disposing || id in r.seats)
  {
    hide TakeSeat;
    FewerHeld(r.reservations, res);
    assert res !in r.reservations ==> r.reservations - {res} == r.reservations;
    var r1 := r.(promised := r.promised - {res}, reservations := r.reservations - {res},
                 consumed := r.consumed + [res]);
    TakeCounts(r1, id, Some(channel), true, true);
  }

  /** A reservation used strictly before it expires. */
  predicate InTime(r: Room, step: Step) {
    step.UseReservation? && step.res in r.promised ==> r.now < r.promised[step.res]
  }

  lemma CapKeeps(r: Room, step: Step)
    requires WithinCap(r) && ReservationInv(r) && Enabled(r, step) && InTime(r, step)
    ensures WithinCap(Next(r, step))
  {
    if step.UseReservation? {
      if Consumable(r, step.res) {
        ConsumeWithinCap(r, step.res, step.admitted, step.id, step.channel);
      }
    } else if step.HoldExpires? {
      FewerHeld(r.reservations, step.res);
    } else if !(step.Reserve? || step.ForgetReservation? || step.DisposeEnds? || step.Tick?) {
      hide Next, ReservationInv, Enabled;
      OtherStepCounts(r, step);
    }
  }

  // -------------------------------------------------------------------- runs

  ghost predicate Possible(r: Room, steps: seq<Step>)
    decreases |steps|
  {
    steps == [] || (Enabled(r, steps[0]) && Possible(Next(r, steps[0]), steps[1..]))
  }

  ghost function After(r: Room, steps: seq<Step>): Room
    requires Possible(r, steps)
    decreases |steps|
  {
    if steps == [] then r else After(Next(r, steps[0]), steps[1..])
  }

  ghost predicate AllInTime(r: Room, steps: seq<Step>)
    requires Possible(r, steps)
    decreases |steps|
  {
    steps == [] || (InTime(r, steps[0]) && AllInTime(Next(r, steps[0]), steps[1..]))
  }

  /** A room as its constructor leaves it. */
  function NewRoom(config: Config, now: int): Room {
    Room(config, now, map[], map[], {}, map[], map[], {}, [], false, false, false, false, false)
  }

  lemma {:induction false} RunKeepsSeats(r: Room, steps: seq<Step>)
    requires SeatInv(r) && Possible(r, steps)
    ensures SeatInv(After(r, steps))
    decreases |steps|
  {
    hide SeatInv, Next, Enabled;
    if steps != [] {
      StepKeeps(r, steps[0]);
      RunKeepsSeats(Next(r, steps[0]), steps[1..]);
    }
  }

  lemma {:induction false} RunKeepsReservations(r: Room, steps: seq<Step>)
    requires ReservationInv(r) && Possible(r, steps)
    ensures ReservationInv(After(r, steps))
    decreases |steps|
  {
    hide ReservationInv, Next, Enabled;
    if steps != [] {
      ReservationsKeep(r, steps[0]);
      RunKeepsReservations(Next(r, steps[0]), steps[1..]);
    }
  }

  lemma {:induction false} RunKeepsCap(r: Room, steps: seq<Step>)
    requires WithinCap(r) && ReservationInv(r) && Possible(r, steps) && AllInTime(r, steps)
    ensures WithinCap(After(r, steps))
    decreases |steps|
  {
    hide WithinCap, ReservationInv, InTime, Next, Enabled;
    if steps != [] {
      CapKeeps(r, steps[0]);
      ReservationsKeep(r, steps[0]);
      RunKeepsCap(Next(r, steps[0]), steps[1..]);
    }
  }

  /** Seat bookkeeping over every run of a room. */
  lemma SeatBookkeeping(config: Config, now: int, steps: seq<Step>)
    requires Possible(NewRoom(config, now), steps)
    ensures var r := After(NewRoom(config, now), steps);
            && (forall id :: id in r.timers <==> id in r.seats && r.seats[id].status == Reconnecting)
            && (forall t, id :: (t in r.tokens && r.tokens[t] == id) <==>
                (id in r.seats && r.seats[id].token == Some(t)))
            && (forall t: Token :: HeldSeat(r, t).Some? ==>
                  HeldSeat(r, t).value in r.seats && r.seats[HeldSeat(r, t).value].token == Some(t))
            && (forall id :: id in r.seats && r.seats[id].synced ==>
                  r.seats[id].status == Joined && r.seats[id].channel.Some? && r.seats[id].pausedSince.None?)
            && (r.syncRunning <==> r.ready && !r.disposing && !r.paused)
            && (r.paused && !r.disposing ==>
                  forall id :: id in r.seats && r.seats[id].status == Joined ==> r.seats[id].channel.None?)
  {
    RunKeepsSeats(NewRoom(config, now), steps);
    hide After, Possible;
    var r := After(NewRoom(config, now), steps);
    forall id | id in r.seats && r.seats[id].synced
      ensures r.seats[id].status == Joined && r.seats[id].channel.Some? && r.seats[id].pausedSince.None?
    {
      assert SeatOk(r.seats[id]);
    }
  }

  /** With every reservation used before it expires, seats and reservations never exceed the cap. */
  lemma SeatCap(config: Config, now: int, steps: seq<Step>)
    requires Possible(NewRoom(config, now), steps) && AllInTime(NewRoom(config, now), steps)
    ensures SeatCount(After(NewRoom(config, now), steps)) <= config.maxClients
  {
    RunKeepsCap(NewRoom(config, now), steps);
    ConfigStays(NewRoom(config, now), steps);
  }

  /** Using a reservation seats a client for whom there is no place: the room no longer holds it, and is full. */
  predicate Overfills(r: Room, step: Step) {
    && step.UseReservation? && Consumable(r, step.res) && step.res !in r.reservations
    && SeatCount(r) >= r.config.maxClients && step.admitted && !r.disposing && step.id !in r.seats
  }

  /** A step takes a room past its cap if and only if it is such a use. */
  lemma CapBreaks(r: Room, step: Step)
    requires WithinCap(r) && Enabled(r, step)
    ensures WithinCap(Next(r, step)) <==> !Overfills(r, step)
  {
    hide SeatCount, Consume, CheckEmpty;
    if step.UseReservation? {
      if Consumable(r, step.res) {
        ConsumeWithinCap(r, step.res, step.admitted, step.id, step.channel);
      }
    } else {
      OthersWithinCap(r, step);
    }
  }

  lemma OthersWithinCap(r: Room, step: Step)
    requires WithinCap(r) && Enabled(r, step) && !step.UseReservation?
    ensures WithinCap(Next(r, step))
  {
    if step.HoldExpires? {
      FewerHeld(r.reservations, step.res);
    } else if !(step.Reserve? || step.ForgetReservation? || step.DisposeEnds? || step.Tick?) {
      hide Next, Enabled;
      OtherStepCounts(r, step);
    }
  }

  ghost predicate AlwaysWithinCap(r: Room, steps: seq<Step>)
    requires Possible(r, steps)
    decreases |steps|
  {
    WithinCap(r) && (steps == [] || AlwaysWithinCap(Next(r, steps[0]), steps[1..]))
  }

  ghost predicate NeverOverfills(r: Room, steps: seq<Step>)
    requires Possible(r, steps)
    decreases |steps|
  {
    steps == [] || (!Overfills(r, steps[0]) && NeverOverfills(Next(r, steps[0]), steps[1..]))
  }

  lemma {:induction false} WithinCapIff(r: Room, steps: seq<Step>)
    requires WithinCap(r) && Possible(r, steps)
    ensures AlwaysWithinCap(r, steps) <==> NeverOverfills(r, steps)
    decreases |steps|
  {
    hide WithinCap, Next, Enabled, Overfills;
    if steps != [] {
      CapBreaks(r, steps[0]);
      if WithinCap(Next(r, steps[0])) {
        WithinCapIff(Next(r, steps[0]), steps[1..]);
      }
    }
  }

  /**
   Over every run, clients and reservations never exceed the cap if and only if
   no reservation was used after the room had given its place away and filled up.
   */
  lemma CapThroughout(config: Config, now: int, steps: seq<Step>)
    requires Possible(NewRoom(config, now), steps)
    ensures AlwaysWithinCap(NewRoom(config, now), steps) <==> NeverOverfills(NewRoom(config, now), steps)
  {
    hide Possible, AlwaysWithinCap, NeverOverfills;
    WithinCapIff(NewRoom(config, now), steps);
  }

  lemma {:induction false} ConfigStays(r: Room, steps: seq<Step>)
    requires Possible(r, steps)
    ensures After(r, steps).config == r.config
    decreases |steps|
  {
    if steps != [] {
      NextConfig(r, steps[0]);
      hide Next, Enabled;
      ConfigStays(Next(r, steps[0]), steps[1..]);
    }
  }

  lemma NextConfig(r: Room, step: Step)
    requires Enabled(r, step)
    ensures Next(r, step).config == r.config
  {
    hide SeatCount, TakeSeat, CheckEmpty;
    match step {
      case HoldExpires(res) => CheckEmptyFrame(r.(reservations := r.reservations - {res}));
      case UseReservation(res, _, id, channel) =>
        var r1 := r.(promised := r.promised - {res}, reservations := r.reservations - {res},
                     consumed := r.consumed + [res]);
        TakeCounts(r1, id, Some(channel), true, true);
      case Reserve(_, _) =>
      case ForgetReservation(_) =>
      case DisposeEnds =>
      case Tick(_) =>
      case _ =>
        hide Next, Enabled;
        OtherStepCounts(r, step);
    }
  }

  /** Each reservation is consumed at most once. */
  lemma ConsumedOnce(config: Config, now: int, steps: seq<Step>)
    requires Possible(NewRoom(config, now), steps)
    ensures var consumed := After(NewRoom(config, now), steps).consumed;
            forall i, j :: 0 <= i < j < |consumed| ==> consumed[i] != consumed[j]
  {
    RunKeepsReservations(NewRoom(config, now), steps);
  }

  // ------------------------------------------------------- where it stops holding

  lemma RunNone(r: Room)
    ensures Possible(r, []) && After(r, []) == r
  {
  }

  lemma RunFirst(r: Room, step: Step, rest: seq<Step>)
    requires Enabled(r, step) && Possible(Next(r, step), rest)
    ensures Possible(r, [step] + rest) && After(r, [step] + rest) == After(Next(r, step), rest)
  {
    hide Next, Enabled;
    assert ([step] + rest)[1..] == rest;
  }

  /** The room of the race, when one reservation is all it has room for. */
  function Tight(now: int, seats: Seating, held: map<Reservation, int>, promised: map<Reservation, int>,
                 consumed: seq<Reservation>): Room {
    Room(Config(1, true, false, Limits(0, 0)), now, seats, map[], {}, held, promised, {0}, consumed, false, false,
         false, false, false)
  }

  const Newcomer: Seat := Seat(Joining, Some(0), false, None, None, false)
  const Latecomer: Seat := Seat(Joining, Some(1), false, None, None, true)

  lemma RaceReserve()
    ensures var r := NewRoom(Config(1, true, false, Limits(0, 0)), 0);
            Enabled(r, Reserve(0, 10)) && Next(r, Reserve(0, 10)) == Tight(0, map[], map[0 := 10], map[0 := 10], [])
  {
  }

  lemma RaceExpire()
    ensures var r := Tight(10, map[], map[0 := 10], map[0 := 10], []);
            Enabled(r, HoldExpires(0)) && Next(r, HoldExpires(0)) == Tight(10, map[], map[], map[0 := 10], [])
  {
    var held: map<Reservation, int> := map[0 := 10];
    assert held - {0} == map[];
  }

  lemma RaceTake()
    ensures var r := Tight(10, map[], map[], map[0 := 10], []);
            Enabled(r, Take(0, Some(0), false)) && Next(r, Take(0, Some(0), false))
                == Tight(10, map[0 := Newcomer], map[], map[0 := 10], [])
  {
  }

  lemma RaceUse()
    ensures var r := Tight(10, map[0 := Newcomer], map[], map[0 := 10], []);
            && Enabled(r, UseReservation(0, true, 1, 1))
            && Next(r, UseReservation(0, true, 1, 1)) == Tight(10, map[0 := Newcomer, 1 := Latecomer], map[], map[],
                                                               [0])
  {
    hide SeatCount;
    var promised: map<Reservation, int> := map[0 := 10];
    var none: map<Reservation, int> := map[];
    assert promised - {0} == none && none - {0} == none;
    assert map[0 := Newcomer][1 := Latecomer] == map[0 := Newcomer, 1 := Latecomer];
  }

  /**
   At the very instant a reservation expires, the hold's timer may have given
   its place away while the matchmaker still accepts it: the room overfills.
   */
  lemma OverfullAtExpiry() returns (steps: seq<Step>)
    ensures var r := NewRoom(Config(1, true, false, Limits(0, 0)), 0);
            Possible(r, steps) && SeatCount(After(r, steps)) > r.config.maxClients
  {
    var r5 := Tight(10, map[0 := Newcomer, 1 := Latecomer], map[], map[], [0]);
    assert SeatCount(r5) == 2;
    assert NewRoom(Config(1, true, false, Limits(0, 0)), 0).config.maxClients == 1;
    hide Possible, After, Next, SeatCount, Enabled, Tight, NewRoom;
    RaceReserve();
    RaceExpire();
    RaceTake();
    RaceUse();
    RunNone(r5);
    steps := [];
    RunFirst(Tight(10, map[0 := Newcomer], map[], map[0 := 10], []), UseReservation(0, true, 1, 1), steps);
    steps := [UseReservation(0, true, 1, 1)] + steps;
    RunFirst(Tight(10, map[], map[], map[0 := 10], []), Take(0, Some(0), false), steps);
    steps := [Take(0, Some(0), false)] + steps;
    RunFirst(Tight(10, map[], map[0 := 10], map[0 := 10], []), HoldExpires(0), steps);
    steps := [HoldExpires(0)] + steps;
    RaceTick();
    RunFirst(Tight(0, map[], map[0 := 10], map[0 := 10], []), Tick(10), steps);
    steps := [Tick(10)] + steps;
    RunFirst(NewRoom(Config(1, true, false, Limits(0, 0)), 0), Reserve(0, 10), steps);
    steps := [Reserve(0, 10)] + steps;
  }

  lemma RaceTick()
    ensures var r := Tight(0, map[], map[0 := 10], map[0 := 10], []);
            Enabled(r, Tick(10)) && Next(r, Tick(10)) == Tight(10, map[], map[0 := 10], map[0 := 10], [])
  {
  }

  /** A room for two that holds the seat of one. */
  function Dropped(seats: Seating, disposing: bool): Room {
    Room(Config(2, true, false, Limits(0, 0)), 0, seats, map[7 := 0], {0}, map[], map[], {}, [], false, true,
         disposing, true, false)
  }

  const Held: Seat := Seat(Reconnecting, None, false, None, Some(7), false)
  const Arriving: Seat := Seat(Joining, Some(1), false, None, None, false)
  const Settled: Seat := Seat(Joined, Some(1), false, None, Some(8), false)

  lemma LateArrival()
    ensures Enabled(Dropped(map[0 := Held], false), Take(1, Some(1), false))
    ensures Next(Dropped(map[0 := Held], false), Take(1, Some(1), false))
            == Dropped(map[0 := Held, 1 := Arriving], false)
    ensures Enabled(Dropped(map[0 := Held, 1 := Arriving], false), Dispose)
    ensures Next(Dropped(map[0 := Held, 1 := Arriving], false), Dispose) == Dropped(map[0 := Held, 1 := Arriving], true)
  {
    var before: Seating := map[0 := Held];
    assert |before| == 1;
    assert before[1 := Arriving] == map[0 := Held, 1 := Arriving];
  }

  lemma LateCompletion()
    ensures Enabled(Dropped(map[0 := Held, 1 := Arriving], true), Complete(1, true, 8, false))
    ensures var r := Next(Dropped(map[0 := Held, 1 := Arriving], true), Complete(1, true, 8, false));
            r.paused && 1 in r.seats && r.seats[1] == Settled
  {
  }

  /** A room for two with one joined seat, or none yet. */
  function Lively(seats: Seating, tokens: map<Token, SeatId>): Room {
    Room(Config(2, true, false, Limits(0, 0)), 0, seats, tokens, {}, map[], map[], {}, [], false, true, false, false,
         true)
  }

  const First: Seat := Seat(Joining, Some(0), false, None, None, false)
  const FirstIn: Seat := Seat(Joined, Some(0), false, None, Some(7), false)

  lemma FirstArrival()
    ensures var r := NewRoom(Config(2, true, false, Limits(0, 0)), 0);
            Enabled(r, BecomeReady) && Next(r, BecomeReady) == Lively(map[], map[])
    ensures Enabled(Lively(map[], map[]), Take(0, Some(0), false))
    ensures Next(Lively(map[], map[]), Take(0, Some(0), false)) == Lively(map[0 := First], map[])
  {
  }

  lemma FirstCompletion()
    ensures var r := Lively(map[0 := First], map[]);
            Enabled(r, Complete(0, true, 7, false)) && Next(r, Complete(0, true, 7, false))
                == Lively(map[0 := FirstIn], map[7 := 0])
  {
    var granted: Seating := map[0 := First.(token := Some(7))];
    assert granted[0 := FirstIn] == map[0 := FirstIn];
    assert map[0 := First][0 := First.(token := Some(7))] == granted;
  }

  lemma FirstDrop()
    ensures Enabled(Lively(map[0 := FirstIn], map[7 := 0]), Lose(0, false))
    ensures Next(Lively(map[0 := FirstIn], map[7 := 0]), Lose(0, false)) == Dropped(map[0 := Held], false)
  {
    var held: Seating := map[0 := Held];
    assert map[0 := FirstIn][0 := Held] == held && held[0].status == Reconnecting;
    assert {} + {0} == {0};
  }

  lemma LateRun() returns (steps: seq<Step>)
    ensures Possible(Dropped(map[0 := Held], false), steps)
    ensures var r := After(Dropped(map[0 := Held], false), steps);
            r.paused && 1 in r.seats && r.seats[1].status == Joined && r.seats[1].channel.Some?
  {
    hide Possible, After, Next, Enabled, Dropped;
    LateCompletion();
    LateArrival();
    RunNone(Next(Dropped(map[0 := Held, 1 := Arriving], true), Complete(1, true, 8, false)));
    RunFirst(Dropped(map[0 := Held, 1 := Arriving], true), Complete(1, true, 8, false), []);
    steps := [Complete(1, true, 8, false)] + [];
    RunFirst(Dropped(map[0 := Held, 1 := Arriving], false), Dispose, steps);
    steps := [Dispose] + steps;
    RunFirst(Dropped(map[0 := Held], false), Take(1, Some(1), false), steps);
    steps := [Take(1, Some(1), false)] + steps;
  }

  /** A run into a room paused over one held seat, and on from there. */
  lemma FirstRun(rest: seq<Step>) returns (steps: seq<Step>)
    requires Possible(Dropped(map[0 := Held], false), rest)
    ensures var r := NewRoom(Config(2, true, false, Limits(0, 0)), 0);
            Possible(r, steps) && After(r, steps) == After(Dropped(map[0 := Held], false), rest)
  {
    hide Possible, After, Next, Enabled, Dropped, Lively, NewRoom;
    FirstArrival();
    FirstCompletion();
    FirstDrop();
    RunFirst(Lively(map[0 := FirstIn], map[7 := 0]), Lose(0, false), rest);
    steps := [Lose(0, false)] + rest;
    RunFirst(Lively(map[0 := First], map[]), Complete(0, true, 7, false), steps);
    steps := [Complete(0, true, 7, false)] + steps;
    RunFirst(Lively(map[], map[]), Take(0, Some(0), false), steps);
    steps := [Take(0, Some(0), false)] + steps;
    RunFirst(NewRoom(Config(2, true, false, Limits(0, 0)), 0), BecomeReady, steps);
    steps := [BecomeReady] + steps;
  }

  /**
   A room paused over a held seat, then a newcomer takes a seat, the room starts
   to go away and the newcomer's join completes: paused, with a joined,
   connected seat. So the pause is exact only until disposal starts.
   */
  lemma PausedYetConnected() returns (steps: seq<Step>)
    ensures var r := NewRoom(Config(2, true, false, Limits(0, 0)), 0);
            && Possible(r, steps)
            && var r' := After(r, steps);
               r'.paused && 1 in r'.seats && r'.seats[1].status == Joined && r'.seats[1].channel.Some?
  {
    hide Possible, After, Dropped, NewRoom;
    steps := LateRun();
    steps := FirstRun(steps);
  }

  lemma LateResume()
    ensures Enabled(Dropped(map[0 := Held], false), Dispose)
    ensures Next(Dropped(map[0 := Held], false), Dispose) == Dropped(map[0 := Held], true)
    ensures Enabled(Dropped(map[0 := Held], true), Resume(7, 5))
    ensures var r := Next(Dropped(map[0 := Held], true), Resume(7, 5));
            r.paused && 0 in r.seats && r.seats[0].status == Joined && r.seats[0].channel == Some(5)
  {
    assert HeldSeat(Dropped(map[0 := Held], true), 7) == Some(0);
  }

  /** The same through a seat resumed after disposal has started. */
  lemma PausedYetResumed() returns (steps: seq<Step>)
    ensures var r := NewRoom(Config(2, true, false, Limits(0, 0)), 0);
            && Possible(r, steps)
            && var r' := After(r, steps);
               r'.paused && 0 in r'.seats && r'.seats[0].status == Joined && r'.seats[0].channel.Some?
  {
    hide Possible, After, Next, Enabled, Dropped, NewRoom;
    LateResume();
    RunNone(Next(Dropped(map[0 := Held], true), Resume(7, 5)));
    RunFirst(Dropped(map[0 := Held], true), Resume(7, 5), []);
    RunFirst(Dropped(map[0 := Held], false), Dispose, [Resume(7, 5)] + []);
    steps := FirstRun([Dispose] + ([Resume(7, 5)] + []));
  }
}
