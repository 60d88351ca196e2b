/**
 The room object: seats, tokens, timers, reservations and state frames changed
 in place. Each method does to the fields what the step of `Seats` or
 `Replication` it stands for does to their value, so the invariants proved of
 every run of those steps hold of the object.
 */
module RoomObject {
  import opened Wrappers
  import opened Seats
  import opened Replication
  import SeatProofs

  class RoomObject<T(!new), D> {
    const codec: Deltas<T, D>
    const config: Config
    var now: int
    var seats: map<SeatId, Seat>
    var tokens: map<Token, SeatId>
    var timers: set<SeatId>
    var reservations: map<Reservation, int>
    var promised: map<Reservation, int>
    var issued: set<Reservation>
    var consumed: seq<Reservation>
    var locked: bool
    var ready: bool
    var disposing: bool
    var paused: bool
    var syncRunning: bool
    var root: Option<T>
    var base: T
    var pending: Option<(T, bool)>
    var logs: map<Channel, seq<Frame<D>>>
    ghost var bounds: seq<T>

    /** The seats and what goes with them. */
    function Now(): Room
      reads this
    {
      Room(config, now, seats, tokens, timers, reservations, promised, issued, consumed, locked, ready, disposing,
           paused, syncRunning)
    }

    ghost function Whole(): World<T, D>
      reads this
    {
      World(Now(), root, base, pending, logs, bounds)
    }

    constructor (codec: Deltas<T, D>, config: Config, now: int, root: Option<T>)
      ensures Whole() == NewWorld(codec, config, now, root) && this.codec == codec
      ensures WorldInv(codec, Whole())
    {
      this.codec, this.config, this.now, this.root, this.base := codec, config, now, root, Content(codec, root);
      seats, tokens, timers, reservations, promised := map[], map[], {}, map[], map[];
      issued, consumed, locked, ready, disposing, paused, syncRunning := {}, [], false, false, false, false, false;
      pending, logs, bounds := None, map[], [];
      new;
      NewWorldOk(codec, config, now, root);
    }

    // ----------------------------------------------------------------- seats

    method CheckEmpty()
      modifies this`disposing, this`syncRunning
      ensures Now() == Seats.CheckEmpty(old(Now()))
      ensures SeatInv(old(Now())) ==> SeatInv(Now())
    {
      hide SeatInv;
      if SeatInv(Now()) {
        SeatProofs.CheckEmptyKeeps(Now());
      }
      if config.autoDispose && ready && !disposing && seats == map[] && reservations == map[] {
        Dispose();
      }
    }

    /** The start of disposal: the loop stops, and no seat is given from here on. */
    method Dispose()
      modifies this`disposing, this`syncRunning
      ensures Now() == StartDispose(old(Now()))
      ensures SeatInv(old(Now())) ==> SeatInv(Now())
    {
      hide SeatInv;
      if SeatInv(Now()) {
        SeatProofs.PlainStepKeeps(Now(), Step.Dispose);
      }
      syncRunning := false;
      disposing := true;
    }

    method UpdatePause()
      modifies this`paused, this`syncRunning
      ensures Now() == Seats.UpdatePause(old(Now()))
      ensures SeatInv(old(Now())) ==> SeatInv(Now())
    {
      hide SeatInv;
      if SeatInv(Now()) {
        SeatProofs.PauseKeeps(Now());
      }
      if disposing || !ready {
        return;
      }
      var connected, held := 0, 0;
      var todo := seats.Keys;
      while todo != {}
        invariant todo <= seats.Keys && connected >= 0 && held >= 0
        invariant held > 0 <==> exists id :: id in seats && id !in todo && seats[id].status == Reconnecting
        invariant connected > 0 <==> exists id :: id in seats && id !in todo && IsConnected(seats[id])
        decreases |todo|
      {
        var id :| id in todo;
        todo := todo - {id};
        if seats[id].status == Reconnecting {
          held := held + 1;
        } else if seats[id].channel.Some? {
          connected := connected + 1;
        }
      }
      if !paused && connected == 0 && held > 0 {
        paused := true;
        syncRunning := false;
      } else if paused && connected > 0 {
        paused := false;
        syncRunning := true;
      }
    }

    method Sit(id: SeatId, channel: Option<Channel>, reserved: bool, keeps: bool) returns (ok: bool)
      modifies this`seats
      ensures var seated := TakeSeat(old(Now()), id, channel, reserved, keeps);
              ok == seated.Some? && Now() == (if ok then seated.value else old(Now()))
      ensures ok <==>
                && !disposing && id !in old(seats)
                && (reserved || (!locked && |old(seats)| + |reservations| < config.maxClients))
      ensures seats == if ok then old(seats)[id := Seat(Joining, channel, false, None, None, keeps)] else old(seats)
      ensures SeatInv(old(Now())) ==> SeatInv(Now())
    {
      hide SeatInv;
      if SeatInv(Now()) {
        SeatProofs.TakeKeeps(Now(), id, channel, reserved, keeps);
      }
      if reserved {
        if disposing {
          return false;
        }
      } else if disposing || locked || |seats| + |reservations| >= config.maxClients {
        return false;
      }
      if id in seats {
        return false;
      }
      seats := seats[id := Seat(Joining, channel, false, None, None, keeps)];
      return true;
    }

    method Unseat(id: SeatId)
      modifies this`seats, this`disposing, this`syncRunning
      ensures Now() == Seats.Unseat(old(Now()), id)
      ensures SeatInv(old(Now())) && (id in old(seats) ==> old(seats)[id].status == Joining) ==> SeatInv(Now())
    {
      hide SeatInv;
      if SeatInv(Now()) && (id in seats ==> seats[id].status == Joining) {
        SeatProofs.UnseatKeeps(Now(), id);
      }
      if id in seats {
        var keeps := seats[id].keeps;
        seats := seats - {id};
        if keeps {
          CheckEmpty();
        }
      }
    }

    method RevokeToken(id: SeatId)
      requires id in seats
      modifies this`tokens, this`seats
      ensures tokens == Revoked(old(tokens), old(seats)[id])
      ensures seats == old(seats)[id := old(seats)[id].(token := None)]
    {
      if seats[id].token.Some? {
        tokens := tokens - {seats[id].token.value};
      }
      seats := seats[id := seats[id].(token := None)];
    }

    method IssueToken(id: SeatId, token: Token) returns (issued: Option<Token>)
      requires id in seats
      modifies this`tokens, this`seats
      ensures Now() == Seats.IssueToken(old(Now()), id, token)
      ensures issued == seats[id].token
    {
      RevokeToken(id);
      issued := None;
      if config.reconnects {
        seats := seats[id := seats[id].(token := Some(token))];
        tokens := tokens[token := id];
        issued := Some(token);
      }
    }

    method Activate(id: SeatId)
      requires id in seats
      modifies this`seats, this`paused, this`syncRunning
      ensures Now() == Seats.Activate(old(Now()), id)
      ensures SeatInv(old(Now())) ==> SeatInv(Now())
    {
      hide SeatInv, Seats.UpdatePause;
      if SeatInv(Now()) {
        SeatProofs.ActivateKeeps(Now(), id);
      }
      if seats[id].status == Joining {
        seats := seats[id := seats[id].(status := Joined)];
        UpdatePause();
      }
    }

    method Reconnect(id: SeatId, channel: Channel)
      requires id in seats
      modifies this`seats, this`timers, this`paused, this`syncRunning
      ensures Now() == Seats.Reconnect(old(Now()), id, channel)
      ensures SeatInv(old(Now())) && old(seats)[id].status == Reconnecting ==> SeatInv(Now())
    {
      hide SeatInv, Seats.UpdatePause;
      SeatProofs.ReconnectedKeeps(Now(), id, channel);
      timers := timers - {id};
      seats := seats[id := seats[id].(channel := Some(channel), status := Joined, synced := false)];
      UpdatePause();
    }

    method Release(id: SeatId)
      modifies this`seats, this`tokens, this`timers, this`disposing, this`syncRunning
      ensures Now() == Seats.Release(old(Now()), id)
      ensures SeatInv(old(Now())) ==> SeatInv(Now())
    {
      hide SeatInv, Seats.CheckEmpty;
      if SeatInv(Now()) {
        SeatProofs.ReleaseKeeps(Now(), id);
      }
      if id !in seats {
        return;
      }
      var wasJoining := seats[id].status == Joining;
      timers := timers - {id};
      RevokeToken(id);
      seats := seats - {id};
      assert seats == old(seats) - {id};
      if wasJoining {
        CheckEmpty();
      }
    }

    method ConnectionLost(id: SeatId, shuttingDown: bool)
      modifies this`seats, this`tokens, this`timers, this`disposing, this`syncRunning, this`paused
      ensures Now() == Seats.ConnectionLost(old(Now()), id, shuttingDown)
      ensures SeatInv(old(Now())) ==> SeatInv(Now())
    {
      hide SeatInv, Seats.UpdatePause, Seats.Release;
      if SeatInv(Now()) {
        SeatProofs.LoseKeeps(Now(), id, shuttingDown);
      }
      if id !in seats || seats[id].status == Reconnecting {
        return;
      }
      seats := seats[id := seats[id].(channel := None)];
      if seats[id].status == Joining {
        return;
      }
      if config.reconnects && seats[id].token.Some? && !shuttingDown && !disposing {
        seats := seats[id := seats[id].(status := Reconnecting, synced := false)];
        timers := timers + {id};
        assert seats == old(seats)[id := old(seats)[id].(channel := None, status := Reconnecting, synced := false)];
        UpdatePause();
        return;
      }
      Release(id);
    }

    /** A join's last step; `open` is whether its connection still is. */
    method CompleteJoin(id: SeatId, open: bool, token: Token, shuttingDown: bool)
      requires id in seats
      modifies this`seats, this`tokens, this`timers, this`disposing, this`syncRunning, this`paused
      ensures Now() == Seats.CompleteJoin(old(Now()), id, open, token, shuttingDown)
      ensures SeatInv(old(Now())) && old(seats)[id].status == Joining && token !in old(tokens) ==> SeatInv(Now())
    {
      hide SeatInv, Seats.IssueToken, Seats.Activate, Seats.ConnectionLost;
      if SeatInv(Now()) && seats[id].status == Joining && token !in tokens {
        SeatProofs.CompleteKeeps(Now(), id, open, token, shuttingDown);
      }
      if open {
        SeatProofs.IssueCounts(Now(), id, token);
        var issued := IssueToken(id, token);
        Activate(id);
      } else {
        Activate(id);
        ConnectionLost(id, shuttingDown);
      }
    }

    /** A resumed seat's last step. */
    method CompleteResume(id: SeatId, open: bool, token: Token, shuttingDown: bool)
      requires id in seats
      modifies this`seats, this`tokens, this`timers, this`disposing, this`syncRunning, this`paused
      ensures Now() == Seats.CompleteResume(old(Now()), id, open, token, shuttingDown)
      ensures SeatInv(old(Now())) && old(seats)[id].status != Joining && token !in old(tokens) ==> SeatInv(Now())
    {
      hide SeatInv, Seats.IssueToken, Seats.ConnectionLost;
      if SeatInv(Now()) && seats[id].status != Joining && token !in tokens {
        SeatProofs.CompleteResumeKeeps(Now(), id, open, token, shuttingDown);
      }
      if open {
        var issued := IssueToken(id, token);
      } else {
        ConnectionLost(id, shuttingDown);
      }
    }

    // ---------------------------------------------------------- reservations

    method Hold(res: Reservation, ms: nat) returns (ok: bool)
      modifies this`reservations, this`promised, this`issued
      ensures ok == AcceptsNewSeat(old(Now()))
      ensures Now() == if ok then Seats.Hold(old(Now()), res, ms) else old(Now())
      ensures ok <==> !disposing && !locked && |seats| + |old(reservations)| < config.maxClients
      ensures ok ==> reservations == old(reservations)[res := now + ms] && promised == old(promised)[res := now + ms]
      ensures SeatInv(old(Now())) ==> SeatInv(Now())
    {
      hide SeatInv;
      if SeatInv(Now()) {
        SeatProofs.HoldKeeps(Now(), res, ms);
      }
      if disposing || locked || |seats| + |reservations| >= config.maxClients {
        return false;
      }
      reservations := reservations[res := now + ms];
      promised := promised[res := now + ms];
      issued := issued + {res};
      return true;
    }

    /** The reservation is no longer accepted or held. */
    method Withdraw(res: Reservation)
      modifies this`reservations, this`promised, this`consumed
      ensures Now() == Withdrawn(old(Now()), res)
    {
      promised := promised - {res};
      reservations := reservations - {res};
      consumed := consumed + [res];
    }

    method Consume(res: Reservation, admitted: bool, id: SeatId, channel: Channel) returns (ok: bool)
      modifies this`reservations, this`promised, this`consumed, this`seats
      ensures Now() == if Consumable(old(Now()), res) then Seats.Consume(old(Now()), res, admitted, id, channel)
              else old(Now())
      ensures ok <==> Consumable(old(Now()), res) && admitted && !old(disposing) && id !in old(seats)
      ensures ok ==> id in seats && seats[id] == Seat(Joining, Some(channel), false, None, None, true)
      ensures SeatInv(old(Now())) ==> SeatInv(Now())
    {
      hide SeatInv, TakeSeat, Seats.Consume, Withdrawn;
      ghost var r := Now();
      ConsumedIs(r, res, admitted, id, channel);
      if res !in promised || now > promised[res] {
        return false;
      }
      Withdraw(res);
      ok := false;
      if admitted {
        ok := Sit(id, Some(channel), true, true);
      }
    }

    // -------------------------------------------------------- sync boundaries

    /** A valid state assigned since the last boundary replaces the tree; everyone waits for a snapshot. */
    method AdoptReplacedState() returns (adopted: bool)
      modifies this`root, this`pending, this`seats
      ensures adopted == Adopts(old(Whole())) && root == NextRoot(old(Whole()))
      ensures adopted <==> old(pending).Some? && old(pending).value.1
      ensures root == if adopted then Some(old(pending).value.0) else old(root)
      ensures pending == if adopted then None else old(pending)
      ensures seats.Keys == old(seats).Keys
      ensures forall id :: id in seats ==> seats[id] == if adopted then old(seats)[id].(synced := false)
              else old(seats)[id]
    {
      adopted := pending.Some? && pending.value.1;
      if !adopted {
        return;
      }
      root := Some(pending.value.0);
      pending := None;
      var todo := seats.Keys;
      while todo != {}
        invariant todo <= seats.Keys == old(seats).Keys
        invariant root == Some(old(pending).value.0) && pending == None
        invariant forall id :: id in seats ==> seats[id] == if id in todo then old(seats)[id]
                  else old(seats)[id].(synced := false)
        decreases |todo|
      {
        var id :| id in todo;
        todo := todo - {id};
        seats := seats[id := seats[id].(synced := false)];
      }
    }

    method ApplyBackpressure(queued: map<Channel, int>)
      modifies this`seats
      ensures seats.Keys == old(seats).Keys
      ensures forall id :: id in seats ==> seats[id] == Pressed(old(seats)[id], config.limits, queued, now)
    {
      if config.limits.pauseBytes <= 0 {
        return;
      }
      var todo := seats.Keys;
      while todo != {}
        invariant todo <= seats.Keys == old(seats).Keys
        invariant forall id :: id in seats ==>
                    seats[id] == if id in todo then old(seats)[id]
                        else Pressed(old(seats)[id], config.limits, queued, now)
        decreases |todo|
      {
        var id :| id in todo;
        todo := todo - {id};
        var s := seats[id];
        if s.status == Joined && s.channel.Some? && s.channel.value in queued {
          var bytes := queued[s.channel.value];
          if s.pausedSince.None? {
            if bytes > config.limits.pauseBytes {
              seats := seats[id := s.(pausedSince := Some(now), synced := false)];
            }
          } else if bytes <= config.limits.resumeBytes {
            seats := seats[id := s.(pausedSince := None)];
          }
        }
      }
    }

    /** The patch, sent to the synced seats on their channels; then the changes are cleared. */
    method SendPatches()
      requires OwnChannels(seats, logs) && forall id :: id in seats && WantsPatch(seats[id]) ==> seats[id].channel.Some?
      modifies this`logs, this`base
      ensures base == Content(codec, root) || (root.None? && base == old(base))
      ensures OwnChannels(seats, logs)
      ensures Delivered(seats, {}, old(logs), logs, Patches(codec, old(base), root, seats))
    {
      hide Delivered, OwnChannels, Patches;
      ghost var frames := Patches(codec, base, root, seats);
      PatchesAre(codec, base, root, seats);
      DeliverNone(seats, logs, frames);
      if root.None? {
        return;
      }
      var ops := codec.delta(base, root.value);
      if !codec.none(ops) {
        var todo := seats.Keys;
        while todo != {}
          invariant todo <= seats.Keys && base == old(base)
          invariant Delivered(seats, todo, old(logs), logs, frames)
          decreases |todo|
        {
          var id :| id in todo;
          ghost var before := logs;
          DeliveredKeys(seats, todo, old(logs), logs, frames, id);
          if WantsPatch(seats[id]) {
            var ch := seats[id].channel.value;
            logs := logs[ch := logs[ch] + [Patch(ops)]];
          }
          DeliverOne(seats, todo, old(logs), before, logs, frames, id);
          todo := todo - {id};
        }
      }
      base := root.value;
      DeliveredOwn(seats, old(logs), logs, frames);
    }

    method SendSnapshot(id: SeatId)
      requires id in seats && (seats[id].channel.Some? ==> seats[id].channel.value in logs)
      modifies this`logs, this`seats
      ensures seats == old(seats)[id := Snapped(old(seats)[id])]
      ensures logs == if SnapshotFor(codec, root, old(seats)[id]) == [] then old(logs)
                      else old(logs)[old(seats)[id].channel.value :=
                                       old(logs)[old(seats)[id].channel.value] + SnapshotFor(codec, root,
                                           old(seats)[id])]
    {
      if WantsSnapshot(seats[id]) {
        var ch := seats[id].channel.value;
        logs := logs[ch := logs[ch] + [Snapshot(codec.delta(codec.empty, Content(codec, root)))]];
        seats := seats[id := seats[id].(synced := true)];
      }
    }

    /** A snapshot for each seat that waits for one. */
    method SendSnapshots()
      requires OwnChannels(seats, logs)
      modifies this`logs, this`seats
      ensures Delivered(old(seats), {}, old(logs), logs, Snapshots(codec, root, old(seats)))
      ensures seats.Keys == old(seats).Keys
      ensures forall id :: id in seats ==> seats[id] == Snapped(old(seats)[id])
    {
      hide OwnChannels, Progress, Snapshots, Snapped, SnapshotFor, Delivered;
      ghost var seats0, logs0, frames := seats, logs, Snapshots(codec, root, seats);
      SnapshotsAre(codec, root, seats);
      Begin(seats, logs, frames);
      var todo := seats.Keys;
      while todo != {}
        invariant Progress(seats0, logs0, frames, todo, seats, logs)
        decreases |todo|
      {
        var id :| id in todo;
        Ready(seats0, logs0, frames, todo, seats, logs, id);
        SendSnapshot(id);
        todo := todo - {id};
      }
      Finish(seats0, logs0, frames, seats, logs);
    }

    /** One sync boundary. */
    method SyncNow(queued: map<Channel, int>)
      requires WorldInv(codec, Whole())
      modifies this
      ensures Whole() == Replication.SyncNow(codec, old(Whole()), queued)
      ensures Lawful(codec) ==> WorldInv(codec, Whole())
    {
      if disposing || !ready {
        return;
      }
      ghost var w := Whole();
      WorldChannels(codec, w);
      hide WorldInv, Sound, Replication.SyncNow, Lawful;
      Exchange(queued);
      if Lawful(codec) {
        SyncKeeps(codec, w, queued);
      }
    }

    /** The boundary itself. */
    method Exchange(queued: map<Channel, int>)
      requires !disposing && ready && Sound(codec, Whole())
      modifies this
      ensures Whole() == Replication.SyncNow(codec, old(Whole()), queued)
    {
      ghost var w := Whole();
      hide Sound, Prepared, Replication.SyncNow;
      Prepare(queued);
      Broadcast(w, queued);
    }

    /** Adoption and backpressure. */
    method Prepare(queued: map<Channel, int>)
      requires !disposing && ready && Sound(codec, Whole())
      modifies this`root, this`pending, this`seats
      ensures Prepared(codec, old(Whole()), Whole(), queued)
    {
      ghost var w := Whole();
      hide Pressed, ChannelsOk, OwnChannels, SeatsOk, WantsPatch, AreConsidered;
      var adopted := AdoptReplacedState();
      ghost var unpressed := seats;
      ApplyBackpressure(queued);
      ConsideredIs(w, unpressed, seats, queued);
      ConsideredChannels(w, seats, queued);
    }

    /** Patches, then snapshots. */
    method Broadcast(ghost w: World<T, D>, queued: map<Channel, int>)
      requires Prepared(codec, w, Whole(), queued)
      modifies this`logs, this`seats, this`base, this`bounds
      ensures Whole() == Replication.SyncNow(codec, w, queued)
    {
      hide ChannelsOk, Delivered, OwnChannels, AreConsidered, WantsPatch, Patches, Snapshots, Snapped,
           Replication.SyncNow;
      ghost var considered := seats;
      SendPatches();
      ghost var patched := logs;
      SendSnapshots();
      bounds := bounds + [base];
      BoundaryIs(codec, w, queued, considered, patched, Whole());
    }
  }

  function Withdrawn(r: Room, res: Reservation): Room {
    r.(promised := r.promised - {res}, reservations := r.reservations - {res}, consumed := r.consumed + [res])
  }

  /** What using a reservation comes to, by whether the client sits down. */
  lemma ConsumedIs(r: Room, res: Reservation, admitted: bool, id: SeatId, channel: Channel)
    ensures var r1 := Withdrawn(r, res);
            var seated := TakeSeat(r1, id, Some(channel), true, true);
            && Seats.Consume(r, res, admitted, id, channel) == (if admitted && seated.Some? then seated.value else r1)
            && (seated.Some? <==> !r.disposing && id !in r.seats)
            && (seated.Some? ==>
                  id in seated.value.seats
                  && seated.value.seats[id] == Seat(Joining, Some(channel), false, None, None, true))
    ensures SeatInv(r) ==> SeatInv(Seats.Consume(r, res, admitted, id, channel))
  {
    hide SeatInv, SeatCount;
    if SeatInv(r) {
      SeatProofs.ConsumeKeeps(r, res, admitted, id, channel);
    }
  }

  function PatchFor<T(!new), D>(c: Deltas<T, D>, base: T, root: Option<T>, s: Seat): seq<Frame<D>> {
    if !WantsPatch(s) || root.None? || c.none(c.delta(base, root.value)) then [] else [Patch(c.delta(base, root.value))]
  }

  function Snapped(s: Seat): Seat {
    if WantsSnapshot(s) then s.(synced := true) else s
  }

  /** The seats not in `todo` have had their turn. */
  ghost predicate Served(before: Seating, todo: set<SeatId>, after: Seating) {
    && after.Keys == before.Keys
    && forall id :: id in before ==> after[id] == if id in todo then before[id] else Snapped(before[id])
  }

  lemma ServeOne(before: Seating, todo: set<SeatId>, after: Seating, id: SeatId)
    requires Served(before, todo, after) && id in todo && id in before
    ensures id in after && after[id] == before[id] && Served(before, todo - {id}, after[id := Snapped(before[id])])
  {
  }

  function SnapshotFor<T(!new), D>(c: Deltas<T, D>, root: Option<T>, s: Seat): seq<Frame<D>> {
    if WantsSnapshot(s) then [Snapshot(c.delta(c.empty, Content(c, root)))] else []
  }

  ghost function Patches<T(!new), D>(c: Deltas<T, D>, base: T, root: Option<T>, seats: Seating): map<SeatId,
      seq<Frame<D>>> {
    map id | id in seats :: PatchFor(c, base, root, seats[id])
  }

  ghost function Snapshots<T(!new), D>(c: Deltas<T, D>, root: Option<T>, seats: Seating): map<SeatId, seq<Frame<D>>> {
    map id | id in seats :: SnapshotFor(c, root, seats[id])
  }

  lemma PatchesAre<T(!new), D>(c: Deltas<T, D>, base: T, root: Option<T>, seats: Seating)
    ensures Patches(c, base, root, seats).Keys == seats.Keys
    ensures forall id :: id in seats ==> Patches(c, base, root, seats)[id] == PatchFor(c, base, root, seats[id])
  {
  }

  lemma SnapshotsAre<T(!new), D>(c: Deltas<T, D>, root: Option<T>, seats: Seating)
    ensures Snapshots(c, root, seats).Keys == seats.Keys
    ensures forall id :: id in seats ==> Snapshots(c, root, seats)[id] == SnapshotFor(c, root, seats[id])
    ensures forall id :: id in seats && seats[id].channel.None? ==> Snapshots(c, root, seats)[id] == []
  {
  }

  /** Every bound seat has its own log. */
  ghost predicate OwnChannels<D>(seats: Seating, logs: map<Channel, seq<Frame<D>>>) {
    && (forall id :: id in seats && seats[id].channel.Some? ==> seats[id].channel.value in logs)
    && (forall i, j :: i in seats && j in seats && i != j && seats[i].channel.Some? ==>
        seats[i].channel != seats[j].channel)
  }

  ghost predicate Unowned(seats: Seating, ch: Channel) {
    forall id :: id in seats ==> seats[id].channel != Some(ch)
  }

  /** `frames` of the seats not in `todo` went out on their channels, and nothing else anywhere. */
  ghost predicate Delivered<D>(seats: Seating, todo: set<SeatId>, before: map<Channel, seq<Frame<D>>>,
                               after: map<Channel, seq<Frame<D>>>, frames: map<SeatId, seq<Frame<D>>>)
  {
    && after.Keys == before.Keys && frames.Keys == seats.Keys
    && (forall id :: id in seats && seats[id].channel.Some? && seats[id].channel.value in before ==>
          after[seats[id].channel.value] ==
          before[seats[id].channel.value] + (if id in todo then [] else frames[id]))
    && (forall ch :: ch in before && Unowned(seats, ch) ==> after[ch] == before[ch])
  }

  lemma DeliverNone<D>(seats: Seating, logs: map<Channel, seq<Frame<D>>>, frames: map<SeatId, seq<Frame<D>>>)
    requires OwnChannels(seats, logs) && frames.Keys == seats.Keys
    ensures Delivered(seats, seats.Keys, logs, logs, frames)
    ensures (forall id :: id in frames ==> frames[id] == []) ==> Delivered(seats, {}, logs, logs, frames)
  {
  }

  lemma DeliveredKeys<D>(seats: Seating, todo: set<SeatId>, before: map<Channel, seq<Frame<D>>>,
                         logs: map<Channel, seq<Frame<D>>>, frames: map<SeatId, seq<Frame<D>>>, id: SeatId)
    requires OwnChannels(seats, before) && Delivered(seats, todo, before, logs, frames) && id in seats
    ensures seats[id].channel.Some? ==> seats[id].channel.value in logs
  {
  }

  lemma DeliveredOwn<D>(seats: Seating, before: map<Channel, seq<Frame<D>>>, logs: map<Channel, seq<Frame<D>>>,
                        frames: map<SeatId, seq<Frame<D>>>)
    requires OwnChannels(seats, before) && Delivered(seats, {}, before, logs, frames)
    ensures OwnChannels(seats, logs)
  {
  }

  lemma DeliveredAt<D>(seats: Seating, before: map<Channel, seq<Frame<D>>>, after: map<Channel, seq<Frame<D>>>,
                       frames: map<SeatId, seq<Frame<D>>>, ch: Channel)
    requires Delivered(seats, {}, before, after, frames) && ch in before
    ensures ch in after
    ensures forall id :: id in seats && seats[id].channel == Some(ch) ==>
              id in frames && after[ch] == before[ch] + frames[id]
    ensures Unowned(seats, ch) ==> after[ch] == before[ch]
  {
  }

  /** How far the snapshot loop has come: the seats not in `todo` have had their turn. */
  ghost predicate Progress<D>(seats0: Seating, logs0: map<Channel, seq<Frame<D>>>, frames: map<SeatId, seq<Frame<D>>>,
                              todo: set<SeatId>, seats: Seating, logs: map<Channel, seq<Frame<D>>>)
  {
    && todo <= seats0.Keys && OwnChannels(seats0, logs0)
    && Delivered(seats0, todo, logs0, logs, frames) && Served(seats0, todo, seats)
    && forall id :: id in seats0 && seats0[id].channel.None? ==> frames[id] == []
  }

  lemma Begin<D>(seats: Seating, logs: map<Channel, seq<Frame<D>>>, frames: map<SeatId, seq<Frame<D>>>)
    requires OwnChannels(seats, logs) && frames.Keys == seats.Keys
    requires forall id :: id in seats && seats[id].channel.None? ==> frames[id] == []
    ensures Progress(seats, logs, frames, seats.Keys, seats, logs)
  {
    hide OwnChannels, Delivered, Snapped;
    DeliverNone(seats, logs, frames);
  }

  /** A seat whose turn it is, and where its turn leads. */
  lemma Ready<D>(seats0: Seating, logs0: map<Channel, seq<Frame<D>>>, frames: map<SeatId, seq<Frame<D>>>,
                 todo: set<SeatId>, seats: Seating, logs: map<Channel, seq<Frame<D>>>, id: SeatId)
    requires Progress(seats0, logs0, frames, todo, seats, logs) && id in todo
    ensures id in seats && id in seats0 && id in frames && seats[id] == seats0[id]
    ensures seats[id].channel.Some? ==> seats[id].channel.value in logs
    ensures frames[id] == [] ==> Progress(seats0, logs0, frames, todo - {id}, seats[id := Snapped(seats[id])], logs)
    ensures frames[id] != [] ==>
              seats[id].channel.Some? &&
              Progress(seats0, logs0, frames, todo - {id}, seats[id := Snapped(seats[id])],
                       logs[seats[id].channel.value := logs[seats[id].channel.value] + frames[id]])
  {
    assert id in frames;
    hide Served, OwnChannels, Delivered, Snapped;
    DeliveredKeys(seats0, todo, logs0, logs, frames, id);
    ServeOne(seats0, todo, seats, id);
    if frames[id] == [] {
      DeliverOne(seats0, todo, logs0, logs, logs, frames, id);
    } else {
      var ch := seats[id].channel.value;
      DeliverOne(seats0, todo, logs0, logs, logs[ch := logs[ch] + frames[id]], frames, id);
    }
  }

  lemma Finish<D>(seats0: Seating, logs0: map<Channel, seq<Frame<D>>>, frames: map<SeatId, seq<Frame<D>>>,
                  seats: Seating, logs: map<Channel, seq<Frame<D>>>)
    requires Progress(seats0, logs0, frames, {}, seats, logs)
    ensures Delivered(seats0, {}, logs0, logs, frames)
    ensures seats.Keys == seats0.Keys && forall id :: id in seats ==> seats[id] == Snapped(seats0[id])
  {
    hide OwnChannels, Delivered, Snapped;
  }

  /** One more seat served. */
  lemma DeliverOne<D>(seats: Seating, todo: set<SeatId>, before: map<Channel, seq<Frame<D>>>,
                      logs: map<Channel, seq<Frame<D>>>, logs': map<Channel, seq<Frame<D>>>,
                      frames: map<SeatId, seq<Frame<D>>>, id: SeatId)
    requires OwnChannels(seats, before) && Delivered(seats, todo, before, logs, frames) && id in todo && id in seats
    requires if seats[id].channel.None? then logs' == logs && frames[id] == []
             else logs' == (if frames[id] == [] then logs
                            else logs[seats[id].channel.value := logs[seats[id].channel.value] + frames[id]])
    ensures Delivered(seats, todo - {id}, before, logs', frames)
  {
    assert forall i :: i in seats && seats[i].channel.Some? && i != id ==> seats[i].channel != seats[id].channel;
  }

  // ------------------------------------------------------------ the boundary

  /** What a boundary relies on. */
  ghost predicate Sound<T(!new), D>(c: Deltas<T, D>, w: World<T, D>) {
    && ChannelsOk(w) && OwnChannels(w.room.seats, w.logs) && SeatsOk(w.room.seats)
    && (w.root.None? ==> w.base == c.empty)
  }

  /** The state adopted, the seats considered, and nothing sent yet. */
  ghost predicate Prepared<T(!new), D>(c: Deltas<T, D>, w: World<T, D>, now: World<T, D>, queued: map<Channel, int>) {
    && !w.room.disposing && w.room.ready && ChannelsOk(w) && AreConsidered(w, now.room.seats, queued)
    && now == w.(room := w.room.(seats := now.room.seats), root := NextRoot(w),
                 pending := if Adopts(w) then None else w.pending)
    && OwnChannels(now.room.seats, w.logs) && (now.root.None? ==> now.base == c.empty)
    && now.room.seats.Keys == w.room.seats.Keys
    && forall id :: id in now.room.seats ==>
         && now.room.seats[id].channel == w.room.seats[id].channel
         && (WantsPatch(now.room.seats[id]) ==> now.room.seats[id].channel.Some?)
  }

  lemma WorldChannels<T(!new), D>(c: Deltas<T, D>, w: World<T, D>)
    requires WorldInv(c, w)
    ensures Sound(c, w)
  {
    hide LogOk, Fold;
  }

  /** The seats as the boundary considers them. */
  ghost predicate AreConsidered<T(!new), D>(w: World<T, D>, seats: Seating, queued: map<Channel, int>) {
    && seats.Keys == w.room.seats.Keys
    && forall id :: id in seats ==>
         seats[id] == Considered(w.room.seats[id], Adopts(w), w.room.config.limits, queued, w.room.now)
  }

  lemma ConsideredIs<T(!new), D>(w: World<T, D>, unpressed: Seating, seats: Seating, queued: map<Channel, int>)
    requires seats.Keys == unpressed.Keys == w.room.seats.Keys
    requires forall id :: id in unpressed ==>
               unpressed[id] == if Adopts(w) then w.room.seats[id].(synced := false) else w.room.seats[id]
    requires forall id :: id in seats ==> seats[id] == Pressed(unpressed[id], w.room.config.limits, queued, w.room.now)
    ensures AreConsidered(w, seats, queued)
  {
    hide Pressed;
  }

  lemma ConsideredChannels<T(!new), D>(w: World<T, D>, seats: Seating, queued: map<Channel, int>)
    requires AreConsidered(w, seats, queued) && OwnChannels(w.room.seats, w.logs) && SeatsOk(w.room.seats)
    ensures OwnChannels(seats, w.logs) && seats.Keys == w.room.seats.Keys
    ensures forall id :: id in seats ==> seats[id].channel == w.room.seats[id].channel
    ensures forall id :: id in seats && WantsPatch(seats[id]) ==> seats[id].channel.Some?
  {
    forall id | id in seats
      ensures seats[id].channel == w.room.seats[id].channel
      ensures WantsPatch(seats[id]) ==> seats[id].channel.Some?
    {
      assert SeatOk(w.room.seats[id]);
    }
  }

  /** A seat's frame is its patch or its snapshot. */
  lemma FrameIs<T(!new), D>(c: Deltas<T, D>, w: World<T, D>, queued: map<Channel, int>, s: Seat)
    ensures var s' := Considered(s, Adopts(w), w.room.config.limits, queued, w.room.now);
            FrameFor(c, w, queued, s) == PatchFor(c, w.base, NextRoot(w), s') + SnapshotFor(c, NextRoot(w), s')
  {
    hide Pressed;
  }

  lemma SentNothing<T(!new), D>(c: Deltas<T, D>, w: World<T, D>, queued: map<Channel, int>, ch: Channel)
    requires !exists id :: id in w.room.seats && w.room.seats[id].channel == Some(ch)
    ensures SentOn(c, w, queued, ch) == []
  {
  }

  lemma ChannelLog<T(!new), D>(c: Deltas<T, D>, w: World<T, D>, queued: map<Channel, int>, considered: Seating,
                               patched: map<Channel, seq<Frame<D>>>, logs: map<Channel, seq<Frame<D>>>, ch: Channel)
    requires ChannelsOk(w) && AreConsidered(w, considered, queued)
    requires forall id :: id in considered ==> considered[id].channel == w.room.seats[id].channel
    requires Delivered(considered, {}, w.logs, patched, Patches(c, w.base, NextRoot(w), considered))
    requires Delivered(considered, {}, patched, logs, Snapshots(c, NextRoot(w), considered))
    requires ch in w.logs
    ensures ch in logs && logs[ch] == w.logs[ch] + SentOn(c, w, queued, ch)
  {
    hide Considered, PatchFor, SnapshotFor, FrameFor, Delivered, Patches, Snapshots, SentOn, ChannelsOk;
    DeliveredAt(considered, w.logs, patched, Patches(c, w.base, NextRoot(w), considered), ch);
    DeliveredAt(considered, patched, logs, Snapshots(c, NextRoot(w), considered), ch);
    PatchesAre(c, w.base, NextRoot(w), considered);
    SnapshotsAre(c, NextRoot(w), considered);
    if id :| id in w.room.seats && w.room.seats[id].channel == Some(ch) {
      SentIs(c, w, queued, id);
      FrameIs(c, w, queued, w.room.seats[id]);
      var a, b := PatchFor(c, w.base, NextRoot(w), considered[id]), SnapshotFor(c, NextRoot(w), considered[id]);
      assert patched[ch] == w.logs[ch] + a && logs[ch] == patched[ch] + b;
      assert (w.logs[ch] + a) + b == w.logs[ch] + (a + b);
    } else {
      assert Unowned(considered, ch);
      SentNothing(c, w, queued, ch);
      assert w.logs[ch] + [] == w.logs[ch];
    }
  }

  lemma SeatsAre<T(!new), D>(w: World<T, D>, queued: map<Channel, int>, considered: Seating, seats: Seating)
    requires !w.room.disposing && w.room.ready && AreConsidered(w, considered, queued) && seats.Keys == considered.Keys
    requires forall id :: id in seats ==> seats[id] == Snapped(considered[id])
    ensures Boundary(w.room, Adopts(w), queued) == w.room.(seats := seats)
  {
    hide AfterBoundary, Considered, Snapped;
    var spec := Boundary(w.room, Adopts(w), queued).seats;
    forall id | id in w.room.seats
      ensures spec[id] == seats[id]
    {
      SnappedIs(w, queued, w.room.seats[id]);
    }
    assert spec == seats;
  }

  lemma LogsAre<T(!new), D>(c: Deltas<T, D>, w: World<T, D>, queued: map<Channel, int>, considered: Seating,
                            patched: map<Channel, seq<Frame<D>>>, logs: map<Channel, seq<Frame<D>>>)
    requires ChannelsOk(w) && AreConsidered(w, considered, queued)
    requires forall id :: id in considered ==> considered[id].channel == w.room.seats[id].channel
    requires Delivered(considered, {}, w.logs, patched, Patches(c, w.base, NextRoot(w), considered))
    requires Delivered(considered, {}, patched, logs, Snapshots(c, NextRoot(w), considered))
    ensures logs == map ch | ch in w.logs :: w.logs[ch] + SentOn(c, w, queued, ch)
  {
    assert logs.Keys == w.logs.Keys;
    hide Delivered, SentOn, AreConsidered, ChannelsOk, Patches, Snapshots;
    forall ch | ch in w.logs
      ensures logs[ch] == w.logs[ch] + SentOn(c, w, queued, ch)
    {
      ChannelLog(c, w, queued, considered, patched, logs, ch);
    }
  }

  /** Adoption, backpressure, patches and snapshots, one after the other, are the boundary. */
  lemma BoundaryIs<T(!new), D>(c: Deltas<T, D>, w: World<T, D>, queued: map<Channel, int>, considered: Seating,
                               patched: map<Channel, seq<Frame<D>>>, w': World<T, D>)
    requires !w.room.disposing && w.room.ready && ChannelsOk(w) && AreConsidered(w, considered, queued)
    requires forall id :: id in considered ==> considered[id].channel == w.room.seats[id].channel
    requires Delivered(considered, {}, w.logs, patched, Patches(c, w.base, NextRoot(w), considered))
    requires Delivered(considered, {}, patched, w'.logs, Snapshots(c, NextRoot(w), considered))
    requires w'.root == NextRoot(w) && w'.base == Content(c, NextRoot(w)) && w'.bounds == w.bounds + [w'.base]
    requires w'.pending == if Adopts(w) then None else w.pending
    requires w'.room == w.room.(seats := w'.room.seats) && w'.room.seats.Keys == considered.Keys
    requires forall id :: id in w'.room.seats ==> w'.room.seats[id] == Snapped(considered[id])
    ensures w' == Replication.SyncNow(c, w, queued)
  {
    hide Delivered, SentOn, AreConsidered, Boundary, ChannelsOk, Snapped, Patches, Snapshots, NextRoot, Content, Adopts;
    SeatsAre(w, queued, considered, w'.room.seats);
    LogsAre(c, w, queued, considered, patched, w'.logs);
  }

  lemma SnappedIs<T(!new), D>(w: World<T, D>, queued: map<Channel, int>, s: Seat)
    ensures AfterBoundary(s, Adopts(w), w.room.config.limits, queued, w.room.now) ==
            Snapped(Considered(s, Adopts(w), w.room.config.limits, queued, w.room.now))
  {
    hide Pressed;
  }
}
