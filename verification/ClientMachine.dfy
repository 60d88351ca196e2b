/**
 The client object, which changes in place. Each method leaves exactly the state
 that `ClientSteps` gives, and each event keeps the invariant of `ClientRuns`,
 so what is proved there of every run holds of the object.
 */
module ClientMachine {
  import opened Wrappers
  import opened ClientSteps
  import opened ClientRuns

  class Client {
    var line: Line
    var tables: Tables

    function Now(): State
      reads this
    {
      State(line, tables)
    }

    ghost predicate Valid()
      reads this
    {
      Ok(Now())
    }

    constructor (options: Reconnection, fetchesToken: bool)
      ensures Valid() && Now() == NewClient(options, fetchesToken)
    {
      line := Line(options, fetchesToken, Disconnected, None, 0, 0, false, 0, {}, 0, [], 1, 0);
      tables := Tables(map[], map[], {}, map[], map[]);
      new;
      NewClientOk(options, fetchesToken);
    }

    // ------------------------------------------------------------ rooms and joins

    /** Takes a join from those that wait and resolves its promise. */
    method Resolve(q: Request)
      requires q in tables.pending
      modifies this`tables
      ensures tables == Answered(old(tables), q)
    {
      var p := tables.pending[q].promise;
      tables := tables.(pending := tables.pending - {q});
      if p in tables.answers {
        var times := tables.answers[p].times + 1;
        tables := tables.(answers := tables.answers[p := tables.answers[p].(times := times)]);
      }
    }

    method Unseat(r: RoomId)
      modifies this`tables
      ensures tables == Unseated(old(tables), r)
    {
      if r in tables.rooms {
        var link := tables.rooms[r];
        if link.ref in tables.byRef && tables.byRef[link.ref] == r && link.status != Left {
          tables := tables.(byRef := tables.byRef - {link.ref});
        }
      }
    }

    method Leave(r: RoomId)
      requires r in tables.rooms
      modifies this`tables
      ensures tables == ClientSteps.Leave(old(tables), r)
    {
      var link := tables.rooms[r];
      if link.status == Left {
        return;
      }
      tables := tables.(rooms := tables.rooms[r := link.(status := Left)]);
      if link.ref in tables.byRef && tables.byRef[link.ref] == r {
        tables := tables.(byRef := tables.byRef - {link.ref});
      }
      tables := tables.(resuming := tables.resuming - {r});
      assert tables == Forgotten(old(tables), r);
      var q := JoinOf(tables, r);
      if q.Some? {
        Resolve(q.value);
      }
    }

    method Settle(q: Request, ok: bool)
      modifies this`tables
      ensures tables == ClientSteps.Settle(old(tables), q, ok)
    {
      if q !in tables.pending {
        return;
      }
      var p := tables.pending[q];
      Resolve(q);
      if p.room in tables.rooms {
        if ok {
          tables := tables.(rooms := tables.rooms[p.room := tables.rooms[p.room].(given := true)]);
        } else {
          Unseat(p.room);
          if p.resume {
            Leave(p.room);
          }
        }
      }
    }

    /** A room waits to be resumed; a room that was left keeps its status. */
    method Suspend(r: RoomId)
      requires r in tables.rooms
      modifies this`tables
      ensures tables == Suspended(old(tables), r)
    {
      tables := tables.(resuming := tables.resuming + {r});
      if tables.rooms[r].status != Left {
        tables := tables.(rooms := tables.rooms[r := tables.rooms[r].(status := Reconnecting)]);
      } else {
        assert tables.rooms == tables.rooms[r := tables.rooms[r]];
      }
    }

    method FailAll()
      modifies this`tables
      ensures tables == ClientSteps.FailAll(old(tables))
    {
      hide ClientSteps.Settle;
      while tables.pending != map[]
        invariant ClientSteps.FailAll(tables) == ClientSteps.FailAll(old(tables))
        decreases |tables.pending|
      {
        var q := Least(tables.pending.Keys);
        Smaller(tables, ClientSteps.Settle(tables, q, false), q);
        Settle(q, false);
      }
    }

    method LeaveEach(rooms: set<RoomId>)
      modifies this`tables
      ensures tables == ClientSteps.LeaveEach(old(tables), rooms)
    {
      hide ClientSteps.Leave;
      var todo := rooms;
      while todo != {}
        invariant ClientSteps.LeaveEach(tables, todo) == ClientSteps.LeaveEach(old(tables), rooms)
        decreases |todo|
      {
        var r := Least(todo);
        if r in tables.rooms {
          Leave(r);
        }
        todo := todo - {r};
      }
    }

    method EndRooms()
      modifies this`tables
      ensures tables == ClientSteps.EndRooms(old(tables))
    {
      FailAll();
      var rooms := tables.byRef.Values + tables.resuming;
      tables := tables.(byRef := map[], resuming := {});
      LeaveEach(rooms);
    }

    /** Joins in flight fail, resumes in flight go back to waiting. */
    method SuspendPending()
      modifies this`tables
      ensures tables == ClientSteps.SuspendPending(old(tables))
    {
      hide ClientSteps.Settle;
      while tables.pending != map[]
        invariant ClientSteps.SuspendPending(tables) == ClientSteps.SuspendPending(old(tables))
        decreases |tables.pending|
      {
        var q := Least(tables.pending.Keys);
        var p := tables.pending[q];
        Smaller(tables, SuspendOne(tables, q), q);
        if p.resume && p.room in tables.rooms {
          tables := tables.(pending := tables.pending - {q});
          Suspend(p.room);
        } else {
          Settle(q, false);
        }
      }
    }

    /** Bound rooms wait to be resumed, but for those that never got a snapshot. */
    method SuspendBound()
      modifies this`tables
      ensures tables == ClientSteps.SuspendBound(old(tables))
    {
      hide ClientSteps.Leave;
      while tables.byRef != map[]
        invariant ClientSteps.SuspendBound(tables) == ClientSteps.SuspendBound(old(tables))
        decreases |tables.byRef|
      {
        var ref := Least(tables.byRef.Keys);
        var r := tables.byRef[ref];
        SubsetSize(UnbindOne(tables, ref).byRef.Keys, tables.byRef.Keys - {ref});
        tables := tables.(byRef := tables.byRef - {ref});
        if r in tables.rooms {
          if tables.rooms[r].status == Joining {
            Leave(r);
          } else {
            Suspend(r);
          }
        }
      }
    }

    // ------------------------------------------------------------------ requests

    method Request(r: RoomId, resume: bool, sent: bool)
      modifies this
      ensures Now() == Ask(old(Now()), r, resume, sent)
    {
      var q, p := line.nextRequest, line.nextPromise;
      line := line.(nextRequest := q + 1, nextPromise := p + 1);
      tables := tables.(pending := tables.pending[q := Pending(r, resume, p)]);
      tables := tables.(answers := tables.answers[p := Answer(resume, 0)]);
      if !sent {
        Settle(q, false);
      }
    }

    /** Held seats asked for again; the socket takes the requests of `sends`. */
    method ResumeAll(sends: set<RoomId>)
      modifies this
      ensures Now() == ResumeEach(old(Now()), old(tables).resuming, sends)
    {
      hide Ask, ClientSteps.Leave;
      var todo := tables.resuming;
      while todo != {}
        invariant ResumeEach(Now(), todo, sends) == ResumeEach(old(Now()), old(tables).resuming, sends)
        decreases |todo|
      {
        var r := Least(todo);
        if r in tables.rooms {
          tables := tables.(resuming := tables.resuming - {r});
          if tables.rooms[r].token {
            Request(r, true, r in sends);
          } else {
            Leave(r);
          }
        }
        todo := todo - {r};
      }
    }

    // ----------------------------------------------------------------- lifecycle

    method SetDisconnected()
      modifies this
      ensures Now() == ClientSteps.SetDisconnected(old(Now()))
    {
      line := line.(phase := Disconnected, attempt := 0, retryTimer := false, waits := []);
      EndRooms();
      line := line.(waiters := 0);
    }

    /** One more attempt later on, unless there were too many or it was the first connect. */
    method FailedAttempt()
      modifies this
      ensures Now() == ClientSteps.FailedAttempt(old(Now()))
    {
      if line.phase == Connecting {
        SetDisconnected();
        return;
      }
      if line.attempt >= line.options.maxAttempts {
        SetDisconnected();
        return;
      }
      var wait := Wait(line.options, line.attempt);
      line := line.(phase := Reopening, attempt := line.attempt + 1, retryTimer := true, waits := line.waits + [wait]);
    }

    method OpenSocket(opens: bool)
      modifies this
      ensures Now() == ClientSteps.OpenSocket(old(Now()), opens)
    {
      if !opens {
        FailedAttempt();
        return;
      }
      line := line.(connection := Some(Socket(line.sockets, false)), sockets := line.sockets + 1);
    }

    method Open(opens: bool)
      modifies this
      ensures Now() == ClientSteps.Open(old(Now()), opens)
    {
      if !line.fetchesToken {
        OpenSocket(opens);
        return;
      }
      line := line.(tokenFetch := line.tokenFetch + 1);
      line := line.(fetches := line.fetches + {line.tokenFetch});
    }

    method Lost(terminal: bool)
      modifies this
      ensures Now() == ClientSteps.Lost(old(Now()), terminal)
    {
      line := line.(connection := None);
      SuspendPending();
      if line.phase == Connecting || terminal || !line.options.enabled {
        SetDisconnected();
        return;
      }
      SuspendBound();
      line := line.(phase := Reopening);
      FailedAttempt();
    }

    // -------------------------------------------------------------------- events

    method Connect(opens: bool)
      requires Valid()
      modifies this
      ensures Valid() && Now() == Next(old(Now()), Connects(opens))
    {
      hide Ok, ClientSteps.Open;
      ConnectOk(Now(), opens);
      if line.phase == Connected {
        return;
      }
      line := line.(waiters := line.waiters + 1);
      if line.phase == Disconnected {
        line := line.(phase := Connecting);
        Open(opens);
      }
    }

    method Disconnect()
      requires Valid()
      modifies this
      ensures Valid() && Now() == Next(old(Now()), Disconnects) && line.phase == Disconnected
    {
      hide Ok, ClientSteps.SetDisconnected, ClientSteps.LeaveEach;
      DisconnectOk(Now());
      LeaveAllNow();
      line := line.(retryTimer := false, connection := None);
      SetDisconnected();
    }

    method LeaveAllNow()
      modifies this`tables
      ensures tables == ClientSteps.LeaveEach(old(tables), AllRooms(old(tables)))
    {
      var rooms := tables.byRef.Values + tables.resuming;
      rooms := rooms + set q | q in tables.pending :: tables.pending[q].room;
      LeaveEach(rooms);
    }

    method FetchReturns(fetch: nat, ok: bool, opens: bool)
      requires Valid() && Enabled(Now(), FetchReturned(fetch, ok, opens))
      modifies this
      ensures Valid() && Now() == Next(old(Now()), FetchReturned(fetch, ok, opens))
    {
      hide Ok, ClientSteps.OpenSocket, ClientSteps.FailedAttempt;
      FetchOk(Now(), fetch, ok, opens);
      line := line.(fetches := line.fetches - {fetch});
      if fetch != line.tokenFetch || line.phase == Disconnected {
        return;
      }
      if !ok {
        FailedAttempt();
        return;
      }
      OpenSocket(opens);
    }

    method RetryFires(opens: bool)
      requires Valid() && Enabled(Now(), RetryFired(opens))
      modifies this
      ensures Valid() && Now() == Next(old(Now()), RetryFired(opens))
    {
      hide Ok, ClientSteps.Open;
      RetryOk(Now(), opens);
      line := line.(retryTimer := false);
      Open(opens);
    }

    method SocketOpened(id: nat, sends: set<RoomId>)
      requires Valid() && Enabled(Now(), Opened(id, sends))
      modifies this
      ensures Valid() && Now() == Next(old(Now()), Opened(id, sends))
    {
      hide Ok, ResumeEach;
      OpenedOk(Now(), id, sends);
      if !IsCurrent(line, id) {
        return;
      }
      line := line.(connection := Some(Socket(id, true)), phase := Connected, attempt := 0, waits := [], waiters := 0);
      ResumeAll(sends);
    }

    method SocketClosed(id: nat, terminal: bool)
      requires Valid()
      modifies this
      ensures Valid() && Now() == Next(old(Now()), Closed(id, terminal))
    {
      hide Ok, ClientSteps.Lost;
      if IsCurrent(line, id) {
        LostOk(Now(), terminal);
        Lost(terminal);
      }
    }

    method Join(r: RoomId, sent: bool)
      requires Valid() && Enabled(Now(), Joins(r, sent))
      modifies this
      ensures Valid() && Now() == Next(old(Now()), Joins(r, sent))
    {
      hide Ok, Ask;
      JoinOk(Now(), r, sent);
      tables := tables.(rooms := tables.rooms[r := Link(Joining, 0, false, false)]);
      Request(r, false, sent && CanSend(line));
    }

    /** JOIN_ERROR, or the join's timeout. */
    method JoinFails(q: Request)
      requires Valid()
      modifies this
      ensures Valid() && Now() == Next(old(Now()), JoinFailed(q))
    {
      hide Ok, ClientSteps.Settle;
      JoinFailsOk(Now(), q);
      Settle(q, false);
    }

    method JoinSucceeds(q: Request, ref: Ref, good: bool, token: bool)
      requires Valid() && Enabled(Now(), JoinSucceeded(q, ref, good, token))
      modifies this
      ensures Valid() && Now() == Next(old(Now()), JoinSucceeded(q, ref, good, token))
    {
      hide Ok, ClientSteps.Settle;
      JoinSucceedsOk(Now(), q, ref, good, token);
      if q !in tables.pending || tables.pending[q].room !in tables.rooms {
        return;
      }
      if !good {
        Settle(q, false);
        return;
      }
      var r := tables.pending[q].room;
      var link := tables.rooms[r];
      var status := if link.status == Reconnecting then Joining else link.status;
      tables := tables.(rooms := tables.rooms[r := link.(ref := ref, token := token, status := status)]);
      tables := tables.(byRef := tables.byRef[ref := r]);
    }

    method Snapshot(ref: Ref, applies: bool)
      requires Valid()
      modifies this
      ensures Valid() && Now() == Next(old(Now()), Snapshots(ref, applies))
    {
      hide Ok, ClientSteps.Settle, ClientSteps.Lost;
      SnapshotOk(Now(), ref, applies);
      if ref !in tables.byRef || tables.byRef[ref] !in tables.rooms {
        return;
      }
      var r := tables.byRef[ref];
      tables := Shown(tables, r);
      if !applies {
        Lost(false);
        return;
      }
      if tables.rooms[r].status != Left {
        var q := RequestOf(tables, r);
        if q.Some? {
          Settle(q.value, true);
        }
      }
    }

    /** The caller leaves, or the server's LEAVE arrives. */
    method LeaveRoom(r: RoomId)
      requires Valid() && Enabled(Now(), Leaves(r))
      modifies this
      ensures Valid() && Now() == Next(old(Now()), Leaves(r))
      ensures old(tables).rooms[r].status != Left ==>
                r in tables.rooms && tables.rooms[r].status == Left && !Listed(tables, r)
      ensures old(tables).rooms[r].status != Left ==> JoinOf(tables, r).None?
    {
      hide Ok, ClientSteps.Leave;
      LeaveOk(Now(), r);
      if tables.rooms[r].status != Left {
        LeaveUnlists(Now(), r);
      }
      Leave(r);
    }

    /** Whatever happens next. */
    method Handle(e: Event)
      requires Valid() && Enabled(Now(), e)
      modifies this
      ensures Valid() && Now() == Next(old(Now()), e)
    {
      hide Ok, Enabled, Next;
      match e {
        case Connects(opens) => Connect(opens);
        case Disconnects => Disconnect();
        case FetchReturned(fetch, ok, opens) => FetchReturns(fetch, ok, opens);
        case RetryFired(opens) => RetryFires(opens);
        case Opened(id, sends) => SocketOpened(id, sends);
        case Closed(id, terminal) => SocketClosed(id, terminal);
        case Joins(room, sent) => Join(room, sent);
        case JoinFailed(q) => JoinFails(q);
        case JoinSucceeded(q, ref, good, token) => JoinSucceeds(q, ref, good, token);
        case Snapshots(ref, applies) => Snapshot(ref, applies);
        case Leaves(room) => LeaveRoom(room);
      }
    }
  }
}
