/**
 Find-or-create and keyed creation on one process, as every interleaving of
 their steps between awaits: one creator per pool at a time, and one room per
 key, creations that fail included.
 */
module Matchmaking {
  import opened Wrappers

  type CallerId = nat
  type ClaimId = nat
  type RoomId = nat
  type Pool = nat

  /** What a call asks for: any room of a type, the one with a key, or one whose metadata matches. */
  datatype Placement =
    | Anywhere(kind: string)
    | Keyed(kind: string, key: string)
    | Matching(kind: string, wanted: seq<(string, string)>)

  /** Where a call is, between two awaits. */
  datatype Point =
    | Looking
    | Found(room: RoomId)
    // Holds a claim; `createRoom` looks the key up only now.
    | Claimed(claim: ClaimId)
    // Holds a claim, and saw no room to use.
    | Clear(claim: ClaimId)
    | Creating(claim: ClaimId, room: RoomId)
    | Ended

  /** A find-or-create call, or a `createRoom` (`creates`) of a keyed room. */
  datatype Caller = Caller(place: Placement, creates: bool, at: Point)

  datatype Claim = Claim(pool: Pool, released: bool)

  datatype Room = Room(place: Placement, closing: bool)

  datatype World = World(
    // The pool of a placement; different placements may share one.
    pools: Placement -> Pool,
    callers: map<CallerId, Caller>,
    creating: map<Pool, ClaimId>,
    claims: map<ClaimId, Claim>,
    rooms: map<RoomId, Room>)

  // ------------------------------------------------------------------- claims

  function MakeClaim(w: World, c: ClaimId, pool: Pool): World {
    w.(claims := w.claims[c := Claim(pool, false)], creating := w.creating[pool := c])
  }

  /** Gives the claim up; twice is the same as once, even if someone else has claimed the pool since. */
  function Release(w: World, c: ClaimId): World {
    if c !in w.claims || w.claims[c].released then w
    else
      var pool := w.claims[c].pool;
      w.(claims := w.claims[c := Claim(pool, true)],
         creating := if pool in w.creating && w.creating[pool] == c then w.creating - {pool} else w.creating)
  }

  ghost predicate Exists(w: World, place: Placement) {
    exists r :: r in w.rooms && w.rooms[r] == Room(place, false)
  }

  function Move(w: World, i: CallerId, at: Point): World
    requires i in w.callers
  {
    w.(callers := w.callers[i := w.callers[i].(at := at)])
  }

  // -------------------------------------------------------------------- steps

  datatype Step =
    | Arrive(i: CallerId, place: Placement, creates: bool)
    // Waits while the pool is being created; otherwise looks, and claims the pool in the same step.
    | Look(i: CallerId, available: Option<RoomId>, claim: ClaimId)
    // The room found failed to be created or filled up: look again; or the call is over.
    | LookAgain(i: CallerId)
    | EndFound(i: CallerId)
    | LookUpKey(i: CallerId)
    | Create(i: CallerId, room: RoomId)
    // The creation is refused before there is a room.
    | Refuse(i: CallerId)
    // The room is ready, or failed; the claim is given up.
    | Finish(i: CallerId)
    | ReleaseEarly(i: CallerId)
    | ReleaseAgain(c: ClaimId)
    // A `createRoom` without a key.
    | CreateFreely(place: Placement, room: RoomId)
    | Close(room: RoomId)
    | Remove(room: RoomId)

  ghost predicate Enabled(w: World, s: Step) {
    match s
    case Arrive(i, place, creates) => i !in w.callers && (creates ==> place.Keyed?)
    case Look(i, available, claim) =>
      && i in w.callers && w.callers[i].at.Looking? && claim !in w.claims
      && (available.Some? ==> available.value in w.rooms)
      // A keyed room is found exactly if there is one.
      && (w.callers[i].place.Keyed? ==>
            if available.Some? then w.rooms[available.value] == Room(w.callers[i].place, false)
                else !Exists(w, w.callers[i].place))
    case LookAgain(i) => i in w.callers && w.callers[i].at.Found?
    case EndFound(i) => i in w.callers && w.callers[i].at.Found?
    case LookUpKey(i) => i in w.callers && w.callers[i].at.Claimed?
    case Create(i, room) => i in w.callers && w.callers[i].at.Clear? && room !in w.rooms
    case Refuse(i) => i in w.callers && (w.callers[i].at.Clear? || w.callers[i].at.Claimed?)
    case Finish(i) => i in w.callers && w.callers[i].at.Creating?
    case ReleaseEarly(i) => i in w.callers && w.callers[i].at.Creating?
    case ReleaseAgain(c) => c in w.claims && w.claims[c].released
    case CreateFreely(place, room) => !place.Keyed? && room !in w.rooms
    case Close(room) => room in w.rooms
    case Remove(room) => room in w.rooms && w.rooms[room].closing
  }

  ghost function Next(w: World, s: Step): World
    requires Enabled(w, s)
  {
    match s
    case Arrive(i, place, creates) => w.(callers := w.callers[i := Caller(place, creates, Looking)])
    case Look(i, available, claim) =>
      var caller := w.callers[i];
      var pool := w.pools(caller.place);
      if pool in w.creating then w
      else if caller.creates then Move(MakeClaim(w, claim, pool), i, Claimed(claim))
      else if available.Some? then Move(w, i, Found(available.value))
      else Move(MakeClaim(w, claim, pool), i, Clear(claim))
    case LookAgain(i) => Move(w, i, Looking)
    case EndFound(i) => Move(w, i, Ended)
    case LookUpKey(i) =>
      var c := w.callers[i].at.claim;
      if Exists(w, w.callers[i].place) then Move(Release(w, c), i, Ended) else Move(w, i, Clear(c))
    case Create(i, room) =>
      Move(w.(rooms := w.rooms[room := Room(w.callers[i].place, false)]), i, Creating(w.callers[i].at.claim, room))
    case Refuse(i) => Move(Release(w, w.callers[i].at.claim), i, Ended)
    case Finish(i) => Move(Release(w, w.callers[i].at.claim), i, Ended)
    case ReleaseEarly(i) => Release(w, w.callers[i].at.claim)
    case ReleaseAgain(c) => Release(w, c)
    case CreateFreely(place, room) => w.(rooms := w.rooms[room := Room(place, false)])
    case Close(room) => w.(rooms := w.rooms[room := w.rooms[room].(closing := true)])
    case Remove(room) => w.(rooms := w.rooms - {room})
  }

  // ---------------------------------------------------------------- invariant

  /** `_creating` holds exactly the claims that are not released. */
  ghost predicate ClaimsOk(w: World) {
    && (forall c :: c in w.claims && !w.claims[c].released ==>
        w.claims[c].pool in w.creating && w.creating[w.claims[c].pool] == c)
    && (forall p :: p in w.creating ==> w.creating[p] in w.claims && w.claims[w.creating[p]] == Claim(p, false))
  }

  predicate Holds(p: Point, c: ClaimId) {
    (p.Claimed? && p.claim == c) || (p.Clear? && p.claim == c) || (p.Creating? && p.claim == c)
  }

  /** A claim that a caller holds is one of its pool. */
  ghost predicate HoldersOk(w: World) {
    forall i, c :: i in w.callers && Holds(w.callers[i].at, c) ==>
      c in w.claims && w.claims[c].pool == w.pools(w.callers[i].place)
  }

  ghost predicate Unreleased(w: World, i: CallerId) {
    i in w.callers && (w.callers[i].at.Claimed? || w.callers[i].at.Clear?) ==>
      w.callers[i].at.claim in w.claims && !w.claims[w.callers[i].at.claim].released
  }

  /** Nobody else holds it. */
  ghost predicate OneHolder(w: World) {
    forall i, j, c :: i in w.callers && j in w.callers && Holds(w.callers[i].at, c) && Holds(w.callers[j].at, c) ==>
        i == j
  }

  /** A caller about to create holds its pool's claim, and nobody else holds it. */
  ghost predicate CallersOk(w: World) {
    HoldersOk(w) && OneHolder(w) && forall i :: i in w.callers ==> Unreleased(w, i)
  }

  /** No open room has the key a caller is about to create, and no two open rooms share a key. */
  ghost predicate RoomsOk(w: World) {
    && (forall i :: i in w.callers && w.callers[i].at.Clear? && w.callers[i].place.Keyed? ==>
          !Exists(w, w.callers[i].place))
    && (forall a, b ::
          a in w.rooms && b in w.rooms && w.rooms[a] == w.rooms[b] && w.rooms[a].place.Keyed? && !w.rooms[a].closing ==>
            a == b)
  }

  ghost predicate Inv(w: World) { ClaimsOk(w) && CallersOk(w) && RoomsOk(w) }

  // ------------------------------------------------------------------- proofs

  lemma ReleaseClaims(w: World, c: ClaimId)
    requires ClaimsOk(w)
    ensures ClaimsOk(Release(w, c))
  {
  }

  lemma MakeClaimKeeps(w: World, c: ClaimId, pool: Pool)
    requires ClaimsOk(w) && c !in w.claims && pool !in w.creating
    ensures ClaimsOk(MakeClaim(w, c, pool))
  {
  }

  /** A caller moves to a point where it holds at most the claim it held. */
  lemma MoveCallers(w: World, i: CallerId, at: Point)
    requires CallersOk(w) && i in w.callers
    requires forall c :: Holds(at, c) ==> Holds(w.callers[i].at, c)
    requires at.Clear? ==> w.callers[i].at.Claimed? || w.callers[i].at.Clear?
    requires !at.Claimed?
    ensures CallersOk(Move(w, i, at))
  {
    var w' := Move(w, i, at);
    forall x, c | x in w'.callers && Holds(w'.callers[x].at, c)
      ensures Holds(w.callers[x].at, c)
    {
    }
    if at.Clear? {
      assert Holds(at, at.claim);
    }
  }

  lemma ClaimCallers(w: World, i: CallerId, c: ClaimId, at: Point)
    requires CallersOk(w) && i in w.callers && w.callers[i].at.Looking? && c !in w.claims
             && (at == Claimed(c) || at == Clear(c))
    ensures CallersOk(Move(MakeClaim(w, c, w.pools(w.callers[i].place)), i, at))
  {
    var w' := Move(MakeClaim(w, c, w.pools(w.callers[i].place)), i, at);
    forall x, c' | x in w'.callers && Holds(w'.callers[x].at, c')
      ensures (x == i && c' == c) || (x != i && Holds(w.callers[x].at, c') && c' in w.claims)
    {
    }
  }

  /** A release leaves every other caller's claim as it was. */
  lemma ReleaseOthers(w: World, i: CallerId, c: ClaimId, x: CallerId)
    requires CallersOk(w) && i in w.callers && Holds(w.callers[i].at, c) && x in w.callers
    ensures forall c' :: Holds(w.callers[x].at, c') ==>
              c' in Release(w, c).claims && Release(w, c).claims[c'].pool == w.pools(w.callers[x].place)
    ensures x != i && (w.callers[x].at.Claimed? || w.callers[x].at.Clear?) ==>
              w.callers[x].at.claim in Release(w, c).claims && !Release(w, c).claims[w.callers[x].at.claim].released
  {
    if w.callers[x].at.Claimed? || w.callers[x].at.Clear? {
      assert Holds(w.callers[x].at, w.callers[x].at.claim);
    }
  }

  /** As `CallersOk`, but the claim of `i` may have been released already. */
  ghost predicate CallersOkBut(w: World, i: CallerId) {
    HoldersOk(w) && OneHolder(w) && forall x :: x in w.callers && x != i ==> Unreleased(w, x)
  }

  lemma ReleaseBut(w: World, i: CallerId, c: ClaimId)
    requires CallersOk(w) && i in w.callers && Holds(w.callers[i].at, c)
    ensures CallersOkBut(Release(w, c), i)
  {
    var w' := Release(w, c);
    assert w'.callers == w.callers && w'.pools == w.pools;
    forall x | x in w.callers
      ensures forall c' :: Holds(w.callers[x].at, c') ==>
                c' in w'.claims && w'.claims[c'].pool == w.pools(w.callers[x].place)
      ensures x != i && (w.callers[x].at.Claimed? || w.callers[x].at.Clear?) ==>
                w.callers[x].at.claim in w'.claims && !w'.claims[w.callers[x].at.claim].released
    {
      ReleaseOthers(w, i, c, x);
    }
    hide Release;
  }

  lemma EndHolders(w: World, i: CallerId)
    requires HoldersOk(w) && OneHolder(w) && i in w.callers
    ensures HoldersOk(Move(w, i, Ended)) && OneHolder(Move(w, i, Ended))
  {
    var w' := Move(w, i, Ended);
    forall x, c | x in w'.callers && Holds(w'.callers[x].at, c)
      ensures x != i && Holds(w.callers[x].at, c)
    {
    }
    hide Holds;
  }

  lemma EndBut(w: World, i: CallerId)
    requires CallersOkBut(w, i) && i in w.callers
    ensures CallersOk(Move(w, i, Ended))
    ensures w.callers[i].at.Creating? ==> CallersOk(w)
  {
    hide HoldersOk, OneHolder;
    EndHolders(w, i);
    var w' := Move(w, i, Ended);
    forall x | x in w'.callers
      ensures Unreleased(w', x)
    {
      assert x != i ==> Unreleased(w, x);
    }
  }

  /** A release by the only holder, which then moves on, or which is past the point where it matters. */
  lemma ReleaseCallers(w: World, i: CallerId, c: ClaimId)
    requires CallersOk(w) && i in w.callers && Holds(w.callers[i].at, c)
    ensures CallersOk(Move(Release(w, c), i, Ended))
    ensures w.callers[i].at.Creating? ==> CallersOk(Release(w, c))
  {
    ReleaseBut(w, i, c);
    assert Release(w, c).callers == w.callers;
    hide CallersOk, CallersOkBut, Release;
    EndBut(Release(w, c), i);
  }

  lemma SameRooms(w: World, w': World)
    requires RoomsOk(w) && w'.rooms == w.rooms
    requires forall i :: i in w'.callers && w'.callers[i].at.Clear? && w'.callers[i].place.Keyed? ==>
               !Exists(w, w'.callers[i].place)
    ensures RoomsOk(w')
  {
    assert forall p :: Exists(w', p) <==> Exists(w, p);
  }

  /** Two callers about to create for the same placement are the same caller. */
  lemma OneCreator(w: World, i: CallerId, j: CallerId)
    requires ClaimsOk(w) && CallersOk(w) && i in w.callers && j in w.callers
    requires w.callers[i].at.Clear? && w.callers[j].at.Clear?
             && w.pools(w.callers[i].place) == w.pools(w.callers[j].place)
    ensures i == j
  {
    assert Holds(w.callers[i].at, w.callers[i].at.claim) && Holds(w.callers[j].at, w.callers[j].at.claim);
  }

  lemma CreateRooms(w: World, i: CallerId, room: RoomId)
    requires Inv(w) && Enabled(w, Create(i, room))
    ensures RoomsOk(Next(w, Create(i, room)))
  {
    var w', place := Next(w, Create(i, room)), w.callers[i].place;
    forall j | j in w'.callers && w'.callers[j].at.Clear? && w'.callers[j].place.Keyed?
      ensures !Exists(w', w'.callers[j].place)
    {
      assert j != i && !Exists(w, w.callers[j].place);
      if w.callers[j].place == place {
        OneCreator(w, i, j);
      }
      assert forall r :: r in w'.rooms && r != room ==> r in w.rooms && w'.rooms[r] == w.rooms[r];
    }
  }

  /** Closing and removing rooms, and rooms without a key, leave the keys alone. */
  lemma OtherRooms(w: World, s: Step)
    requires RoomsOk(w) && Enabled(w, s) && (s.CreateFreely? || s.Close? || s.Remove?)
    ensures RoomsOk(Next(w, s))
  {
    var w' := Next(w, s);
    forall r | r in w'.rooms && w'.rooms[r].place.Keyed? && !w'.rooms[r].closing
      ensures r in w.rooms && w'.rooms[r] == w.rooms[r]
    {
    }
    assert forall p: Placement :: p.Keyed? && Exists(w', p) ==> Exists(w, p);
  }

  lemma LookKeeps(w: World, i: CallerId, available: Option<RoomId>, claim: ClaimId)
    requires Inv(w) && Enabled(w, Look(i, available, claim))
    ensures Inv(Next(w, Look(i, available, claim)))
  {
    var caller := w.callers[i];
    var pool := w.pools(caller.place);
    if pool !in w.creating {
      if caller.creates || available.None? {
        MakeClaimKeeps(w, claim, pool);
        ClaimCallers(w, i, claim, if caller.creates then Claimed(claim) else Clear(claim));
      } else {
        MoveCallers(w, i, Found(available.value));
      }
      SameRooms(w, Next(w, Look(i, available, claim)));
    }
  }

  lemma LookUpKeeps(w: World, i: CallerId)
    requires Inv(w) && Enabled(w, LookUpKey(i))
    ensures Inv(Next(w, LookUpKey(i)))
  {
    var c := w.callers[i].at.claim;
    assert Holds(w.callers[i].at, c);
    if Exists(w, w.callers[i].place) {
      ReleaseClaims(w, c);
      ReleaseCallers(w, i, c);
    } else {
      MoveCallers(w, i, Clear(c));
    }
    SameRooms(w, Next(w, LookUpKey(i)));
  }

  lemma EndKeeps(w: World, i: CallerId)
    requires Inv(w) && i in w.callers && !w.callers[i].at.Looking? && !w.callers[i].at.Found? && !w.callers[i].at.Ended?
    ensures Inv(Move(Release(w, w.callers[i].at.claim), i, Ended))
    ensures w.callers[i].at.Creating? ==> Inv(Release(w, w.callers[i].at.claim))
  {
    var c := w.callers[i].at.claim;
    assert Holds(w.callers[i].at, c);
    ReleaseClaims(w, c);
    ReleaseCallers(w, i, c);
    SameRooms(w, Move(Release(w, c), i, Ended));
    SameRooms(w, Release(w, c));
  }

  lemma StepKeeps(w: World, s: Step)
    requires Inv(w) && Enabled(w, s)
    ensures Inv(Next(w, s))
  {
    hide Inv, Release;
    match s {
      case Arrive(i, place, creates) => ArriveKeeps(w, i, place, creates);
      case Look(i, available, claim) => LookKeeps(w, i, available, claim);
      case LookAgain(i) => FoundKeeps(w, i, Looking);
      case EndFound(i) => FoundKeeps(w, i, Ended);
      case LookUpKey(i) => LookUpKeeps(w, i);
      case Create(i, room) => CreateKeeps(w, i, room);
      case Refuse(i) => EndKeeps(w, i);
      case Finish(i) => EndKeeps(w, i);
      case ReleaseEarly(i) => EndKeeps(w, i);
      case ReleaseAgain(c) => ReleasedAlready(w, c);
      case CreateFreely(_, _) => OtherKeeps(w, s);
      case Close(_) => OtherKeeps(w, s);
      case Remove(_) => OtherKeeps(w, s);
    }
  }

  lemma ReleasedAlready(w: World, c: ClaimId)
    requires c in w.claims && w.claims[c].released
    ensures Release(w, c) == w
  {
  }

  lemma OtherKeeps(w: World, s: Step)
    requires Inv(w) && Enabled(w, s) && (s.CreateFreely? || s.Close? || s.Remove?)
    ensures Inv(Next(w, s))
  {
    OtherRooms(w, s);
    hide RoomsOk;
  }

  lemma FoundKeeps(w: World, i: CallerId, at: Point)
    requires Inv(w) && i in w.callers && w.callers[i].at.Found? && (at.Looking? || at.Ended?)
    ensures Inv(Move(w, i, at))
  {
    MoveCallers(w, i, at);
    SameRooms(w, Move(w, i, at));
    hide CallersOk, RoomsOk;
  }

  lemma ArriveKeeps(w: World, i: CallerId, place: Placement, creates: bool)
    requires Inv(w) && Enabled(w, Arrive(i, place, creates))
    ensures Inv(Next(w, Arrive(i, place, creates)))
  {
    SameRooms(w, Next(w, Arrive(i, place, creates)));
  }

  lemma CreateKeeps(w: World, i: CallerId, room: RoomId)
    requires Inv(w) && Enabled(w, Create(i, room))
    ensures Inv(Next(w, Create(i, room)))
  {
    CreateRooms(w, i, room);
    var w1 := w.(rooms := w.rooms[room := Room(w.callers[i].place, false)]);
    MoveCallers(w1, i, Creating(w.callers[i].at.claim, room));
  }

  // -------------------------------------------------------------------- runs

  ghost predicate Possible(w: World, steps: seq<Step>)
    decreases |steps|
  {
    steps == [] || (Enabled(w, steps[0]) && Possible(Next(w, steps[0]), steps[1..]))
  }

  ghost function After(w: World, steps: seq<Step>): World
    requires Possible(w, steps)
    decreases |steps|
  {
    if steps == [] then w else After(Next(w, steps[0]), steps[1..])
  }

  lemma {:induction false} RunKeeps(w: World, steps: seq<Step>)
    requires Inv(w) && Possible(w, steps)
    ensures Inv(After(w, steps))
    decreases |steps|
  {
    hide Inv, Enabled, Next;
    if steps != [] {
      StepKeeps(w, steps[0]);
      RunKeeps(Next(w, steps[0]), steps[1..]);
    }
  }

  function Start(pools: Placement -> Pool): World { World(pools, map[], map[], map[], map[]) }

  /** In every interleaving, each pool has at most one claim that is not released. */
  lemma OneClaimPerPool(pools: Placement -> Pool, steps: seq<Step>)
    requires Possible(Start(pools), steps)
    ensures var w := After(Start(pools), steps);
            forall c, c' ::
              (&& c in w.claims && c' in w.claims && !w.claims[c].released && !w.claims[c'].released
               && w.claims[c].pool == w.claims[c'].pool) ==> c == c'
  {
    RunKeeps(Start(pools), steps);
  }

  /** In every interleaving, at most one room of a type that is not closing has a given key. */
  lemma OneRoomPerKey(pools: Placement -> Pool, steps: seq<Step>)
    requires Possible(Start(pools), steps)
    ensures var w := After(Start(pools), steps);
            forall a, b ::
              (&& a in w.rooms && b in w.rooms && !w.rooms[a].closing && !w.rooms[b].closing
               && w.rooms[a].place.Keyed? && w.rooms[a].place == w.rooms[b].place) ==> a == b
  {
    RunKeeps(Start(pools), steps);
  }

  /** Releasing twice changes nothing, whoever has claimed the pool in between. */
  lemma SecondReleaseIsHarmless(w: World, c: ClaimId, steps: seq<Step>)
    requires c in w.claims && w.claims[c].released && Possible(w, steps)
    ensures c in After(w, steps).claims && Release(After(w, steps), c) == After(w, steps)
    decreases |steps|
  {
    if steps != [] {
      StaysReleased(w, c, steps[0]);
      hide Enabled, Next;
      SecondReleaseIsHarmless(Next(w, steps[0]), c, steps[1..]);
    }
  }

  lemma StaysReleased(w: World, c: ClaimId, s: Step)
    requires c in w.claims && w.claims[c].released && Enabled(w, s)
    ensures c in Next(w, s).claims && Next(w, s).claims[c].released
  {
  }

  // ------------------------------------------------------------ what a step does

  /**
   A look: it waits if the pool is being created. In a free pool a
   find-or-create takes the room it sees and creates nothing. It claims the pool
   only if it sees none; `createRoom` claims it before it looks its key up.
   */
  lemma LookIs(w: World, i: CallerId, available: Option<RoomId>, claim: ClaimId)
    requires Enabled(w, Look(i, available, claim))
    ensures var caller, w' := w.callers[i], Next(w, Look(i, available, claim));
            var pool := w.pools(caller.place);
            if pool in w.creating then w' == w
            else
              && w'.rooms == w.rooms && w'.pools == w.pools
              && (forall x :: x in w.callers && x != i ==> x in w'.callers && w'.callers[x] == w.callers[x])
              && i in w'.callers && w'.callers[i].place == caller.place && w'.callers[i].creates == caller.creates
              && (w'.callers[i].at.Found? <==> !caller.creates && available.Some?)
              && (w'.callers[i].at.Found? ==>
                    w'.callers[i].at.room == available.value && w'.creating == w.creating && w'.claims == w.claims)
              && (w'.callers[i].at.Claimed? <==> caller.creates)
              && (w'.callers[i].at.Clear? <==> !caller.creates && available.None?)
              && (!w'.callers[i].at.Found? ==> Holds(w'.callers[i].at, claim) && ClaimMade(w, w', pool, claim))
  {
  }

  ghost predicate ClaimMade(w: World, w': World, pool: Pool, claim: ClaimId) {
    w'.creating == w.creating[pool := claim] && w'.claims == w.claims[claim := Claim(pool, false)]
  }

  /** The claim `c` is released, which frees its pool, and nothing else happens to claims and pools. */
  ghost predicate GivenUp(w: World, w': World, c: ClaimId) {
    && c in w.claims && w'.claims == w.claims[c := Claim(w.claims[c].pool, true)]
    && w'.creating == if w.claims[c].released then w.creating else w.creating - {w.claims[c].pool}
  }

  /** The call is over, and no other call has moved. */
  ghost predicate OverFor(w: World, w': World, i: CallerId) {
    i in w.callers && w'.callers == w.callers[i := Caller(w.callers[i].place, w.callers[i].creates, Ended)]
  }

  /** A creation that is refused, fails or is ready is over and gives its claim up; no room appears or goes. */
  lemma CreationEnds(w: World, i: CallerId, s: Step)
    requires Inv(w) && Enabled(w, s) && (s == Refuse(i) || s == Finish(i))
    ensures var w' := Next(w, s);
            OverFor(w, w', i) && GivenUp(w, w', w.callers[i].at.claim) && w'.rooms == w.rooms && w'.pools == w.pools
  {
    HeldIsClaimed(w, i);
  }

  /** Giving the claim up early frees the pool while the call goes on; again changes nothing. */
  lemma EarlyIs(w: World, i: CallerId)
    requires Inv(w) && Enabled(w, ReleaseEarly(i))
    ensures var w' := Next(w, ReleaseEarly(i));
            && w'.callers == w.callers && GivenUp(w, w', w.callers[i].at.claim)
            && w'.rooms == w.rooms && w'.pools == w.pools
  {
    HeldIsClaimed(w, i);
  }

  lemma HeldIsClaimed(w: World, i: CallerId)
    requires Inv(w) && i in w.callers
             && (w.callers[i].at.Claimed? || w.callers[i].at.Clear? || w.callers[i].at.Creating?)
    ensures var c := w.callers[i].at.claim;
            && c in w.claims && w.claims[c].pool == w.pools(w.callers[i].place)
            && (!w.claims[c].released ==> w.claims[c].pool in w.creating && w.creating[w.claims[c].pool] == c)
  {
    assert Holds(w.callers[i].at, w.callers[i].at.claim);
  }

  /** Under its claim `createRoom` is refused exactly if an open room has the key; else it may create, claim in hand. */
  lemma KeyLookedUp(w: World, i: CallerId)
    requires Inv(w) && Enabled(w, LookUpKey(i))
    ensures var w', c := Next(w, LookUpKey(i)), w.callers[i].at.claim;
            && w'.rooms == w.rooms && w'.pools == w.pools
            && if exists r :: r in w.rooms && w.rooms[r].place == w.callers[i].place && !w.rooms[r].closing
               then OverFor(w, w', i) && GivenUp(w, w', c)
               else w' == w.(callers := w.callers[i := w.callers[i].(at := Clear(c))])
  {
    HeldIsClaimed(w, i);
    if r :| r in w.rooms && w.rooms[r].place == w.callers[i].place && !w.rooms[r].closing {
      assert w.rooms[r] == Room(w.callers[i].place, false);
    }
  }

  /**
   A room appears only by a creation, open, at the placement asked for, and
   under the claim of its pool unless it has no key; it starts to close and goes
   only by itself.
   */
  lemma RoomsChange(w: World, s: Step, r: RoomId)
    requires Inv(w) && Enabled(w, s)
    ensures var w' := Next(w, s);
            && (r in w'.rooms && r !in w.rooms <==> (s.Create? || s.CreateFreely?) && s.room == r)
            && (s.Create? ==> s.room in w'.rooms && w'.rooms[s.room] == Room(w.callers[s.i].place, false)
                              && w'.callers[s.i].at.Creating? && UnderClaim(w, s.i))
            && (s.CreateFreely? ==> s.room in w'.rooms && w'.rooms[s.room] == Room(s.place, false) && !s.place.Keyed?)
            && (r in w.rooms && r !in w'.rooms <==> s == Remove(r))
            && (r in w.rooms && r in w'.rooms ==>
                  w'.rooms[r] == Room(w.rooms[r].place, w.rooms[r].closing || s == Close(r)))
  {
    if s.Create? {
      HeldIsClaimed(w, s.i);
      assert Unreleased(w, s.i);
    }
  }

  /** The caller's own claim is the one its pool is being created under. */
  ghost predicate UnderClaim(w: World, i: CallerId) {
    && i in w.callers && w.callers[i].at.Clear? && w.pools(w.callers[i].place) in w.creating
    && w.creating[w.pools(w.callers[i].place)] == w.callers[i].at.claim
  }

  // ------------------------------------------------------------ no claim is lost

  /** Whoever claimed a pool that is being created is still at work. */
  ghost predicate Worked(w: World) {
    forall p :: p in w.creating ==> HasHolder(w, w.creating[p])
  }

  ghost predicate HasHolder(w: World, c: ClaimId) { exists i :: i in w.callers && Holds(w.callers[i].at, c) }

  lemma StepWorks(w: World, s: Step)
    requires Inv(w) && Worked(w) && Enabled(w, s)
    ensures Worked(Next(w, s))
  {
    var w' := Next(w, s);
    forall p | p in w'.creating
      ensures HasHolder(w', w'.creating[p])
    {
      if p in w.creating && w'.creating[p] == w.creating[p] {
        var i :| i in w.callers && Holds(w.callers[i].at, w.creating[p]);
        StillHolds(w, s, i, p);
      } else {
        NewHolder(w, s, p);
      }
    }
  }

  lemma StillHolds(w: World, s: Step, i: CallerId, p: Pool)
    requires Inv(w) && Enabled(w, s) && p in w.creating && p in Next(w, s).creating
    requires Next(w, s).creating[p] == w.creating[p] && i in w.callers && Holds(w.callers[i].at, w.creating[p])
    ensures HasHolder(Next(w, s), w.creating[p])
  {
    HeldIsClaimed(w, i);
    var w' := Next(w, s);
    assert w.claims[w.creating[p]] == Claim(p, false);
    assert i in w'.callers && Holds(w'.callers[i].at, w.creating[p]);
  }

  lemma NewHolder(w: World, s: Step, p: Pool)
    requires Inv(w) && Enabled(w, s) && p in Next(w, s).creating
    requires !(p in w.creating && Next(w, s).creating[p] == w.creating[p])
    ensures HasHolder(Next(w, s), Next(w, s).creating[p])
  {
    var w' := Next(w, s);
    assert s.Look? && Holds(w'.callers[s.i].at, w'.creating[p]);
  }

  lemma {:induction false} RunWorks(w: World, steps: seq<Step>)
    requires Inv(w) && Worked(w) && Possible(w, steps)
    ensures Worked(After(w, steps))
    decreases |steps|
  {
    hide Inv, Enabled, Next, Worked;
    if steps != [] {
      StepKeeps(w, steps[0]);
      StepWorks(w, steps[0]);
      RunWorks(Next(w, steps[0]), steps[1..]);
    }
  }

  /**
   No interleaving loses a claim: whenever a pool is being created, a call is at
   work under that claim, and that call's end, by failure at any point or by
   success, frees the pool for those who wait.
   */
  lemma NobodyWaitsForNothing(pools: Placement -> Pool, steps: seq<Step>, p: Pool)
    requires Possible(Start(pools), steps) && p in After(Start(pools), steps).creating
    ensures var w := After(Start(pools), steps);
            exists i :: i in w.callers && Holds(w.callers[i].at, w.creating[p]) && pools(w.callers[i].place) == p
                        && var s := if w.callers[i].at.Creating? then Finish(i) else Refuse(i);
                           Enabled(w, s) && p !in Next(w, s).creating
  {
    var w := After(Start(pools), steps);
    RunKeeps(Start(pools), steps);
    RunWorks(Start(pools), steps);
    SamePools(Start(pools), steps);
    var i :| i in w.callers && Holds(w.callers[i].at, w.creating[p]);
    var s := if w.callers[i].at.Creating? then Finish(i) else Refuse(i);
    HeldIsClaimed(w, i);
    assert w.claims[w.creating[p]] == Claim(p, false);
    CreationEnds(w, i, s);
    hide Inv, Next, Possible, After;
  }

  lemma SamePools(w: World, steps: seq<Step>)
    requires Possible(w, steps)
    ensures After(w, steps).pools == w.pools
    decreases |steps|
  {
    if steps != [] {
      SamePools(Next(w, steps[0]), steps[1..]);
    }
  }
}
