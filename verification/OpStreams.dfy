/**
 Whole runs of a state stream. One encoder session serves a room; each client
 decodes with a session of its own that began at some snapshot.
 */
module OpStreams {
  import opened Wrappers
  import opened Wire
  import opened OpCodec
  import opened OpCodecProofs

  /** A frame the encoder accepted, and its body. */
  datatype Sent = Sent(ops: seq<Op>, body: seq<byte>)

  /** Encodes frame after frame; a refused frame is skipped and leaves the session as it was. */
  function EncodeRun(t: Tables, frames: seq<seq<Op>>): (seq<Sent>, Tables)
    decreases |frames|
  {
    if frames == [] then ([], t)
    else match EncodeFrame(t, frames[0])
      case None => EncodeRun(t, frames[1..])
      case Some((body, t')) =>
        var (sent, t'') := EncodeRun(t', frames[1..]);
        ([Sent(frames[0], body)] + sent, t'')
  }

  /** Decodes body after body; a refused body leaves the session as it was. */
  function DecodeRun(t: Tables, bodies: seq<seq<byte>>): (seq<Option<seq<Op>>>, Tables)
    decreases |bodies|
  {
    if bodies == [] then ([], t)
    else match DecodeFrame(t, bodies[0])
      case None =>
        var (rest, t') := DecodeRun(t, bodies[1..]);
        ([None] + rest, t')
      case Some((ops, t1)) =>
        var (rest, t') := DecodeRun(t1, bodies[1..]);
        ([Some(ops)] + rest, t')
  }

  function Bodies(sent: seq<Sent>): seq<seq<byte>> {
    seq(|sent|, i requires 0 <= i < |sent| => sent[i].body)
  }

  function Frames(sent: seq<Sent>): seq<Option<seq<Op>>> {
    seq(|sent|, i requires 0 <= i < |sent| => Some(sent[i].ops))
  }

  ghost predicate RunNormal(frames: seq<seq<Op>>) {
    forall i :: 0 <= i < |frames| ==> AllNormal(frames[i])
  }

  /**
   Lockstep round trip. Whatever frames the encoder session is given, a
   decoder session that starts from the same tables and is fed the produced
   bodies returns exactly the accepted frames, refuses none, and holds the
   encoder's class, layout and target tables. (Every prefix of a run is a run,
   so the tables agree after every frame.)
   */
  lemma {:induction false} Lockstep(t: Tables, frames: seq<seq<Op>>)
    requires RunNormal(frames)
    ensures var (sent, t') := EncodeRun(t, frames);
            DecodeRun(t, Bodies(sent)) == (Frames(sent), t')
    decreases |frames|
  {
    hide EncodeFrame, DecodeFrame, AllNormal;
    if frames == [] {
      assert Bodies([]) == [] && Frames([]) == [];
    } else {
      assert RunNormal(frames[1..]);
      match EncodeFrame(t, frames[0])
      case None => Lockstep(t, frames[1..]);
      case Some((body, t1)) =>
        FrameLockstep(t, frames[0], body, t1);
        Lockstep(t1, frames[1..]);
        var (sent, t') := EncodeRun(t, frames);
        var (rest, _) := EncodeRun(t1, frames[1..]);
        assert Bodies(sent)[1..] == Bodies(rest);
        assert Frames(sent) == [Some(frames[0])] + Frames(rest);
    }
  }

  lemma FrameLockstep(t: Tables, ops: seq<Op>, body: seq<byte>, t': Tables)
    requires EncodeFrame(t, ops) == Some((body, t')) && AllNormal(ops)
    ensures DecodeFrame(t, body) == Some((ops, t'))
  {
    hide EncodeOps, DecodeOps;
    OpsLockstep(t, 0, ops, body, t');
  }

  // ------------------------------------------------------- partial knowledge

  /** A frame of the room's session, and whether it goes to the client looked at. */
  datatype Event = Event(ops: seq<Op>, delivered: bool)

  /**
   The frames a client decodes, each with the ops the encoder was given. The
   client's session is dropped at the first frame it refuses (a desync).
   */
  function Deliveries(te: Tables, td: Tables, events: seq<Event>): seq<(seq<Op>, seq<Op>)>
    decreases |events|
  {
    if events == [] then []
    else match EncodeFrame(te, events[0].ops)
      case None => Deliveries(te, td, events[1..])
      case Some((body, te')) =>
        if !events[0].delivered then Deliveries(te', td, events[1..])
        else match DecodeFrame(td, body)
          case None => []
          case Some((ops, td')) => [(events[0].ops, ops)] + Deliveries(te', td', events[1..])
  }

  /**
   What the server's frames promise: no ref starts in the root's block, and a
   frame this client does not get rebinds no refId to something else.
   */
  ghost predicate Orderly(te: Tables, events: seq<Event>)
    decreases |events|
  {
    events != [] ==>
      match EncodeFrame(te, events[0].ops)
      case None => Orderly(te, events[1..])
      case Some((_, te')) =>
        && AllNormal(events[0].ops) && AllClear(te', events[0].ops)
        && (!events[0].delivered ==> Submap(te.targets, te'.targets))
        && Orderly(te', events[1..])
  }

  lemma FramePartial(td: Tables, te: Tables, ops: seq<Op>, body: seq<byte>, te': Tables)
    requires EncodeFrame(te, ops) == Some((body, te')) && AllNormal(ops)
    requires Knows(td, te) && AllClear(te', ops)
    ensures DecodeFrame(td, body).Some? ==>
              DecodeFrame(td, body).value.0 == ops && Knows(DecodeFrame(td, body).value.1, te')
  {
    hide EncodeOps, DecodeOps, Knows;
    OpsPartial(td, te, 0, ops, body, te');
  }

  lemma KnowsItself(td: Tables, te: Tables)
    requires Knows(td, te)
    ensures Knows(te, te)
  {
  }

  /** A frame sent to others leaves this client's knowledge a part of the encoder's. */
  lemma MissedFrame(td: Tables, te: Tables, ops: seq<Op>, body: seq<byte>, te': Tables)
    requires EncodeFrame(te, ops) == Some((body, te')) && AllNormal(ops)
    requires Knows(td, te) && AllClear(te', ops) && Submap(te.targets, te'.targets)
    ensures Knows(td, te')
  {
    hide EncodeOps, DecodeOps, RootIntact, Sound;
    KnowsItself(td, te);
    FramePartial(te, te, ops, body, te');
    FrameLockstep(te, ops, body, te');
    OpsGrowLayouts(te, 0, ops);
    assert Knows(te', te');
  }

  /**
   However the encoder's frames are split between clients, whatever this
   client decodes is exactly what the encoder was given: it never misreads.
   */
  lemma {:induction false} NeverMisreads(te: Tables, td: Tables, events: seq<Event>)
    requires Knows(td, te) && Orderly(te, events)
    ensures forall i :: 0 <= i < |Deliveries(te, td, events)| ==>
              Deliveries(te, td, events)[i].0 == Deliveries(te, td, events)[i].1
    decreases |events|
  {
    hide EncodeFrame, DecodeFrame, Knows, AllNormal, AllClear, Submap;
    if events != [] {
      match EncodeFrame(te, events[0].ops)
      case None => NeverMisreads(te, td, events[1..]);
      case Some((body, te')) =>
        if !events[0].delivered {
          MissedFrame(td, te, events[0].ops, body, te');
          NeverMisreads(te', td, events[1..]);
        } else {
          FramePartial(td, te, events[0].ops, body, te');
          match DecodeFrame(td, body) {
            case None =>
            case Some((ops, td')) => NeverMisreads(te', td', events[1..]);
          }
        }
    }
  }

  /** A client that joins late starts with empty tables, which are a part of any sound ones. */
  lemma LateJoinerKnows(te: Tables)
    requires Sound(te) && RootIntact(te)
    ensures Knows(FRESH, te)
  {
  }
}
