/** Rate limits: a token bucket over real numbers, exact against the windows it is meant to bound. */
module Limits {

  /** `capacity` tokens, refilled at `rate` per second; times are milliseconds. */
  datatype Level = Level(rate: real, capacity: real, tokens: real, last: real)

  /** One call of `take`. */
  datatype Call = Call(cost: real, now: real)

  function Gain(rate: real, ms: real): real { ms / 1000.0 * rate }

  function Refilled(b: Level, now: real): real {
    var elapsed := if now - b.last >= 0.0 then now - b.last else 0.0;
    var level := b.tokens + Gain(b.rate, elapsed);
    if level <= b.capacity then level else b.capacity
  }

  predicate Grants(b: Level, c: Call) { b.rate <= 0.0 || Refilled(b, c.now) >= c.cost }

  function Charged(b: Level, c: Call): Level {
    if b.rate <= 0.0 then b
    else b.(tokens := Refilled(b, c.now) - (if Grants(b, c) then c.cost else 0.0), last := c.now)
  }

  function Fresh(rate: real, capacity: real, now: real): Level { Level(rate, capacity, capacity, now) }

  // -------------------------------------------------------------------- runs

  function After(b: Level, calls: seq<Call>): Level {
    if calls == [] then b else Charged(After(b, calls[..|calls| - 1]), calls[|calls| - 1])
  }

  /** Whether call `i` of a run was granted. */
  predicate Granted(b: Level, calls: seq<Call>, i: nat)
    requires i < |calls|
  {
    Grants(After(b, calls[..i]), calls[i])
  }

  /** What calls `from` to `end - 1` were granted, in all. */
  function Spent(b: Level, calls: seq<Call>, from: nat, end: nat): real
    requires from <= end <= |calls|
    decreases end
  {
    if from == end then 0.0
    else Spent(b, calls, from, end - 1) + (if Granted(b, calls, end - 1) then calls[end - 1].cost else 0.0)
  }

  /** Calls come at times that do not go back. */
  ghost predicate Monotone(b: Level, calls: seq<Call>) {
    && (calls != [] ==> b.last <= calls[0].now)
    && forall i, j :: 0 <= i <= j < |calls| ==> calls[i].now <= calls[j].now
  }

  lemma GainAdds(rate: real, a: real, b: real)
    ensures Gain(rate, a + b) == Gain(rate, a) + Gain(rate, b)
  {
  }

  lemma GainNone(rate: real)
    ensures Gain(rate, 0.0) == 0.0
  {
  }

  lemma GainGrows(rate: real, ms: real)
    requires rate > 0.0 && ms >= 0.0
    ensures Gain(rate, ms) >= 0.0
  {
  }

  /** What call `j` on leaves of the window since it: capacity and gains, less what was granted. */
  function Room(b: Level, calls: seq<Call>, j: nat, end: nat, now: real): real
    requires j <= end <= |calls| && j < |calls|
  {
    b.capacity + Gain(b.rate, now - calls[j].now) - Spent(b, calls, j, end)
  }

  lemma RoomLater(b: Level, calls: seq<Call>, j: nat, end: nat, now: real, later: real)
    requires j <= end <= |calls| && j < |calls|
    ensures Room(b, calls, j, end, later) == Room(b, calls, j, end, now) + Gain(b.rate, later - now)
  {
    GainAdds(b.rate, now - calls[j].now, later - now);
  }

  /** After any call, the tokens are the least room of the windows that end at it. */
  ghost predicate Least(b: Level, calls: seq<Call>, n: nat)
    requires 0 < n <= |calls|
  {
    var now, tokens := calls[n - 1].now, After(b, calls[..n]).tokens;
    && (forall j :: 0 <= j < n ==> tokens <= Room(b, calls, j, n, now))
    && (exists j :: 0 <= j < n && tokens == Room(b, calls, j, n, now))
  }

  lemma AfterStep(b: Level, calls: seq<Call>, n: nat)
    requires n < |calls|
    ensures After(b, calls[..n + 1]) == Charged(After(b, calls[..n]), calls[n])
  {
    assert calls[..n + 1][..n] == calls[..n];
  }

  lemma {:induction false} Constants(b: Level, calls: seq<Call>, n: nat)
    requires n <= |calls|
    ensures After(b, calls[..n]).rate == b.rate && After(b, calls[..n]).capacity == b.capacity
    ensures b.rate > 0.0 ==> After(b, calls[..n]).last == if n == 0 then b.last else calls[n - 1].now
  {
    if n > 0 {
      Constants(b, calls, n - 1);
      AfterStep(b, calls, n - 1);
    }
  }

  lemma FirstCall(b: Level, calls: seq<Call>)
    requires b.rate > 0.0 && b.tokens == b.capacity && Monotone(b, calls) && calls != []
    ensures Refilled(b, calls[0].now) == b.capacity
    ensures Least(b, calls, 1)
  {
    GainGrows(b.rate, calls[0].now - b.last);
    GainNone(b.rate);
    AfterStep(b, calls, 0);
    assert calls[..0] == [];
    assert Spent(b, calls, 0, 0) == 0.0;
    assert After(b, calls[..1]).tokens == Room(b, calls, 0, 1, calls[0].now);
  }

  /** The level a call finds, against every window up to it. */
  lemma RefilledIs(b: Level, calls: seq<Call>, n: nat)
    requires b.rate > 0.0 && Monotone(b, calls) && 0 < n < |calls| && Least(b, calls, n)
    ensures var level := Refilled(After(b, calls[..n]), calls[n].now);
            && level <= b.capacity
            && (forall j :: 0 <= j < n ==> level <= Room(b, calls, j, n, calls[n].now))
            && (level == b.capacity || exists j :: 0 <= j < n && level == Room(b, calls, j, n, calls[n].now))
  {
    Constants(b, calls, n);
    var before, now := calls[n - 1].now, calls[n].now;
    var tokens, level := After(b, calls[..n]).tokens, Refilled(After(b, calls[..n]), now);
    hide Gain, Room;
    assert level <= tokens + Gain(b.rate, now - before);
    forall j | 0 <= j < n
      ensures level <= Room(b, calls, j, n, now)
    {
      RoomLater(b, calls, j, n, before, now);
    }
    if level != b.capacity {
      var j :| 0 <= j < n && tokens == Room(b, calls, j, n, before);
      RoomLater(b, calls, j, n, before, now);
    }
  }

  /** One more call charges every window, and opens its own. */
  lemma RoomCharged(b: Level, calls: seq<Call>, j: nat, n: nat)
    requires j <= n < |calls|
    ensures Room(b, calls, j, n + 1, calls[n].now) ==
            (if j == n then b.capacity else Room(b, calls, j, n, calls[n].now))
            - (if Granted(b, calls, n) then calls[n].cost else 0.0)
  {
    hide Granted;
    if j == n {
      GainNone(b.rate);
      assert Spent(b, calls, n, n) == 0.0;
    }
  }

  lemma {:induction false} AlwaysLeast(b: Level, calls: seq<Call>, n: nat)
    requires b.rate > 0.0 && b.tokens == b.capacity && Monotone(b, calls) && 0 < n <= |calls|
    ensures Least(b, calls, n)
    decreases n
  {
    if n == 1 {
      FirstCall(b, calls);
    } else {
      AlwaysLeast(b, calls, n - 1);
      hide Least, Spent, After;
      LeastNext(b, calls, n - 1);
    }
  }

  lemma LeastNext(b: Level, calls: seq<Call>, n: nat)
    requires b.rate > 0.0 && Monotone(b, calls) && 0 < n < |calls| && Least(b, calls, n)
    ensures Least(b, calls, n + 1)
  {
    RefilledIs(b, calls, n);
    AfterStep(b, calls, n);
    Constants(b, calls, n);
    var now := calls[n].now;
    var level, tokens := Refilled(After(b, calls[..n]), now), After(b, calls[..n + 1]).tokens;
    assert tokens == level - (if Granted(b, calls, n) then calls[n].cost else 0.0);
    hide Room, Gain, After, Spent, Granted, Refilled;
    var m := n + 1;
    forall j | 0 <= j < m
      ensures tokens <= Room(b, calls, j, m, now)
    {
      RoomCharged(b, calls, j, n);
    }
    if level == b.capacity {
      RoomCharged(b, calls, n, n);
    } else {
      var j :| 0 <= j < n && level == Room(b, calls, j, n, now);
      RoomCharged(b, calls, j, n);
    }
  }

  lemma GainIs(rate: real, ms: real)
    ensures Gain(rate, ms) == ms / 1000.0 * rate
  {
  }

  lemma GrantedByGain(rate: real, capacity: real, start: real, calls: seq<Call>, n: nat)
    requires rate > 0.0 && n < |calls| && Monotone(Fresh(rate, capacity, start), calls)
    ensures var b := Fresh(rate, capacity, start);
            Granted(b, calls, n) <==>
            forall j :: 0 <= j <= n ==>
              Spent(b, calls, j, n) + calls[n].cost <= capacity + Gain(rate, calls[n].now - calls[j].now)
  {
    var b := Fresh(rate, capacity, start);
    var level := Refilled(After(b, calls[..n]), calls[n].now);
    Constants(b, calls, n);
    GainNone(rate);
    if n == 0 {
      FirstCall(b, calls);
      assert calls[..0] == [];
    } else {
      AlwaysLeast(b, calls, n);
      RefilledIs(b, calls, n);
    }
    assert level <= capacity;
    assert Spent(b, calls, n, n) == 0.0;
    if Granted(b, calls, n) {
      forall j | 0 <= j <= n
        ensures Spent(b, calls, j, n) + calls[n].cost <= capacity + Gain(rate, calls[n].now - calls[j].now)
      {
        assert j < n ==> level <= Room(b, calls, j, n, calls[n].now);
      }
    }
  }

  lemma WindowGain(rate: real, capacity: real, start: real, calls: seq<Call>, from: nat, end: nat)
    requires rate > 0.0 && from < end <= |calls| && Monotone(Fresh(rate, capacity, start), calls)
    requires capacity >= 0.0
    ensures Spent(Fresh(rate, capacity, start), calls, from, end)
            <= capacity + Gain(rate, calls[end - 1].now - calls[from].now)
    decreases end
  {
    var b := Fresh(rate, capacity, start);
    GrantedByGain(rate, capacity, start, calls, end - 1);
    if !Granted(b, calls, end - 1) {
      if from == end - 1 {
        GainNone(rate);
      } else {
        WindowGain(rate, capacity, start, calls, from, end - 1);
        GainAdds(rate, calls[end - 2].now - calls[from].now, calls[end - 1].now - calls[end - 2].now);
        GainGrows(rate, calls[end - 1].now - calls[end - 2].now);
      }
    }
  }

  /**
   Exactness: a call is granted if and only if, since every call up to now, what
   was granted plus this cost stays within the capacity plus `rate` a second.
   */
  lemma GrantedExactly(rate: real, capacity: real, start: real, calls: seq<Call>, n: nat)
    requires rate > 0.0 && n < |calls| && Monotone(Fresh(rate, capacity, start), calls)
    ensures var b := Fresh(rate, capacity, start);
            Granted(b, calls, n) <==>
            forall j :: 0 <= j <= n ==>
              Spent(b, calls, j, n) + calls[n].cost <= capacity + (calls[n].now - calls[j].now) / 1000.0 * rate
  {
    var b := Fresh(rate, capacity, start);
    hide Granted, Gain, Spent, Monotone;
    GrantedByGain(rate, capacity, start, calls, n);
    forall j | 0 <= j <= n
      ensures Gain(rate, calls[n].now - calls[j].now) == (calls[n].now - calls[j].now) / 1000.0 * rate
    {
      GainIs(rate, calls[n].now - calls[j].now);
    }
  }

  /** In every window of calls, what was granted stays within the capacity plus what the window's time adds. */
  lemma WindowBound(rate: real, capacity: real, start: real, calls: seq<Call>, from: nat, end: nat)
    requires rate > 0.0 && from < end <= |calls| && Monotone(Fresh(rate, capacity, start), calls)
    requires capacity >= 0.0
    ensures Spent(Fresh(rate, capacity, start), calls, from, end)
            <= capacity + (calls[end - 1].now - calls[from].now) / 1000.0 * rate
  {
    hide Gain, Spent, Monotone;
    WindowGain(rate, capacity, start, calls, from, end);
    GainIs(rate, calls[end - 1].now - calls[from].now);
  }

  /** A rate of zero or less means no limit. */
  lemma {:induction false} NoLimit(rate: real, capacity: real, start: real, calls: seq<Call>, n: nat)
    requires rate <= 0.0 && n < |calls|
    ensures Granted(Fresh(rate, capacity, start), calls, n)
  {
    Constants(Fresh(rate, capacity, start), calls, n);
  }

  // ------------------------------------------------------------------ objects

  class Bucket {
    const rate: real
    const capacity: real
    var tokens: real
    var last: real

    function Now(): Level
      reads this
    {
      Level(rate, capacity, tokens, last)
    }

    constructor (rate: real, capacity: real, now: real)
      ensures Now() == Fresh(rate, capacity, now)
      ensures this.rate == rate && this.capacity == capacity && tokens == capacity && last == now
    {
      this.rate, this.capacity, tokens, last := rate, capacity, capacity, now;
    }

    /** Takes `cost` tokens, or none if there are fewer. */
    method Take(cost: real, now: real) returns (ok: bool)
      modifies this
      ensures Now() == Charged(old(Now()), Call(cost, now)) && ok == Grants(old(Now()), Call(cost, now))
    {
      if rate <= 0.0 {
        return true;
      }
      var elapsed := (if now - last >= 0.0 then now - last else 0.0) / 1000.0;
      var level := tokens + elapsed * rate;
      tokens := if level <= capacity then level else capacity;
      last := now;
      if tokens < cost {
        return false;
      }
      tokens := tokens - cost;
      return true;
    }
  }

  datatype Rates = Rates(messagesPerSecond: real, messageBurst: real, bytesPerSecond: real, joinsPerMinute: real)

  datatype Problem = Accepted | TooManyFrames | TooManyBytes

  /** The inbound limits of one connection. */
  class ConnectionLimiter {
    const frames: Bucket
    const bytes: Bucket
    const joins: Bucket

    ghost predicate Apart() {
      frames != bytes && frames != joins && bytes != joins
    }

    constructor (limits: Rates, now: real)
      ensures Apart() && fresh(frames) && fresh(bytes) && fresh(joins)
      ensures frames.Now() == Fresh(limits.messagesPerSecond, limits.messagesPerSecond + limits.messageBurst, now)
      ensures bytes.Now() == Fresh(limits.bytesPerSecond, limits.bytesPerSecond, now)
      ensures joins.Now() == Fresh(limits.joinsPerMinute / 60.0, limits.joinsPerMinute, now)
    {
      frames := new Bucket(limits.messagesPerSecond, limits.messagesPerSecond + limits.messageBurst, now);
      bytes := new Bucket(limits.bytesPerSecond, limits.bytesPerSecond, now);
      joins := new Bucket(limits.joinsPerMinute / 60.0, limits.joinsPerMinute, now);
    }

    /** Both buckets are charged, whatever either answers. */
    method FrameProblem(size: real, now: real) returns (problem: Problem)
      requires Apart()
      modifies frames, bytes
      ensures frames.Now() == Charged(old(frames.Now()), Call(1.0, now))
      ensures bytes.Now() == Charged(old(bytes.Now()), Call(size, now))
      ensures problem == if !Grants(old(frames.Now()), Call(1.0, now)) then TooManyFrames
                         else if !Grants(old(bytes.Now()), Call(size, now)) then TooManyBytes
                         else Accepted
    {
      var framesOk := frames.Take(1.0, now);
      var bytesOk := bytes.Take(size, now);
      return if !framesOk then TooManyFrames else if !bytesOk then TooManyBytes else Accepted;
    }

    method AllowJoin(now: real) returns (ok: bool)
      requires Apart()
      modifies joins
      ensures joins.Now() == Charged(old(joins.Now()), Call(1.0, now)) && ok == Grants(old(joins.Now()), Call(1.0, now))
    {
      ok := joins.Take(1.0, now);
    }
  }

  // --------------------------------------------------------- a connection's frames

  /** Frames by size and time; each is charged to both buckets. */
  function FrameCalls(frames: seq<Call>): (calls: seq<Call>)
    ensures |calls| == |frames| && forall i :: 0 <= i < |frames| ==> calls[i] == Call(1.0, frames[i].now)
  {
    if frames == [] then [] else [Call(1.0, frames[0].now)] + FrameCalls(frames[1..])
  }

  predicate FrameAccepted(limits: Rates, start: real, frames: seq<Call>, i: nat)
    requires i < |frames|
  {
    && Granted(Fresh(limits.messagesPerSecond, limits.messagesPerSecond + limits.messageBurst, start),
               FrameCalls(frames), i)
    && Granted(Fresh(limits.bytesPerSecond, limits.bytesPerSecond, start), frames, i)
  }

  /** Frames and bytes accepted in a window. */
  function AcceptedIn(limits: Rates, start: real, frames: seq<Call>, from: nat, end: nat): (real, real)
    requires from <= end <= |frames|
    decreases end
  {
    if from == end then (0.0, 0.0)
    else
      var before := AcceptedIn(limits, start, frames, from, end - 1);
      if FrameAccepted(limits, start, frames, end - 1) then (before.0 + 1.0, before.1 + frames[end - 1].cost)
          else before
  }

  lemma {:induction false} AcceptedWithinSpent(limits: Rates, start: real, frames: seq<Call>, from: nat, end: nat)
    requires from <= end <= |frames| && forall i :: 0 <= i < |frames| ==> frames[i].cost >= 0.0
    ensures var (count, volume) := AcceptedIn(limits, start, frames, from, end);
            && count <= Spent(Fresh(limits.messagesPerSecond, limits.messagesPerSecond + limits.messageBurst, start),
                              FrameCalls(frames), from, end)
            && volume <= Spent(Fresh(limits.bytesPerSecond, limits.bytesPerSecond, start), frames, from, end)
    decreases end
  {
    if from < end {
      AcceptedWithinSpent(limits, start, frames, from, end - 1);
    }
  }

  /** Accepted frames and bytes are bounded in every window. */
  lemma AcceptedBounded(limits: Rates, start: real, frames: seq<Call>, from: nat, end: nat)
    requires limits.messagesPerSecond > 0.0 && limits.bytesPerSecond > 0.0 && limits.messageBurst >= 0.0
    requires from < end <= |frames| && forall i :: 0 <= i < |frames| ==> frames[i].cost >= 0.0
    requires Monotone(Fresh(limits.bytesPerSecond, limits.bytesPerSecond, start), frames)
    ensures var (count, volume) := AcceptedIn(limits, start, frames, from, end);
            var ms := frames[end - 1].now - frames[from].now;
            && count <= limits.messagesPerSecond + limits.messageBurst + ms / 1000.0 * limits.messagesPerSecond
            && volume <= limits.bytesPerSecond + ms / 1000.0 * limits.bytesPerSecond
  {
    hide AcceptedIn, Monotone, Gain;
    AcceptedGain(limits, start, frames, from, end);
    GainIs(limits.messagesPerSecond, frames[end - 1].now - frames[from].now);
    GainIs(limits.bytesPerSecond, frames[end - 1].now - frames[from].now);
  }

  lemma AcceptedGain(limits: Rates, start: real, frames: seq<Call>, from: nat, end: nat)
    requires limits.messagesPerSecond > 0.0 && limits.bytesPerSecond > 0.0 && limits.messageBurst >= 0.0
    requires from < end <= |frames| && forall i :: 0 <= i < |frames| ==> frames[i].cost >= 0.0
    requires Monotone(Fresh(limits.bytesPerSecond, limits.bytesPerSecond, start), frames)
    ensures var (count, volume) := AcceptedIn(limits, start, frames, from, end);
            var ms := frames[end - 1].now - frames[from].now;
            && count <= limits.messagesPerSecond + limits.messageBurst + Gain(limits.messagesPerSecond, ms)
            && volume <= limits.bytesPerSecond + Gain(limits.bytesPerSecond, ms)
  {
    hide Gain, Spent, AcceptedIn, Monotone;
    AcceptedWithinSpent(limits, start, frames, from, end);
    FramesSpent(limits, start, frames, from, end);
    WindowGain(limits.bytesPerSecond, limits.bytesPerSecond, start, frames, from, end);
  }

  lemma FramesSpent(limits: Rates, start: real, frames: seq<Call>, from: nat, end: nat)
    requires limits.messagesPerSecond > 0.0 && limits.messageBurst >= 0.0 && from < end <= |frames|
    requires Monotone(Fresh(limits.bytesPerSecond, limits.bytesPerSecond, start), frames)
    ensures var burst := limits.messagesPerSecond + limits.messageBurst;
            Spent(Fresh(limits.messagesPerSecond, burst, start), FrameCalls(frames), from, end)
            <= burst + Gain(limits.messagesPerSecond, frames[end - 1].now - frames[from].now)
  {
    hide Gain, Spent;
    WindowGain(limits.messagesPerSecond, limits.messagesPerSecond + limits.messageBurst, start, FrameCalls(frames),
               from, end);
  }

  // ---------------------------------------------------------- a connection's joins

  function JoinCalls(times: seq<real>): (calls: seq<Call>)
    ensures |calls| == |times| && forall i :: 0 <= i < |times| ==> calls[i] == Call(1.0, times[i])
  {
    if times == [] then [] else [Call(1.0, times[0])] + JoinCalls(times[1..])
  }

  function JoinLevel(limits: Rates, start: real): Level {
    Fresh(limits.joinsPerMinute / 60.0, limits.joinsPerMinute, start)
  }

  /** Joins at `times` that were allowed, from the one numbered `from` to the one before `end`. */
  function JoinsAllowed(limits: Rates, start: real, times: seq<real>, from: nat, end: nat): nat
    requires from <= end <= |times|
    decreases end
  {
    if from == end then 0
    else
      JoinsAllowed(limits, start, times, from, end - 1)
      + (if Granted(JoinLevel(limits, start), JoinCalls(times), end - 1) then 1 else 0)
  }

  lemma {:induction false} JoinsSpend(limits: Rates, start: real, times: seq<real>, from: nat, end: nat)
    requires from <= end <= |times|
    ensures JoinsAllowed(limits, start, times, from, end) as real
            == Spent(JoinLevel(limits, start), JoinCalls(times), from, end)
    decreases end
  {
    hide Granted;
    if from < end {
      JoinsSpend(limits, start, times, from, end - 1);
    }
  }

  /** In every window of `ms` milliseconds, at most a minute's joins and those of the window are allowed. */
  lemma JoinsBounded(limits: Rates, start: real, times: seq<real>, from: nat, end: nat)
    requires limits.joinsPerMinute > 0.0 && from < end <= |times|
    requires start <= times[0] && forall i, j :: 0 <= i <= j < |times| ==> times[i] <= times[j]
    ensures var ms := times[end - 1] - times[from];
            JoinsAllowed(limits, start, times, from, end) as real
            <= limits.joinsPerMinute + limits.joinsPerMinute * ms / 60000.0
  {
    hide Spent, JoinsAllowed;
    var calls := JoinCalls(times);
    assert Monotone(JoinLevel(limits, start), calls);
    JoinsSpend(limits, start, times, from, end);
    WindowGain(limits.joinsPerMinute / 60.0, limits.joinsPerMinute, start, calls, from, end);
    var ms := times[end - 1] - times[from];
    assert Gain(limits.joinsPerMinute / 60.0, ms) == limits.joinsPerMinute * ms / 60000.0;
  }
}
