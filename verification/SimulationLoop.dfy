/** The fixed-step simulation loop: where every millisecond of a run goes. Times are real milliseconds. */
module SimulationLoop {

  /** A timer this much early still counts. */
  const EPSILON: real := 0.000001

  function Times(a: real, b: real): real { a * b }

  /** How often `y` goes into `x`, towards zero. */
  function Whole(x: real, y: real): int
    requires y > 0.0
  {
    if x >= 0.0 then (x / y).Floor else -(-x / y).Floor
  }

  /** The remainder of a division towards zero: its sign is that of the dividend. */
  function Remainder(x: real, y: real): real
    requires y > 0.0
  {
    x - Times(Whole(x, y) as real, y)
  }

  /** Whole steps of time. */
  function Steps(n: int, stepMs: real): real { Times(n as real, stepMs) }

  lemma OneMore(n: int, stepMs: real)
    ensures Steps(n + 1, stepMs) == Steps(n, stepMs) + stepMs
  {
  }

  lemma MoreSteps(a: int, b: int, stepMs: real)
    ensures Steps(a + b, stepMs) == Steps(a, stepMs) + Steps(b, stepMs)
  {
  }

  lemma FloorIs(x: real, y: real)
    requires x >= 0.0 && y > 0.0
    ensures Times((x / y).Floor as real, y) <= x < Times((x / y).Floor as real, y) + y && (x / y).Floor >= 0
  {
    Quotient(x, y);
    var q := x / y;
    hide Times;
    var f := q.Floor as real;
    TimesLess(f, q, y);
    TimesLess(q, f + 1.0, y);
    TimesOneMore(f, y);
    TimesLess(q, 0.0, y);
    TimesZero(y);
  }

  lemma RemainderIs(x: real, y: real)
    requires y > 0.0
    ensures -y < Remainder(x, y) < y && (x >= 0.0 ==> Remainder(x, y) >= 0.0 && Whole(x, y) >= 0)
    ensures x - Remainder(x, y) == Steps(Whole(x, y), y)
  {
    if x >= 0.0 {
      FloorIs(x, y);
    } else {
      FloorIs(-x, y);
      TimesNegated((-x / y).Floor as real, y);
    }
  }

  lemma TimesNegated(f: real, y: real)
    ensures Times(-f, y) == -Times(f, y)
  {
  }

  lemma Quotient(x: real, y: real)
    requires y > 0.0
    ensures Times(x / y, y) == x
  {
  }

  lemma TimesLess(a: real, b: real, y: real)
    requires y > 0.0
    ensures a < b ==> Times(a, y) < Times(b, y)
    ensures a <= b ==> Times(a, y) <= Times(b, y)
  {
  }

  lemma TimesOneMore(f: real, y: real)
    ensures Times(f + 1.0, y) == Times(f, y) + y
  {
  }

  lemma TimesZero(y: real)
    ensures Times(0.0, y) == 0.0
  {
  }

  class SimulationLoop {
    var stepMs: real
    const maxCatchUpSteps: nat
    var running: bool
    var last: real
    var accumulator: real
    var droppedMs: real
    var steps: int
    // Since the loop was last started: when, and what was stepped and dropped before.
    ghost var startedAt: real
    ghost var stepsBefore: int
    ghost var droppedBefore: real
    ghost var droppedSteps: int

    ghost predicate Valid()
      reads this
    {
      stepMs > 0.0 && maxCatchUpSteps >= 1 && (running ==> Accounted(0))
    }

    /**
     All time since the start was stepped, dropped or waits in the accumulator,
     which may hold `extra` more steps. Steps as short as a timer's error can be
     taken ahead of time, and a drop then takes them back.
     */
    ghost predicate Accounted(extra: nat)
      reads this
    {
      && last - startedAt == Steps(steps - stepsBefore, stepMs) + (droppedMs - droppedBefore) + accumulator
      && droppedMs - droppedBefore == Steps(droppedSteps, stepMs) && (stepMs > EPSILON ==> droppedSteps >= 0)
      && -EPSILON <= accumulator && (extra == 0 ==> accumulator < stepMs)
    }

    constructor (tickRate: real, catchUp: nat)
      requires tickRate > 0.0
      ensures Valid() && !running && steps == 0 && droppedMs == 0.0 && stepMs == 1000.0 / tickRate
      ensures maxCatchUpSteps == if catchUp >= 1 then catchUp else 1
    {
      stepMs := 1000.0 / tickRate;
      maxCatchUpSteps := if catchUp >= 1 then catchUp else 1;
      running, last, accumulator, droppedMs, steps := false, 0.0, 0.0, 0.0, 0;
      startedAt, stepsBefore, droppedBefore, droppedSteps := 0.0, 0, 0.0, 0;
    }

    method Start(now: real)
      requires Valid()
      modifies this
      ensures Valid() && running && stepMs == old(stepMs) && steps == old(steps) && droppedMs == old(droppedMs)
      ensures !old(running) ==>
                && startedAt == now && last == now && accumulator == 0.0
                && stepsBefore == steps && droppedBefore == droppedMs && droppedSteps == 0
      ensures old(running) ==> startedAt == old(startedAt) && last == old(last) && accumulator == old(accumulator)
    {
      if running {
        return;
      }
      last, accumulator, running := now, 0.0, true;
      startedAt, stepsBefore, droppedBefore, droppedSteps := now, steps, droppedMs, 0;
    }

    method Stop()
      requires Valid()
      modifies this`running
      ensures Valid() && !running
    {
      running := false;
    }

    method SetTickRate(tickRate: real, now: real)
      requires Valid() && tickRate > 0.0
      modifies this
      ensures Valid() && running == old(running) && stepMs == 1000.0 / tickRate && steps == old(steps)
              && droppedMs == old(droppedMs)
      ensures running ==>
                && startedAt == now && last == now && accumulator == 0.0
                && stepsBefore == steps && droppedBefore == droppedMs
      ensures !running ==> last == old(last) && accumulator == old(accumulator)
    {
      var wasRunning := running;
      Stop();
      stepMs := 1000.0 / tickRate;
      if wasRunning {
        Start(now);
      }
    }

    /** `stopsAt` is the step, if any, whose callback stops the loop. */
    method Wake(now: real, stopsAt: nat)
      requires Valid() && running && now >= last
      modifies this`last, this`accumulator, this`steps, this`droppedMs, this`running, this`droppedSteps
      ensures Valid() && stepMs == old(stepMs) && last == now
      ensures 0 <= steps - old(steps) <= maxCatchUpSteps
      // The step that stops the loop is the last, and nothing is dropped after it.
      ensures !running <==> 1 <= stopsAt <= steps - old(steps)
      ensures !running ==> steps - old(steps) == stopsAt && droppedMs == old(droppedMs) && Accounted(1)
      ensures running ==>
                && now - startedAt == Steps(steps - stepsBefore, stepMs) + (droppedMs - droppedBefore) + accumulator
                && -EPSILON <= accumulator < stepMs
                && droppedMs - droppedBefore == Steps(droppedSteps, stepMs)
                && (stepMs > EPSILON ==> droppedSteps >= old(droppedSteps))
      // Time is dropped only after a full catch-up.
      ensures droppedMs != old(droppedMs) ==> steps - old(steps) == maxCatchUpSteps
    {
      hide Steps;
      accumulator := accumulator + (now - last);
      last := now;
      var ran := 0;
      while accumulator + EPSILON >= stepMs && ran < maxCatchUpSteps
        invariant 0 <= ran <= maxCatchUpSteps && ran == steps - old(steps) && running && Accounted(1)
        invariant stopsAt == 0 || ran < stopsAt
        invariant droppedMs == old(droppedMs) && droppedSteps == old(droppedSteps) && last == now
        decreases maxCatchUpSteps - ran
      {
        OneMore(steps - stepsBefore, stepMs);
        accumulator := accumulator - stepMs;
        ran := ran + 1;
        steps := steps + 1;
        if ran == stopsAt {
          running := false;
          return;
        }
      }
      if accumulator + EPSILON >= stepMs {
        DropBacklog();
      }
    }

    /** The whole steps still in the accumulator are dropped. */
    method DropBacklog()
      requires stepMs > 0.0 && accumulator + EPSILON >= stepMs && Accounted(1)
      modifies this`accumulator, this`droppedMs, this`droppedSteps
      ensures Accounted(0) && -stepMs < accumulator < stepMs
      ensures droppedMs + accumulator == old(droppedMs + accumulator)
      ensures old(accumulator) >= 0.0 ==> droppedSteps >= old(droppedSteps) && accumulator >= 0.0
    {
      hide Steps;
      RemainderIs(accumulator, stepMs);
      var whole := Whole(accumulator, stepMs);
      MoreSteps(droppedSteps, whole, stepMs);
      var backlog := accumulator - Remainder(accumulator, stepMs);
      hide Remainder, Whole;
      droppedSteps := droppedSteps + whole;
      droppedMs := droppedMs + backlog;
      accumulator := accumulator - backlog;
    }
  }
}
