/**
 * The continuous mode: passes run one after another until the loop is left.
 * How each loop iteration ends is supplied as an event.
 */
module Scheduler {

  /**
   * How one iteration of the continuous loop ends. An interrupt that arrives
   * during a fallback write is swallowed there and the pass carries on, so the
   * iteration ends as `PassCompleted` or `PassRaised`, not as an interrupt.
   */
  datatype PassEvent =
    | PassCompleted         // the pass and the interval sleep ran
    | PassRaised            // the pass or the interval sleep raised; the handler logged it and slept the interval
    | Interrupted           // an interrupt reached the loop during the pass or the interval sleep
    | InterruptedInBackoff  // the pass or the interval sleep raised, then an interrupt arrived in the handler's sleep
    | CrashedInBackoff      // the pass or the interval sleep raised, then the handler's own sleep raised too

  /**
   * The loop's state: running, or stopped. `escaped` records that the loop was
   * left by an exception rather than through the handler's `break`.
   */
  datatype LoopState =
    | Running(passes: nat, failures: nat)
    | Stopped(passes: nat, failures: nat, escaped: bool)

  /** Whether an iteration ending this way leaves the loop. */
  predicate IsStop(e: PassEvent) {
    e.Interrupted? || e.InterruptedInBackoff? || e.CrashedInBackoff?
  }

  /**
   * One iteration: the loop is left exactly on a stopping event, by an
   * exception exactly when that event arose in the handler's sleep, and every
   * iteration but a clean interrupt is counted as a completed or a failed pass.
   */
  function Next(s: LoopState, e: PassEvent): (r: LoopState)
    requires s.Running?
    ensures r.Stopped? <==> IsStop(e)
    ensures r.Stopped? ==> (r.escaped <==> !e.Interrupted?)
    ensures r.passes + r.failures == s.passes + s.failures + (if e.Interrupted? then 0 else 1)
  {
    match e
    case PassCompleted => Running(s.passes + 1, s.failures)
    case PassRaised => Running(s.passes, s.failures + 1)
    case Interrupted => Stopped(s.passes, s.failures, false)
    case InterruptedInBackoff => Stopped(s.passes, s.failures + 1, true)
    case CrashedInBackoff => Stopped(s.passes, s.failures + 1, true)
  }

  /**
   * The state after feeding `events` to the loop. A stopped loop reaches no
   * further event, and the counters never go down.
   */
  function Run(s: LoopState, events: seq<PassEvent>): (r: LoopState)
    ensures s.Stopped? ==> r == s
    ensures r.passes >= s.passes && r.failures >= s.failures
    decreases |events|
  {
    if s.Stopped? || |events| == 0 then s else Run(Next(s, events[0]), events[1..])
  }

  /** The position of the first stopping event, or `|events|` when there is none. */
  function FirstStop(events: seq<PassEvent>): (r: nat)
    ensures r <= |events|
    ensures forall i :: 0 <= i < r ==> !IsStop(events[i])
    ensures r < |events| ==> IsStop(events[r])
  {
    if |events| == 0 then 0
    else if IsStop(events[0]) then 0
    else 1 + FirstStop(events[1..])
  }

  /** The loop body, run once per event until the loop is left. */
  method RunContinuous(events: seq<PassEvent>) returns (final: LoopState)
    ensures final == Run(Running(0, 0), events)
  {
    final := Running(0, 0);
    var i := 0;
    while i < |events| && final.Running?
      invariant 0 <= i <= |events|
      invariant Run(final, events[i..]) == Run(Running(0, 0), events)
      decreases |events| - i
    {
      match events[i] {
        case PassCompleted =>
          final := Running(final.passes + 1, final.failures);
        case PassRaised =>
          final := Running(final.passes, final.failures + 1);
        case Interrupted =>
          final := Stopped(final.passes, final.failures, false);
        case InterruptedInBackoff =>
          final := Stopped(final.passes, final.failures + 1, true);
        case CrashedInBackoff =>
          final := Stopped(final.passes, final.failures + 1, true);
      }
      i := i + 1;
    }
  }

  /**
   * The loop is left exactly when an interrupt arrives or the handler's sleep
   * raises; until then every event, a raised pass included, is one more
   * iteration. The loop is left by an exception exactly when the stopping
   * event arose in the handler's sleep.
   */
  lemma {:induction false} RunStopsOnlyOnStoppingEvent(passes: nat, failures: nat, events: seq<PassEvent>)
    ensures var r := Run(Running(passes, failures), events);
      var n := FirstStop(events);
      && (r.Stopped? <==> n < |events|)
      && r.passes + r.failures
         == passes + failures + n + (if n < |events| && !events[n].Interrupted? then 1 else 0)
      && (r.Stopped? ==> (r.escaped <==> !events[n].Interrupted?))
    decreases |events|
  {
    if |events| > 0 && !IsStop(events[0]) {
      var s := Next(Running(passes, failures), events[0]);
      RunStopsOnlyOnStoppingEvent(s.passes, s.failures, events[1..]);
      assert events[1..][FirstStop(events[1..])..] == events[FirstStop(events)..];
    }
  }

  /** Without a stopping event the loop keeps running, counting every completed pass and every pass that raised. */
  lemma {:induction false} FailuresDoNotStopTheLoop(passes: nat, failures: nat, events: seq<PassEvent>)
    requires forall i :: 0 <= i < |events| ==> !IsStop(events[i])
    ensures var r := Run(Running(passes, failures), events);
      && r.Running?
      && r.passes == passes + multiset(events)[PassCompleted]
      && r.failures == failures + multiset(events)[PassRaised]
    decreases |events|
  {
    if |events| > 0 {
      var s := Next(Running(passes, failures), events[0]);
      FailuresDoNotStopTheLoop(s.passes, s.failures, events[1..]);
      assert events == [events[0]] + events[1..];
      assert multiset(events) == multiset([events[0]]) + multiset(events[1..]);
    }
  }
}
