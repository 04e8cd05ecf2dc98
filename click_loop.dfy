/**
 * The body of the clicking thread, as a pure function of the configuration
 * snapshot, the pointer positions read on successive iterations, and the
 * iteration at whose boundary an external stop clears the running flag.
 *
 * Each iteration: the flag is checked; the pointer is read; with a region
 * configured, a pointer outside it clears the flag and ends the loop before
 * any click; otherwise a click is made at the pointer; then, with a repeat
 * bound configured, a counter that is already 0 clears the flag and ends
 * the loop, else the counter is decremented. The counter starts at the
 * bound and is tested only after the click, so a bound of N > 0 yields
 * N + 1 clicks.
 */
module ClickLoop {
  import opened Geometry
  import opened ClickConfig

  /** Why the loop stopped, or that the supplied positions ran out first. */
  datatype Exit =
    | FlagCleared       // the running flag was observed false (external stop)
    | LeftRegion        // the pointer was outside the configured region
    | RepeatExhausted   // the repeat counter was 0 after a click
    | TraceEnded        // no more positions were supplied; the run is still live

  /** The clicks made (at the pointer positions), the final flag and the exit reason. */
  datatype Outcome = Outcome(clicked: seq<Point>, running: bool, exit: Exit)

  /**
   * The counter after one click that did not end the loop. The loop only
   * decrements a counter that is not 0, so the `value > 0` guard only makes
   * the function total.
   */
  function Decrement(remaining: Option<u32>): (next: Option<u32>)
    ensures next.Some? <==> remaining.Some?
    ensures remaining.Some? && remaining.value > 0 ==> next.value + 1 == remaining.value
  {
    if remaining.Some? && remaining.value > 0 then Some(remaining.value - 1) else remaining
  }

  /**
   * The loop from iteration i on, with counter `remaining` and flag
   * `running` as they stand at that iteration's boundary. `stop == Some(k)`
   * means an external stop clears the flag just before iteration k's check.
   */
  function RunFrom(cfg: Config, trace: seq<Point>, stop: Option<nat>, i: nat,
                   remaining: Option<u32>, running: bool): (o: Outcome)
    requires i <= |trace|
    ensures |o.clicked| <= |trace| - i
    ensures o.running <==> o.exit == TraceEnded
    decreases |trace| - i
  {
    if !running || stop == Some(i) then Outcome([], false, FlagCleared)
    else if i == |trace| then Outcome([], true, TraceEnded)
    else if cfg.region.Some? && !cfg.region.value.Contains(trace[i]) then Outcome([], false, LeftRegion)
    else if remaining == Some(0) then Outcome([trace[i]], false, RepeatExhausted)
    else
      var rest := RunFrom(cfg, trace, stop, i + 1, Decrement(remaining), true);
      rest.(clicked := [trace[i]] + rest.clicked)
  }

  /** The loop clicks at the positions it reads, in order: its clicks are a prefix of the positions from i on. */
  lemma {:induction false} ClicksArePrefix(cfg: Config, trace: seq<Point>, stop: Option<nat>, i: nat,
                                           remaining: Option<u32>, running: bool)
    requires i <= |trace|
    ensures var o := RunFrom(cfg, trace, stop, i, remaining, running);
            o.clicked == trace[i..i + |o.clicked|]
    decreases |trace| - i
  {
    var o := RunFrom(cfg, trace, stop, i, remaining, running);
    if running && stop != Some(i) && i < |trace| && (cfg.region.None? || cfg.region.value.Contains(trace[i]))
       && remaining != Some(0) {
      ClicksArePrefix(cfg, trace, stop, i + 1, Decrement(remaining), true);
      var rest := RunFrom(cfg, trace, stop, i + 1, Decrement(remaining), true);
      assert o.clicked == [trace[i]] + trace[i + 1..i + 1 + |rest.clicked|];
      assert [trace[i]] + trace[i + 1..i + 1 + |rest.clicked|] == trace[i..i + 1 + |rest.clicked|];
    }
  }

  /** The outcome o preceded by the clicks already made. */
  function After(prefix: seq<Point>, o: Outcome): Outcome
  {
    o.(clicked := prefix + o.clicked)
  }

  /** A live iteration whose pointer is outside the region ends the loop with no click. */
  lemma StepLeavesRegion(cfg: Config, trace: seq<Point>, stop: Option<nat>, i: nat, remaining: Option<u32>)
    requires i < |trace| && stop != Some(i)
    requires cfg.region.Some? && !cfg.region.value.Contains(trace[i])
    ensures RunFrom(cfg, trace, stop, i, remaining, true) == Outcome([], false, LeftRegion)
  {
  }

  /** A live iteration that clicks with the counter at 0 ends the loop after that click. */
  lemma StepExhausts(cfg: Config, trace: seq<Point>, stop: Option<nat>, i: nat)
    requires i < |trace| && stop != Some(i)
    requires cfg.region.None? || cfg.region.value.Contains(trace[i])
    ensures RunFrom(cfg, trace, stop, i, Some(0), true) == Outcome([trace[i]], false, RepeatExhausted)
  {
  }

  /** A live iteration that clicks and goes on moves the click into the prefix. */
  lemma StepClicks(prefix: seq<Point>, cfg: Config, trace: seq<Point>, stop: Option<nat>, i: nat,
                   remaining: Option<u32>)
    requires i < |trace| && stop != Some(i)
    requires cfg.region.None? || cfg.region.value.Contains(trace[i])
    requires remaining != Some(0)
    ensures After(prefix, RunFrom(cfg, trace, stop, i, remaining, true)) ==
            After(prefix + [trace[i]], RunFrom(cfg, trace, stop, i + 1, Decrement(remaining), true))
  {
    var rest := RunFrom(cfg, trace, stop, i + 1, Decrement(remaining), true);
    assert prefix + ([trace[i]] + rest.clicked) == (prefix + [trace[i]]) + rest.clicked;
  }

  /**
   * A whole run, from the flag as the thread first finds it: the counter
   * starts at the repeat bound, or is absent when the bound is 0.
   */
  function Run(cfg: Config, trace: seq<Point>, stop: Option<nat>, running: bool): (o: Outcome)
    ensures |o.clicked| <= |trace|
    ensures o.running <==> o.exit == TraceEnded
    ensures !running ==> o == Outcome([], false, FlagCleared)
  {
    RunFrom(cfg, trace, stop, 0, InitialCounter(cfg.repeat), running)
  }

  // ---------------------------------------------------------------------
  // Repeat bound

  lemma {:induction false} CountedFrom(cfg: Config, trace: seq<Point>, i: nat, k: u32)
    requires cfg.region.None? && i <= |trace|
    ensures var o := RunFrom(cfg, trace, None, i, Some(k), true);
            var n := if |trace| - i <= k then |trace| - i else k + 1;
            o.clicked == trace[i..i + n] &&
            (o.running <==> |trace| - i <= k) &&
            (|trace| - i > k ==> o.exit == RepeatExhausted)
    decreases |trace| - i
  {
    var o := RunFrom(cfg, trace, None, i, Some(k), true);
    ClicksArePrefix(cfg, trace, None, i, Some(k), true);
    if i < |trace| && k > 0 {
      CountedFrom(cfg, trace, i + 1, k - 1);
      var rest := RunFrom(cfg, trace, None, i + 1, Some(k - 1), true);
      assert o.running == rest.running && o.exit == rest.exit;
      assert |o.clicked| == 1 + |rest.clicked|;
    }
    assert |o.clicked| == if |trace| - i <= k then |trace| - i else k + 1;
  }

  /**
   * With repeat = N > 0, no region and no external stop, the run clicks at
   * the first N + 1 positions and then clears the flag; fewer positions are
   * all clicked with the run still live. N + 1, not N: the counter is
   * tested for 0 only after a click.
   */
  lemma RepeatGivesOneExtraClick(cfg: Config, trace: seq<Point>)
    requires cfg.repeat > 0 && cfg.region.None?
    ensures var o := Run(cfg, trace, None, true);
            (|trace| > cfg.repeat ==>
               o.clicked == trace[..cfg.repeat + 1] && |o.clicked| == cfg.repeat + 1 &&
               !o.running && o.exit == RepeatExhausted) &&
            (|trace| <= cfg.repeat ==> o.clicked == trace && o.running)
  {
    CountedFrom(cfg, trace, 0, cfg.repeat);
  }

  /** Repeat 2 with three positions gives three clicks, then the flag is cleared. */
  lemma RepeatTwoThreeSamples(p: Point, cps: real)
    ensures var o := Run(Config(cps, 2, None), [p, p, p], None, true);
            |o.clicked| == 3 && !o.running
  {
    RepeatGivesOneExtraClick(Config(cps, 2, None), [p, p, p]);
  }

  lemma {:induction false} UncountedFrom(cfg: Config, trace: seq<Point>, i: nat)
    requires cfg.region.None? && i <= |trace|
    ensures RunFrom(cfg, trace, None, i, None, true) == Outcome(trace[i..], true, TraceEnded)
    decreases |trace| - i
  {
    if i < |trace| {
      UncountedFrom(cfg, trace, i + 1);
    }
  }

  /**
   * With repeat = 0 the counter never ends the run: with no region and no
   * external stop, every supplied position is clicked and the run is still live.
   */
  lemma RepeatZeroIsUnbounded(cfg: Config, trace: seq<Point>)
    requires cfg.repeat == 0 && cfg.region.None?
    ensures Run(cfg, trace, None, true) == Outcome(trace, true, TraceEnded)
  {
    UncountedFrom(cfg, trace, 0);
  }

  lemma {:induction false} NeverExhaustedFrom(cfg: Config, trace: seq<Point>, stop: Option<nat>, i: nat,
                                              running: bool)
    requires i <= |trace|
    ensures RunFrom(cfg, trace, stop, i, None, running).exit != RepeatExhausted
    decreases |trace| - i
  {
    if running && stop != Some(i) && i < |trace| && (cfg.region.None? || cfg.region.value.Contains(trace[i])) {
      NeverExhaustedFrom(cfg, trace, stop, i + 1, true);
    }
  }

  /** With repeat = 0 the counter never ends a run, whatever the region, positions, stop and flag. */
  lemma RepeatZeroNeverExhausts(cfg: Config, trace: seq<Point>, stop: Option<nat>, running: bool)
    requires cfg.repeat == 0
    ensures Run(cfg, trace, stop, running).exit != RepeatExhausted
  {
    NeverExhaustedFrom(cfg, trace, stop, 0, running);
  }

  lemma {:induction false} ClickBoundFrom(cfg: Config, trace: seq<Point>, stop: Option<nat>, i: nat,
                                          k: u32, running: bool)
    requires i <= |trace|
    ensures |RunFrom(cfg, trace, stop, i, Some(k), running).clicked| <= k + 1
    decreases |trace| - i
  {
    if running && stop != Some(i) && i < |trace| && k > 0 {
      ClickBoundFrom(cfg, trace, stop, i + 1, k - 1, true);
    }
  }

  /** Whatever the region, trace or stop, a bound N > 0 never allows more than N + 1 clicks. */
  lemma AtMostRepeatPlusOne(cfg: Config, trace: seq<Point>, stop: Option<nat>, running: bool)
    requires cfg.repeat > 0
    ensures |Run(cfg, trace, stop, running).clicked| <= cfg.repeat + 1
  {
    ClickBoundFrom(cfg, trace, stop, 0, cfg.repeat, running);
  }

  // ---------------------------------------------------------------------
  // Region

  /** Every point of s lies in r. */
  predicate AllInside(r: Rect, s: seq<Point>)
  {
    forall j :: 0 <= j < |s| ==> r.Contains(s[j])
  }

  lemma {:induction false} ClicksInsideFrom(cfg: Config, trace: seq<Point>, stop: Option<nat>, i: nat,
                                            remaining: Option<u32>, running: bool)
    requires cfg.region.Some? && i <= |trace|
    ensures AllInside(cfg.region.value, RunFrom(cfg, trace, stop, i, remaining, running).clicked)
    decreases |trace| - i
  {
    if running && stop != Some(i) && i < |trace| && cfg.region.value.Contains(trace[i]) && remaining != Some(0) {
      var rest := RunFrom(cfg, trace, stop, i + 1, Decrement(remaining), true);
      ClicksInsideFrom(cfg, trace, stop, i + 1, Decrement(remaining), true);
      assert RunFrom(cfg, trace, stop, i, remaining, running).clicked == [trace[i]] + rest.clicked;
    }
  }

  /** With a region configured, no click is ever made at a pointer outside it. */
  lemma NoClickOutsideRegion(cfg: Config, trace: seq<Point>, stop: Option<nat>, running: bool)
    requires cfg.region.Some?
    ensures var o := Run(cfg, trace, stop, running);
            forall j :: 0 <= j < |o.clicked| ==> cfg.region.value.Contains(o.clicked[j])
  {
    ClicksInsideFrom(cfg, trace, stop, 0, InitialCounter(cfg.repeat), running);
  }

  /** Positions i .. k-1 inside the region, position k outside it. */
  predicate LeavesRegionAt(r: Rect, trace: seq<Point>, k: nat)
  {
    k < |trace| && !r.Contains(trace[k]) && forall j :: 0 <= j < k ==> r.Contains(trace[j])
  }

  lemma {:induction false} LeaveRegionFrom(cfg: Config, trace: seq<Point>, i: nat, remaining: Option<u32>, k: nat)
    requires cfg.region.Some? && LeavesRegionAt(cfg.region.value, trace, k) && i <= k
    requires remaining.None? || k - i <= remaining.value
    ensures RunFrom(cfg, trace, None, i, remaining, true) == Outcome(trace[i..k], false, LeftRegion)
    decreases k - i
  {
    if i < k {
      LeaveRegionFrom(cfg, trace, i + 1, Decrement(remaining), k);
    }
  }

  /**
   * With a region, no external stop, and a repeat bound that is 0 or at
   * least k: a pointer inside for the first k positions and outside at
   * position k gives exactly the k clicks made while inside, then the flag
   * is cleared without a click.
   */
  lemma LeavingRegionStopsRun(cfg: Config, trace: seq<Point>, k: nat)
    requires cfg.region.Some? && LeavesRegionAt(cfg.region.value, trace, k)
    requires cfg.repeat == 0 || k <= cfg.repeat
    ensures Run(cfg, trace, None, true) == Outcome(trace[..k], false, LeftRegion)
  {
    LeaveRegionFrom(cfg, trace, 0, InitialCounter(cfg.repeat), k);
  }

  /** Inside, then outside: exactly one click, then the flag is cleared. */
  lemma InsideThenOutside(cfg: Config, inside: Point, outside: Point)
    requires cfg.region.Some?
    requires cfg.region.value.Contains(inside) && !cfg.region.value.Contains(outside)
    ensures Run(cfg, [inside, outside], None, true) == Outcome([inside], false, LeftRegion)
  {
    LeavingRegionStopsRun(cfg, [inside, outside], 1);
  }

  // ---------------------------------------------------------------------
  // External stop

  lemma {:induction false} StopBoundFrom(cfg: Config, trace: seq<Point>, i: nat, remaining: Option<u32>,
                                         running: bool, k: nat)
    requires i <= |trace| && i <= k
    ensures |RunFrom(cfg, trace, Some(k), i, remaining, running).clicked| <= k - i
    decreases |trace| - i
  {
    if running && i != k && i < |trace| {
      StopBoundFrom(cfg, trace, i + 1, Decrement(remaining), true, k);
    }
  }

  /** A stop issued before iteration k's check leaves at most k clicks. */
  lemma StopLimitsClicks(cfg: Config, trace: seq<Point>, k: nat, running: bool)
    ensures |Run(cfg, trace, Some(k), running).clicked| <= k
  {
    StopBoundFrom(cfg, trace, 0, InitialCounter(cfg.repeat), running, k);
  }

  lemma {:induction false} StoppedFrom(cfg: Config, trace: seq<Point>, i: nat, k: nat)
    requires cfg.region.None? && i <= k <= |trace|
    ensures RunFrom(cfg, trace, Some(k), i, None, true) == Outcome(trace[i..k], false, FlagCleared)
    decreases k - i
  {
    if i < k {
      StoppedFrom(cfg, trace, i + 1, k);
    }
  }

  /**
   * An unbounded run with no region, stopped externally before iteration
   * k's check, clicks exactly at the first k positions and ends on the
   * cleared flag.
   */
  lemma StopEndsUnboundedRun(cfg: Config, trace: seq<Point>, k: nat)
    requires cfg.repeat == 0 && cfg.region.None? && k <= |trace|
    ensures Run(cfg, trace, Some(k), true) == Outcome(trace[..k], false, FlagCleared)
  {
    StoppedFrom(cfg, trace, 0, k);
  }

  /** A thread that finds the flag already cleared makes no click. */
  lemma NoClickWhenNotRunning(cfg: Config, trace: seq<Point>, stop: Option<nat>)
    ensures Run(cfg, trace, stop, false) == Outcome([], false, FlagCleared)
  {
  }
}
