/**
 * Sequences of controller calls on one engine, with what the operations'
 * contracts let a caller conclude about them.
 */
module Scenarios {
  import opened Geometry
  import opened ClickConfig
  import opened ClickLoop
  import opened Engine

  /**
   * Two starts in a row never launch two threads: once the first has
   * succeeded, the second finds the flag set and returns success without
   * launching anything.
   */
  method StartTwice(c: AutoClicker, first: Acquisition, second: Acquisition)
    returns (r1: StartResult, r2: StartResult)
    modifies c
    ensures !(r1.Launched? && r2.Launched?)
    ensures r1.IsOk() ==> r2 == AlreadyRunning && c.running
    ensures c.config == old(c.config)
  {
    r1 := c.Start(first);
    r2 := c.Start(second);
  }

  /**
   * A start that could not acquire the capability leaves the engine idle,
   * so calling start again with the capability available launches a thread.
   */
  method RetryAfterFailedStart(c: AutoClicker, error: ConnectionError)
    returns (r1: StartResult, r2: StartResult)
    requires !c.running
    modifies c
    ensures r1 == Failed(error)
    ensures r2 == Launched(old(c.config)) && c.running
  {
    r1 := c.Start(Refused(error));
    r2 := c.Start(Acquired);
  }

  /**
   * From idle with the capability available, toggle starts the engine; a
   * second toggle stops it again. Neither touches the configuration.
   */
  method ToggleTwice(c: AutoClicker)
    returns (launched: Option<Config>, again: Option<Config>)
    requires !c.running
    modifies c
    ensures launched == Some(old(c.config)) && again == None
    ensures !c.running && c.config == old(c.config)
  {
    launched := c.Toggle(Acquired);
    assert c.running;
    again := c.Toggle(Acquired);
  }

  /** From running, toggle stops whatever the acquisition would have been. */
  method ToggleWhileRunning(c: AutoClicker, acquisition: Acquisition)
    returns (launched: Option<Config>)
    requires c.running
    modifies c
    ensures launched == None && !c.running
  {
    launched := c.Toggle(acquisition);
  }

  /**
   * A configuration update after start replaces the stored configuration
   * but not the launched thread's snapshot: the run goes exactly as it
   * would have under the configuration in force at start.
   */
  method ReconfigureDuringRun(c: AutoClicker, next: Config, trace: seq<Point>, stop: Option<nat>)
    returns (clicked: seq<Point>, exit: Exit)
    requires !c.running
    modifies c
    ensures c.config == next
    ensures Outcome(clicked, c.running, exit) == Run(old(c.config), trace, stop, true)
  {
    var r := c.Start(Acquired);
    c.UpdateConfig(next);
    clicked, exit := c.RunLoop(r.snapshot, trace, stop);
  }

  /**
   * A stop issued while a run with a region is in flight: the run makes
   * no more clicks than iterations before the stop, and none outside the region.
   */
  method StopDuringRegionRun(c: AutoClicker, trace: seq<Point>, k: nat)
    returns (clicked: seq<Point>, exit: Exit)
    requires !c.running && c.config.region.Some?
    modifies c
    ensures c.config == old(c.config) && |clicked| <= k
    ensures forall j :: 0 <= j < |clicked| ==> c.config.region.value.Contains(clicked[j])
  {
    var r := c.Start(Acquired);
    clicked, exit := c.RunLoop(r.snapshot, trace, Some(k));
    StopLimitsClicks(r.snapshot, trace, k, true);
    NoClickOutsideRegion(r.snapshot, trace, Some(k), true);
  }
}
