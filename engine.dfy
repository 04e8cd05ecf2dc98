/**
 * The clicking engine's controller: a running flag and a configuration
 * cell, with start, stop, toggle, reconfigure and is-running operations,
 * and the body of the clicking thread that start launches.
 *
 * Acquiring the click capability is an input to Start (its success or its
 * error). Launching the thread is the `Launched(snapshot)` result of Start;
 * the thread itself is RunLoop, which reads only that snapshot and writes
 * only the running flag.
 */
module Engine {
  import opened Geometry
  import opened ClickConfig
  import opened ClickLoop

  /** The error reported when the click capability cannot be acquired. */
  datatype ConnectionError = ConnectionError(reason: string)

  /** The result of trying to acquire the click capability. */
  datatype Acquisition = Acquired | Refused(error: ConnectionError)

  /**
   * What Start did. AlreadyRunning and Launched are both a successful
   * start; Launched carries the configuration snapshot the new thread runs with.
   */
  datatype StartResult = AlreadyRunning | Launched(snapshot: Config) | Failed(error: ConnectionError)
  {
    predicate IsOk() { !Failed? }
  }

  class AutoClicker {
    var config: Config
    var running: bool

    /** A new engine holds the given configuration and is idle. */
    constructor (config: Config)
      ensures this.config == config && !running
    {
      this.config := config;
      running := false;
    }

    /** Reads the running flag. */
    method IsRunning() returns (r: bool)
      ensures r == running
    {
      r := running;
    }

    /** Replaces the stored configuration whole; the running flag is untouched. */
    method UpdateConfig(config: Config)
      modifies this`config
      ensures this.config == config && running == old(running)
    {
      this.config := config;
    }

    /**
     * Check-and-set on the flag. Already running: success, nothing
     * launched. Otherwise the flag is set, the configuration is
     * snapshotted and the capability acquired; if that fails the flag is
     * set back to false and the error returned, and no thread is launched.
     */
    method Start(acquisition: Acquisition) returns (r: StartResult)
      modifies this`running
      ensures config == old(config)
      ensures old(running) ==> r == AlreadyRunning && running
      ensures !old(running) && acquisition.Acquired? ==> r == Launched(old(config)) && running
      ensures !old(running) && acquisition.Refused? ==> r == Failed(acquisition.error) && !running
      ensures r.IsOk() <==> (old(running) || acquisition.Acquired?)
    {
      var wasRunning := running;
      running := true;
      if wasRunning {
        return AlreadyRunning;
      }
      var snapshot := config;
      if acquisition.Refused? {
        running := false;
        return Failed(acquisition.error);
      }
      r := Launched(snapshot);
    }

    /** Clears the flag; a running thread notices at its next iteration boundary. */
    method Stop()
      modifies this`running
      ensures !running && config == old(config)
    {
      running := false;
    }

    /**
     * Stop when running, Start otherwise. A failed start is swallowed
     * (only logged by the engine). `launched` is the snapshot of the thread
     * this call launched, if any.
     */
    method Toggle(acquisition: Acquisition) returns (launched: Option<Config>)
      modifies this`running
      ensures config == old(config)
      ensures old(running) ==> !running && launched == None
      ensures !old(running) ==> (running <==> acquisition.Acquired?)
      ensures !old(running) ==> launched == if acquisition.Acquired? then Some(old(config)) else None
    {
      if running {
        Stop();
        launched := None;
      } else {
        var r := Start(acquisition);
        launched := if r.Launched? then Some(r.snapshot) else None;
      }
    }

    /**
     * The clicking thread launched by Start with configuration snapshot
     * `cfg`. `trace[i]` is the pointer position read on iteration i; an
     * external Stop arriving before iteration k's flag check is
     * `stop == Some(k)`. Returns the positions clicked at and why the
     * loop ended; the flag's final value is left in `running`.
     */
    method RunLoop(cfg: Config, trace: seq<Point>, stop: Option<nat>) returns (clicked: seq<Point>, exit: Exit)
      modifies this`running
      ensures Outcome(clicked, running, exit) == Run(cfg, trace, stop, old(running))
      ensures config == old(config)
    {
      ghost var whole := Run(cfg, trace, stop, running);
      var remaining := InitialCounter(cfg.repeat);
      var i := 0;
      clicked := [];
      if stop == Some(0) {
        running := false;
      }
      while running && i < |trace|
        invariant 0 <= i <= |trace|
        invariant stop == Some(i) ==> !running
        invariant whole == After(clicked, RunFrom(cfg, trace, stop, i, remaining, running))
        decreases |trace| - i
      {
        var pos := trace[i];
        if cfg.region.Some? && !cfg.region.value.Contains(pos) {
          StepLeavesRegion(cfg, trace, stop, i, remaining);
          running := false;
          return clicked, LeftRegion;
        }
        ghost var before, counter := clicked, remaining;
        clicked := clicked + [pos];
        if remaining.Some? {
          if remaining.value == 0 {
            StepExhausts(cfg, trace, stop, i);
            running := false;
            return clicked, RepeatExhausted;
          }
          remaining := Some(remaining.value - 1);
        }
        StepClicks(before, cfg, trace, stop, i, counter);
        i := i + 1;
        if stop == Some(i) {
          running := false;
        }
      }
      exit := if running then TraceEnded else FlagCleared;
    }
  }
}
