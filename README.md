# Auto clicker engine, modelled in Dafny

This project models the clicking engine of a small auto-clicker utility
(`src/auto_clicker.rs`). The engine simulates left-button clicks at the
pointer. It can bound them to a screen rectangle and to a repeat count, and
a controller starts, stops, toggles and reconfigures it.

- `rect.dfy` (module `Geometry`): 32-bit points and the rectangle `Rect`.
  `Rect.Contains` is the closed-rectangle test; the two corners may come in
  either order.
- `config.dfy` (module `ClickConfig`): `Config`, which holds the rate, the
  repeat bound (0 = unbounded) and the optional region. It also holds the
  sleep interval between clicks and the initial repeat counter.
- `click_loop.dfy` (module `ClickLoop`): the body of the clicking thread as
  a pure function `Run`. Its inputs are the configuration snapshot, the
  sequence of pointer positions read on successive iterations, the flag as
  the thread finds it, and optionally the iteration at whose boundary an
  external stop clears the flag. The result is the list of positions
  clicked at, the final flag, and why the loop ended. Lemmas state the
  counting, region and stop rules.
- `engine.dfy` (module `Engine`): the controller as a class `AutoClicker`.
  It has a `running` flag and a `config` field, and the methods
  `IsRunning`, `UpdateConfig`, `Start`, `Stop` and `Toggle`. `RunLoop` is
  the spawned loop written as a `while` loop over those fields; it is
  proved equal to `ClickLoop.Run`. Whether acquiring the click capability
  succeeds is an input to `Start`. The thread that `Start` spawns is its
  `Launched(snapshot)` result.
- `scenarios.dfy` (module `Scenarios`): sequences of controller calls, with
  what the contracts guarantee about them. Examples: two starts launch at
  most one thread; an update during a run does not change that run.

**Repeat bound: N > 0 gives N + 1 clicks.** The counter starts at N
(`src/auto_clicker.rs:78`) and is tested for zero only after a click
(`src/auto_clicker.rs:87-94`). So a bound N > 0 performs N + 1 clicks
before the flag is cleared. For example, a bound of 2 with three pointer
samples makes three clicks.
`ClickLoop.RepeatGivesOneExtraClick` and `ClickLoop.RepeatTwoThreeSamples`
state this behaviour.

## Model

| member | source | states |
|---|---|---|
| `Geometry.Rect.Contains` | src/auto_clicker.rs:16-20 | a point is inside iff on each axis it lies between the two corner coordinates, in either order, bounds included |
| `Geometry.ContainsSwapX` | src/auto_clicker.rs:17 | swapping x1 and x2 never changes the answer |
| `Geometry.ContainsSwapY` | src/auto_clicker.rs:18 | swapping y1 and y2 never changes the answer |
| `Geometry.ContainsWithinBounds` | src/auto_clicker.rs:17-19 | inside iff min(x1,x2) <= x <= max(x1,x2) and min(y1,y2) <= y <= max(y1,y2) |
| `Geometry.CornersInside` | src/auto_clicker.rs:19 | the boundary is inside: all four corners are contained |
| `Geometry.OutsideOneAxis` | src/auto_clicker.rs:19 | one coordinate strictly beyond its axis bounds puts the point outside |
| `Geometry.ContainsExample` | src/auto_clicker.rs:113-116 | (0,0)-(10,10) contains (5,5) and does not contain (15,5) |
| `ClickConfig.SleepInterval` | src/auto_clicker.rs:95 | the interval is in (0, 1] seconds; it is 1/cps when cps >= 1 and 1 second when cps <= 1 |
| `ClickConfig.InitialCounter` | src/auto_clicker.rs:78 | the run's counter is absent exactly when the repeat bound is 0, and otherwise starts at the bound itself |
| `ClickLoop.Decrement` | src/auto_clicker.rs:93 | a counter stays present or absent, and a non-zero counter goes down by exactly one; its `value > 0` guard only makes it total, since `RunFrom` calls it only when the counter is not `Some(0)`, matching the source's test-then-decrement order |
| `ClickLoop.Run` | src/auto_clicker.rs:75-97 | the whole thread body from the counter set-up on: at most one click per position read, the flag left set exactly when the positions run out first, and no click at all when the thread finds the flag cleared |
| `ClickLoop.RunFrom` | src/auto_clicker.rs:79-97 | the loop makes at most one click per position read; the flag is left set exactly when the positions run out before the loop ends |
| `ClickLoop.ClicksArePrefix` | src/auto_clicker.rs:80-87 | each click is made at the position read on its own iteration, in order: the clicks are a prefix of the positions read |
| `ClickLoop.RepeatGivesOneExtraClick` | src/auto_clicker.rs:78-94 | with repeat N > 0, no region and no stop, the first N+1 positions are clicked and the flag is then cleared; with N or fewer positions all are clicked and the run is still live |
| `ClickLoop.RepeatTwoThreeSamples` | src/auto_clicker.rs:87-94 | repeat 2 with three samples gives 3 clicks and a cleared flag |
| `ClickLoop.RepeatZeroIsUnbounded` | src/auto_clicker.rs:78 | with repeat 0, no region and no stop, every position is clicked and the run stays live: the counter never ends it |
| `ClickLoop.RepeatZeroNeverExhausts` | src/auto_clicker.rs:26 | with repeat 0 ("infinite") the run never ends on the counter, for any region, positions, stop and starting flag |
| `ClickLoop.AtMostRepeatPlusOne` | src/auto_clicker.rs:87-94 | with repeat N > 0, for any region, positions and stop, at most N+1 clicks are made |
| `ClickLoop.NoClickOutsideRegion` | src/auto_clicker.rs:81-87 | with a region, every click is made at a position inside it |
| `ClickLoop.LeavingRegionStopsRun` | src/auto_clicker.rs:81-86 | k positions inside then one outside (repeat 0 or at least k, no stop) gives exactly those k clicks, a cleared flag and a region exit |
| `ClickLoop.InsideThenOutside` | src/auto_clicker.rs:81-86 | an inside position and then an outside one give exactly 1 click, then the flag is cleared |
| `ClickLoop.StopLimitsClicks` | src/auto_clicker.rs:79 | a stop before iteration k's flag check leaves at most k clicks |
| `ClickLoop.StopEndsUnboundedRun` | src/auto_clicker.rs:79 | an unbounded, unregioned run stopped before iteration k clicks exactly the first k positions and ends on the cleared flag |
| `ClickLoop.NoClickWhenNotRunning` | src/auto_clicker.rs:79 | a thread that finds the flag cleared makes no click |
| `Engine.AutoClicker.constructor` | src/auto_clicker.rs:36-41 | a new engine holds the given configuration and is idle |
| `Engine.AutoClicker.IsRunning` | src/auto_clicker.rs:43-45 | reports the running flag and changes nothing |
| `Engine.AutoClicker.UpdateConfig` | src/auto_clicker.rs:47-49 | replaces the configuration whole; the flag is unchanged |
| `Engine.AutoClicker.Start` | src/auto_clicker.rs:59-101 | already running: Ok, flag still set, nothing launched; idle and capability acquired: flag set and a thread launched with the configuration as it stood; acquisition refused: flag rolled back to false, the error returned, nothing launched |
| `Engine.AutoClicker.Stop` | src/auto_clicker.rs:103-105 | clears the flag and changes nothing else |
| `Engine.AutoClicker.Toggle` | src/auto_clicker.rs:51-57 | running: becomes idle and launches nothing; idle: becomes running iff the capability is acquired, launching with the current configuration; the configuration is unchanged |
| `Engine.AutoClicker.RunLoop` | src/auto_clicker.rs:75-97 | the spawned loop: its clicks, final flag and exit reason are exactly `Run` of the snapshot, the positions, the stop and the flag it started from; it never touches the stored configuration |
| `Scenarios.StartTwice` | src/auto_clicker.rs:60-62 | two starts never launch two threads; after a successful first start the second returns AlreadyRunning |
| `Scenarios.RetryAfterFailedStart` | src/auto_clicker.rs:67-73 | a refused start leaves the engine idle, so a retry with the capability launches a thread |
| `Scenarios.ToggleTwice` | src/auto_clicker.rs:51-57 | from idle with the capability, toggle starts with the current configuration and a second toggle stops |
| `Scenarios.ToggleWhileRunning` | src/auto_clicker.rs:52-53 | toggle while running stops and launches nothing |
| `Scenarios.ReconfigureDuringRun` | src/auto_clicker.rs:65 | an update after start replaces the stored configuration, yet the run equals the run under the configuration in force at start |
| `Scenarios.StopDuringRegionRun` | src/auto_clicker.rs:79-86 | a run with a region stopped before iteration k makes at most k clicks, all inside the region |

## Left out

- `src/main.rs` is not part of this model. It holds the egui control panel, the hotkey-polling thread with its channel and sleeps, and `AutoClickerApp::toggle`. That method only installs a configuration that always has a region and then calls the engine's toggle.
- Threads and atomics are not modelled. The flag and the configuration are plain fields. The spawned thread is the `RunLoop` call that follows a `Launched` start. A concurrent `stop()` is the `stop` input: the flag is cleared at one iteration boundary. A configuration update needs no interleaving: the loop never reads the stored configuration. Lock poisoning (`lock().unwrap()`) is not modelled.
- Stop followed at once by start is not covered. The old thread may not yet have seen the cleared flag; it then sees the flag set again and goes on beside the new thread. The model has at most one thread per `Launched` result and does not represent overlapping threads.
- Pointer reads are a finite sequence of positions. When the positions run out while the flag is still set, the result is `TraceEnded` with `running` true: the model describes a prefix of a run that goes on.
- Foreign calls are replaced. `Enigo::new` becomes the `Acquisition` input. A click becomes the current position appended to the list of clicks; the click's own result is ignored, as in the code. `DeviceState::get_mouse` becomes the position sequence.
- `ClickConfig.SleepInterval`: computed over exact reals. `f32` rounding, NaN handling by `f32::max` and `Duration::from_secs_f32` are not modelled. The sleep itself (`thread::sleep`) is left out.
- `Engine.AutoClicker.Toggle`: the code's `toggle` returns nothing and only logs a failed start with `eprintln!`. The model swallows the error too, and returns the snapshot of any thread it launched so that the thread can be run.
