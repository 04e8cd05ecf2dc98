/**
 * The clicker's configuration: a value that is replaced wholesale and
 * copied whole when a run takes its snapshot.
 */
module ClickConfig {
  import opened Geometry

  /** An unsigned 32-bit integer, the width of the repeat bound. */
  type u32 = x: int | 0 <= x < 0x1_0000_0000

  datatype Option<T> = None | Some(value: T)

  /**
   * cps: target clicks per second; repeat: the repeat bound, 0 meaning
   * unbounded; region: when present, clicking goes on only while the
   * pointer is inside it.
   */
  datatype Config = Config(cps: real, repeat: u32, region: Option<Rect>)

  /**
   * Seconds slept between clicks: the reciprocal of the rate, with the rate
   * floored at one click per second.
   */
  function SleepInterval(cps: real): (seconds: real)
    ensures 0.0 < seconds <= 1.0
    ensures cps >= 1.0 ==> seconds * cps == 1.0
    ensures cps <= 1.0 ==> seconds == 1.0
  {
    1.0 / (if cps < 1.0 then 1.0 else cps)
  }

  /**
   * The counter a run starts with: absent when the repeat bound is 0
   * (unbounded), otherwise the bound itself.
   */
  function InitialCounter(repeat: u32): (remaining: Option<u32>)
    ensures remaining.None? <==> repeat == 0
    ensures remaining.Some? ==> remaining.value == repeat
  {
    if repeat == 0 then None else Some(repeat)
  }
}
