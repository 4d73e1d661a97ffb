/** The counter policy shared by the memory and network samplers
    (Monitors/MemoryMonitor.swift, Monitors/NetworkMonitor.swift): a counter
    that went down since the previous snapshot contributes nothing, and a
    byte amount becomes a rate by dividing by the elapsed wall-clock time. */
module Counters {

  /** `current >= previous ? current - previous : 0`. */
  function ClampedDelta(current: nat, previous: nat): (d: nat)
    ensures d <= current
    ensures previous <= current ==> previous + d == current
    ensures current < previous ==> d == 0
  {
    if current >= previous then current - previous else 0
  }

  /** Bytes per second over `elapsed` seconds. */
  function Rate(amount: nat, elapsed: real): (r: real)
    requires elapsed > 0.0
    ensures r >= 0.0
    ensures r * elapsed == amount as real
  {
    amount as real / elapsed
  }
}
