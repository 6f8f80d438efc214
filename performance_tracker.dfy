/**
 * The performance tracker: a start/stop pair around a scan that reports
 * peak memory and, when asked to, CPU time and CPU load. The memory tracer,
 * the process's resource usage, the clock and the CPU count are not read
 * here; `stop` and `start` take what they would return as parameters.
 */
module PerformanceTracker {
  import opened Wrappers

  /** `PerformanceMetrics`: peak memory in bytes and the optional CPU figures. */
  datatype PerformanceMetrics = PerformanceMetrics(
    peakMemoryBytes: nat,
    cpuSeconds: Option<real>,
    cpuUserSeconds: Option<real>,
    cpuSystemSeconds: Option<real>,
    cpuPercentSingleCore: Option<real>,
    cpuPercentAllCores: Option<real>)

  /** The process's user and system CPU seconds, as `getrusage` reports them. */
  datatype Usage = Usage(user: real, system: real)

  function Max(a: real, b: real): real {
    if a >= b then a else b
  }

  /** `max(1, os.cpu_count() or 1)`: an unknown or zero count is 1. */
  function CpuCount(reported: Option<int>): (n: int)
    ensures n >= 1
    ensures reported.Some? && reported.value >= 1 ==> n == reported.value
  {
    var c := if reported.None? || reported.value == 0 then 1 else reported.value;
    if c >= 1 then c else 1
  }

  /** The CPU figures from the usage at start, the usage now, the wall clock at start and now. */
  function CpuFigures(startUsage: Usage, wallStart: real, usage: Usage, now: real, cpuCount: Option<int>): (m: PerformanceMetrics)
    ensures m.cpuSeconds.Some? && m.cpuUserSeconds.Some? && m.cpuSystemSeconds.Some?
    ensures m.cpuPercentSingleCore.Some? && m.cpuPercentAllCores.Some?
    ensures m.cpuUserSeconds.value >= 0.0 && m.cpuSystemSeconds.value >= 0.0
    ensures m.cpuSeconds.value == m.cpuUserSeconds.value + m.cpuSystemSeconds.value
    ensures 0.0 <= m.cpuPercentAllCores.value <= m.cpuPercentSingleCore.value
  {
    var user := Max(0.0, usage.user - startUsage.user);
    var system := Max(0.0, usage.system - startUsage.system);
    var cpu := user + system;
    var wall := Max(0.000000001, now - wallStart);
    var single := (cpu / wall) * 100.0;
    var count := CpuCount(cpuCount);
    AllCoresAtMostSingle(single, count);
    PerformanceMetrics(0, Some(cpu), Some(user), Some(system), Some(single), Some(single / count as real))
  }

  lemma AllCoresAtMostSingle(single: real, count: int)
    requires single >= 0.0 && count >= 1
    ensures 0.0 <= single / count as real <= single
  {
    assert single / count as real * count as real == single;
  }

  class Tracker {
    var started: bool
    const trackMemory: bool
    const trackCpu: bool
    var cpuStartUser: Option<real>
    var cpuStartSystem: Option<real>
    var wallStart: Option<real>

    /** The CPU start snapshots are held exactly while a CPU-tracking run is in progress. */
    predicate Valid()
      reads this
    {
      (cpuStartUser.Some? <==> started && trackCpu)
      && (cpuStartSystem.Some? <==> started && trackCpu)
      && (wallStart.Some? <==> started && trackCpu)
    }

    /** `is_active`. */
    function IsActive(): bool
      reads this
    {
      started
    }

    /** A new tracker is inactive. */
    constructor(trackMemory: bool, trackCpu: bool)
      ensures this.trackMemory == trackMemory && this.trackCpu == trackCpu
      ensures !IsActive() && Valid()
    {
      started := false;
      this.trackMemory := trackMemory;
      this.trackCpu := trackCpu;
      cpuStartUser := None;
      cpuStartSystem := None;
      wallStart := None;
    }

    /** `start`, with the usage and clock it reads; a running tracker is refused. */
    method Start(usage: Usage, now: real) returns (err: Option<Error>)
      requires Valid()
      modifies this
      ensures Valid()
      ensures err.Some? <==> old(started)
      ensures err.Some? ==> err.value.RuntimeError? && unchanged(this)
      ensures err.None? ==> IsActive()
      ensures err.None? && trackCpu ==>
        cpuStartUser == Some(usage.user) && cpuStartSystem == Some(usage.system) && wallStart == Some(now)
    {
      if started {
        return Some(RuntimeError("PerformanceTracker is already running"));
      }
      if trackCpu {
        cpuStartUser := Some(usage.user);
        cpuStartSystem := Some(usage.system);
        wallStart := Some(now);
      }
      started := true;
      return None;
    }

    /**
     * `stop`, with the tracer's peak and the usage, clock and CPU count it
     * reads; a tracker that is not running is refused.
     */
    method Stop(peak: nat, usage: Usage, now: real, cpuCount: Option<int>) returns (r: Result<PerformanceMetrics>)
      requires Valid()
      modifies this
      ensures Valid()
      ensures r.Err? <==> !old(started)
      ensures r.Err? ==> r.error.RuntimeError? && unchanged(this)
      ensures r.Ok? ==> !IsActive() && r.value == StopMetrics(trackMemory, peak,
        if trackCpu then Some((Usage(old(cpuStartUser).value, old(cpuStartSystem).value), old(wallStart).value)) else None,
        usage, now, cpuCount)
    {
      if !started {
        return Err(RuntimeError("PerformanceTracker has not been started"));
      }
      var peakMemory := 0;
      if trackMemory {
        peakMemory := peak;
      }
      var m := PerformanceMetrics(peakMemory, None, None, None, None, None);
      if trackCpu && cpuStartUser.Some? && cpuStartSystem.Some? && wallStart.Some? {
        var cpu := CpuFigures(Usage(cpuStartUser.value, cpuStartSystem.value), wallStart.value, usage, now, cpuCount);
        m := cpu.(peakMemoryBytes := peakMemory);
        cpuStartUser := None;
        cpuStartSystem := None;
        wallStart := None;
      }
      started := false;
      return Ok(m);
    }
  }

  /** The metrics `stop` reports, given the CPU start snapshots when CPU tracking is on. */
  function StopMetrics(trackMemory: bool, peak: nat, cpuStart: Option<(Usage, real)>, usage: Usage, now: real, cpuCount: Option<int>): (m: PerformanceMetrics)
    ensures !trackMemory ==> m.peakMemoryBytes == 0
    ensures trackMemory ==> m.peakMemoryBytes == peak
    ensures cpuStart.None? <==> m.cpuSeconds.None?
    ensures cpuStart.None? ==>
      m.cpuUserSeconds.None? && m.cpuSystemSeconds.None? && m.cpuPercentSingleCore.None? && m.cpuPercentAllCores.None?
    ensures cpuStart.Some? ==>
      m.cpuUserSeconds.Some? && m.cpuSystemSeconds.Some? && m.cpuPercentSingleCore.Some? && m.cpuPercentAllCores.Some?
      && m.cpuSeconds.value == m.cpuUserSeconds.value + m.cpuSystemSeconds.value
      && 0.0 <= m.cpuPercentAllCores.value <= m.cpuPercentSingleCore.value
  {
    var peakMemory := if trackMemory then peak else 0;
    match cpuStart
    case None => PerformanceMetrics(peakMemory, None, None, None, None, None)
    case Some((startUsage, wall)) => CpuFigures(startUsage, wall, usage, now, cpuCount).(peakMemoryBytes := peakMemory)
  }

  /** Stopping makes the tracker startable again: start, stop, start succeeds. */
  method StartStopStart(trackMemory: bool, trackCpu: bool, u: Usage, now: real) returns (first: Option<Error>, second: Result<PerformanceMetrics>, third: Option<Error>)
    ensures first.None? && second.Ok? && third.None?
  {
    var t := new Tracker(trackMemory, trackCpu);
    first := t.Start(u, now);
    second := t.Stop(0, u, now, None);
    third := t.Start(u, now);
  }
}
