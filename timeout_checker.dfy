/**
 * The scan timeout: a limit in seconds (0 turns checking off) and the time
 * the timer was started. The clock is not read here; every operation that
 * reads it takes the clock's current value `now` as a parameter.
 */
module TimeoutChecker {
  import opened Wrappers

  /**
   * What `check` does at time `now`: RuntimeError before the timer is
   * started, TimeoutError once strictly more than the limit has passed,
   * and nothing otherwise or when the limit is 0.
   */
  function CheckOutcome(timeoutSeconds: real, startTime: Option<real>, now: real): (r: Option<Error>)
    ensures startTime.None? <==> r.Some? && r.value.RuntimeError?
    ensures r.Some? && r.value.TimeoutError? <==>
      startTime.Some? && timeoutSeconds != 0.0 && now - startTime.value > timeoutSeconds
    ensures timeoutSeconds == 0.0 && startTime.Some? ==> r.None?
  {
    if startTime.None? then Some(RuntimeError("TimeoutChecker.start() must be called before check()"))
    else if timeoutSeconds == 0.0 then None
    else if now - startTime.value > timeoutSeconds then Some(TimeoutError("Scan exceeded timeout limit"))
    else None
  }

  /** What `elapsed` returns at time `now`. */
  function ElapsedOutcome(startTime: Option<real>, now: real): (r: Result<real>)
    ensures r.Err? <==> startTime.None?
    ensures r.Err? ==> r.error.RuntimeError?
    ensures r.Ok? ==> startTime.value + r.value == now
  {
    if startTime.None? then Err(RuntimeError("TimeoutChecker.start() must be called before elapsed()"))
    else Ok(now - startTime.value)
  }

  /** Once started, `check` fails exactly when `elapsed` is over a limit that is not 0. */
  lemma CheckAgreesWithElapsed(timeoutSeconds: real, startTime: real, now: real)
    ensures CheckOutcome(timeoutSeconds, Some(startTime), now).Some?
        <==> timeoutSeconds != 0.0 && ElapsedOutcome(Some(startTime), now).value > timeoutSeconds
  {
  }

  /** A check that passes at some time passes at every earlier time. */
  lemma CheckMonotone(timeoutSeconds: real, startTime: real, now: real, later: real)
    requires now <= later
    requires CheckOutcome(timeoutSeconds, Some(startTime), later).None?
    ensures CheckOutcome(timeoutSeconds, Some(startTime), now).None?
  {
  }

  class Checker {
    var timeoutSeconds: real
    var startTime: Option<real>

    /** The limit was accepted by `__init__`: it is not negative. */
    predicate Valid()
      reads this
    {
      timeoutSeconds >= 0.0
    }

    /** `__init__` once the limit has been accepted. */
    constructor(timeoutSeconds: real)
      requires timeoutSeconds >= 0.0
      ensures this.timeoutSeconds == timeoutSeconds && startTime.None? && Valid()
    {
      this.timeoutSeconds := timeoutSeconds;
      startTime := None;
    }

    /** `start`, and `__enter__`, which only starts: the start time is (re)set to `now`. */
    method Start(now: real)
      requires Valid()
      modifies this
      ensures startTime == Some(now) && timeoutSeconds == old(timeoutSeconds) && Valid()
    {
      startTime := Some(now);
    }

    /** `__exit__`: nothing is cleaned up, the start time stays. */
    method Exit()
      requires Valid()
      ensures startTime == old(startTime) && timeoutSeconds == old(timeoutSeconds)
    {
    }

    /**
     * `check(context)` at time `now`; the error raised, if any. As the
     * limit is not negative, a check no later than the start never fails.
     */
    method Check(now: real) returns (err: Option<Error>)
      requires Valid()
      ensures err == CheckOutcome(timeoutSeconds, startTime, now)
      ensures startTime.Some? && now <= startTime.value ==> err.None?
    {
      if startTime.None? {
        return Some(RuntimeError("TimeoutChecker.start() must be called before check()"));
      }
      if timeoutSeconds == 0.0 {
        return None;
      }
      var elapsed := now - startTime.value;
      if elapsed > timeoutSeconds {
        return Some(TimeoutError("Scan exceeded timeout limit"));
      }
      return None;
    }

    /** `elapsed()` at time `now`. */
    method Elapsed(now: real) returns (r: Result<real>)
      requires Valid()
      ensures r == ElapsedOutcome(startTime, now)
    {
      if startTime.None? {
        return Err(RuntimeError("TimeoutChecker.start() must be called before elapsed()"));
      }
      return Ok(now - startTime.value);
    }
  }

  /** `TimeoutChecker(timeout_seconds)`: a negative limit is rejected with ValueError. */
  method NewChecker(timeoutSeconds: real) returns (r: Result<Checker>)
    ensures r.Err? <==> timeoutSeconds < 0.0
    ensures r.Err? ==> r.error.ValueError?
    ensures r.Ok? ==>
      fresh(r.value) && r.value.timeoutSeconds == timeoutSeconds && r.value.startTime.None? && r.value.Valid()
  {
    if timeoutSeconds < 0.0 {
      return Err(ValueError("timeout_seconds must be non-negative"));
    }
    var c := new Checker(timeoutSeconds);
    return Ok(c);
  }
}
