/**
 * The configuration side of `ThreadUtils.WaitTask`: a builder that records how
 * long to wait (`waitFor`) and how often to check (`checkEvery`), validating
 * both. The wait itself (`on`) is not modelled. Durations are Java `long`s,
 * modelled as unbounded integers.
 */
module ThreadUtils {
  import opened Runtime

  /** The constants of `java.util.concurrent.TimeUnit`. */
  datatype JTimeUnit = Nanoseconds | Microseconds | Milliseconds | Seconds | Minutes | Hours | Days
  {
    /** `toMillis(d)`: coarser units scale up, finer units divide truncating toward zero. */
    function ToMillis(d: int): int {
      match this
      case Nanoseconds => TruncatingDiv(d, 1000000)
      case Microseconds => TruncatingDiv(d, 1000)
      case Milliseconds => d
      case Seconds => d * 1000
      case Minutes => d * 60000
      case Hours => d * 3600000
      case Days => d * 86400000
    }

    /** The constant's name, as `%s` prints it. */
    function Name(): string {
      match this
      case Nanoseconds => "NANOSECONDS"
      case Microseconds => "MICROSECONDS"
      case Milliseconds => "MILLISECONDS"
      case Seconds => "SECONDS"
      case Minutes => "MINUTES"
      case Hours => "HOURS"
      case Days => "DAYS"
    }
  }

  /** Java's `/` on longs, which truncates toward zero. */
  function TruncatingDiv(a: int, b: int): int
    requires b > 0
  {
    if a >= 0 then a / b else -((-a) / b)
  }

  /** `DEFAULT_TIME_UNIT`. */
  const DefaultTimeUnit := Milliseconds

  /** `%s` of a possibly null unit. */
  function UnitName(unit: Option<JTimeUnit>): string {
    match unit
    case None => "null"
    case Some(u) => u.Name()
  }

  /** The body of `getInterval()`: the raw minimum of interval and duration, whatever their units. */
  function IntervalOf(duration: int, interval: int): (r: int)
    ensures r <= duration
    ensures interval > 0 ==> r <= interval && (r == interval || r == duration)
    ensures interval <= 0 ==> r == duration
  {
    if interval > 0 then (if interval < duration then interval else duration) else duration
  }

  /**
   * `isValidInterval(interval, unit)`: positive and, in milliseconds, no longer
   * than the duration. Reading the duration's unit fails while it is still null.
   */
  function ValidInterval(interval: int, unit: JTimeUnit, duration: int, durationUnit: Option<JTimeUnit>)
    : (r: Result<bool, Exception>)
    ensures interval <= 0 ==> r == Success(false)
    ensures interval > 0 && durationUnit.None? ==> r == Failure(Raised(NullPointerException))
    ensures interval > 0 && durationUnit.Some? ==>
      r == Success(unit.ToMillis(interval) <= durationUnit.value.ToMillis(duration))
  {
    if interval <= 0 then Success(false)
    else if durationUnit.None? then Failure(Raised(NullPointerException))
    else Success(unit.ToMillis(interval) <= durationUnit.value.ToMillis(duration))
  }

  function DurationMessage(duration: int): Exception {
    Exception(IllegalArgumentException, "duration (" + IntToString(duration) + ") must be greater than 0")
  }

  function IntervalMessage(interval: int, unit: JTimeUnit, duration: int, durationUnit: Option<JTimeUnit>): Exception {
    Exception(IllegalArgumentException,
      "Interval [" + IntToString(interval) + " " + unit.Name()
      + "] must be greater than 0 and less than equal to duration ["
      + IntToString(duration) + " " + UnitName(durationUnit) + "]")
  }

  class WaitTask {
    var duration: int
    var interval: int
    var durationTimeUnit: Option<JTimeUnit>
    var intervalTimeUnit: Option<JTimeUnit>

    /**
     * What every reachable task satisfies: a duration unit is set exactly when a
     * positive duration is, and an interval only after a duration.
     */
    ghost predicate Valid()
      reads this
    {
      duration >= 0 && interval >= 0
      && (durationTimeUnit.Some? <==> duration > 0)
      && (interval > 0 ==> intervalTimeUnit.Some? && duration > 0)
    }

    constructor ()
      ensures Valid()
      ensures duration == 0 && interval == 0 && durationTimeUnit == None && intervalTimeUnit == None
    {
      duration := 0;
      interval := 0;
      durationTimeUnit := None;
      intervalTimeUnit := None;
    }

    /** `getDuration()`: never negative, and positive exactly when a duration unit is set. */
    function GetDuration(): (r: int)
      reads this
      ensures Valid() ==> r >= 0 && (r > 0 <==> durationTimeUnit.Some?)
    {
      duration
    }

    /** `getDurationTimeUnit()`: null exactly until `waitFor` has succeeded. */
    function GetDurationTimeUnit(): (r: Option<JTimeUnit>)
      reads this
      ensures Valid() ==> (r.Some? <==> duration > 0)
    {
      durationTimeUnit
    }

    /** `getInterval()`: never more than the duration, as a raw number. */
    function GetInterval(): (r: int)
      reads this
      ensures r <= GetDuration()
      ensures interval > 0 ==> r <= interval
    {
      IntervalOf(duration, interval)
    }

    /** `getIntervalTimeUnit()`: the interval's unit, or the duration's unit when none was given. */
    function GetIntervalTimeUnit(): (r: Option<JTimeUnit>)
      reads this
      ensures intervalTimeUnit.Some? ==> r == intervalTimeUnit
      ensures intervalTimeUnit.None? ==> r == durationTimeUnit
    {
      if intervalTimeUnit.Some? then intervalTimeUnit else durationTimeUnit
    }

    /** `isValidInterval(interval, intervalTimeUnit)` against this task's duration. */
    function IsValidInterval(i: int, unit: JTimeUnit): (r: Result<bool, Exception>)
      reads this
      ensures i <= 0 ==> r == Success(false)
      ensures r == Success(true) ==>
        i > 0 && GetDurationTimeUnit().Some? && unit.ToMillis(i) <= GetDurationTimeUnit().value.ToMillis(GetDuration())
      ensures Valid() && GetDuration() > 0 ==> r.Success?
      ensures Valid() && GetDuration() == 0 && i > 0 ==> r == Failure(Raised(NullPointerException))
    {
      ValidInterval(i, unit, duration, durationTimeUnit)
    }

    /**
     * `waitFor(duration, durationTimeUnit)`: a positive duration is stored with
     * its unit (null meaning MILLISECONDS) and the same task is returned;
     * anything else is an IllegalArgumentException and changes nothing.
     */
    method WaitFor(d: int, unit: Option<JTimeUnit>) returns (r: Result<WaitTask, Exception>)
      requires Valid()
      modifies this
      ensures Valid()
      ensures d <= 0 ==> r == Failure(DurationMessage(d)) && unchanged(this)
      ensures d > 0 ==> r == Success(this) && duration == d && durationTimeUnit == Some(unit.GetOr(DefaultTimeUnit))
      ensures interval == old(interval) && intervalTimeUnit == old(intervalTimeUnit)
    {
      if !(d > 0) {
        return Failure(DurationMessage(d));
      }
      duration := d;
      durationTimeUnit := Some(unit.GetOr(DefaultTimeUnit));
      r := Success(this);
    }

    /** `waitFor(duration)`: in MILLISECONDS. */
    method WaitForMillis(d: int) returns (r: Result<WaitTask, Exception>)
      requires Valid()
      modifies this
      ensures Valid()
      ensures d <= 0 ==> r == Failure(DurationMessage(d)) && unchanged(this)
      ensures d > 0 ==> r == Success(this) && duration == d && durationTimeUnit == Some(Milliseconds)
      ensures interval == old(interval) && intervalTimeUnit == old(intervalTimeUnit)
    {
      r := WaitFor(d, Some(DefaultTimeUnit));
    }

    /**
     * `checkEvery(interval, intervalTimeUnit)`: the unit defaults to
     * MILLISECONDS first; a positive interval no longer than the duration is
     * stored and the same task returned. A rejected interval changes nothing.
     */
    method CheckEvery(i: int, unit: Option<JTimeUnit>) returns (r: Result<WaitTask, Exception>)
      requires Valid()
      modifies this
      ensures Valid()
      ensures var u := unit.GetOr(DefaultTimeUnit);
        match old(IsValidInterval(i, u))
        case Failure(e) => r == Failure(e) && unchanged(this)
        case Success(false) =>
          r == Failure(IntervalMessage(i, u, old(duration), old(durationTimeUnit))) && unchanged(this)
        case Success(true) =>
          r == Success(this) && interval == i && intervalTimeUnit == Some(u)
          && duration == old(duration) && durationTimeUnit == old(durationTimeUnit)
    {
      var u := unit.GetOr(DefaultTimeUnit);
      var valid := IsValidInterval(i, u);
      match valid
      case Failure(e) =>
        return Failure(e);
      case Success(ok) =>
        if !ok {
          return Failure(IntervalMessage(i, u, duration, durationTimeUnit));
        }
        interval := i;
        intervalTimeUnit := Some(u);
        r := Success(this);
    }

    /** `checkEvery(interval)`: in MILLISECONDS. */
    method CheckEveryMillis(i: int) returns (r: Result<WaitTask, Exception>)
      requires Valid()
      modifies this
      ensures Valid()
      ensures match old(IsValidInterval(i, Milliseconds))
        case Failure(e) => r == Failure(e) && unchanged(this)
        case Success(false) =>
          r == Failure(IntervalMessage(i, Milliseconds, old(duration), old(durationTimeUnit))) && unchanged(this)
        case Success(true) =>
          r == Success(this) && interval == i && intervalTimeUnit == Some(Milliseconds)
          && duration == old(duration) && durationTimeUnit == old(durationTimeUnit)
    {
      r := CheckEvery(i, Some(DefaultTimeUnit));
    }
  }

  /** The static `waitFor(duration, timeUnit)`: a new task configured by `waitFor`. */
  method NewWaitFor(d: int, unit: Option<JTimeUnit>) returns (r: Result<WaitTask, Exception>)
    ensures d <= 0 ==> r == Failure(DurationMessage(d))
    ensures d > 0 ==> r.Success? && fresh(r.value) && r.value.Valid()
    ensures r.Success? ==>
      r.value.duration == d && r.value.durationTimeUnit == Some(unit.GetOr(DefaultTimeUnit))
      && r.value.interval == 0 && r.value.intervalTimeUnit == None
  {
    var task := new WaitTask();
    r := task.WaitFor(d, unit);
  }

  /** The static `waitFor(duration)`: in MILLISECONDS. */
  method NewWaitForMillis(d: int) returns (r: Result<WaitTask, Exception>)
    ensures d <= 0 ==> r == Failure(DurationMessage(d))
    ensures d > 0 ==> r.Success? && fresh(r.value) && r.value.Valid()
    ensures r.Success? ==>
      r.value.duration == d && r.value.durationTimeUnit == Some(Milliseconds)
      && r.value.interval == 0 && r.value.intervalTimeUnit == None
  {
    r := NewWaitFor(d, Some(DefaultTimeUnit));
  }

  // ---------------------------------------------------------------- properties of the configuration

  /**
   * In any reachable state the polling interval is positive exactly when a
   * duration has been set, never exceeds the duration, and has a unit.
   */
  lemma ConfiguredTaskPolls(duration: int, interval: int, durationUnit: Option<JTimeUnit>, intervalUnit: Option<JTimeUnit>)
    requires duration >= 0 && interval >= 0
    requires durationUnit.Some? <==> duration > 0
    requires interval > 0 ==> intervalUnit.Some? && duration > 0
    ensures 0 <= IntervalOf(duration, interval) <= duration
    ensures IntervalOf(duration, interval) > 0 <==> duration > 0
    ensures duration > 0 ==> (if intervalUnit.Some? then intervalUnit else durationUnit).Some?
  {
  }

  /**
   * `getInterval()` ignores units: `waitFor(5, SECONDS).checkEvery(10)`
   * accepts the 10 ms interval, yet the task then reports a polling period
   * of 5 in MILLISECONDS.
   */
  method IntervalIgnoresUnits() returns (task: WaitTask)
    ensures task.interval == 10 && task.intervalTimeUnit == Some(Milliseconds)
    ensures task.GetInterval() == 5 && task.GetIntervalTimeUnit() == Some(Milliseconds)
  {
    var configured := NewWaitFor(5, Some(Seconds));
    task := configured.value;
    var checked := task.CheckEveryMillis(10);
    assert checked.Success?;
  }

  /** The rejected configurations the library's tests exercise: too long an interval and a negative one. */
  lemma RejectedIntervals()
    ensures ValidInterval(2, Seconds, 500, Some(Milliseconds)) == Success(false)
    ensures ValidInterval(-1, Seconds, 500, Some(Milliseconds)) == Success(false)
  {
  }
}
