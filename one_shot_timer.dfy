/**
 * The System.Timers.Timer both schedulers own, built with AutoReset = false,
 * and the rule by which they re-arm it (StartTimerWithNewInterval). The
 * interval is kept in ticks; one millisecond is TicksPerMillisecond ticks.
 */
module OneShotTimer {
  import opened DateTimes
  import opened SortedStartSet

  datatype Timer = Timer(enabled: bool, interval: int)

  /** The 1 ms interval used for overdue and out-of-range delays. */
  const MinIntervalTicks: int := TicksPerMillisecond
  /** The interval of `new System.Timers.Timer()`: 100 ms. */
  const DefaultIntervalTicks: int := 100 * TicksPerMillisecond

  /** A freshly constructed timer: stopped, default interval. */
  function NewTimer(): (t: Timer)
    ensures !t.enabled && IntervalInRange(t.interval)
  {
    Timer(false, DefaultIntervalTicks)
  }

  /** Every interval the schedulers set lies in [1 ms, int.MaxValue ms). */
  predicate IntervalInRange(interval: int)
  {
    MinIntervalTicks <= interval < MaxDelayTicks
  }

  /**
   * The interval for a timer that should elapse `remaining` ticks from now:
   * `remaining` itself, or 1 ms when it is under 1 ms (already due) or at
   * least int.MaxValue ms (too large for the timer).
   */
  function ClampedInterval(remaining: int): (r: int)
    ensures IntervalInRange(r)
    ensures IntervalInRange(remaining) ==> r == remaining
    ensures !IntervalInRange(remaining) ==> r == MinIntervalTicks
  {
    if remaining < MinIntervalTicks || remaining >= MaxDelayTicks then MinIntervalTicks else remaining
  }

  /**
   * The source's computation, on the millisecond value it takes from
   * TotalMilliseconds: always a valid timer interval, and the value itself
   * whenever that already is one.
   */
  function ClampMilliseconds(ms: real): (r: real)
    ensures 1.0 <= r < IntMaxValue as real
    ensures 1.0 <= ms < IntMaxValue as real ==> r == ms
  {
    if ms < 1.0 || ms >= IntMaxValue as real then 1.0 else ms
  }

  /** The tick interval is the source's clamped millisecond interval, converted to ticks. */
  lemma ClampedIntervalIsMillisecondClamp(startOn: Ticks, now: Ticks)
    ensures ClampedInterval(startOn - now) as real / TicksPerMillisecond as real
         == ClampMilliseconds(TotalMilliseconds(startOn, now))
  {
    var ms := TotalMilliseconds(startOn, now);
    assert ms * 10000.0 == (startOn - now) as real;
    assert ms < 1.0 <==> startOn - now < MinIntervalTicks;
    assert ms >= IntMaxValue as real <==> startOn - now >= MaxDelayTicks;
  }

  /**
   * StartTimerWithNewInterval: stop the timer; when the set is not empty,
   * set the interval for its minimum and start it again.
   */
  function Rearm<T>(timer: Timer, pending: seq<T>, startOf: T -> int, now: Ticks): (t: Timer)
    ensures t.enabled <==> pending != []
    ensures pending != [] ==> t.interval == ClampedInterval(startOf(pending[0]) - now)
    ensures pending == [] ==> t.interval == timer.interval
  {
    var stopped := timer.(enabled := false);
    if pending == [] then stopped
    else stopped.(interval := ClampedInterval(startOf(pending[0]) - now), enabled := true)
  }

  /** The timer state every scheduler keeps between operations: running exactly when items are pending. */
  predicate Armed(timer: Timer, pendingCount: nat)
  {
    (timer.enabled <==> pendingCount > 0) && IntervalInRange(timer.interval)
  }

  /** Re-arming restores the invariant, whatever the timer was before, as long as its interval was in range. */
  lemma RearmIsArmed<T>(timer: Timer, pending: seq<T>, startOf: T -> int, now: Ticks)
    requires IntervalInRange(timer.interval)
    ensures Armed(Rearm(timer, pending, startOf, now), |pending|)
  {
  }

  /**
   * For a minimum start time less than int.MaxValue ms away, the timer
   * elapses exactly at that start time, or 1 ms from now if it is already
   * (or almost) due: never before the minimum is due.
   */
  lemma ElapsesWhenMinimumIsDue(due: Ticks, now: Ticks)
    requires due - now < MaxDelayTicks
    ensures now + ClampedInterval(due - now) == if due - now < MinIntervalTicks then now + MinIntervalTicks else due
    ensures now + ClampedInterval(due - now) >= due
  {
  }

  /**
   * A minimum start time int.MaxValue ms or more away also gets the 1 ms
   * interval, so the timer elapses early: a drain at that moment finds
   * nothing due, and the set stays as it was.
   */
  lemma {:induction false} FarMinimumElapsesEarly<T>(timer: Timer, pending: seq<T>, startOf: T -> int, now: Ticks)
    requires Ascending(pending, startOf) && pending != []
    requires startOf(pending[0]) - now >= MaxDelayTicks
    ensures now + Rearm(timer, pending, startOf, now).interval == now + MinIntervalTicks
    ensures DueCount(pending, startOf, now + MinIntervalTicks) == 0
  {
    assert startOf(pending[0]) > now + MinIntervalTicks;
  }
}
