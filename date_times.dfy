/**
 * DateTime and TimeSpan as .NET represents them: a count of 100-nanosecond
 * ticks. A DateTime lies in [0, MaxTicks]; a TimeSpan is a signed 64-bit
 * tick count. Clock readings are passed in as `now`.
 */
module DateTimes {
  import opened Wrappers
  import opened Runtime

  /** DateTime.MaxValue.Ticks (31 December 9999, 23:59:59.9999999). */
  const MaxTicks: int := 3155378975999999999
  /** TimeSpan.TicksPerMillisecond. */
  const TicksPerMillisecond: int := 10000
  /** int.MaxValue. */
  const IntMaxValue: int := 2147483647
  /** TimeSpan.MinValue.Ticks and TimeSpan.MaxValue.Ticks (long range). */
  const SpanMinTicks: int := -9223372036854775808
  const SpanMaxTicks: int := 9223372036854775807

  type Ticks = t: int | 0 <= t <= MaxTicks
  type SpanTicks = d: int | SpanMinTicks <= d <= SpanMaxTicks

  /** The largest delay the schedulers accept: int.MaxValue milliseconds, in ticks. */
  const MaxDelayTicks: int := IntMaxValue * TicksPerMillisecond

  /**
   * `dateTime + timeSpan`: throws ArgumentOutOfRangeException when the sum
   * leaves the DateTime range, naming the operator's TimeSpan parameter "t".
   */
  function Plus(dateTime: Ticks, span: SpanTicks): (r: Result<Ticks, Exception>)
    ensures r.Success? <==> 0 <= dateTime + span <= MaxTicks
    ensures r.Success? ==> r.value - dateTime == span
    ensures r.Failure? ==> r.error == ArgumentOutOfRangeException("t")
  {
    var sum := dateTime + span;
    if 0 <= sum <= MaxTicks then Success(sum) else Failure(ArgumentOutOfRangeException("t"))
  }

  /** `(a - b).TotalMilliseconds`, computed exactly (the source computes it as a double). */
  function TotalMilliseconds(a: Ticks, b: Ticks): real
  {
    (a - b) as real / TicksPerMillisecond as real
  }

  /**
   * `(startOn - now).TotalMilliseconds > int.MaxValue`, decided on whole ticks:
   * the start time lies more than int.MaxValue milliseconds after now. The
   * tick comparison decides exactly what the millisecond comparison decides.
   */
  predicate BeyondMaxDelay(startOn: Ticks, now: Ticks): (b: bool)
    ensures b <==> TotalMilliseconds(startOn, now) > IntMaxValue as real
  {
    assert TotalMilliseconds(startOn, now) * 10000.0 == (startOn - now) as real;
    startOn - now > MaxDelayTicks
  }

  /** `DateTime.CompareTo`: -1, 0 or 1 as the first tick count is smaller, equal or larger. */
  function Compare(a: Ticks, b: Ticks): (r: int)
    ensures r == -1 <==> a < b
    ensures r == 0 <==> a == b
    ensures r == 1 <==> a > b
  {
    if a < b then -1 else if a > b then 1 else 0
  }

  /** The comparison is antisymmetric and its sign follows the order of the arguments. */
  lemma CompareAntisymmetric(a: Ticks, b: Ticks)
    ensures Compare(a, b) == -Compare(b, a)
    ensures Compare(a, a) == 0
  {
  }
}
