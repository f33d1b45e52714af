/**
 * TaskWithTimer: a not-yet-started Task with the time it is due. Both
 * properties are read-only once constructed, so the wrapper is a value.
 */
module TasksWithTimer {
  import opened Wrappers
  import opened Runtime
  import opened DateTimes

  datatype TaskWithTimer = TaskWithTimer(startOn: Ticks, task: TaskHandle)
  {
    /** `CompareTo`: -1, 0 or 1 as this start time is before, equal to or after the other's. */
    function CompareTo(other: TaskWithTimer): (r: int)
      ensures r == -1 <==> startOn < other.startOn
      ensures r == 0 <==> startOn == other.startOn
      ensures r == 1 <==> startOn > other.startOn
    {
      Compare(startOn, other.startOn)
    }
  }

  /** `new TaskWithTimer(DateTime startOn, Task task)`: ArgumentNullException for a null task. */
  function NewAt(startOn: Ticks, task: TaskHandle?): (r: Result<TaskWithTimer, Exception>)
    ensures r.Failure? <==> task == null
    ensures r.Failure? ==> r.error == ArgumentNullException("task")
    ensures r.Success? ==> r.value.startOn == startOn && r.value.task == task
  {
    if task == null then Failure(ArgumentNullException("task")) else Success(TaskWithTimer(startOn, task))
  }

  /**
   * `new TaskWithTimer(TimeSpan startIn, Task task)`, which chains to the
   * DateTime constructor with `DateTime.Now + startIn`: the sum is computed
   * first, so an out-of-range sum throws ArgumentOutOfRangeException even
   * for a null task.
   */
  function NewIn(startIn: SpanTicks, task: TaskHandle?, now: Ticks): (r: Result<TaskWithTimer, Exception>)
    ensures Plus(now, startIn).Failure? ==> r == Failure(ArgumentOutOfRangeException("t"))
    ensures Plus(now, startIn).Success? && task == null ==> r == Failure(ArgumentNullException("task"))
    ensures r.Success? ==> r.value.startOn == now + startIn && r.value.task == task
  {
    var startOn := Plus(now, startIn);
    if startOn.Failure? then Failure(startOn.error) else NewAt(startOn.value, task)
  }

  /** TimeSpan.MaxValue added to any DateTime leaves the range: that constructor always throws. */
  lemma MaxSpanAlwaysThrows(task: TaskHandle?, now: Ticks)
    ensures NewIn(SpanMaxTicks, task, now) == Failure(ArgumentOutOfRangeException("t"))
  {
  }
}
