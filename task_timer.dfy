/**
 * TaskTimer: the same engine as FuncScheduler over not-yet-started Tasks.
 * Adding reports failure by returning false (or null) instead of throwing,
 * only Tasks still in the Created state are accepted and started, and the
 * failures of the started tasks are logged after they finish.
 */
module TaskTimers {
  import opened Wrappers
  import opened Runtime
  import opened DateTimes
  import opened SortedStartSet
  import opened OneShotTimer
  import opened TasksWithTimer

  /** The message logged with the exception of a faulted task. */
  const FailureMessage: string := "Unexpected failure of a task with timer."

  /** The key the SortedSet orders by. */
  function StartOf(item: TaskWithTimer): int
  {
    item.startOn
  }

  /** The tasks wrapped by `items`. */
  function TasksOf(items: seq<TaskWithTimer>): set<TaskHandle>
  {
    set i | 0 <= i < |items| :: items[i].task
  }

  /** The tasks wrapped by `items` that are still in the Created state. */
  function CreatedTasks(items: seq<TaskWithTimer>): set<TaskHandle>
    reads TasksOf(items)
  {
    set i | 0 <= i < |items| && items[i].task.status == Created :: items[i].task
  }

  /**
   * The tasks the drain loop starts for `batch`, in order: a wrapped task
   * is started when it is still Created, so a task wrapped twice is started
   * once, and a task started elsewhere is dropped.
   */
  function Launched(batch: seq<TaskWithTimer>, created: set<TaskHandle>): (started: seq<TaskHandle>)
    ensures forall t | t in started :: t in created && t in TasksOf(batch)
    ensures forall i | 0 <= i < |batch| && batch[i].task in created :: batch[i].task in started
    ensures forall i, j | 0 <= i < j < |started| :: started[i] != started[j]
    decreases |batch|
  {
    if batch == [] then []
    else
      var n := |batch| - 1;
      var p := Launched(batch[..n], created);
      var t := batch[n].task;
      assert forall i | 0 <= i < n :: batch[..n][i] == batch[i];
      assert TasksOf(batch) == TasksOf(batch[..n]) + {t};
      if t in created && t !in p then p + [t] else p
  }

  /** One more step of the drain loop: the next item's task is started when it is still Created and not yet started. */
  lemma LaunchedStep(all: seq<TaskWithTimer>, n: nat, created: set<TaskHandle>)
    requires n < |all|
    ensures Launched(all[..n + 1], created) ==
      var p := Launched(all[..n], created);
      if all[n].task in created && all[n].task !in p then p + [all[n].task] else p
  {
    assert all[..n + 1][..n] == all[..n];
  }

  /** What the logging loop of OnTimedEvent writes for `tasks`: one entry per faulted task. */
  function FaultLogs(tasks: seq<TaskHandle>): seq<LogEntry>
    reads set i | 0 <= i < |tasks| :: tasks[i]
  {
    if tasks == [] then []
    else
      var last := tasks[|tasks| - 1];
      FaultLogs(tasks[..|tasks| - 1]) +
        (match last.Exception() case Some(e) => [Critical(e, FailureMessage)] case None => [])
  }

  /**
   * Once started tasks have run, the log holds exactly one entry per task
   * whose job threw.
   */
  lemma {:induction false} FaultLogsOfFinished(tasks: seq<TaskHandle>)
    requires forall i | 0 <= i < |tasks| :: tasks[i].status == tasks[i].FinalStatus()
    ensures |FaultLogs(tasks)| == |set i | 0 <= i < |tasks| && tasks[i].job.throws|
  {
    if tasks != [] {
      var n := |tasks| - 1;
      FaultLogsOfFinished(tasks[..n]);
      var before := set i | 0 <= i < n && tasks[..n][i].job.throws;
      var after := set i | 0 <= i < |tasks| && tasks[i].job.throws;
      forall i ensures i in after <==> i in before || (i == n && tasks[n].job.throws) {
        if 0 <= i < n {
          assert tasks[..n][i] == tasks[i];
        }
      }
      if tasks[n].job.throws {
        assert after == before + {n};
      } else {
        assert after == before;
      }
    }
  }

  /**
   * When every started task faulted, entry i of the log is the
   * AggregateException of task i, with the fixed message.
   */
  lemma {:induction false} FaultLogsOfAllFaulted(tasks: seq<TaskHandle>)
    requires forall i | 0 <= i < |tasks| :: tasks[i].status == Faulted
    ensures |FaultLogs(tasks)| == |tasks|
    ensures forall i | 0 <= i < |tasks| ::
      FaultLogs(tasks)[i] == Critical(AggregateException(JobException(tasks[i].job.id)), FailureMessage)
  {
    if tasks != [] {
      var n := |tasks| - 1;
      FaultLogsOfAllFaulted(tasks[..n]);
      assert tasks[n].Exception() == Some(AggregateException(JobException(tasks[n].job.id)));
    }
  }

  /** The body of the drain loop for one task: start it when it is still Created. */
  method StartIfCreated(task: TaskHandle) returns (started: bool)
    modifies task
    ensures started <==> old(task.status) == Created
    ensures task.status == if started then task.FinalStatus() else old(task.status)
  {
    started := task.status == Created;
    if started {
      task.Start();
    }
  }

  class TaskTimer {
    const logger: Logger?
    var pending: seq<TaskWithTimer>
    var timer: Timer

    /** The set is ordered without ties and the timer runs exactly when the set is not empty. */
    ghost predicate Valid()
      reads this
    {
      Ascending(pending, StartOf) && Armed(timer, |pending|)
    }

    constructor (logger: Logger?)
      ensures Valid() && this.logger == logger
      ensures pending == [] && timer == NewTimer()
    {
      this.logger := logger;
      pending := [];
      timer := NewTimer();
    }

    /** `StartTimerWithNewInterval`. */
    method StartTimerWithNewInterval(now: Ticks)
      modifies this
      ensures pending == old(pending)
      ensures timer == Rearm(old(timer), pending, StartOf, now)
    {
      if timer.enabled {
        timer := timer.(enabled := false);
      }
      if pending != [] {
        timer := timer.(interval := ClampedInterval(pending[0].startOn - now), enabled := true);
      }
    }

    /**
     * `TryAdd`: false, with nothing changed, when the start time is more
     * than int.MaxValue ms ahead, when the task is no longer Created, or when
     * an item with the same start time is pending; otherwise the item is
     * inserted and the timer re-armed.
     */
    method TryAdd(item: TaskWithTimer, now: Ticks) returns (added: bool)
      requires Valid()
      modifies this
      ensures Valid()
      ensures added <==>
        && !BeyondMaxDelay(item.startOn, now)
        && item.task.status == Created
        && !HasStart(old(pending), StartOf, item.startOn)
      ensures added ==> pending == Insert(old(pending), StartOf, item)
      ensures added ==> timer == Rearm(old(timer), pending, StartOf, now) && timer.enabled
      ensures !added ==> pending == old(pending) && timer == old(timer)
    {
      if BeyondMaxDelay(item.startOn, now) {
        return false;
      }
      if item.task.status != Created {
        return false;
      }
      var inserted := Add(pending, StartOf, item);
      if inserted.Some? {
        pending := inserted.value;
        StartTimerWithNewInterval(now);
        RearmIsArmed(old(timer), pending, StartOf, now);
        return true;
      }
      return false;
    }

    /** `TryAddTask(DateTime, Task)`: the new wrapper when TryAdd accepts it, null otherwise. */
    method TryAddTaskAt(startOn: Ticks, task: TaskHandle?, now: Ticks) returns (r: Result<Option<TaskWithTimer>, Exception>)
      requires Valid()
      modifies this
      ensures Valid()
      ensures task == null ==> r == Failure(ArgumentNullException("task"))
      ensures task == null ==> pending == old(pending) && timer == old(timer)
      ensures task != null ==> r.Success?
      ensures r.Success? && r.value.Some? ==> r.value.value == TaskWithTimer(startOn, task)
      ensures r.Success? && r.value.Some? ==> !HasStart(old(pending), StartOf, startOn)
      ensures task != null ==> (r == Success(None) <==>
        BeyondMaxDelay(startOn, now) || task.status != Created || HasStart(old(pending), StartOf, startOn))
      ensures r.Success? && r.value.Some? ==> pending == Insert(old(pending), StartOf, r.value.value) && timer.enabled
      ensures r.Success? && r.value.Some? ==> timer == Rearm(old(timer), pending, StartOf, now)
      ensures !(r.Success? && r.value.Some?) ==> pending == old(pending) && timer == old(timer)
    {
      var created := NewAt(startOn, task);
      if created.Failure? {
        return Failure(created.error);
      }
      var added := TryAdd(created.value, now);
      r := if added then Success(Some(created.value)) else Success(None);
    }

    /**
     * `TryAddTask(TimeSpan, Task)`: as the DateTime overload at now + startIn;
     * a sum outside the DateTime range throws ArgumentOutOfRangeException.
     */
    method TryAddTaskIn(startIn: SpanTicks, task: TaskHandle?, now: Ticks) returns (r: Result<Option<TaskWithTimer>, Exception>)
      requires Valid()
      modifies this
      ensures Valid()
      ensures r.Failure? <==> NewIn(startIn, task, now).Failure?
      ensures r.Failure? ==> r.error == NewIn(startIn, task, now).error && pending == old(pending) && timer == old(timer)
      ensures r.Success? ==> task != null
      ensures r.Success? ==> (r.value.None? <==>
        BeyondMaxDelay(now + startIn, now) || old(task.status) != Created || HasStart(old(pending), StartOf, now + startIn))
      ensures r.Success? && r.value.Some? ==> r.value.value == TaskWithTimer(now + startIn, task)
      ensures r.Success? && r.value.Some? ==> !HasStart(old(pending), StartOf, now + startIn)
      ensures r.Success? && r.value.Some? ==> pending == Insert(old(pending), StartOf, r.value.value) && timer.enabled
      ensures r.Success? && r.value.Some? ==> timer == Rearm(old(timer), pending, StartOf, now)
      ensures !(r.Success? && r.value.Some?) ==> pending == old(pending) && timer == old(timer)
    {
      var created := NewIn(startIn, task, now);
      if created.Failure? {
        return Failure(created.error);
      }
      var added := TryAdd(created.value, now);
      r := if added then Success(Some(created.value)) else Success(None);
    }

    /**
     * `RunTasks`: pops every due item in order, starts the tasks still
     * Created, and re-arms the timer for what is left. Returns the started
     * tasks.
     */
    method RunTasks(now: Ticks) returns (listOfTasks: seq<TaskHandle>)
      requires Valid()
      modifies this, TasksOf(pending)
      ensures Valid()
      ensures pending == old(pending)[DueCount(old(pending), StartOf, now)..]
      ensures listOfTasks == Launched(old(pending)[..DueCount(old(pending), StartOf, now)], old(CreatedTasks(pending)))
      ensures forall item | item in pending :: item.startOn > now
      ensures forall i | 0 <= i < |listOfTasks| :: listOfTasks[i].status == listOfTasks[i].FinalStatus()
      ensures forall t | t in TasksOf(old(pending)) && t !in listOfTasks :: t.status == old(t.status)
      ensures timer == Rearm(old(timer), pending, StartOf, now)
    {
      ghost var n;
      listOfTasks, n := StartDue(now);
      DueCountAt(old(pending), StartOf, now, n);
      assert Ascending(pending, StartOf);
      forall i | 0 <= i < |listOfTasks| ensures listOfTasks[i].status == listOfTasks[i].FinalStatus() {
        assert listOfTasks[i] in TasksOf(old(pending));
      }
      StartTimerWithNewInterval(now);
      RearmIsArmed(old(timer), pending, StartOf, now);
    }

    /** The drain loop of RunTasks: pop the minimum while it is due and start its task if still Created. */
    method StartDue(now: Ticks) returns (listOfTasks: seq<TaskHandle>, ghost n: nat)
      modifies this`pending, TasksOf(pending)
      ensures n <= |old(pending)| && pending == old(pending)[n..]
      ensures forall i | 0 <= i < n :: old(pending)[i].startOn <= now
      ensures pending != [] ==> now < pending[0].startOn
      ensures listOfTasks == Launched(old(pending)[..n], old(CreatedTasks(pending)))
      ensures forall t | t in listOfTasks :: t in TasksOf(old(pending))
      ensures forall t | t in TasksOf(old(pending)) :: t.status == if t in listOfTasks then t.FinalStatus() else old(t.status)
    {
      ghost var all := pending;
      ghost var created := CreatedTasks(pending);
      ghost var tasks := TasksOf(pending);
      n := 0;
      listOfTasks := [];
      while pending != [] && pending[0].startOn <= now
        invariant n <= |all| && pending == all[n..]
        invariant forall i | 0 <= i < n :: all[i].startOn <= now
        invariant listOfTasks == Launched(all[..n], created)
        invariant forall t | t in tasks :: t.status == if t in listOfTasks then t.FinalStatus() else old(t.status)
        decreases |pending|
      {
        var toRun := pending[0];
        assert toRun.task in tasks && toRun == all[n];
        assert forall i | 0 <= i < n + 1 :: all[i].startOn <= now;
        pending := pending[1..];
        LaunchedStep(all, n, created);
        assert toRun.task.status == Created <==> toRun.task in created && toRun.task !in listOfTasks;
        var started := StartIfCreated(toRun.task);
        if started {
          listOfTasks := listOfTasks + [toRun.task];
        }
        n := n + 1;
      }
      assert TasksOf(all[..n]) <= tasks;
    }

    /**
     * `OnTimedEvent`: runs RunTasks and, when a logger is set, logs the
     * exception of every started task that faulted, once each.
     */
    method OnTimedEvent(now: Ticks) returns (listOfTasks: seq<TaskHandle>)
      requires Valid()
      modifies this, TasksOf(pending), logger
      ensures Valid()
      ensures pending == old(pending)[DueCount(old(pending), StartOf, now)..]
      ensures listOfTasks == Launched(old(pending)[..DueCount(old(pending), StartOf, now)], old(CreatedTasks(pending)))
      ensures forall i | 0 <= i < |listOfTasks| :: listOfTasks[i].status == listOfTasks[i].FinalStatus()
      ensures forall t | t in TasksOf(old(pending)) && t !in listOfTasks :: t.status == old(t.status)
      ensures logger != null ==> logger.entries == old(logger.entries) + FaultLogs(listOfTasks)
      ensures timer == Rearm(old(timer), pending, StartOf, now)
    {
      listOfTasks := RunTasks(now);
      if logger != null {
        LogFaults(listOfTasks);
      }
    }

    /** The logging loop of OnTimedEvent: each task once, logged when it faulted. */
    method LogFaults(listOfTasks: seq<TaskHandle>)
      requires logger != null
      modifies logger
      ensures logger.entries == old(logger.entries) + FaultLogs(listOfTasks)
    {
      var remaining := listOfTasks;
      while |remaining| >= 1
        invariant |remaining| <= |listOfTasks|
        invariant remaining == listOfTasks[|listOfTasks| - |remaining|..]
        invariant logger.entries == old(logger.entries) + FaultLogs(listOfTasks[..|listOfTasks| - |remaining|])
      {
        var task := remaining[0];
        ghost var done := |listOfTasks| - |remaining|;
        assert listOfTasks[..done + 1][..done] == listOfTasks[..done];
        var exception := task.Exception();
        if exception.Some? {
          logger.LogCritical(exception.value, FailureMessage);
        }
        remaining := remaining[1..];
      }
      assert listOfTasks[..|listOfTasks|] == listOfTasks;
    }
  }
}
