/**
 * Client-side scenarios that replay, for all inputs, what the unit tests of
 * both engines assert at single instants. Time advances only through the
 * `now` each call is given.
 */
module Scenarios {
  import opened Wrappers
  import opened Runtime
  import opened DateTimes
  import opened SortedStartSet
  import opened FuncWithStartTimes
  import opened FuncSchedulers
  import opened TasksWithTimer
  import opened TaskTimers

  /**
   * An action added 1 ms ahead and removed again: the first removal
   * succeeds and stops the timer, the item does not run when the timer
   * would have fired, and a second removal finds nothing.
   */
  method RemovedItemNeverRuns(job: Job, now: Ticks, later: Ticks)
    returns (firstRemove: bool, activeAfterRemove: bool, completed: bool, secondRemove: bool)
    requires now + TicksPerMillisecond <= later
    ensures firstRemove && !activeAfterRemove && !completed && !secondRemove
  {
    var scheduler := new FuncScheduler(null);
    var added := scheduler.AddIn(Action(Some(job)), TicksPerMillisecond, now);
    assert added.Success?;
    var item := added.value;
    firstRemove := scheduler.TryRemove(item, now);
    activeAfterRemove := scheduler.TimerIsActive();
    var ran := scheduler.RunElapsedFuncsWithStartTime(later);
    completed := item.isCompleted;
    secondRemove := scheduler.TryRemove(item, later);
  }

  /**
   * Two actions added and then run at once: both are completed, nothing is
   * pending and the timer is stopped.
   */
  method RunAllCompletesEverything(first: Job, second: Job, now: Ticks, gap: int)
    returns (activeBefore: bool, activeAfter: bool, count: nat, bothCompleted: bool)
    requires 0 < gap <= 100 * TicksPerMillisecond && now + gap <= MaxTicks
    ensures activeBefore && !activeAfter && count == 0 && bothCompleted
  {
    var scheduler, a, b := TwoFuncs(null, Action(Some(first)), Action(Some(second)), now, gap);
    activeBefore := scheduler.TimerIsActive();
    scheduler.RunAllAddedTasksNowAndClear();
    activeAfter := scheduler.TimerIsActive();
    count := scheduler.Count();
    bothCompleted := a.isCompleted && b.isCompleted;
  }

  /** Adding at DateTime.MaxValue throws ArgumentException for "startOn" and leaves the timer off. */
  method MaxStartOnIsRejected(work: Work, now: Ticks)
    returns (r: Result<FuncWithStartTime, Exception>, active: bool)
    requires now < MaxTicks - MaxDelayTicks
    ensures r == Failure(ArgumentException("startOn")) && !active
  {
    var scheduler := new FuncScheduler(null);
    r := scheduler.AddAt(work, MaxTicks, now);
    active := scheduler.TimerIsActive();
  }

  /** Adding in TimeSpan.MaxValue throws ArgumentOutOfRangeException and leaves the timer off. */
  method MaxStartInIsRejected(work: Work, now: Ticks)
    returns (r: Result<FuncWithStartTime, Exception>, active: bool)
    ensures r == Failure(ArgumentOutOfRangeException("t")) && !active
  {
    var scheduler := new FuncScheduler(null);
    r := scheduler.AddIn(work, SpanMaxTicks, now);
    active := scheduler.TimerIsActive();
  }

  /** A scheduler with `first` added for `now` and `second` for `gap` ticks later, in that order. */
  method TwoFuncs(logger: Logger?, first: Work, second: Work, now: Ticks, gap: int)
    returns (scheduler: FuncScheduler, a: FuncWithStartTime, b: FuncWithStartTime)
    requires 0 < gap <= 100 * TicksPerMillisecond && now + gap <= MaxTicks
    ensures fresh(scheduler) && fresh(a) && fresh(b)
    ensures scheduler.Valid() && scheduler.logger == logger && scheduler.pending == [a, b]
    ensures a.startOn == now && b.startOn == now + gap
    ensures a.action == (if first.Action? then first.job else None)
    ensures a.asyncFunc == (if first.AsyncFunc? then first.job else None)
    ensures b.action == (if second.Action? then second.job else None)
    ensures b.asyncFunc == (if second.AsyncFunc? then second.job else None)
  {
    scheduler, a := OneFunc(logger, first, now);
    var r := scheduler.AddIn(second, gap, now);
    InsertAfterLast([a], FuncSchedulers.StartOf, r.value);
    b := r.value;
  }

  /** A new scheduler with `work` added for `now`. */
  method OneFunc(logger: Logger?, work: Work, now: Ticks) returns (scheduler: FuncScheduler, a: FuncWithStartTime)
    ensures fresh(scheduler) && fresh(a)
    ensures scheduler.Valid() && scheduler.logger == logger && scheduler.pending == [a]
    ensures a.startOn == now
    ensures a.action == (if work.Action? then work.job else None)
    ensures a.asyncFunc == (if work.AsyncFunc? then work.job else None)
  {
    scheduler := new FuncScheduler(logger);
    var r := scheduler.AddIn(work, 0, now);
    a := r.value;
    InsertAfterLast([], FuncSchedulers.StartOf, a);
  }

  /**
   * Two async funcs that throw, due `now` and 1 ms later, fired once both
   * are due: each failure is logged once, with its own exception, and the
   * timer stops.
   */
  method FailuresAreLoggedOnce(first: nat, second: nat, now: Ticks, later: Ticks)
    returns (logs: seq<LogEntry>, active: bool)
    requires now + TicksPerMillisecond <= later
    ensures logs == [
      Critical(JobException(first), FuncWithStartTimes.FailureMessage),
      Critical(JobException(second), FuncWithStartTimes.FailureMessage)]
    ensures !active
  {
    var logger := new Logger();
    var scheduler, a, b := TwoFuncs(logger, AsyncFunc(Some(Job(first, true))), AsyncFunc(Some(Job(second, true))), now, TicksPerMillisecond);
    DueCountAt(scheduler.pending, FuncSchedulers.StartOf, later, 2);
    var ran := scheduler.RunElapsedFuncsWithStartTime(later);
    assert ran == [a, b];
    AllFailuresLogged(ran);
    logs := logger.entries;
    active := scheduler.TimerIsActive();
  }

  /** A task already started is refused: the TimeSpan-free overload returns null and the timer stays off. */
  method StartedTaskIsRefused(job: Job, now: Ticks, startOn: Ticks)
    returns (r: Result<Option<TaskWithTimer>, Exception>, enabled: bool)
    ensures r == Success(None) && !enabled
  {
    var timer := new TaskTimer(null);
    var task := new TaskHandle(job);
    task.Start();
    r := timer.TryAddTaskAt(startOn, task, now);
    enabled := timer.timer.enabled;
  }

  /** A task due at DateTime.MaxValue is refused by TryAdd. */
  method FarTaskIsRefused(job: Job, now: Ticks) returns (added: bool)
    requires now < MaxTicks - MaxDelayTicks
    ensures !added
  {
    var timer := new TaskTimer(null);
    var task := new TaskHandle(job);
    added := timer.TryAdd(TaskWithTimer(MaxTicks, task), now);
  }

  /** A task added at DateTime.MaxValue is refused: the DateTime overload returns null and the timer stays off. */
  method FarTaskGivesNull(job: Job, now: Ticks)
    returns (r: Result<Option<TaskWithTimer>, Exception>, enabled: bool)
    requires now < MaxTicks - MaxDelayTicks
    ensures r == Success(None) && !enabled
  {
    var timer := new TaskTimer(null);
    var task := new TaskHandle(job);
    r := timer.TryAddTaskAt(MaxTicks, task, now);
    enabled := timer.timer.enabled;
  }

  /** A task added in TimeSpan.MaxValue throws ArgumentOutOfRangeException and the timer stays off. */
  method MaxSpanTaskThrows(job: Job, now: Ticks)
    returns (r: Result<Option<TaskWithTimer>, Exception>, enabled: bool)
    ensures r == Failure(ArgumentOutOfRangeException("t")) && !enabled
  {
    var timer := new TaskTimer(null);
    var task := new TaskHandle(job);
    r := timer.TryAddTaskIn(SpanMaxTicks, task, now);
    enabled := timer.timer.enabled;
  }

  /** A new task timer holding `task`, due `now`. */
  method OneTask(logger: Logger?, task: TaskHandle, now: Ticks) returns (timer: TaskTimer)
    requires task.status == Created
    ensures fresh(timer)
    ensures timer.Valid() && timer.logger == logger && timer.pending == [TaskWithTimer(now, task)]
  {
    timer := new TaskTimer(logger);
    var r := timer.TryAddTaskIn(0, task, now);
    InsertAfterLast([], TaskTimers.StartOf, TaskWithTimer(now, task));
    assert r.Success? && r.value.Some?;
  }

  /** Adds `task` 1 ms after the single pending item. */
  method AddTaskLater(timer: TaskTimer, first: TaskWithTimer, task: TaskHandle, now: Ticks)
    requires timer.Valid() && timer.pending == [first] && first.startOn == now
    requires task.status == Created && now + TicksPerMillisecond <= MaxTicks
    modifies timer
    ensures timer.Valid()
    ensures timer.pending == [first, TaskWithTimer(now + TicksPerMillisecond, task)]
  {
    var second := TaskWithTimer(now + TicksPerMillisecond, task);
    InsertAfterLast([first], TaskTimers.StartOf, second);
    assert !BeyondMaxDelay(second.startOn, now);
    assert NewIn(TicksPerMillisecond, task, now) == Success(second);
    var r := timer.TryAddTaskIn(TicksPerMillisecond, task, now);
  }

  /** Both items are due at `later`, and both of their tasks, still Created, are started in order. */
  lemma BothDueAndLaunched(items: seq<TaskWithTimer>, t1: TaskHandle, t2: TaskHandle, now: Ticks, later: Ticks)
    requires t1 != t2 && t1.status == Created && t2.status == Created
    requires now + TicksPerMillisecond <= later
    requires items == [TaskWithTimer(now, t1), TaskWithTimer(now + TicksPerMillisecond, t2)]
    ensures DueCount(items, TaskTimers.StartOf, later) == 2
    ensures Launched(items[..2], CreatedTasks(items)) == [t1, t2]
  {
    DueCountAt(items, TaskTimers.StartOf, later, 2);
    var created := CreatedTasks(items);
    assert t1 in created by { assert items[0].task == t1; }
    assert t2 in created by { assert items[1].task == t2; }
    LaunchedStep(items, 0, created);
    LaunchedStep(items, 1, created);
    assert items[..0] == [];
  }

  /** Fires the timer of a set holding two throwing tasks once both are due: both are started and logged in order. */
  method FireTwoFaulting(timer: TaskTimer, t1: TaskHandle, t2: TaskHandle, now: Ticks, later: Ticks)
    returns (tasks: seq<TaskHandle>)
    requires now + TicksPerMillisecond <= later
    requires timer.Valid() && timer.logger != null
    requires timer.pending == [TaskWithTimer(now, t1), TaskWithTimer(now + TicksPerMillisecond, t2)]
    requires t1 != t2 && t1.status == Created && t2.status == Created && t1.job.throws && t2.job.throws
    modifies timer, t1, t2, timer.logger
    ensures tasks == [t1, t2]
    ensures timer.logger.entries == old(timer.logger.entries) + [
      Critical(AggregateException(JobException(t1.job.id)), TaskTimers.FailureMessage),
      Critical(AggregateException(JobException(t2.job.id)), TaskTimers.FailureMessage)]
  {
    BothDueAndLaunched(timer.pending, t1, t2, now, later);
    tasks := timer.OnTimedEvent(later);
    assert tasks[0] == t1 && tasks[1] == t2;
    FaultLogsOfAllFaulted(tasks);
  }

  /**
   * Two throwing tasks, due `now` and 1 ms later, fired once both are due:
   * both are started and each is logged once with an AggregateException.
   */
  method FaultedTasksAreLoggedOnce(first: nat, second: nat, now: Ticks, later: Ticks)
    returns (started: nat, logs: seq<LogEntry>)
    requires now + TicksPerMillisecond <= later
    ensures started == 2
    ensures logs == [
      Critical(AggregateException(JobException(first)), TaskTimers.FailureMessage),
      Critical(AggregateException(JobException(second)), TaskTimers.FailureMessage)]
  {
    var logger := new Logger();
    var t1 := new TaskHandle(Job(first, true));
    var t2 := new TaskHandle(Job(second, true));
    var timer := OneTask(logger, t1, now);
    AddTaskLater(timer, TaskWithTimer(now, t1), t2, now);
    var tasks := FireTwoFaulting(timer, t1, t2, now, later);
    started := |tasks|;
    logs := logger.entries;
  }

  /**
   * Adds `items` one by one to an empty sorted set while keeping a running
   * minimum and maximum. Every add succeeds (as the test demands) exactly
   * when the start times are pairwise distinct, and then the set's Min and
   * Max are the running minimum and maximum.
   */
  method MinAndMaxOfAdded(items: seq<TaskWithTimer>)
    returns (sorted: seq<TaskWithTimer>, minValue: TaskWithTimer, maxValue: TaskWithTimer, allAdded: bool)
    requires items != []
    ensures allAdded <==> forall a, b | 0 <= a < b < |items| :: items[a].startOn != items[b].startOn
    ensures allAdded ==> |sorted| == |items| && sorted[0] == minValue && sorted[|sorted| - 1] == maxValue
    ensures forall x | x in items :: minValue.startOn <= x.startOn <= maxValue.startOn
  {
    sorted := [];
    minValue, maxValue := items[0], items[0];
    allAdded := true;
    var i := 0;
    while i < |items|
      invariant Tracked(items, i, sorted, minValue, maxValue, allAdded)
    {
      sorted, minValue, maxValue, allAdded := AddNext(items, i, sorted, minValue, maxValue, allAdded);
      i := i + 1;
    }
  }

  /** The state of the test's loop after its first `i` passes. */
  ghost predicate Tracked(items: seq<TaskWithTimer>, i: nat, sorted: seq<TaskWithTimer>,
                          minValue: TaskWithTimer, maxValue: TaskWithTimer, allAdded: bool)
  {
    && i <= |items| && Ascending(sorted, TaskTimers.StartOf)
    && (allAdded ==> |sorted| == i)
    && (allAdded <==> DistinctStarts(items, i))
    && HoldsStartsOf(sorted, items, i)
    && (allAdded && i > 0 ==> sorted != [] && sorted[0] == minValue && sorted[|sorted| - 1] == maxValue)
    && (forall j | 0 <= j < i :: minValue.startOn <= items[j].startOn <= maxValue.startOn)
  }

  /** Pass `i` of the test's loop, on the loop's state. */
  method AddNext(items: seq<TaskWithTimer>, i: nat, sorted: seq<TaskWithTimer>,
                 minValue: TaskWithTimer, maxValue: TaskWithTimer, allAdded: bool)
    returns (sorted': seq<TaskWithTimer>, minValue': TaskWithTimer, maxValue': TaskWithTimer, allAdded': bool)
    requires i < |items| && Tracked(items, i, sorted, minValue, maxValue, allAdded)
    ensures Tracked(items, i + 1, sorted', minValue', maxValue', allAdded')
  {
    DistinctStep(items, i, sorted);
    sorted', minValue', maxValue', allAdded' := AddTracked(sorted, minValue, maxValue, allAdded, items[i], i < 1);
    HoldsStartsStep(items, i, sorted, sorted');
  }

  /** The first `n` items have pairwise distinct start times. */
  ghost predicate DistinctStarts(items: seq<TaskWithTimer>, n: nat)
  {
    forall a, b | 0 <= a < b < n && b < |items| :: items[a].startOn != items[b].startOn
  }

  /** `sorted` holds exactly the start times of the first `n` items. */
  ghost predicate HoldsStartsOf(sorted: seq<TaskWithTimer>, items: seq<TaskWithTimer>, n: nat)
  {
    forall t :: HasStart(sorted, TaskTimers.StartOf, t) <==> exists j | 0 <= j < n && j < |items| :: items[j].startOn == t
  }

  /** Item `n` keeps the first `n + 1` start times distinct exactly when the set does not hold its start time yet. */
  lemma DistinctStep(items: seq<TaskWithTimer>, n: nat, sorted: seq<TaskWithTimer>)
    requires n < |items| && HoldsStartsOf(sorted, items, n)
    ensures DistinctStarts(items, n + 1) <==>
      DistinctStarts(items, n) && !HasStart(sorted, TaskTimers.StartOf, items[n].startOn)
  {
    if HasStart(sorted, TaskTimers.StartOf, items[n].startOn) {
      var j :| 0 <= j < n && items[j].startOn == items[n].startOn;
    }
  }

  /** A set that gained exactly item `n`'s start time holds the start times of the first `n + 1` items. */
  lemma HoldsStartsStep(items: seq<TaskWithTimer>, n: nat, sorted: seq<TaskWithTimer>, sorted': seq<TaskWithTimer>)
    requires n < |items| && HoldsStartsOf(sorted, items, n)
    requires forall t :: HasStart(sorted', TaskTimers.StartOf, t) <==> HasStart(sorted, TaskTimers.StartOf, t) || t == items[n].startOn
    ensures HoldsStartsOf(sorted', items, n + 1)
  {
    forall t ensures HasStart(sorted', TaskTimers.StartOf, t) <==> exists j | 0 <= j < n + 1 :: items[j].startOn == t {
      if exists j | 0 <= j < n + 1 :: items[j].startOn == t {
        var j :| 0 <= j < n + 1 && items[j].startOn == t;
        if j < n {
          assert HasStart(sorted, TaskTimers.StartOf, t);
        }
      }
    }
  }

  /** One pass of the test's loop: move the running minimum and maximum, then add the item to the set. */
  method AddTracked(sorted: seq<TaskWithTimer>, minValue: TaskWithTimer, maxValue: TaskWithTimer, allAdded: bool,
                    item: TaskWithTimer, first: bool)
    returns (sorted': seq<TaskWithTimer>, minValue': TaskWithTimer, maxValue': TaskWithTimer, allAdded': bool)
    requires Ascending(sorted, TaskTimers.StartOf)
    requires allAdded && first ==> sorted == []
    requires allAdded && !first ==> sorted != [] && sorted[0] == minValue && sorted[|sorted| - 1] == maxValue
    ensures Ascending(sorted', TaskTimers.StartOf)
    ensures allAdded' == (allAdded && !HasStart(sorted, TaskTimers.StartOf, item.startOn))
    ensures sorted' == if HasStart(sorted, TaskTimers.StartOf, item.startOn) then sorted else Insert(sorted, TaskTimers.StartOf, item)
    ensures forall t :: HasStart(sorted', TaskTimers.StartOf, t) <==> HasStart(sorted, TaskTimers.StartOf, t) || t == item.startOn
    ensures allAdded' ==> allAdded && |sorted'| == |sorted| + 1 && sorted'[0] == minValue' && sorted'[|sorted'| - 1] == maxValue'
    ensures minValue'.startOn <= item.startOn <= maxValue'.startOn
    ensures !first ==> minValue'.startOn <= minValue.startOn && maxValue.startOn <= maxValue'.startOn
  {
    if first {
      maxValue', minValue' := item, item;
    } else {
      maxValue', minValue' := maxValue, minValue;
      if item.startOn > maxValue'.startOn {
        maxValue' := item;
      }
      if item.startOn < minValue'.startOn {
        minValue' := item;
      }
    }
    var added := Add(sorted, TaskTimers.StartOf, item);
    if added.None? {
      return sorted, minValue', maxValue', false;
    }
    forall t ensures HasStart(added.value, TaskTimers.StartOf, t) <==> HasStart(sorted, TaskTimers.StartOf, t) || t == item.startOn {
      InsertStarts(sorted, TaskTimers.StartOf, item, t);
    }
    if sorted == [] {
      InsertAfterLast(sorted, TaskTimers.StartOf, item);
    } else if allAdded {
      InsertMinMax(sorted, TaskTimers.StartOf, item);
    }
    return added.value, minValue', maxValue', allAdded;
  }
}
