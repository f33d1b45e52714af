# Deferred-task scheduler, modelled in Dafny

This project models the two schedulers of the repository:

- **FuncScheduler** holds callbacks (`Action` or `Func<Task>`) wrapped in `FuncWithStartTime`.
- **TaskTimer** holds not-yet-started `Task`s wrapped in `TaskWithTimer`.

Both engines keep the same state:

- a `SortedSet` of pending items ordered by start time;
- one `System.Timers.Timer` with `AutoReset = false`;
- a semaphore that makes every public operation one atomic step.

Each operation does one short thing to that state. Adding validates, inserts and re-arms the timer. Removing removes and re-arms. Firing drains every due item in order and re-arms. Running everything now runs every item, clears the set and stops the timer.

Modules:

| module | file | what it holds |
|---|---|---|
| `DateTimes` | date_times.dfy | `DateTime`/`TimeSpan` as .NET tick counts, `DateTime + TimeSpan`, the millisecond limit |
| `Runtime` | runtime.dfy | exceptions, a unit of work with a known outcome, `ILogger` as an append-only entry list, `Task` with its status |
| `SortedStartSet` | sorted_start_set.dfy | the `SortedSet` both engines use, as a sequence whose start times strictly increase |
| `OneShotTimer` | one_shot_timer.dfy | the timer and the re-arming rule `StartTimerWithNewInterval` |
| `FuncWithStartTimes` | func_with_start_time.dfy | `FuncWithStartTime` (a class: `IsCompleted` changes in place) and the failure log of a batch |
| `FuncSchedulers` | func_scheduler.dfy | the `FuncScheduler` class |
| `TasksWithTimer` | task_with_timer.dfy | `TaskWithTimer` (a value: both properties are read-only) and its constructors |
| `TaskTimers` | task_timer.dfy | the `TaskTimer` class, the tasks a drain starts and the log `OnTimedEvent` writes |
| `Scenarios` | scenarios.dfy | client code replaying the unit tests' assertions for all inputs |

Each scheduler class keeps an invariant `Valid()` that every operation preserves. It says:

- the pending sequence is strictly ascending by start time;
- the timer is enabled exactly when something is pending;
- the timer's interval lies in [1 ms, int.MaxValue ms).

Each imperative operation is a method. Its `ensures` ties the new state to functions of the old state: `Insert`, `Remove`, `DueCount`, `Rearm`, `FailureLogs`, `Launched`, `FaultLogs`. Lemmas then prove what those functions mean.

Some behaviours of the code are worth stating outright, because the model keeps them:

- **Items with equal start times.** `CompareTo` in both wrappers compares `StartOn` only (FuncScheduler/FuncWithStartTime.cs:34-37, TaskTimer/TaskWithTimer.cs:31-34), so the `SortedSet` holds at most one item per start time:
  - a second `Add` at a pending start time throws `AddException` (FuncScheduler/FuncScheduler.cs:73-76);
  - `TryAdd` returns false (TaskTimer/TaskTimer.cs:68-75).
  The insert failure is therefore reachable, and the model states exactly when.
- **Removal.** `TryRemove` removes whichever pending item has the handle's start time, not the handle by identity (FuncScheduler/FuncScheduler.cs:92).
- **Relative delays beyond the limit.** The code computes `DateTime.Now + startIn` first: only a sum outside the DateTime range throws `ArgumentOutOfRangeException` (parameter name "t"). A sum inside the range but more than int.MaxValue ms ahead gets the `ArgumentException` of `CheckStartTime` (FuncScheduler/FuncScheduler.cs:37-45, 135-143).
- **Null callbacks.** The doc comments of the `FuncWithStartTime` constructors announce `ArgumentNullException`, but the constructors check nothing (FuncScheduler/FuncWithStartTime.cs:18-32). A null callback is accepted. When it runs, `Task.Run(null)` throws `ArgumentNullException`, which is caught, logged and marked completed like any other failure.

## Model

| member | source | states |
|---|---|---|
| `DateTimes.Plus` | TaskTimer/TaskWithTimer.cs:22 | `DateTime + TimeSpan` succeeds exactly when the sum is in [0, MaxTicks], with the value exactly `span` ticks later; otherwise it fails with ArgumentOutOfRangeException for parameter "t" |
| `DateTimes.BeyondMaxDelay` | FuncScheduler/FuncScheduler.cs:137 | the start-time limit of `CheckStartTime` and of `TryAdd` (TaskTimer/TaskTimer.cs:58), decided on whole ticks, holds exactly when `(startOn - now).TotalMilliseconds > int.MaxValue` |
| `DateTimes.Compare` | FuncScheduler/FuncWithStartTime.cs:36 | `DateTime.CompareTo` is -1, 0 or 1 exactly when the first time is earlier than, equal to or later than the second |
| `DateTimes.CompareAntisymmetric` | TaskTimer.Tests/TaskWithTimerTests.cs:67-70 | the comparison is 0 on equal times and swapping the arguments negates it |
| `Runtime.Job.Fault` | FuncScheduler/FuncWithStartTime.cs:41-48 | running a unit of work raises an exception exactly when it throws, and that exception carries its identity |
| `Runtime.Logger.LogCritical` | FuncScheduler/FuncWithStartTime.cs:47 | one `LogCritical` call appends exactly one entry, with that exception and message, and nothing else changes |
| `Runtime.TaskHandle.constructor` | TaskTimer.Tests/TaskTimerTests.cs:139 | `new Task(job)` is in the Created state |
| `Runtime.TaskHandle.FinalStatus` | TaskTimer/TaskTimer.cs:139 | a started task ends Faulted exactly when its job throws, and RanToCompletion exactly when it does not |
| `Runtime.TaskHandle.Start` | TaskTimer/TaskTimer.cs:137-139 | `Task.Start` requires the Created state and leaves the task in its final status |
| `Runtime.TaskHandle.Exception` | TaskTimer/TaskTimer.cs:114-116 | `Task.Exception` is non-null exactly when the task faulted, and is then an AggregateException around the job's exception |
| `SortedStartSet.RankUnique` | FuncScheduler/FuncScheduler.cs:73 | the split point with every earlier start on its left and no earlier start on its right is unique: it is the insertion position |
| `SortedStartSet.HasStartAtRank` | FuncScheduler/FuncScheduler.cs:92 | in an ascending sequence an item with start time t exists exactly when the item at t's insertion position starts at t |
| `SortedStartSet.SplitAscending` | FuncScheduler/FuncScheduler.cs:73 | placing an item between the earlier and the later elements keeps the order strict |
| `SortedStartSet.Insert` | FuncScheduler/FuncScheduler.cs:73 | `SortedSet.Add` of a new start time keeps the order strict, adds exactly that item to the contents (as a multiset), and grows the count by one |
| `SortedStartSet.InsertAfterLast` | FuncScheduler.Tests/FuncSchedulerTests.cs:127-131 | adding a start time later than every pending one appends the item at the end |
| `SortedStartSet.Add` | TaskTimer/TaskTimer.cs:68 | `SortedSet.Add` returns false exactly when an item with the same start time is present; otherwise it is the insertion |
| `SortedStartSet.InsertStarts` | TaskTimer/TaskTimer.cs:68 | after a successful `SortedSet.Add` the set holds a start time exactly when it held it before or it is the added item's |
| `SortedStartSet.Remove` | FuncScheduler/FuncScheduler.cs:92 | `SortedSet.Remove` keeps the order, leaves no item at that start time, keeps every other item and only those, and shrinks the count by one exactly when something was removed |
| `SortedStartSet.DropAt` | FuncScheduler/FuncScheduler.cs:184 | removing the element at one position keeps the order and every other element, and leaves nothing at its start time |
| `SortedStartSet.AscendingDistinct` | FuncScheduler/FuncScheduler.cs:12 | a set ordered by start time without ties holds each item once |
| `SortedStartSet.DueCount` | FuncScheduler/FuncScheduler.cs:179-180 | the items due at `now` are exactly a prefix: every item before the count is due, and every item after it is not |
| `SortedStartSet.DueCountAt` | TaskTimer/TaskTimer.cs:132 | a drain that stops at the first item not due has popped exactly the due count |
| `SortedStartSet.InsertMinMax` | TaskTimer.Tests/TaskWithTimerTests.cs:37-48 | one insertion changes `Min` and `Max` as a running minimum and maximum would |
| `OneShotTimer.NewTimer` | FuncScheduler/FuncScheduler.cs:24-27 | a new timer is stopped and its default interval is in range |
| `OneShotTimer.ClampedInterval` | FuncScheduler/FuncScheduler.cs:154-159 | the interval is the remaining time when that is in [1 ms, int.MaxValue ms), and 1 ms otherwise; it is always in range |
| `OneShotTimer.ClampMilliseconds` | TaskTimer/TaskTimer.cs:92-97 | the millisecond clamp always yields a value in [1, int.MaxValue), and leaves a value already in that range unchanged |
| `OneShotTimer.ClampedIntervalIsMillisecondClamp` | TaskTimer/TaskTimer.cs:92-97 | the tick interval, converted to milliseconds, equals the source's clamp of `TotalMilliseconds` |
| `OneShotTimer.Rearm` | TaskTimer/TaskTimer.cs:83-102 | after `StartTimerWithNewInterval` the timer is enabled exactly when the set is non-empty, with the clamped interval for the minimum; a stopped timer keeps its interval |
| `OneShotTimer.RearmIsArmed` | FuncScheduler/FuncScheduler.cs:145-164 | re-arming re-establishes "enabled exactly when non-empty, interval in range" from any timer whose interval was in range |
| `OneShotTimer.ElapsesWhenMinimumIsDue` | FuncScheduler/FuncScheduler.cs:154-162 | for a minimum less than int.MaxValue ms away, the timer elapses at the minimum's start time, or 1 ms from now if that is sooner; never before the minimum is due |
| `OneShotTimer.FarMinimumElapsesEarly` | TaskTimer/TaskTimer.cs:94-100 | whatever the old timer, a minimum int.MaxValue ms or more away gets the 1 ms interval, and a drain when that timer elapses finds nothing due |
| `FuncWithStartTimes.FuncWithStartTime.FromAction` | FuncScheduler/FuncWithStartTime.cs:19-24 | the wrapper keeps the start time, the action and the logger; it has no async func and is not completed |
| `FuncWithStartTimes.FuncWithStartTime.FromAsyncFunc` | FuncScheduler/FuncWithStartTime.cs:27-32 | the wrapper keeps the start time, the async func and the logger; it has no action and is not completed |
| `FuncWithStartTimes.FuncWithStartTime.CompareTo` | FuncScheduler/FuncWithStartTime.cs:34-37 | the result is -1, 0 or 1 exactly as this start time is earlier than, equal to or later than the other; no other field matters |
| `FuncWithStartTimes.FuncWithStartTime.Run` | FuncScheduler/FuncWithStartTime.cs:55-63 | the action runs when there is one, the async func otherwise; with neither, `Task.Run(null)` raises ArgumentNullException |
| `FuncWithStartTimes.FuncWithStartTime.RunSaveAndWithLoggerWhenSet` | FuncScheduler/FuncWithStartTime.cs:39-53 | the item ends completed whether or not the work failed; with a logger, the failure (if any) is appended once |
| `FuncWithStartTimes.FailureLog` | FuncScheduler/FuncWithStartTime.cs:45-48 | a successful run logs nothing; a failed run logs one critical entry with its exception and the fixed message |
| `FuncWithStartTimes.FailureLogsSnoc` | FuncScheduler/FuncScheduler.cs:182-185 | running one more item appends exactly that item's failure entry to the batch's log |
| `FuncWithStartTimes.FailureLogsCount` | FuncScheduler.Tests/FuncSchedulerTests.cs:203 | a batch's log has exactly as many entries as the batch has failing items |
| `FuncWithStartTimes.AllFailuresLogged` | FuncScheduler.Tests/FuncSchedulerTests.cs:203-208 | when every item fails, entry i of the log is item i's exception with the fixed message |
| `FuncSchedulers.CheckStartTime` | FuncScheduler/FuncScheduler.cs:135-143 | ArgumentException for "startOn" exactly when the start time is more than int.MaxValue ms after now |
| `FuncSchedulers.RunEach` | FuncScheduler/FuncScheduler.cs:120-123 | every item in the list is completed, and the log grows by exactly the batch's failures, in list order |
| `FuncSchedulers.RunItem` | FuncScheduler/FuncScheduler.cs:122 | one pass of the foreach completes the current item, keeps the earlier ones completed, and appends its failure, if any, to the log |
| `FuncSchedulers.FuncScheduler.constructor` | FuncScheduler/FuncScheduler.cs:19-29 | a new scheduler has nothing pending and a stopped timer, and keeps its logger |
| `FuncSchedulers.FuncScheduler.Count` | FuncScheduler/FuncScheduler.cs:17 | in a valid scheduler the count of pending items is 0 exactly when the timer is stopped |
| `FuncSchedulers.FuncScheduler.TimerIsActive` | FuncScheduler/FuncScheduler.cs:16-17 | `TimerIsActive` is true exactly when `Count > 0` |
| `FuncSchedulers.FuncScheduler.StartTimerWithNewInterval` | FuncScheduler/FuncScheduler.cs:145-164 | the set is unchanged and the timer is re-armed by the rule `Rearm` |
| `FuncSchedulers.FuncScheduler.AddItem` | FuncScheduler/FuncScheduler.cs:65-84 | fails exactly when the start time is too far ahead (ArgumentException, checked first) or already pending (AddException), with nothing changed; otherwise it inserts the item and re-arms |
| `FuncSchedulers.FuncScheduler.AddAt` | FuncScheduler/FuncScheduler.cs:47-63 | same outcomes as AddItem; on success it returns a fresh, not completed item carrying the callback, the count grows by one and the timer is active |
| `FuncSchedulers.FuncScheduler.AddIn` | FuncScheduler/FuncScheduler.cs:37-45 | a sum outside the DateTime range throws ArgumentOutOfRangeException for "t" with nothing changed; otherwise as AddAt at now + startIn: a sum more than int.MaxValue ms ahead throws ArgumentException("startOn"), a taken start time throws AddException, and on success the item is inserted and the timer re-armed for the new minimum |
| `FuncSchedulers.FuncScheduler.TryRemove` | FuncScheduler/FuncScheduler.cs:86-105 | true exactly when an item with the handle's start time is pending; that item is removed and the timer re-armed; otherwise nothing changes |
| `FuncSchedulers.FuncScheduler.RunAllAddedTasksNowAndClear` | FuncScheduler/FuncScheduler.cs:107-133 | every previously pending item is completed, its failures are logged in order, the set is empty and the timer is stopped |
| `FuncSchedulers.FuncScheduler.RunElapsedFuncsWithStartTime` | FuncScheduler/FuncScheduler.cs:171-196 | runs exactly the due prefix in ascending order; every remaining item is in the future and untouched; failures are logged in order; the timer is re-armed for the new minimum |
| `FuncSchedulers.FuncScheduler.RunDue` | FuncScheduler/FuncScheduler.cs:179-186 | the loop pops a prefix of due items, runs each, and stops at the first item not due |
| `FuncSchedulers.FuncScheduler.RunNext` | FuncScheduler/FuncScheduler.cs:182-185 | one turn pops the minimum, runs it to completion and logs its failure |
| `TasksWithTimer.TaskWithTimer.CompareTo` | TaskTimer/TaskWithTimer.cs:31-34 | -1, 0 or 1 exactly as this start time is earlier than, equal to or later than the other |
| `TasksWithTimer.NewAt` | TaskTimer/TaskWithTimer.cs:15-19 | fails with ArgumentNullException("task") exactly when the task is null; otherwise keeps the start time and the task |
| `TasksWithTimer.NewIn` | TaskTimer/TaskWithTimer.cs:21-24 | the sum is computed first: out of range gives ArgumentOutOfRangeException for "t" even for a null task; then a null task gives ArgumentNullException; otherwise the start time is now + startIn |
| `TasksWithTimer.MaxSpanAlwaysThrows` | TaskTimer.Tests/TaskWithTimerTests.cs:85-95 | `TimeSpan.MaxValue` added to any DateTime throws ArgumentOutOfRangeException for "t" |
| `TaskTimers.Launched` | TaskTimer/TaskTimer.cs:132-142 | the started tasks are exactly the drained items' tasks that were still Created, each listed once |
| `TaskTimers.LaunchedStep` | TaskTimer/TaskTimer.cs:137-141 | one more drained item appends its task exactly when it is Created and not yet started |
| `TaskTimers.FaultLogsOfFinished` | TaskTimer/TaskTimer.cs:108-121 | once the started tasks have run, the log holds exactly one entry per task whose job threw |
| `TaskTimers.FaultLogsOfAllFaulted` | TaskTimer.Tests/TaskTimerTests.cs:176-181 | when every started task faulted, entry i is task i's AggregateException with the fixed message |
| `TaskTimers.StartIfCreated` | TaskTimer/TaskTimer.cs:137-141 | the task is started exactly when it was Created, and then ends in its final status; otherwise it is untouched |
| `TaskTimers.TaskTimer.constructor` | TaskTimer/TaskTimer.cs:16-26 | a new task timer has nothing pending and a stopped timer, and keeps its logger |
| `TaskTimers.TaskTimer.StartTimerWithNewInterval` | TaskTimer/TaskTimer.cs:83-102 | the set is unchanged and the timer is re-armed by the rule `Rearm` |
| `TaskTimers.TaskTimer.TryAdd` | TaskTimer/TaskTimer.cs:52-81 | true exactly when the start time is at most int.MaxValue ms ahead, the task is Created and no item has that start time; then the item is inserted and the timer enabled; false changes nothing |
| `TaskTimers.TaskTimer.TryAddTaskAt` | TaskTimer/TaskTimer.cs:40-50 | a null task throws ArgumentNullException with nothing changed; otherwise it returns the new wrapper exactly when TryAdd accepts it, with the wrapper inserted and the timer re-armed for the new minimum, and null with nothing changed otherwise |
| `TaskTimers.TaskTimer.TryAddTaskIn` | TaskTimer/TaskTimer.cs:28-38 | throws exactly when the TimeSpan constructor does, with that exception and nothing changed; otherwise as TryAddTaskAt at now + startIn, including the insert and the re-armed timer on acceptance |
| `TaskTimers.TaskTimer.RunTasks` | TaskTimer/TaskTimer.cs:124-152 | removes exactly the due prefix; starts and returns exactly its still-Created tasks, once each and in order; leaves every other task alone; remaining items are in the future; re-arms |
| `TaskTimers.TaskTimer.StartDue` | TaskTimer/TaskTimer.cs:132-142 | the loop pops a prefix of due items, stops at the first item not due, and starts exactly the tasks `Launched` names |
| `TaskTimers.TaskTimer.OnTimedEvent` | TaskTimer/TaskTimer.cs:104-122 | as RunTasks, with no pending task other than the started ones changing status; with a logger, the log grows by the started tasks' faults, one entry each |
| `TaskTimers.TaskTimer.LogFaults` | TaskTimer/TaskTimer.cs:108-121 | the loop logs each listed task once, exactly when it faulted |
| `Scenarios.RemovedItemNeverRuns` | FuncScheduler.Tests/FuncSchedulerTests.cs:62-73 | the first removal succeeds and stops the timer; the removed action never runs; a second removal returns false |
| `Scenarios.RunAllCompletesEverything` | FuncScheduler.Tests/FuncSchedulerTests.cs:122-141 | the timer is active after adding; after running everything it is stopped, the count is 0 and every action is completed |
| `Scenarios.MaxStartOnIsRejected` | FuncScheduler.Tests/FuncSchedulerTests.cs:143-153 | adding at DateTime.MaxValue throws ArgumentException for "startOn", and the timer stays off |
| `Scenarios.MaxStartInIsRejected` | FuncScheduler.Tests/FuncSchedulerTests.cs:155-165 | adding in TimeSpan.MaxValue throws ArgumentOutOfRangeException with parameter name "t", and the timer stays off |
| `Scenarios.FailuresAreLoggedOnce` | FuncScheduler.Tests/FuncSchedulerTests.cs:172-209 | two throwing async funcs, fired once both are due, are each logged once with their own exception; the timer stops |
| `Scenarios.StartedTaskIsRefused` | TaskTimer.Tests/TaskTimerTests.cs:135-143 | a task already started is refused (null), and the timer stays off |
| `Scenarios.FarTaskIsRefused` | TaskTimer.Tests/TaskTimerTests.cs:105-112 | an item due at DateTime.MaxValue is refused by TryAdd |
| `Scenarios.FarTaskGivesNull` | TaskTimer.Tests/TaskTimerTests.cs:114-121 | adding a task at DateTime.MaxValue returns null, and the timer stays off |
| `Scenarios.MaxSpanTaskThrows` | TaskTimer.Tests/TaskTimerTests.cs:123-133 | adding a task in TimeSpan.MaxValue throws ArgumentOutOfRangeException (for "t"), and the timer stays off |
| `Scenarios.FaultedTasksAreLoggedOnce` | TaskTimer.Tests/TaskTimerTests.cs:151-182 | two throwing tasks, fired once both are due, are both started and each is logged once with an AggregateException |
| `Scenarios.MinAndMaxOfAdded` | TaskTimer.Tests/TaskWithTimerTests.cs:16-53 | every add succeeds exactly when the added start times are pairwise distinct; then the set's Min and Max are the running minimum and maximum, which bound every added start time |
| `Scenarios.AddTracked` | TaskTimer.Tests/TaskWithTimerTests.cs:30-48 | one pass of the test's loop: the add succeeds exactly when the set does not yet hold the item's start time, and the set is then the insertion and otherwise unchanged; the running minimum and maximum bound the new start time and only move outward; while every add has succeeded, the set's first and last items are the running minimum and maximum |
| `Scenarios.AddNext` | TaskTimer.Tests/TaskWithTimerTests.cs:23-49 | one pass keeps the loop's state: every add so far succeeded exactly when the start times so far are distinct, the set holds exactly those start times, and the running extremes bound them |

## Left out

- Concurrency (`SemaphoreSlim`, `async`/`await`, `async void` timer callbacks): each public operation is one atomic step.
- Execution outside the semaphore: `Task.WhenAll` and `Task.WhenAny` are not modelled. A drained batch runs in pop order inside the operation.
- `Task.WhenAny` order: `OnTimedEvent` logs faults in the order the tasks were started, not in the order they finish.
- Task execution: `Task.Start` and `Task.Run` run the job to its end at once. A job's outcome (succeeds or throws) is an input.
- The clock: each operation reads `DateTime.Now` once, as its `now` parameter, where the source reads it again at each use. Tests that add several items with a zero `TimeSpan` rely on the clock moving between calls, so they are replayed with distinct start times.
- Timer firing: there is no wall clock. A timer elapsing is modelled as a call to `RunElapsedFuncsWithStartTime(now)` or `OnTimedEvent(now)`. The tests' real-time tolerance assertions (elapsed within 30 ms) are not modelled.
- Doubles: `TotalMilliseconds` is exact (real) arithmetic on ticks, not a double. The tick comparisons the model uses are proved equal to the millisecond comparisons of the source.
- `ILogger` is reduced to a list of `LogCritical(exception, message)` entries.
- Exceptions are reduced to their kind and, for argument exceptions (including `ArgumentOutOfRangeException`), the parameter name; messages are not modelled.
- `CompareTo(null)` throwing NullReferenceException is not modelled: the model has no null wrappers.
- `Dispose` (resource release), the interfaces (declarations only), the console example program, and the test doubles (`FakeLogger`, `FakeTaskWithTimer`) are not part of this model.
- `Scenarios` replays tests with two items, or with any list of items for the Min/Max test, rather than the tests' loop counts.
