/**
 * FuncScheduler: callbacks kept in a SortedSet ordered by start time, one
 * one-shot timer armed for the earliest of them, and a semaphore that makes
 * every public operation one atomic step (so each is one method here). The
 * clock reading of an operation is its `now` parameter.
 */
module FuncSchedulers {
  import opened Wrappers
  import opened Runtime
  import opened DateTimes
  import opened SortedStartSet
  import opened OneShotTimer
  import opened FuncWithStartTimes

  /** The key the SortedSet orders by (CompareTo looks at nothing else). */
  function StartOf(item: FuncWithStartTime): int
  {
    item.startOn
  }

  /**
   * `CheckStartTime`: ArgumentException for a start time more than
   * int.MaxValue milliseconds after now.
   */
  function CheckStartTime(startOn: Ticks, now: Ticks): (r: Option<Exception>)
    ensures r.Some? <==> TotalMilliseconds(startOn, now) > IntMaxValue as real
    ensures r.Some? ==> r.value == ArgumentException("startOn")
  {
    if BeyondMaxDelay(startOn, now) then Some(ArgumentException("startOn")) else None
  }

  /** The foreach of RunAllAddedTasksNowAndClear: run every item, in order, logging into `logger`. */
  method RunEach(items: seq<FuncWithStartTime>, logger: Logger?)
    requires forall item | item in items :: item.logger == logger
    modifies items, logger
    ensures forall item | item in items :: item.isCompleted
    ensures logger != null ==> logger.entries == old(logger.entries) + FailureLogs(items)
  {
    var i := 0;
    while i < |items|
      invariant 0 <= i <= |items|
      invariant forall j | 0 <= j < i :: items[j].isCompleted
      invariant logger != null ==> logger.entries == old(logger.entries) + FailureLogs(items[..i])
    {
      RunItem(items, i, logger);
      FailureLogsSnoc(items[..i], items[i]);
      assert items[..i + 1] == items[..i] + [items[i]];
      i := i + 1;
    }
    assert items[..i] == items;
  }

  /** One pass of the RunEach loop: runs `items[i]`, appending its failure, if any, to the log. */
  method RunItem(items: seq<FuncWithStartTime>, i: nat, logger: Logger?)
    requires i < |items| && items[i].logger == logger
    requires forall j | 0 <= j < i :: items[j].isCompleted
    modifies items[i], logger
    ensures forall j | 0 <= j <= i :: items[j].isCompleted
    ensures logger != null ==> logger.entries == old(logger.entries) + FailureLog(items[i].Run())
  {
    items[i].RunSaveAndWithLoggerWhenSet();
  }

  class FuncScheduler {
    const logger: Logger?
    var pending: seq<FuncWithStartTime>
    var timer: Timer

    /** The set is ordered without ties, its items log to this scheduler's logger, and the timer runs exactly when the set is not empty. */
    ghost predicate Valid()
      reads this
    {
      && Ascending(pending, StartOf)
      && (forall item | item in pending :: item.logger == logger)
      && Armed(timer, |pending|)
    }

    constructor (logger: Logger?)
      ensures Valid() && this.logger == logger
      ensures pending == [] && timer == NewTimer()
    {
      this.logger := logger;
      pending := [];
      timer := NewTimer();
    }

    /** `TimerIsActive`: true exactly when something is pending. */
    function TimerIsActive(): (active: bool)
      reads this
      requires Valid()
      ensures active <==> Count() > 0
    {
      timer.enabled
    }

    /** `Count`: the number of pending items; nothing is pending exactly when the timer is stopped. */
    function Count(): (n: nat)
      reads this
      ensures Valid() ==> (n == 0 <==> !timer.enabled)
    {
      |pending|
    }

    /** `StartTimerWithNewInterval`. */
    method StartTimerWithNewInterval(now: Ticks)
      modifies this
      ensures pending == old(pending)
      ensures timer == Rearm(old(timer), pending, StartOf, now)
    {
      if timer.enabled {
        timer := timer.(enabled := false);
      }
      if pending != [] {
        timer := timer.(interval := ClampedInterval(pending[0].startOn - now), enabled := true);
      }
    }

    /**
     * The private `Add(FuncWithStartTime)`: rejects a start time too far
     * ahead (ArgumentException) or one already pending (AddException),
     * otherwise inserts the item and re-arms the timer.
     */
    method AddItem(item: FuncWithStartTime, now: Ticks) returns (error: Option<Exception>)
      requires Valid() && item.logger == logger
      modifies this
      ensures Valid()
      ensures error.Some? <==> BeyondMaxDelay(item.startOn, now) || HasStart(old(pending), StartOf, item.startOn)
      ensures error.Some? ==> error.value == if BeyondMaxDelay(item.startOn, now) then ArgumentException("startOn") else AddException
      ensures error.Some? ==> pending == old(pending) && timer == old(timer)
      ensures error.None? ==> pending == Insert(old(pending), StartOf, item)
      ensures error.None? ==> timer == Rearm(old(timer), pending, StartOf, now)
    {
      error := CheckStartTime(item.startOn, now);
      if error.Some? {
        return;
      }
      var added := Add(pending, StartOf, item);
      if added.None? {
        return Some(AddException);
      }
      pending := added.value;
      assert forall x | x in pending :: x in old(pending) || x == item by {
        forall x | x in pending ensures x in old(pending) || x == item {
          assert x in multiset(pending);
        }
      }
      StartTimerWithNewInterval(now);
      RearmIsArmed(old(timer), pending, StartOf, now);
    }

    /**
     * `Add(Action, DateTime)` and `Add(Func<Task>, DateTime)`: wraps the
     * callback with this scheduler's logger and adds it; on success the item
     * is returned, pending and not completed.
     */
    method AddAt(work: Work, startOn: Ticks, now: Ticks) returns (r: Result<FuncWithStartTime, Exception>)
      requires Valid()
      modifies this
      ensures Valid()
      ensures r.Failure? <==> BeyondMaxDelay(startOn, now) || HasStart(old(pending), StartOf, startOn)
      ensures r.Failure? ==> r.error == if BeyondMaxDelay(startOn, now) then ArgumentException("startOn") else AddException
      ensures r.Failure? ==> pending == old(pending) && timer == old(timer)
      ensures r.Success? ==> fresh(r.value) && r.value.startOn == startOn && !r.value.isCompleted
      ensures r.Success? ==> r.value.action == (if work.Action? then work.job else None)
      ensures r.Success? ==> r.value.asyncFunc == (if work.AsyncFunc? then work.job else None)
      ensures r.Success? ==> pending == Insert(old(pending), StartOf, r.value) && |pending| == |old(pending)| + 1
      ensures r.Success? ==> timer == Rearm(old(timer), pending, StartOf, now) && timer.enabled
    {
      var item: FuncWithStartTime;
      if work.Action? {
        item := new FuncWithStartTime.FromAction(work.job, startOn, logger);
      } else {
        item := new FuncWithStartTime.FromAsyncFunc(work.job, startOn, logger);
      }
      var error := AddItem(item, now);
      r := if error.Some? then Failure(error.value) else Success(item);
    }

    /**
     * `Add(Action, TimeSpan)` and `Add(Func<Task>, TimeSpan)`: the start time
     * is now + startIn; a sum outside the DateTime range throws
     * ArgumentOutOfRangeException before anything changes.
     */
    method AddIn(work: Work, startIn: SpanTicks, now: Ticks) returns (r: Result<FuncWithStartTime, Exception>)
      requires Valid()
      modifies this
      ensures Valid()
      ensures Plus(now, startIn).Failure? ==> r == Failure(ArgumentOutOfRangeException("t"))
      ensures r.Failure? ==> pending == old(pending) && timer == old(timer)
      ensures r.Success? ==> fresh(r.value) && r.value.startOn == now + startIn && !r.value.isCompleted
      ensures r.Success? ==> r.value.action == (if work.Action? then work.job else None)
      ensures r.Success? ==> r.value.asyncFunc == (if work.AsyncFunc? then work.job else None)
      ensures r.Success? ==> !HasStart(old(pending), StartOf, r.value.startOn)
      ensures r.Success? ==> pending == Insert(old(pending), StartOf, r.value) && timer.enabled
      ensures Plus(now, startIn).Success? ==>
        (r.Failure? <==> BeyondMaxDelay(now + startIn, now) || HasStart(old(pending), StartOf, now + startIn))
      ensures Plus(now, startIn).Success? && r.Failure? ==>
        r.error == if BeyondMaxDelay(now + startIn, now) then ArgumentException("startOn") else AddException
      ensures r.Success? ==> timer == Rearm(old(timer), pending, StartOf, now)
    {
      var startOn := Plus(now, startIn);
      if startOn.Failure? {
        return Failure(startOn.error);
      }
      r := AddAt(work, startOn.value, now);
    }

    /**
     * `TryRemove`: removes the pending item whose start time equals the
     * handle's and re-arms; false, with nothing changed, when there is none.
     */
    method TryRemove(handle: FuncWithStartTime, now: Ticks) returns (removed: bool)
      requires Valid()
      modifies this
      ensures Valid()
      ensures removed <==> HasStart(old(pending), StartOf, handle.startOn)
      ensures pending == Remove(old(pending), StartOf, handle.startOn)
      ensures timer == if removed then Rearm(old(timer), pending, StartOf, now) else old(timer)
    {
      removed := HasStart(pending, StartOf, handle.startOn);
      if removed {
        pending := Remove(pending, StartOf, handle.startOn);
        StartTimerWithNewInterval(now);
        RearmIsArmed(old(timer), pending, StartOf, now);
      }
    }

    /**
     * `RunAllAddedTasksNowAndClear`: stops the timer, runs every pending item
     * in order, then empties the set.
     */
    method RunAllAddedTasksNowAndClear()
      requires Valid()
      modifies this, pending, logger
      ensures Valid()
      ensures pending == [] && timer == old(timer).(enabled := false)
      ensures forall item | item in old(pending) :: item.isCompleted
      ensures logger != null ==> logger.entries == old(logger.entries) + FailureLogs(old(pending))
    {
      if timer.enabled {
        timer := timer.(enabled := false);
      }
      RunEach(pending, logger);
      pending := [];
    }

    /**
     * `RunElapsedFuncsWithStartTime`, run when the timer elapses: pops and
     * runs the minimum while it is due, then re-arms for what is left. The
     * items run are returned in the order they were popped.
     */
    method RunElapsedFuncsWithStartTime(now: Ticks) returns (ran: seq<FuncWithStartTime>)
      requires Valid()
      modifies this, pending, logger
      ensures Valid()
      ensures ran == old(pending)[..DueCount(old(pending), StartOf, now)]
      ensures pending == old(pending)[DueCount(old(pending), StartOf, now)..]
      ensures forall item | item in pending :: item.startOn > now
      ensures forall item | item in ran :: item.isCompleted
      ensures forall item | item in pending :: item.isCompleted == old(item.isCompleted)
      ensures logger != null ==> logger.entries == old(logger.entries) + FailureLogs(ran)
      ensures timer == Rearm(old(timer), pending, StartOf, now)
    {
      AscendingDistinct(pending, StartOf);
      ran := RunDue(now);
      DueCountAt(old(pending), StartOf, now, |ran|);
      StartTimerWithNewInterval(now);
      RearmIsArmed(old(timer), pending, StartOf, now);
    }

    /**
     * The drain loop of RunElapsedFuncsWithStartTime: pop the minimum and run
     * it while it is due. It stops at the first item that is not due.
     */
    method RunDue(now: Ticks) returns (ran: seq<FuncWithStartTime>)
      requires forall item | item in pending :: item.logger == logger
      requires forall i, j | 0 <= i < j < |pending| :: pending[i] != pending[j]
      modifies this`pending, pending, logger
      ensures |ran| <= |old(pending)| && ran == old(pending)[..|ran|] && pending == old(pending)[|ran|..]
      ensures forall i | 0 <= i < |ran| :: ran[i].startOn <= now && ran[i].isCompleted
      ensures pending != [] ==> now < pending[0].startOn
      ensures forall item | item in pending :: item.isCompleted == old(item.isCompleted)
      ensures logger != null ==> logger.entries == old(logger.entries) + FailureLogs(ran)
    {
      ghost var all := pending;
      ran := [];
      while pending != [] && pending[0].startOn <= now
        invariant |ran| <= |all| && pending == all[|ran|..] && ran == all[..|ran|]
        invariant forall i | 0 <= i < |ran| :: ran[i].startOn <= now && ran[i].isCompleted
        invariant forall i | |ran| <= i < |all| :: all[i].isCompleted == old(all[i].isCompleted)
        invariant logger != null ==> logger.entries == old(logger.entries) + FailureLogs(ran)
        decreases |pending|
      {
        assert pending[0] in old(pending);
        var toRun := RunNext();
        FailureLogsSnoc(ran, toRun);
        ran := ran + [toRun];
      }
    }

    /** One turn of the drain loop: take the minimum out of the set and run it. */
    method RunNext() returns (toRun: FuncWithStartTime)
      requires pending != [] && pending[0].logger == logger
      modifies this`pending, pending[0], logger
      ensures toRun == old(pending[0]) && pending == old(pending[1..])
      ensures toRun.isCompleted
      ensures logger != null ==> logger.entries == old(logger.entries) + FailureLog(toRun.Run())
    {
      toRun := pending[0];
      pending := pending[1..];
      toRun.RunSaveAndWithLoggerWhenSet();
    }
  }
}
