/**
 * FuncWithStartTime: a callback (an Action or a Func<Task>) with the time it
 * is due, a completion flag, and the logger its failure is reported to.
 */
module FuncWithStartTimes {
  import opened Wrappers
  import opened Runtime
  import opened DateTimes

  /** The message logged with the exception of a failed callback. */
  const FailureMessage: string := "Unexpected failure of a function with start time."

  /** The callback a caller schedules, tagged by the Add overload it came through; None is a null delegate. */
  datatype Work = Action(job: Option<Job>) | AsyncFunc(job: Option<Job>)

  class FuncWithStartTime {
    const logger: Logger?
    const startOn: Ticks
    const action: Option<Job>
    const asyncFunc: Option<Job>
    var isCompleted: bool

    /** `new FuncWithStartTime(Action action, DateTime startOn, ILogger logger)`; a null action is accepted. */
    constructor FromAction(action: Option<Job>, startOn: Ticks, logger: Logger?)
      ensures this.startOn == startOn && this.logger == logger
      ensures this.action == action && asyncFunc == None
      ensures !isCompleted
    {
      this.startOn := startOn;
      this.action := action;
      this.asyncFunc := None;
      this.logger := logger;
      isCompleted := false;
    }

    /** `new FuncWithStartTime(Func<Task> asyncFunk, DateTime startOn, ILogger logger)`; a null func is accepted. */
    constructor FromAsyncFunc(asyncFunc: Option<Job>, startOn: Ticks, logger: Logger?)
      ensures this.startOn == startOn && this.logger == logger
      ensures action == None && this.asyncFunc == asyncFunc
      ensures !isCompleted
    {
      this.startOn := startOn;
      this.action := None;
      this.asyncFunc := asyncFunc;
      this.logger := logger;
      isCompleted := false;
    }

    /** `CompareTo`: the order of the two start times and nothing else. */
    function CompareTo(other: FuncWithStartTime): (r: int)
      ensures r == -1 <==> startOn < other.startOn
      ensures r == 0 <==> startOn == other.startOn
      ensures r == 1 <==> startOn > other.startOn
    {
      Compare(startOn, other.startOn)
    }

    /**
     * `Run`: runs the action when there is one, the async func otherwise;
     * the result is the exception the run raises. `Task.Run` rejects a null
     * func with ArgumentNullException, so an item without either fails.
     */
    function Run(): (fault: Option<Exception>)
      ensures action.Some? ==> fault == action.value.Fault()
      ensures action.None? && asyncFunc.Some? ==> fault == asyncFunc.value.Fault()
      ensures action.None? && asyncFunc.None? ==> fault == Some(ArgumentNullException("function"))
    {
      if action.Some? then action.value.Fault()
      else if asyncFunc.Some? then asyncFunc.value.Fault()
      else Some(ArgumentNullException("function"))
    }

    /**
     * `RunSaveAndWithLoggerWhenSet`: runs the callback, catches what it
     * throws, logs it once when a logger is set, and marks the item
     * completed whether or not the callback failed.
     */
    method RunSaveAndWithLoggerWhenSet()
      modifies this, logger
      ensures isCompleted
      ensures logger != null ==> logger.entries == old(logger.entries) + FailureLog(Run())
    {
      var fault := Run();
      if fault.Some? && logger != null {
        logger.LogCritical(fault.value, FailureMessage);
      }
      isCompleted := true;
    }
  }

  /** What one run leaves in the log: one critical entry carrying the exception, or nothing. */
  function FailureLog(fault: Option<Exception>): (log: seq<LogEntry>)
    ensures fault.None? ==> log == []
    ensures fault.Some? ==> log == [Critical(fault.value, FailureMessage)]
  {
    if fault.Some? then [Critical(fault.value, FailureMessage)] else []
  }

  /** What running `items` one after the other leaves in the log. */
  function FailureLogs(items: seq<FuncWithStartTime>): seq<LogEntry>
  {
    if items == [] then []
    else FailureLogs(items[..|items| - 1]) + FailureLog(items[|items| - 1].Run())
  }

  /** Running one more item appends that item's failure, if any, to the batch's log. */
  lemma FailureLogsSnoc(items: seq<FuncWithStartTime>, next: FuncWithStartTime)
    ensures FailureLogs(items + [next]) == FailureLogs(items) + FailureLog(next.Run())
  {
    assert (items + [next])[..|items|] == items;
  }

  /** The log of a batch holds at most one entry per item, exactly one per failing item. */
  lemma {:induction false} FailureLogsCount(items: seq<FuncWithStartTime>)
    ensures |FailureLogs(items)| == |set i | 0 <= i < |items| && items[i].Run().Some?|
  {
    if items != [] {
      var n := |items| - 1;
      FailureLogsCount(items[..n]);
      var before := set i | 0 <= i < n && items[..n][i].Run().Some?;
      var after := set i | 0 <= i < |items| && items[i].Run().Some?;
      forall i ensures i in after <==> i in before || (i == n && items[n].Run().Some?) {
        if 0 <= i < n {
          assert items[..n][i] == items[i];
        }
      }
      if items[n].Run().Some? {
        assert after == before + {n};
      } else {
        assert after == before;
      }
    }
  }

  /** When every item of a batch fails, the log gets one entry per item, in order, each with that item's exception. */
  lemma {:induction false} AllFailuresLogged(items: seq<FuncWithStartTime>)
    requires forall i :: 0 <= i < |items| ==> items[i].Run().Some?
    ensures |FailureLogs(items)| == |items|
    ensures forall i :: 0 <= i < |items| ==> FailureLogs(items)[i] == Critical(items[i].Run().value, FailureMessage)
  {
    if items != [] {
      var n := |items| - 1;
      AllFailuresLogged(items[..n]);
    }
  }
}
