/**
 * The parts of the .NET runtime the schedulers use: exceptions, a unit of
 * work with a known outcome, an ILogger reduced to an append-only list of
 * critical entries, and a not-yet-started Task with its status.
 */
module Runtime {
  import opened Wrappers

  datatype Exception =
    | ArgumentOutOfRangeException(paramName: string)  // DateTime + TimeSpan left the DateTime range
    | ArgumentException(paramName: string)   // start time more than int.MaxValue ms ahead
    | ArgumentNullException(paramName: string)
    | AddException                           // SortedSet.Add refused the item
    | JobException(id: nat)                  // thrown by a unit of work
    | AggregateException(inner: Exception)   // Task.Exception of a faulted task

  /** A caller's unit of work: its identity and whether running it throws. */
  datatype Job = Job(id: nat, throws: bool)
  {
    /** The exception running this job raises, if any. */
    function Fault(): (e: Option<Exception>)
      ensures e.Some? <==> throws
      ensures e.Some? ==> e.value == JobException(id)
    {
      if throws then Some(JobException(id)) else None
    }
  }

  /** One `LogCritical(exception, message)` call. */
  datatype LogEntry = Critical(exception: Exception, message: string)

  /** An ILogger: every LogCritical call is appended to `entries`. */
  class Logger {
    var entries: seq<LogEntry>

    constructor ()
      ensures entries == []
    {
      entries := [];
    }

    method LogCritical(exception: Exception, message: string)
      modifies this
      ensures entries == old(entries) + [Critical(exception, message)]
    {
      entries := entries + [Critical(exception, message)];
    }
  }

  datatype TaskStatus = Created | WaitingToRun | Running | RanToCompletion | Canceled | Faulted

  /** A System.Threading.Tasks.Task built with `new Task(job)`. */
  class TaskHandle {
    const job: Job
    var status: TaskStatus

    constructor (job: Job)
      ensures this.job == job && status == Created
    {
      this.job := job;
      status := Created;
    }

    /** The status the task ends in once its job has run. */
    function FinalStatus(): (s: TaskStatus)
      ensures s == Faulted <==> job.throws
      ensures s == RanToCompletion <==> !job.throws
    {
      if job.throws then Faulted else RanToCompletion
    }

    /** `Task.Start()`, with the job run to its end in the same step. */
    method Start()
      requires status == Created
      modifies this
      ensures status == FinalStatus()
    {
      status := FinalStatus();
    }

    /** `Task.Exception`: an AggregateException around the job's exception once faulted, null otherwise. */
    function Exception(): (e: Option<Exception>)
      reads this
      ensures e.Some? <==> status == Faulted
      ensures e.Some? ==> e.value == AggregateException(JobException(job.id))
    {
      if status == Faulted then Some(AggregateException(JobException(job.id))) else None
    }
  }
}
