/**
 * The state every metric sampler shares (BasePerfService): a queue of raw
 * samples, an update counter, and the handles of the two periodic tasks.
 * The concrete samplers (Fps, Cpu, Network) each own one of these objects,
 * which stands in for the Java superclass.
 */
module Sampler {

  /**
   * A scheduled periodic task as seen through its Future: none yet, running,
   * cancelled, or stopped because one of its runs threw.
   */
  datatype TaskHandle = NoTask | Scheduled | Cancelled | Failed

  /** `if (task != null) task.cancel(true)`: a running task is cancelled; a finished one stays as it is. */
  function Cancel(t: TaskHandle): (r: TaskHandle)
  {
    if t == Scheduled then Cancelled else t
  }

  /** scheduleAtFixedRate suppresses every later run once a run throws. */
  function Suppress(t: TaskHandle): (r: TaskHandle)
  {
    if t == Scheduled then Failed else t
  }

  /** After a run throws, no update runs again until the next begin(), and end() does not change that. */
  lemma SuppressedStaysDown(t: TaskHandle)
    ensures Suppress(t) != Scheduled
    ensures Cancel(Suppress(t)) == Suppress(t)
    ensures t == Scheduled ==> Suppress(t) == Failed
  {
  }

  datatype SamplerState<T> = SamplerState(queue: seq<T>, timer: int, updateTask: TaskHandle, dumpTask: TaskHandle)

  /** The state end() leaves behind. */
  function AfterEnd<T>(s: SamplerState<T>): (r: SamplerState<T>)
    ensures r.queue == [] && r.timer == 0
    ensures r.updateTask == NoTask <==> s.updateTask == NoTask
    ensures r.dumpTask == NoTask <==> s.dumpTask == NoTask
    ensures r.updateTask != Scheduled && r.dumpTask != Scheduled
  {
    SamplerState([], 0, Cancel(s.updateTask), Cancel(s.dumpTask))
  }

  lemma EndIsIdempotent<T>(s: SamplerState<T>)
    ensures AfterEnd(AfterEnd(s)) == AfterEnd(s)
  {
  }

  class BaseSampler<T> {
    var dataQueue: seq<T>
    var timer: int
    var updateTask: TaskHandle
    var dumpTask: TaskHandle
    var executorShutDown: bool

    function State(): SamplerState<T>
      reads this
    {
      SamplerState(dataQueue, timer, updateTask, dumpTask)
    }

    constructor ()
      ensures dataQueue == [] && timer == 0
      ensures updateTask == NoTask && dumpTask == NoTask && !executorShutDown
    {
      dataQueue := [];
      timer := 0;
      updateTask := NoTask;
      dumpTask := NoTask;
      executorShutDown := false;
    }

    /** The base dump step does nothing. */
    method Dump()
      ensures State() == old(State())
    {
    }

    /** The base update step counts its invocations. */
    method Update()
      modifies this`timer
      ensures timer == old(timer) + 1
    {
      timer := timer + 1;
    }

    /** An exception escapes one run of the update task. */
    method UpdateThrew()
      modifies this`updateTask
      ensures updateTask == Suppress(old(updateTask))
    {
      updateTask := Suppress(updateTask);
    }

    /** Schedules update and dump; a handle held before is overwritten, not cancelled. */
    method Begin()
      requires !executorShutDown
      modifies this`updateTask, this`dumpTask
      ensures updateTask == Scheduled && dumpTask == Scheduled
    {
      updateTask := Scheduled;
      dumpTask := Scheduled;
    }

    method End()
      modifies this`updateTask, this`dumpTask, this`timer, this`dataQueue
      ensures State() == AfterEnd(old(State()))
    {
      if updateTask == Scheduled {
        updateTask := Cancelled;
      }
      if dumpTask == Scheduled {
        dumpTask := Cancelled;
      }
      timer := 0;
      dataQueue := [];
    }

    /** executorService.shutdownNow(): nothing can be scheduled afterwards. */
    method Shutdown()
      modifies this`executorShutDown
      ensures executorShutDown
    {
      executorShutDown := true;
    }
  }
}
