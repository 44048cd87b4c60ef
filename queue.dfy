/** `JobQueue` (rust-core/src/jobs.rs): the pending heap, the processing and completed
    tables, the handler registry and the shutdown flag, with the operations that change
    them. The scheduler's tick and a worker's turn are single steps here; the tasks that
    repeat them every 100 ms, the locks and the concurrency between workers are not
    modelled. */
module Queue {
  import opened Errors
  import opened ByteOrder
  import opened Jobs

  class JobQueue {
    /** The `BinaryHeap`, as the multiset of its elements; only `multiset(pending)` matters. */
    var pending: seq<Job>
    var processing: map<JobId, Job>
    var completed: map<JobId, Job>
    var handlers: map<string, JobHandler>
    const workerCount: nat
    var shutdown: bool

    /** Both tables are keyed by the id of the job they hold, and a job being processed is
        marked Processing. */
    predicate Valid()
      reads this
    {
      && (forall id :: id in processing ==> processing[id].id == id && processing[id].status == Processing)
      && (forall id :: id in completed ==> completed[id].id == id)
    }

    /** `JobQueue::new`. */
    constructor (workerCount: nat)
      ensures Valid()
      ensures this.workerCount == workerCount
      ensures pending == [] && processing == map[] && completed == map[] && handlers == map[]
      ensures !shutdown
    {
      this.workerCount := workerCount;
      pending := [];
      processing := map[];
      completed := map[];
      handlers := map[];
      shutdown := false;
    }

    /** `register`: the last handler registered under a name wins. */
    method Register(name: string, handler: JobHandler)
      modifies this
      ensures handlers == old(handlers)[name := handler]
      ensures pending == old(pending) && processing == old(processing) && completed == old(completed)
      ensures shutdown == old(shutdown)
    {
      handlers := handlers[name := handler];
    }

    /** `add_job`: pushes the job, whatever its status, and returns its id. */
    method AddJob(job: Job) returns (id: JobId)
      modifies this
      ensures id == job.id
      ensures multiset(pending) == multiset(old(pending)) + multiset{job}
      ensures processing == old(processing) && completed == old(completed)
      ensures handlers == old(handlers) && shutdown == old(shutdown)
    {
      id := job.id;
      pending := pending + [job];
    }

    /** `enqueue` at time `now`, `id` standing for the generated UUID. */
    method Enqueue(name: string, payload: seq<byte>, config: JobConfig, id: JobId, now: nat)
      returns (r: JobId)
      modifies this
      ensures r == id
      ensures multiset(pending) == multiset(old(pending)) + multiset{NewJob(id, name, payload, config, now)}
      ensures processing == old(processing) && completed == old(completed)
      ensures handlers == old(handlers) && shutdown == old(shutdown)
    {
      var job := NewJob(id, name, payload, config, now);
      r := AddJob(job);
    }

    /** `schedule`: the default configuration, due `delayMs` after `now`. */
    method Schedule(name: string, payload: seq<byte>, delayMs: nat, id: JobId, now: nat)
      returns (r: JobId)
      modifies this
      ensures r == id
      ensures multiset(pending) == multiset(old(pending)) +
        multiset{NewJob(id, name, payload, DefaultJobConfig().(scheduledAt := Some(now + delayMs)), now)}
      ensures processing == old(processing) && completed == old(completed)
      ensures handlers == old(handlers) && shutdown == old(shutdown)
    {
      var config := DefaultJobConfig().(scheduledAt := Some(now + delayMs));
      r := Enqueue(name, payload, config, id, now);
    }

    /** `get_job`: the processing table first, then the history, then the heap. The scan
        follows the order of `pending`, which is not the heap's layout; the contract does
        not depend on which of several heap jobs with the id is found. */
    method GetJob(id: JobId) returns (r: Option<Job>)
      ensures id in processing ==> r == Some(processing[id])
      ensures id !in processing && id in completed ==> r == Some(completed[id])
      ensures id !in processing && id !in completed ==>
        && (r.Some? <==> exists k :: 0 <= k < |pending| && pending[k].id == id)
        && (r.Some? ==> r.value in pending && r.value.id == id)
    {
      if id in processing {
        return Some(processing[id]);
      }
      if id in completed {
        return Some(completed[id]);
      }
      for k := 0 to |pending|
        invariant forall m :: 0 <= m < k ==> pending[m].id != id
      {
        if pending[k].id == id {
          return Some(pending[k]);
        }
      }
      return None;
    }

    /** `shutdown`: raise the flag the scheduler and the workers check. */
    method Shutdown()
      modifies this
      ensures shutdown
      ensures pending == old(pending) && processing == old(processing) && completed == old(completed)
      ensures handlers == old(handlers)
    {
      shutdown := true;
    }

    /** `clear_completed`: empties the whole history. */
    method ClearCompleted()
      modifies this
      ensures completed == map[]
      ensures pending == old(pending) && processing == old(processing)
      ensures handlers == old(handlers) && shutdown == old(shutdown)
    {
      completed := map[];
    }

    /** One tick of `run_scheduler` at time `now`: unless shut down, pop every job, turn the
        due Scheduled ones Pending, and push everything back. */
    method SchedulerTick(now: nat)
      modifies this
      ensures shutdown ==> pending == old(pending)
      ensures !shutdown ==> multiset(pending) == multiset(Promoted(old(pending), now))
      ensures processing == old(processing) && completed == old(completed)
      ensures handlers == old(handlers) && shutdown == old(shutdown)
    {
      if shutdown {
        return;
      }
      var heap := pending;
      ghost var m0 := pending;
      var temp: seq<Job> := [];
      var ready: seq<Job> := [];
      while heap != []
        invariant multiset(Promoted(heap, now)) + multiset(temp) + multiset(ready) == multiset(Promoted(m0, now))
        modifies {}
        decreases |heap|
      {
        var i := TopIndex(heap);
        var job := heap[i];
        PromotedRemoveAt(heap, i, now);
        heap := RemoveAt(heap, i);
        if job.status == Scheduled && ShouldExecute(job, now) {
          ready := ready + [job.(status := Pending)];
        } else {
          temp := temp + [job];
        }
      }
      pending := temp + ready;
    }

    /** The selection half of a `run_worker` turn at time `now`: unless shut down, pop jobs
        until one is eligible, push the others back, and if one was found start it and
        record it as processing. `picked` is the job as it was in the heap: an eligible job
        that no other eligible job outranks. `None` means no job was eligible. */
    method StartNext(now: nat) returns (picked: Option<Job>)
      requires Valid()
      modifies this
      ensures Valid()
      ensures shutdown ==> picked.None? && pending == old(pending) && processing == old(processing)
      ensures picked.None? ==> multiset(pending) == multiset(old(pending)) && processing == old(processing)
      ensures picked.None? && !shutdown ==> forall j :: j in old(pending) ==> !Eligible(j, now)
      ensures picked.Some? ==>
        && IsTop(old(pending), now, picked.value)
        && multiset(pending) + multiset{picked.value} == multiset(old(pending))
        && processing == old(processing)[picked.value.id := Started(picked.value, now)]
      ensures completed == old(completed) && handlers == old(handlers) && shutdown == old(shutdown)
    {
      picked := None;
      if shutdown {
        return;
      }
      var rest;
      picked, rest := SelectNext(pending, now);
      pending := rest;
      if picked.Some? {
        processing := processing[picked.value.id := Started(picked.value, now)];
      }
    }

    /** The rest of a `run_worker` turn, for the job `job` that `StartNext` started: run its
        handler, drop it from the processing table, settle it, push it back if a retry was
        scheduled, and record it in the history either way. */
    method Finish(job: Job, timedOut: bool, now: nat) returns (settled: Job)
      requires Valid()
      modifies this
      ensures Valid()
      ensures settled == Settled(job, RunHandler(handlers, job, timedOut), now)
      ensures processing == old(processing) - {job.id}
      ensures completed == old(completed)[job.id := settled]
      ensures settled.status == Scheduled ==> multiset(pending) == multiset(old(pending)) + multiset{settled}
      ensures settled.status != Scheduled ==> pending == old(pending)
      ensures handlers == old(handlers) && shutdown == old(shutdown)
    {
      var result := RunHandler(handlers, job, timedOut);
      processing := processing - {job.id};
      settled := Settled(job, result, now);
      if settled.status == Scheduled {
        pending := pending + [settled];
      }
      completed := completed[job.id := settled];
    }

    /** A whole `run_worker` turn: take the best eligible job at `now` (`picked`, as it was
        in the heap), start it, run it and settle it at `finishedAt` (`settled`). The job
        leaves the processing table again, its settled form is in the history, and it is
        back in the heap exactly when a retry was scheduled. */
    method WorkerTurn(now: nat, finishedAt: nat, timedOut: bool) returns (picked: Option<Job>, settled: Option<Job>)
      requires Valid()
      modifies this
      ensures Valid()
      ensures picked.Some? <==> settled.Some?
      ensures shutdown ==> picked.None? && pending == old(pending)
      ensures picked.None? ==>
        && multiset(pending) == multiset(old(pending))
        && processing == old(processing) && completed == old(completed)
      ensures picked.None? && !shutdown ==> forall j :: j in old(pending) ==> !Eligible(j, now)
      ensures picked.Some? && settled.Some? ==>
        && IsTop(old(pending), now, picked.value)
        && settled.value == Settled(Started(picked.value, now), RunHandler(handlers, Started(picked.value, now), timedOut), finishedAt)
        && processing == old(processing) - {picked.value.id}
        && completed == old(completed)[picked.value.id := settled.value]
        && settled.value.status in {Completed, Scheduled, Failed}
      ensures picked.Some? && settled.Some? && settled.value.status == Scheduled ==>
        multiset(pending) + multiset{picked.value} == multiset(old(pending)) + multiset{settled.value}
      ensures picked.Some? && settled.Some? && settled.value.status != Scheduled ==>
        multiset(pending) + multiset{picked.value} == multiset(old(pending))
      ensures handlers == old(handlers) && shutdown == old(shutdown)
    {
      settled := None;
      picked := StartNext(now);
      if picked.Some? {
        var running := Started(picked.value, now);
        var s := Finish(running, timedOut, finishedAt);
        settled := Some(s);
      }
    }
  }

  /** The "get next job" block of `run_worker`: pop the heap until a job is eligible at
      `now`, then push the jobs popped before it back. The job found is eligible and no
      eligible job outranks it; `None` means no job in the heap is eligible. `rest` holds
      every other job. */
  method SelectNext(heap0: seq<Job>, now: nat) returns (picked: Option<Job>, rest: seq<Job>)
    ensures picked.None? ==> multiset(rest) == multiset(heap0) && forall j :: j in heap0 ==> !Eligible(j, now)
    ensures picked.Some? ==>
      && IsTop(heap0, now, picked.value)
      && multiset(rest) + multiset{picked.value} == multiset(heap0)
  {
    picked := None;
    var heap := heap0;
    var temp: seq<Job> := [];
    while heap != [] && picked.None?
      invariant picked.None? ==> multiset(heap) + multiset(temp) == multiset(heap0)
      invariant picked.Some? ==> multiset(heap) + multiset(temp) + multiset{picked.value} == multiset(heap0)
      invariant forall j :: j in temp ==> !Eligible(j, now)
      invariant picked.Some? ==> Eligible(picked.value, now)
      invariant picked.Some? ==> forall j :: j in heap ==> !Outranks(j, picked.value)
      decreases |heap|, if picked.None? then 1 else 0
    {
      var i := TopIndex(heap);
      var job := heap[i];
      heap := RemoveAt(heap, i);
      if job.status == Pending && ShouldExecute(job, now) {
        picked := Some(job);
      } else {
        temp := temp + [job];
      }
    }
    rest := heap + temp;
    if picked.Some? {
      PickedIsTop(heap0, heap, temp, picked.value, now);
    } else {
      NoneEligible(heap0, temp, now);
    }
  }

  lemma PickedIsTop(m0: seq<Job>, heap: seq<Job>, temp: seq<Job>, picked: Job, now: nat)
    requires multiset(heap) + multiset(temp) + multiset{picked} == multiset(m0)
    requires forall j :: j in temp ==> !Eligible(j, now)
    requires Eligible(picked, now)
    requires forall j :: j in heap ==> !Outranks(j, picked)
    ensures IsTop(m0, now, picked)
  {
    assert picked in multiset(m0);
    forall j | j in m0 && Eligible(j, now)
      ensures !Outranks(j, picked)
    {
      assert j in multiset(m0);
      if j != picked {
        assert j in multiset(heap) + multiset(temp);
      }
    }
  }

  lemma NoneEligible(m0: seq<Job>, temp: seq<Job>, now: nat)
    requires multiset(temp) == multiset(m0)
    requires forall j :: j in temp ==> !Eligible(j, now)
    ensures forall j :: j in m0 ==> !Eligible(j, now)
  {
    forall j | j in m0
      ensures !Eligible(j, now)
    {
      assert j in multiset(m0);
    }
  }
}
