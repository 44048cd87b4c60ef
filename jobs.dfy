/** The job records of the background job system (rust-core/src/jobs.rs) and everything about
    them that does not need the queue's state: creation, the heap order, the scheduler's
    promotion of due jobs, the worker's start, handler dispatch and settlement, and how
    often a job can run.

    Clocks and ids are parameters: `now` stands for `current_timestamp()` (milliseconds) and
    a job's id is supplied by the caller instead of a fresh UUID. */
module Jobs {
  import opened Errors
  import opened ByteOrder

  type JobId = string

  datatype JobStatus = Pending | Processing | Completed | Failed | Retrying | Scheduled

  datatype JobPriority = Low | Normal | High | Critical

  /** The discriminants 0..3 the derived `Ord` compares. */
  function Rank(p: JobPriority): (r: nat)
    ensures r <= 3
  {
    match p
    case Low => 0
    case Normal => 1
    case High => 2
    case Critical => 3
  }

  datatype JobConfig = JobConfig(
    maxRetries: nat,
    retryDelay: nat,
    timeout: nat,
    priority: JobPriority,
    scheduledAt: Option<nat>)

  /** `JobConfig::default`. */
  function DefaultJobConfig(): (c: JobConfig)
    ensures c.maxRetries == 3 && c.retryDelay == 1000 && c.timeout == 30000
    ensures c.priority == Normal && c.scheduledAt.None?
  {
    JobConfig(3, 1000, 30000, Normal, None)
  }

  /** A job. The error is kept as the error value rather than its display string. */
  datatype Job = Job(
    id: JobId,
    name: string,
    payload: seq<byte>,
    status: JobStatus,
    config: JobConfig,
    attempts: nat,
    createdAt: nat,
    startedAt: Option<nat>,
    completedAt: Option<nat>,
    error: Option<ProtocolError>)

  /** A handler: the registered closure, seen as what it returns for a job. */
  type JobHandler = Job -> Result<seq<byte>>

  /** `Job::new` at time `now`: a job with a scheduled time starts out Scheduled, any other
      Pending; nothing has run yet. */
  function NewJob(id: JobId, name: string, payload: seq<byte>, config: JobConfig, now: nat): (j: Job)
    ensures j.id == id && j.name == name && j.payload == payload && j.config == config
    ensures j.status == (if config.scheduledAt.Some? then Scheduled else Pending)
    ensures j.attempts == 0 && j.createdAt == now
    ensures j.startedAt.None? && j.completedAt.None? && j.error.None?
  {
    Job(id, name, payload, if config.scheduledAt.Some? then Scheduled else Pending,
        config, 0, now, None, None, None)
  }

  /** `Job::should_execute`: no scheduled time, or that time has come. */
  predicate ShouldExecute(j: Job, now: nat)
    ensures j.config.scheduledAt.None? ==> ShouldExecute(j, now)
    ensures j.config.scheduledAt.Some? ==> (ShouldExecute(j, now) <==> j.config.scheduledAt.value <= now)
  {
    match j.config.scheduledAt
    case None => true
    case Some(t) => now >= t
  }

  /** What a worker may take: a Pending job whose time has come. */
  predicate Eligible(j: Job, now: nat)
  {
    j.status == Pending && ShouldExecute(j, now)
  }

  /** What the scheduler promotes: a Scheduled job whose time has come. */
  predicate Due(j: Job, now: nat)
  {
    j.status == Scheduled && ShouldExecute(j, now)
  }

  // ---------------------------------------------------------------------------------------
  // The heap order

  datatype Ordering = Less | Equal | Greater

  function CompareNat(a: nat, b: nat): Ordering
  {
    if a < b then Less else if a == b then Equal else Greater
  }

  /** `Ord for Job`: priority first, then creation time, both ascending. `BinaryHeap` is a
      max-heap, so the greater job is popped first. */
  function Cmp(a: Job, b: Job): (r: Ordering)
    ensures r == Equal <==> a.config.priority == b.config.priority && a.createdAt == b.createdAt
    ensures r == Greater <==>
      || Rank(a.config.priority) > Rank(b.config.priority)
      || (a.config.priority == b.config.priority && a.createdAt > b.createdAt)
  {
    match CompareNat(Rank(a.config.priority), Rank(b.config.priority))
    case Equal => CompareNat(a.createdAt, b.createdAt)
    case other => other
  }

  /** `a` is popped before `b`. */
  predicate Outranks(a: Job, b: Job)
  {
    Cmp(a, b) == Greater
  }

  /** A higher priority always pops first; within a priority the newer job pops first. */
  lemma OutranksMeans(a: Job, b: Job)
    ensures Outranks(a, b) <==>
      || Rank(a.config.priority) > Rank(b.config.priority)
      || (a.config.priority == b.config.priority && a.createdAt > b.createdAt)
  {
  }

  /** `Cmp` is a total order on (priority, creation time): antisymmetric, transitive, and
      `Equal` exactly when both keys agree (the id plays no part). */
  lemma CmpIsTotalOrder(a: Job, b: Job, c: Job)
    ensures Cmp(a, b) == Greater <==> Cmp(b, a) == Less
    ensures Cmp(a, b) == Equal <==> a.config.priority == b.config.priority && a.createdAt == b.createdAt
    ensures Outranks(a, b) && Outranks(b, c) ==> Outranks(a, c)
  {
  }

  /** The index `BinaryHeap::pop` takes from: an element nothing else outranks. Which of
      several equal elements is taken depends on the heap's layout; the model takes the
      first. */
  function TopIndex(heap: seq<Job>): (i: nat)
    requires heap != []
    ensures i < |heap|
    ensures forall k :: 0 <= k < |heap| ==> !Outranks(heap[k], heap[i])
    decreases |heap|
  {
    if |heap| == 1 then 0
    else
      var j := TopIndex(heap[1..]) + 1;
      assert forall k :: 1 <= k < |heap| ==> heap[k] == heap[1..][k - 1];
      if Outranks(heap[0], heap[j]) then 0 else j
  }

  /** The heap without its element at `i`. */
  function RemoveAt(heap: seq<Job>, i: nat): (rest: seq<Job>)
    requires i < |heap|
    ensures multiset(rest) + multiset{heap[i]} == multiset(heap)
    ensures |rest| == |heap| - 1
  {
    assert heap == heap[..i] + [heap[i]] + heap[i + 1..];
    heap[..i] + heap[i + 1..]
  }

  /** `top` is what the worker's pop loop takes from `heap` at `now`: an eligible job that
      no eligible job outranks. */
  predicate IsTop(heap: seq<Job>, now: nat, top: Job)
  {
    && top in heap
    && Eligible(top, now)
    && (forall j :: j in heap && Eligible(j, now) ==> !Outranks(j, top))
  }

  /** The job taken has the highest priority among the eligible ones, and among those of
      that priority it is the newest: an older job of the same priority waits. */
  lemma TopOrder(heap: seq<Job>, now: nat, top: Job, j: Job)
    requires IsTop(heap, now, top)
    requires j in heap && Eligible(j, now)
    ensures Rank(top.config.priority) >= Rank(j.config.priority)
    ensures top.config.priority == j.config.priority ==> top.createdAt >= j.createdAt
  {
    assert !Outranks(j, top);
  }

  // ---------------------------------------------------------------------------------------
  // Scheduler

  /** What the scheduler does to one job at `now`: a due job becomes Pending, keeping its
      scheduled time. */
  function Promote(j: Job, now: nat): (p: Job)
    ensures p == j.(status := p.status)
    ensures !Due(p, now)
    ensures Due(j, now) ==> Eligible(p, now)
    ensures !Due(j, now) ==> p == j
  {
    if Due(j, now) then j.(status := Pending) else j
  }

  function Promoted(s: seq<Job>, now: nat): (r: seq<Job>)
    ensures |r| == |s| && Ids(r) == Ids(s)
  {
    seq(|s|, i requires 0 <= i < |s| => Promote(s[i], now))
  }

  function Ids(s: seq<Job>): (r: seq<JobId>)
    ensures |r| == |s|
  {
    seq(|s|, i requires 0 <= i < |s| => s[i].id)
  }

  /** After a tick no job is due any more, every job that was due is now eligible, every job
      that was eligible still is, and every other job is untouched. */
  lemma PromotedSettlesDue(s: seq<Job>, now: nat)
    ensures forall j :: j in Promoted(s, now) ==> !Due(j, now)
    ensures forall i :: 0 <= i < |s| && Due(s[i], now) ==> Eligible(Promoted(s, now)[i], now)
    ensures forall i :: 0 <= i < |s| && Eligible(s[i], now) ==> Promoted(s, now)[i] == s[i]
    ensures forall i :: 0 <= i < |s| && !Due(s[i], now) ==> Promoted(s, now)[i] == s[i]
  {
  }

  /** A tick changes statuses only: ids, order and every other field are kept, and a second
      tick at the same time changes nothing. */
  lemma PromotedKeepsJobs(s: seq<Job>, now: nat)
    ensures Ids(Promoted(s, now)) == Ids(s)
    ensures forall i :: 0 <= i < |s| ==> Promoted(s, now)[i] == s[i].(status := Promoted(s, now)[i].status)
    ensures Promoted(Promoted(s, now), now) == Promoted(s, now)
  {
  }

  /** Promotion distributes over splitting the heap, which is what lets the pop loop
      promote one job at a time. */
  lemma PromotedRemoveAt(s: seq<Job>, i: nat, now: nat)
    requires i < |s|
    ensures multiset(Promoted(RemoveAt(s, i), now)) + multiset{Promote(s[i], now)} == multiset(Promoted(s, now))
  {
    var r := RemoveAt(s, i);
    assert Promoted(s, now) == Promoted(s[..i], now) + [Promote(s[i], now)] + Promoted(s[i + 1..], now);
    assert Promoted(r, now) == Promoted(s[..i], now) + Promoted(s[i + 1..], now);
  }

  /** A job scheduled for time `t` is neither taken nor promoted before `t`, and a tick at or
      after `t` makes it eligible. */
  lemma ScheduledJobTiming(j: Job, t: nat, now: nat)
    requires j.status == Scheduled && j.config.scheduledAt == Some(t)
    ensures now < t ==> !Eligible(j, now) && Promote(j, now) == j
    ensures now >= t ==> Eligible(Promote(j, now), now)
  {
  }

  // ---------------------------------------------------------------------------------------
  // Worker

  /** A worker takes a job: Processing, started now, one more attempt. */
  function Started(j: Job, now: nat): (s: Job)
    ensures s.status == Processing && s.startedAt == Some(now) && s.attempts == j.attempts + 1
    ensures s.(status := j.status, startedAt := j.startedAt, attempts := j.attempts) == j
  {
    j.(status := Processing, startedAt := Some(now), attempts := j.attempts + 1)
  }

  /** `process_job`: the handler registered under the job's name, run under the job's
      timeout. `timedOut` says whether the timer fired before the handler's result was
      ready. */
  function RunHandler(handlers: map<string, JobHandler>, j: Job, timedOut: bool): (r: Result<seq<byte>>)
    ensures j.name !in handlers ==> r == Err(Other("No handler for job: " + j.name))
    ensures j.name in handlers && timedOut ==> r == Err(Timeout)
    ensures j.name in handlers && !timedOut ==> r == handlers[j.name](j)
  {
    if j.name !in handlers then Err(Other("No handler for job: " + j.name))
    else if timedOut then Err(Timeout)
    else handlers[j.name](j)
  }

  /** How the worker settles a job after running it: success completes it; a failure with
      attempts left stores the error and schedules a retry `retryDelay` from now; any other
      failure stores the error and fails it. */
  function Settled(j: Job, result: Result<seq<byte>>, now: nat): (s: Job)
    ensures s.status in {Completed, Scheduled, Failed}
    ensures s.status == Completed <==> result.Ok?
    ensures s.id == j.id && s.name == j.name && s.payload == j.payload && s.attempts == j.attempts
  {
    match result
    case Ok(_) => j.(status := Completed, completedAt := Some(now))
    case Err(e) =>
      if j.attempts < j.config.maxRetries then
        j.(error := Some(e), config := j.config.(scheduledAt := Some(now + j.config.retryDelay)),
           status := Scheduled)
      else j.(error := Some(e), status := Failed)
  }

  /** The outcomes of settling. A settled job is Completed, Scheduled or Failed, never
      Retrying; it is Completed exactly on success, Scheduled exactly on a failure with
      attempts left. The handler's bytes are discarded, a success keeps an earlier error,
      a failure sets no completion time, and a retry is scheduled exactly `retryDelay` after
      `now` and is not due before then. The rest of the configuration, id, name, payload,
      attempts, creation and start times are kept. */
  lemma SettledCases(j: Job, result: Result<seq<byte>>, now: nat)
    ensures var s := Settled(j, result, now);
      && (s.status == Completed <==> result.Ok?)
      && (s.status == Scheduled <==> result.Err? && j.attempts < j.config.maxRetries)
      && (s.status == Failed <==> result.Err? && j.attempts >= j.config.maxRetries)
      && s.status != Retrying
      && (result.Ok? ==> s.error == j.error && s.completedAt == Some(now))
      && (result.Err? ==> s.error == Some(result.error) && s.completedAt == j.completedAt)
      && (s.status == Scheduled ==> Due(s, now + j.config.retryDelay) && !Eligible(s, now + j.config.retryDelay))
      && s.id == j.id && s.name == j.name && s.payload == j.payload && s.attempts == j.attempts
      && s.createdAt == j.createdAt && s.startedAt == j.startedAt
      && s.config.priority == j.config.priority && s.config.maxRetries == j.config.maxRetries
      && (s.status == Scheduled ==> s.config == j.config.(scheduledAt := Some(now + j.config.retryDelay)))
      && (s.status != Scheduled ==> s.config == j.config)
    ensures Settled(j, result, now).status == Scheduled ==>
      forall t: nat :: t < now + j.config.retryDelay ==> !Due(Settled(j, result, now), t)
  {
  }

  lemma SettledIgnoresResultBytes(j: Job, a: seq<byte>, b: seq<byte>, now: nat)
    ensures Settled(j, Ok(a), now) == Settled(j, Ok(b), now)
  {
  }

  /** A job that keeps being started and settled with the handler results `results` (one
      per run, all at time `now`): how many times it runs before it completes or fails.
      Promotion between runs changes only the status, which `Started` overwrites. */
  function Runs(j: Job, results: seq<Result<seq<byte>>>, now: nat): nat
    decreases |results|
  {
    if results == [] then 0
    else
      var s := Settled(Started(j, now), results[0], now);
      if s.status == Scheduled then 1 + Runs(s, results[1..], now) else 1
  }

  /** The job after those runs. */
  function Final(j: Job, results: seq<Result<seq<byte>>>, now: nat): Job
    decreases |results|
  {
    if results == [] then j
    else
      var s := Settled(Started(j, now), results[0], now);
      if s.status == Scheduled then Final(s, results[1..], now) else s
  }

  function Max(a: int, b: int): int
  {
    if a >= b then a else b
  }

  /** Each run adds one attempt and a retry is allowed only while attempts stay below
      `max_retries`, so a job runs at most max(1, max_retries - attempts) times; once it stops
      before the results run out it has settled in Completed or Failed, with one attempt per
      run. */
  lemma {:induction false} RunsBounded(j: Job, results: seq<Result<seq<byte>>>, now: nat)
    ensures Runs(j, results, now) <= Max(1, j.config.maxRetries - j.attempts)
    ensures Runs(j, results, now) <= |results|
    ensures Final(j, results, now).attempts == j.attempts + Runs(j, results, now)
    ensures Runs(j, results, now) < |results| ==> Final(j, results, now).status in {Completed, Failed}
    decreases |results|
  {
    if results != [] {
      var s := Settled(Started(j, now), results[0], now);
      SettledCases(Started(j, now), results[0], now);
      if s.status == Scheduled {
        RunsBounded(s, results[1..], now);
      }
    }
  }

  /** A handler that always fails: the job runs exactly max(1, max_retries - attempts) times
      and ends Failed with the last error. */
  lemma {:induction false} RunsWhenAlwaysFailing(j: Job, results: seq<Result<seq<byte>>>, now: nat)
    requires forall i :: 0 <= i < |results| ==> results[i].Err?
    requires |results| >= Max(1, j.config.maxRetries - j.attempts)
    ensures Runs(j, results, now) == Max(1, j.config.maxRetries - j.attempts)
    ensures Final(j, results, now).status == Failed
    ensures Final(j, results, now).error == Some(results[Runs(j, results, now) - 1].error)
    decreases |results|
  {
    var s := Settled(Started(j, now), results[0], now);
    SettledCases(Started(j, now), results[0], now);
    if s.status == Scheduled {
      RunsWhenAlwaysFailing(s, results[1..], now);
    }
  }

  /** A fresh job with `max_retries` = 2 whose handler always fails runs twice and fails. */
  lemma TwoRetriesRunTwice(j: Job, e: ProtocolError, now: nat)
    requires j.attempts == 0 && j.config.maxRetries == 2
    ensures Runs(j, [Err(e), Err(e), Err(e)], now) == 2
    ensures Final(j, [Err(e), Err(e), Err(e)], now).status == Failed
  {
    RunsWhenAlwaysFailing(j, [Err(e), Err(e), Err(e)], now);
  }

  /** With `max_retries` = 0 a failing job still runs once: the check comes after the run. */
  lemma NoRetriesStillRunsOnce(j: Job, e: ProtocolError, now: nat)
    requires j.attempts == 0 && j.config.maxRetries == 0
    ensures Runs(j, [Err(e), Err(e)], now) == 1
    ensures Final(j, [Err(e), Err(e)], now).status == Failed
  {
    RunsWhenAlwaysFailing(j, [Err(e), Err(e)], now);
  }
}
