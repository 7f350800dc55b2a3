/** `ProverService` of relayer/src/prover/mod.rs as a permit-counter state
    machine. The request channel is a FIFO queue, the semaphore is the
    number of free permits, and each spawned proving task is a running job;
    the reply channels are the list of replies sent. */
module ProverService {
  import opened Bytes
  import opened Wrappers
  import opened ProofGenerator

  /** `ProverConfig`. */
  datatype ProverConfig = ProverConfig(enabled: bool, maxConcurrent: nat, timeoutSecs: u64)

  /** The errors a caller of `generate` can receive. */
  datatype ProverError = ServiceDisabled | ProofTimeout

  /** A request together with the identity of its reply channel. */
  datatype Job = Job(id: nat, request: ProofRequest)

  /** What was sent on a job's reply channel. */
  datatype Reply = Reply(id: nat, result: Result<GeneratedProof, ProverError>)

  datatype Service = Service(
    config: ProverConfig,
    free: nat,            // available permits of the semaphore
    queue: seq<Job>,      // requests sent on the channel, not yet holding a permit
    running: seq<Job>,    // spawned tasks, each holding one permit
    replies: seq<Reply>,  // replies sent, in order
    nextId: nat)

  /** The ids of a sequence of jobs or replies, in order. */
  function Ids<T>(xs: seq<T>, id: T -> nat): (ids: seq<nat>)
    ensures |ids| == |xs| && forall k :: 0 <= k < |xs| ==> ids[k] == id(xs[k])
  {
    seq(|xs|, k requires 0 <= k < |xs| => id(xs[k]))
  }

  function JobId(job: Job): nat { job.id }

  function ReplyId(reply: Reply): nat { reply.id }

  /** Every request id handed out so far: running, queued or answered. */
  function AllIds(s: Service): multiset<nat> {
    multiset(Ids(s.running + s.queue, JobId)) + multiset(Ids(s.replies, ReplyId))
  }

  /** Every permit is either free or held by exactly one running job, and
      every request handed out has its own id, below `nextId`, and is in
      exactly one place: queued, running, or answered once. */
  ghost predicate Valid(s: Service) {
    && s.free + |s.running| == s.config.maxConcurrent
    && (forall x :: x in AllIds(s) ==> x < s.nextId)
    && (forall x :: AllIds(s)[x] <= 1)
  }

  lemma IdsAppend(a: seq<Job>, b: seq<Job>)
    ensures Ids(a + b, JobId) == Ids(a, JobId) + Ids(b, JobId)
  {
  }

  /** `ProverService::new`: all permits free, nothing queued. */
  function New(config: ProverConfig): (s: Service)
    ensures Valid(s)
    ensures s.queue == [] && s.running == [] && s.replies == []
  {
    var s := Service(config, config.maxConcurrent, [], [], [], 0);
    assert Ids(s.running + s.queue, JobId) == [] && Ids(s.replies, ReplyId) == [];
    s
  }

  /** `is_available`: enabled, with a permit to spare, which in a valid
      state means fewer running jobs than permits. */
  function IsAvailable(s: Service): (r: bool)
    ensures Valid(s) ==> (r <==> s.config.enabled && |s.running| < s.config.maxConcurrent)
    ensures !s.config.enabled ==> !r
  {
    s.config.enabled && s.free > 0
  }

  /** `queue_depth`: permits currently taken, which in a valid state is the
      number of running jobs; queued requests are not counted. */
  function QueueDepth(s: Service): (r: nat)
    requires s.free <= s.config.maxConcurrent
    ensures Valid(s) ==> r == |s.running|
    ensures r <= s.config.maxConcurrent
  {
    s.config.maxConcurrent - s.free
  }

  /** What `generate` did with a request before waiting for the reply. */
  datatype Submission = Rejected(error: ProverError) | Enqueued(id: nat)

  datatype Submitted = Submitted(service: Service, submission: Submission)

  /** `generate` up to the point where it waits: a disabled service fails
      at once without touching the queue; otherwise the request joins the
      queue with a fresh reply channel. */
  function Generate(s: Service, request: ProofRequest): (r: Submitted)
    ensures !s.config.enabled ==> r == Submitted(s, Rejected(ServiceDisabled))
    ensures s.config.enabled ==>
              && r.submission == Enqueued(s.nextId)
              && r.service.queue == s.queue + [Job(s.nextId, request)]
              && r.service.free == s.free && r.service.running == s.running
              && r.service.replies == s.replies && r.service.config == s.config
              && r.service.nextId == s.nextId + 1
  {
    if !s.config.enabled then Submitted(s, Rejected(ServiceDisabled))
    else
      Submitted(
        s.(queue := s.queue + [Job(s.nextId, request)], nextId := s.nextId + 1),
        Enqueued(s.nextId))
  }

  /** One turn of the worker loop: take the oldest queued request and a
      permit, and start its task. With no request or no free permit the
      worker waits and nothing changes. */
  function Dispatch(s: Service): (r: Service)
    ensures s.queue == [] || s.free == 0 ==> r == s
    ensures s.queue != [] && s.free > 0 ==>
              && r.free + 1 == s.free
              && r.running == s.running + [s.queue[0]]
              && r.queue == s.queue[1..]
              && r.replies == s.replies && r.config == s.config && r.nextId == s.nextId
  {
    if s.queue == [] || s.free == 0 then s
    else s.(free := s.free - 1, queue := s.queue[1..], running := s.running + [s.queue[0]])
  }

  /** The end of the running job at index `i`: its reply (the proof, or a
      timeout error when the deadline passed first) is sent, then its permit
      is released. */
  function Complete(s: Service, i: nat, timedOut: bool, elapsedMs: u64): (r: Service)
    requires i < |s.running|
    ensures r.free == s.free + 1
    ensures |r.running| + 1 == |s.running|
    ensures r.running == s.running[..i] + s.running[i + 1..]
    ensures r.queue == s.queue && r.config == s.config && r.nextId == s.nextId
    ensures |r.replies| == |s.replies| + 1 && r.replies[..|s.replies|] == s.replies
    ensures r.replies[|s.replies|].id == s.running[i].id
    ensures timedOut <==> r.replies[|s.replies|].result == Err(ProofTimeout)
    ensures !timedOut ==> r.replies[|s.replies|].result == Ok(GenerateProof(s.running[i].request, elapsedMs))
  {
    var job := s.running[i];
    var result := if timedOut then Err(ProofTimeout) else Ok(GenerateProof(job.request, elapsedMs));
    s.(free := s.free + 1,
       running := s.running[..i] + s.running[i + 1..],
       replies := s.replies + [Reply(job.id, result)])
  }

  // ---------------------------------------------------------------------
  // Properties

  /** In a valid state the queue depth is the number of running jobs, and
      the service is available exactly when it is enabled and some permit
      is not held by a running job. */
  lemma DepthCountsRunningJobs(s: Service)
    requires Valid(s)
    ensures QueueDepth(s) == |s.running|
    ensures IsAvailable(s) <==> s.config.enabled && |s.running| < s.config.maxConcurrent
  {
  }

  /** A fresh service has depth 0 and is available iff enabled with at
      least one permit. */
  lemma FreshService(config: ProverConfig)
    ensures QueueDepth(New(config)) == 0
    ensures IsAvailable(New(config)) <==> config.enabled && config.maxConcurrent > 0
  {
  }

  /** A disabled service rejects and its queue depth does not move. */
  lemma DisabledRejects(s: Service, request: ProofRequest)
    requires !s.config.enabled && s.free <= s.config.maxConcurrent
    ensures Generate(s, request).submission == Rejected(ServiceDisabled)
    ensures QueueDepth(Generate(s, request).service) == QueueDepth(s)
  {
  }

  /** Submitting, dispatching and completing each keep every permit
      accounted for. */
  lemma StepsPreserveValid(s: Service, request: ProofRequest, i: nat, timedOut: bool, elapsedMs: u64)
    requires Valid(s)
    ensures Valid(Generate(s, request).service)
    ensures Valid(Dispatch(s))
    ensures i < |s.running| ==> Valid(Complete(s, i, timedOut, elapsedMs))
  {
    GeneratePreservesValid(s, request);
    DispatchPreservesValid(s);
    if i < |s.running| {
      CompletePreservesValid(s, i, timedOut, elapsedMs);
    }
  }

  /** A submission adds one id, `nextId`, which no request had yet. */
  lemma GeneratePreservesValid(s: Service, request: ProofRequest)
    requires Valid(s)
    ensures s.nextId !in AllIds(s)
    ensures s.config.enabled ==> AllIds(Generate(s, request).service) == AllIds(s) + multiset{s.nextId}
    ensures Valid(Generate(s, request).service)
  {
    if s.config.enabled {
      var r := Generate(s, request).service;
      assert r.running + r.queue == (s.running + s.queue) + [Job(s.nextId, request)];
      IdsAppend(s.running + s.queue, [Job(s.nextId, request)]);
      assert Ids([Job(s.nextId, request)], JobId) == [s.nextId];
      assert AllIds(r) == AllIds(s) + multiset{s.nextId};
    }
  }

  /** A worker turn only moves a job from the queue to running. */
  lemma DispatchPreservesValid(s: Service)
    requires Valid(s)
    ensures AllIds(Dispatch(s)) == AllIds(s)
    ensures Valid(Dispatch(s))
  {
    if s.queue != [] && s.free > 0 {
      var r := Dispatch(s);
      assert r.running + r.queue == s.running + s.queue;
    }
  }

  /** A completion moves the job's id from running to the replies. */
  lemma CompletePreservesValid(s: Service, i: nat, timedOut: bool, elapsedMs: u64)
    requires Valid(s) && i < |s.running|
    ensures AllIds(Complete(s, i, timedOut, elapsedMs)) == AllIds(s)
    ensures Valid(Complete(s, i, timedOut, elapsedMs))
  {
    var r := Complete(s, i, timedOut, elapsedMs);
    var job := s.running[i];
    var a := s.running[..i];
    var b := s.running[i + 1..] + s.queue;
    assert s.running + s.queue == a + [job] + b;
    assert r.running + r.queue == a + b;
    IdsAppend(a + [job], b);
    IdsAppend(a, [job]);
    IdsAppend(a, b);
    assert Ids([job], JobId) == [job.id];
    assert r.replies == s.replies + [r.replies[|s.replies|]];
    assert Ids(r.replies, ReplyId) == Ids(s.replies, ReplyId) + [job.id];
  }

  /** In a valid state no request has two replies, and no request still
      queued or running has been answered. */
  lemma OneReplyPerRequest(s: Service)
    requires Valid(s)
    ensures forall i, j :: 0 <= i < j < |s.replies| ==> s.replies[i].id != s.replies[j].id
    ensures forall k, l :: 0 <= k < |s.running + s.queue| && 0 <= l < |s.replies| ==>
              (s.running + s.queue)[k].id != s.replies[l].id
  {
    forall i, j | 0 <= i < j < |s.replies|
      ensures s.replies[i].id != s.replies[j].id
    {
      RepliesDistinct(s, i, j);
    }
    forall k, l | 0 <= k < |s.running + s.queue| && 0 <= l < |s.replies|
      ensures (s.running + s.queue)[k].id != s.replies[l].id
    {
      PendingUnanswered(s, k, l);
    }
  }

  lemma RepliesDistinct(s: Service, i: nat, j: nat)
    requires Valid(s) && i < j < |s.replies|
    ensures s.replies[i].id != s.replies[j].id
  {
    var answered := Ids(s.replies, ReplyId);
    assert answered == answered[..i] + [answered[i]] + answered[i + 1..j] + [answered[j]] + answered[j + 1..];
    assert multiset{answered[i], answered[j]} <= multiset(answered);
    assert multiset(answered) <= AllIds(s);
  }

  lemma PendingUnanswered(s: Service, k: nat, l: nat)
    requires Valid(s) && k < |s.running + s.queue| && l < |s.replies|
    ensures (s.running + s.queue)[k].id != s.replies[l].id
  {
    var pending := Ids(s.running + s.queue, JobId);
    var answered := Ids(s.replies, ReplyId);
    assert pending == pending[..k] + [pending[k]] + pending[k + 1..];
    assert answered == answered[..l] + [answered[l]] + answered[l + 1..];
    assert multiset{pending[k], answered[l]} <= AllIds(s);
  }

  /** A permit taken for a job is given back when that job completes, and
      exactly one reply is sent for it. */
  lemma PermitReturned(s: Service, timedOut: bool, elapsedMs: u64)
    requires s.queue != [] && s.free > 0
    ensures var d := Dispatch(s);
            var c := Complete(d, |d.running| - 1, timedOut, elapsedMs);
            && c.free == s.free
            && c.running == s.running
            && c.queue == s.queue[1..]
            && c.replies == s.replies + [c.replies[|s.replies|]]
            && c.replies[|s.replies|].id == s.queue[0].id
  {
    var d := Dispatch(s);
    assert d.running[..|d.running| - 1] == s.running;
  }

  /** The worker loop turned `k` times. */
  function DispatchTimes(s: Service, k: nat): Service
    decreases k
  {
    if k == 0 then s else DispatchTimes(Dispatch(s), k - 1)
  }

  function Min3(a: nat, b: nat, c: nat): nat {
    if a <= b && a <= c then a else if b <= c then b else c
  }

  /** After `k` turns of the worker, `min(k, queued, free)` jobs have moved
      from the queue to running, in order, each taking one permit. */
  lemma {:induction false} DispatchTimesMoves(s: Service, k: nat)
    ensures var m := Min3(k, |s.queue|, s.free);
            var r := DispatchTimes(s, k);
            && r.running == s.running + s.queue[..m]
            && r.queue == s.queue[m..]
            && r.free == s.free - m
            && r.config == s.config && r.replies == s.replies
    decreases k
  {
    var m := Min3(k, |s.queue|, s.free);
    if k == 0 {
      assert s.queue[..0] == [] && s.queue[0..] == s.queue;
      assert s.running + [] == s.running;
    } else if s.queue != [] && s.free > 0 {
      var d := Dispatch(s);
      DispatchTimesMoves(d, k - 1);
      assert Min3(k - 1, |d.queue|, d.free) == m - 1;
      QueueShift(s.queue, m);
    } else {
      assert DispatchTimes(s, k) == DispatchTimes(s, k - 1);
      DispatchTimesMoves(s, k - 1);
      assert m == 0 && Min3(k - 1, |s.queue|, s.free) == 0;
    }
  }

  lemma QueueShift(q: seq<Job>, m: nat)
    requires 1 <= m <= |q|
    ensures q[1..][..m - 1] == q[1..m]
    ensures q[..m] == [q[0]] + q[1..m]
    ensures q[1..][m - 1..] == q[m..]
  {
  }

  /** With `n` permits and `n + 1` queued requests, however often the
      worker turns, `n` jobs run and exactly one request waits for a permit,
      and the service reports itself unavailable. */
  lemma OneWaitsWhenSaturated(s: Service, k: nat)
    requires Valid(s) && s.running == [] && |s.queue| == s.config.maxConcurrent + 1
    requires k >= s.config.maxConcurrent
    ensures var r := DispatchTimes(s, k);
            && r.free == 0
            && |r.running| == s.config.maxConcurrent
            && |r.queue| == 1
            && !IsAvailable(r)
            && QueueDepth(r) == s.config.maxConcurrent
  {
    DispatchTimesMoves(s, k);
  }
}
