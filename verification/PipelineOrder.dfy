/** Pops follow (priority, time key) order over whole runs, and draining a queue sorts it. */
module PipelineOrder {
  import opened Common
  import opened PriorityScore
  import opened Pipeline
  import opened PipelineFlow
  import opened PipelineJobs
  import opened PipelineSteps

  const CLOCK_LIMIT := 4_600_000_000 * SECOND

  /** Jobs whose three time keys are valid: ExpireAt, CreatedAt, and retry instants up to the 31st retry. */
  predicate TimelyJob(job: Job) {
    InRange(job.priority, job.expireAt) && 0 <= job.createdAt < SPAN && job.maxRetry <= LAST_EXACT_RETRY + 1
  }

  ghost predicate TimelyRun(c: Config, s: State, es: seq<Event>)
    requires Runs(c, s, es)
    decreases |es|
  {
    && 0 <= s.now < CLOCK_LIMIT
    && (es != [] ==>
          && (es[0].Enqueue? ==> TimelyJob(es[0].job))
          && TimelyRun(c, Apply(c, s, es[0]), es[1..]))
  }

  ghost predicate OriginTimely(s: State) {
    forall id :: id in s.origin ==> TimelyJob(s.origin[id])
  }

  /** The retry instant computed at instant `t`. */
  predicate RetryKey(job: Job, key: int, t: int, now: int) {
    0 <= t <= now && job.retry >= 1 && key == Unix(t + Delay(job.retry))
  }

  /**
   The time keys the three writers give a job: ExpireAt to one as it was enqueued, CreatedAt to one put back once the pool
   has been cancelled, and the instant computed by `scheduleRetry` at some earlier time to one that has failed.
   */
  ghost predicate TimeKey(s: State, job: Job, key: int) {
    || (job.id in s.origin && job == s.origin[job.id] && key == job.expireAt)
    || (s.cancelled && key == job.createdAt)
    || (job.id in s.origin && job.retry > s.origin[job.id].retry && exists t :: RetryKey(job, key, t, s.now))
  }

  /** The score is the exact combination of the member's own priority and a time key one of the writers gave it. */
  ghost predicate ScoreOf(s: State, job: Job, score: int) {
    && -TOP_PRIORITY <= job.priority <= TOP_PRIORITY && score / SPAN == job.priority
    && TimeKey(s, job, score % SPAN)
  }

  ghost predicate QueueExact(s: State) {
    forall j :: j in s.queue ==> ScoreOf(s, j, s.queue[j])
  }

  lemma ZAddExact(c: Config, s: State, job: Job, key: int)
    requires Deployed(c) && QueueExact(s) && InRange(job.priority, key) && TimeKey(s, job, key)
    ensures QueueExact(ZAdd(c, s, job, key))
  {
    ScoreExact(job.priority, key);
    var t := ZAdd(c, s, job, key);
    forall j | j in t.queue
      ensures ScoreOf(t, j, t.queue[j])
    {
    }
  }

  lemma RetryAdded(c: Config, s: State, job: Job)
    requires Deployed(c) && QueueExact(s) && 0 <= s.now < CLOCK_LIMIT
    requires -TOP_PRIORITY <= job.priority <= TOP_PRIORITY && 1 <= job.retry <= LAST_EXACT_RETRY
    requires job.id in s.origin && job.retry > s.origin[job.id].retry
    ensures QueueExact(ZAdd(c, s, job, Unix(s.now + c.delay(job.retry))))
  {
    hide Score, Delay, Unix, QueueExact;
    RetryKeyInRange(job.retry, s.now);
    var key := Unix(s.now + Delay(job.retry));
    assert RetryKey(job, key, s.now, s.now);
    ZAddExact(c, s, job, key);
  }

  lemma SameQueue(s: State, t: State)
    requires QueueExact(s)
    requires t.queue == s.queue && t.origin == s.origin && t.now == s.now && t.cancelled == s.cancelled
    ensures QueueExact(t)
  {
    forall j | j in t.queue
      ensures ScoreOf(t, j, t.queue[j])
    {
      assert ScoreOf(s, j, s.queue[j]);
    }
  }

  lemma RetryExact(c: Config, s: State, job: Job, addOk: bool, pushOk: bool)
    requires Deployed(c) && QueueExact(s) && 0 <= s.now < CLOCK_LIMIT && TimelyJob(job) && job.retry >= 1
    requires job.id in s.origin && job.retry > s.origin[job.id].retry
    ensures QueueExact(RouteFailure(c, s, job, addOk, pushOk))
  {
    hide Deployed, Expired, QueueExact;
    if !GivesUp(s, job) && addOk {
      RetryAdded(c, s, job);
    } else {
      SameQueue(s, MoveToDLQ(s, job, pushOk));
    }
  }

  /** Time passing, a shutdown, and jobs being enqueued under new ids keep the time keys of those in the queue. */
  lemma KeysStay(s: State, t: State, job: Job, score: int)
    requires ScoreOf(s, job, score) && s.now <= t.now && (s.cancelled ==> t.cancelled)
    requires job.id in s.origin && job.id in t.origin && t.origin[job.id] == s.origin[job.id]
    ensures ScoreOf(t, job, score)
  {
    if at :| RetryKey(job, score % SPAN, at, s.now) {
      assert RetryKey(job, score % SPAN, at, t.now);
    }
  }

  /** A step that adds nothing to the queue keeps it exact. */
  lemma QueueStays(s: State, t: State)
    requires PoolOk(s) && QueueExact(s) && t.queue.Keys <= s.queue.Keys && t.origin == s.origin
    requires s.now <= t.now && (s.cancelled ==> t.cancelled)
    requires forall j :: j in t.queue ==> t.queue[j] == s.queue[j]
    ensures QueueExact(t)
  {
    forall j | j in t.queue
      ensures ScoreOf(t, j, t.queue[j])
    {
      assert Runnable(s.origin, s.calls, j);
      KeysStay(s, t, j, s.queue[j]);
    }
  }

  lemma QueueFrame(c: Config, s: State, e: Event)
    requires Enabled(c, s, e) && !e.Enqueue? && !e.Requeue? && !e.HandleFails?
    ensures Apply(c, s, e).queue == if e.Pop? then s.queue - {e.member} else s.queue
  {
    hide Apply, Enabled;
    if IsProducerEvent(e) {
      ProducerFrame(c, s, e);
    } else if IsWorkerEvent(e) {
      WorkerFrame(c, s, e);
    } else {
      StoreFrame(c, s, e);
    }
  }

  lemma EnqueueExact(c: Config, s: State, e: Event)
    requires Deployed(c) && PoolOk(s) && QueueExact(s) && Enabled(c, s, e) && e.Enqueue? && TimelyJob(e.job)
    ensures QueueExact(Apply(c, s, e))
  {
    if e.ok {
      var job := e.job;
      var known := s.(origin := s.origin[job.id := job], calls := s.calls[job.id := 0]);
      forall j | j in known.queue
        ensures ScoreOf(known, j, known.queue[j])
      {
        assert Runnable(s.origin, s.calls, j);
        KeysStay(s, known, j, s.queue[j]);
      }
      hide Score;
      ZAddExact(c, known, job, job.expireAt);
    }
  }

  lemma RequeueExact(c: Config, s: State, e: Event)
    requires Deployed(c) && PoolOk(s) && QueueExact(s) && OriginTimely(s) && Enabled(c, s, e) && e.Requeue?
    ensures QueueExact(Apply(c, s, e))
  {
    hide Score;
    var job := s.producer.job;
    assert Runnable(s.origin, s.calls, job);
    if e.ok {
      ZAddExact(c, s.(producer := Idle), job, job.createdAt);
    }
  }

  lemma FailureExact(c: Config, s: State, e: Event)
    requires Deployed(c) && PoolOk(s) && QueueExact(s) && OriginTimely(s) && Enabled(c, s, e) && e.HandleFails?
    requires 0 <= s.now < CLOCK_LIMIT
    ensures QueueExact(Apply(c, s, e))
  {
    hide Score, Delay, RouteFailure;
    var job := s.hands[e.worker].job;
    assert Runnable(s.origin, s.calls, job);
    var freed := s.(hands := s.hands[e.worker := Free], calls := Bump(s.calls, job.id));
    assert QueueExact(freed);
    RetryExact(c, freed, Retried(job, e.error), e.addOk, e.pushOk);
  }

  lemma Forward(c: Config, s: State, e: Event)
    requires Enabled(c, s, e)
    ensures s.now <= Apply(c, s, e).now && (s.cancelled ==> Apply(c, s, e).cancelled)
  {
    hide Apply, Enabled;
    if IsProducerEvent(e) {
      ProducerFrame(c, s, e);
    } else if IsWorkerEvent(e) {
      WorkerFrame(c, s, e);
    } else {
      StoreFrame(c, s, e);
    }
  }

  lemma ExactStep(c: Config, s: State, e: Event)
    requires Deployed(c) && PoolOk(s) && QueueExact(s) && OriginTimely(s) && Enabled(c, s, e)
    requires 0 <= s.now < CLOCK_LIMIT && (e.Enqueue? ==> TimelyJob(e.job))
    ensures QueueExact(Apply(c, s, e)) && OriginTimely(Apply(c, s, e))
  {
    hide Apply, QueueExact, PoolOk, Deployed;
    OriginGrows(c, s, e);
    match e
    case Enqueue(_, _) => EnqueueExact(c, s, e);
    case Requeue(_) => RequeueExact(c, s, e);
    case HandleFails(_, _, _, _) => FailureExact(c, s, e);
    case _ =>
      QueueFrame(c, s, e);
      Forward(c, s, e);
      QueueStays(s, Apply(c, s, e));
  }

  lemma {:induction false} ExactRun(c: Config, s: State, es: seq<Event>)
    requires Deployed(c) && JobsOk(s) && QueueExact(s) && OriginTimely(s) && Runs(c, s, es) && TimelyRun(c, s, es)
    ensures QueueExact(Final(c, s, es)) && 0 <= Final(c, s, es).now < CLOCK_LIMIT
    decreases |es|
  {
    hide Apply, Enabled, QueueExact;
    if es != [] {
      JobsStep(c, s, es[0]);
      ExactStep(c, s, es[0]);
      ExactRun(c, Apply(c, s, es[0]), es[1..]);
    }
  }

  /** Every timely run from the start gives each queued job the exact score of its priority and a writer's time key. */
  lemma EveryScoreExact(c: Config, s: State, es: seq<Event>)
    requires Deployed(c) && Init(c, s) && Runs(c, s, es) && TimelyRun(c, s, es)
    ensures QueueExact(Final(c, s, es))
  {
    hide Apply;
    InitConserved(c, s);
    ExactRun(c, s, es);
  }

  /**
   The score each writer gives, at the moment it writes: the priority times 1e10 plus ExpireAt when a job is enqueued, plus
   CreatedAt when it is put back at shutdown, and plus the second in which 5*2^retry seconds from now end when its call has
   failed, `retry` being its counter before that.
   */
  lemma EnqueuedKey(c: Config, s: State, job: Job)
    requires Deployed(c) && Enabled(c, s, Event.Enqueue(job, true)) && TimelyJob(job)
    ensures var t := Apply(c, s, Event.Enqueue(job, true));
            t.queue == s.queue[job := job.priority * 10_000_000_000 + job.expireAt]
  {
    hide Score;
    ScoreExact(job.priority, job.expireAt);
  }

  lemma PutBackKey(c: Config, s: State)
    requires Deployed(c) && Enabled(c, s, Requeue(true)) && TimelyJob(s.producer.job)
    ensures var t := Apply(c, s, Requeue(true));
            var job := s.producer.job;
            t.producer == Idle && t.queue == s.queue[job := job.priority * 10_000_000_000 + job.createdAt]
  {
    hide Score;
    ScoreExact(s.producer.job.priority, s.producer.job.createdAt);
  }

  lemma RetriedKey(c: Config, s: State, worker: nat, error: string, pushOk: bool)
    requires Deployed(c) && Enabled(c, s, HandleFails(worker, error, true, pushOk)) && TimelyJob(s.hands[worker].job)
    requires 0 <= s.now < CLOCK_LIMIT
    requires var job := s.hands[worker].job; job.retry + 1 < job.maxRetry && s.now < (job.expireAt + 1) * 1_000_000_000
    ensures var t := Apply(c, s, HandleFails(worker, error, true, pushOk));
            var job := s.hands[worker].job;
            var failed := job.(retry := job.retry + 1, errorMsg := error);
            t.queue == s.queue[failed := job.priority * 10_000_000_000
                                         + (s.now + 5 * Pow(2, job.retry) * 1_000_000_000) / 1_000_000_000]
  {
    hide Apply, Score, Delay, Pow;
    var job := s.hands[worker].job;
    FailureExactly(c, s, worker, error, true, pushOk);
    DelayExact(job.retry + 1);
    RetryKeyInRange(job.retry + 1, s.now);
    var key := (s.now + Delay(job.retry + 1)) / 1_000_000_000;
    InSeconds(s.now + Delay(job.retry + 1));
    ScoreExact(job.priority, key);
  }

  /** Lexicographic order of (priority, time key). */
  predicate Before(j: Job, jKey: int, k: Job, kKey: int) {
    j.priority < k.priority || (j.priority == k.priority && jKey <= kKey)
  }

  /** The time key in a score. */
  function KeyIn(score: int): int {
    score % SPAN
  }

  /**
   However enqueues, retries and requeues interleave, the job popped next has the smallest priority number in the queue
   and, within it, the smallest of the time keys that the writers gave.
   */
  lemma EveryPopInOrder(c: Config, s: State, es: seq<Event>, m: Job, j: Job)
    requires Deployed(c) && Init(c, s) && Runs(c, s, es) && TimelyRun(c, s, es)
    requires Enabled(c, Final(c, s, es), Pop(m)) && j in Final(c, s, es).queue
    ensures var t := Final(c, s, es);
            var mKey, jKey := KeyIn(t.queue[m]), KeyIn(t.queue[j]);
            && TimeKey(t, m, mKey) && TimeKey(t, j, jKey)
            && Before(m, mKey, j, jKey)
  {
    hide Apply;
    EveryScoreExact(c, s, es);
    var t := Final(c, s, es);
    assert ScoreOf(t, m, t.queue[m]) && ScoreOf(t, j, t.queue[j]);
  }

  /** No pop waits: a job is popped before its time exactly when every queued job of the least priority is early. */
  lemma PopsEarlyExactly(c: Config, s: State, es: seq<Event>, m: Job)
    requires Deployed(c) && Init(c, s) && Runs(c, s, es) && TimelyRun(c, s, es)
    requires Enabled(c, Final(c, s, es), Pop(m))
    ensures var t := Final(c, s, es);
            KeyIn(t.queue[m]) > Unix(t.now) <==>
              forall j :: j in t.queue && (forall k :: k in t.queue ==> j.priority <= k.priority) ==>
                KeyIn(t.queue[j]) > Unix(t.now)
  {
    hide Apply, TimeKey, Unix, KeyIn;
    var t := Final(c, s, es);
    forall j | j in t.queue
      ensures Before(m, KeyIn(t.queue[m]), j, KeyIn(t.queue[j]))
    {
      EveryPopInOrder(c, s, es, m, j);
    }
  }

  // ---------- All retries at one instant ----------

  /** The queue holds one job, enqueued and handled `n` times so far, and everything else is at rest. */
  ghost predicate Lone(s: State, job: Job, n: nat) {
    && s.queue.Keys == {job} && s.producer == Idle && s.channel == []
    && |s.hands| >= 1 && s.hands[0] == Free && job.retry >= 0 && !Expired(s, job)
    && job.id in s.calls && s.calls[job.id] == n
  }

  predicate Timeless(es: seq<Event>) {
    forall k :: 0 <= k < |es| ==> !es[k].Advance? && !es[k].Attempted?
  }

  /** The job on its way from the queue to the first worker's hand. */
  lemma Delivered(c: Config, s: State, job: Job, n: nat) returns (t: State)
    requires Lone(s, job, n) && c.capacity >= 1
    ensures var es := [Pop(job), Check(true), Send, Receive(0)];
            Runs(c, s, es) && Final(c, s, es) == t
    ensures t.queue == map[] && t.producer == Idle && t.channel == [] && |t.hands| >= 1 && t.hands[0] == Busy(job)
    ensures t.now == s.now && t.calls == s.calls
  {
    assert IsMinimum(s.queue, job);
    var popped := Apply(c, s, Pop(job));
    assert popped.queue.Keys == {};
    var checked := Apply(c, popped, Check(true));
    var sent := Apply(c, checked, Send);
    t := Apply(c, sent, Receive(0));
    Four(c, s, Pop(job), Check(true), Send, Receive(0));
  }

  lemma Four(c: Config, s: State, d: Event, e: Event, f: Event, g: Event)
    requires Enabled(c, s, d) && Enabled(c, Apply(c, s, d), e) && Enabled(c, Apply(c, Apply(c, s, d), e), f)
    requires Enabled(c, Apply(c, Apply(c, Apply(c, s, d), e), f), g)
    ensures Runs(c, s, [d, e, f, g])
    ensures Final(c, s, [d, e, f, g]) == Apply(c, Apply(c, Apply(c, Apply(c, s, d), e), f), g)
  {
    hide Apply, Enabled;
    var t := Apply(c, Apply(c, Apply(c, Apply(c, s, d), e), f), g);
    assert Runs(c, t, []) && Final(c, t, []) == t;
    RunsAppend(c, s, [], d);
    RunsAppend(c, s, [d], e);
    RunsAppend(c, s, [d, e], f);
    RunsAppend(c, s, [d, e, f], g);
    assert [] + [d] == [d] && [d] + [e] == [d, e] && [d, e] + [f] == [d, e, f] && [d, e, f] + [g] == [d, e, f, g];
  }

  /** The worker's call fails: either that was the last one, or the job is in the queue again, at the same instant. */
  lemma FailsAtOnce(c: Config, s: State, job: Job, n: nat)
    requires s.queue == map[] && s.producer == Idle && s.channel == [] && |s.hands| >= 1 && s.hands[0] == Busy(job)
    requires job.retry >= 0 && !Expired(s, job) && job.id in s.calls && s.calls[job.id] == n
    ensures var e := HandleFails(0, "", true, true);
            && Enabled(c, s, e)
            && var t := Apply(c, s, e);
               && t.now == s.now && job.id in t.calls && t.calls[job.id] == n + 1
               && (job.retry + 1 < job.maxRetry ==> Lone(t, Retried(job, ""), n + 1))
  {
  }

  lemma {:induction false} SpendsAll(c: Config, s: State, job: Job, n: nat) returns (es: seq<Event>)
    requires Lone(s, job, n) && c.capacity >= 1
    ensures Runs(c, s, es) && Timeless(es) && Final(c, s, es).now == s.now
    ensures job.id in Final(c, s, es).calls && Final(c, s, es).calls[job.id] == n + Budget(job)
    decreases Budget(job)
  {
    hide Apply, Enabled, Lone;
    var first := [Pop(job), Check(true), Send, Receive(0)];
    LoneFacts(s, job, n);
    var handed := Delivered(c, s, job, n);
    FailsAtOnce(c, handed, job, n);
    var e := HandleFails(0, "", true, true);
    RunsAppend(c, s, first, e);
    es := first + [e];
    if job.retry + 1 < job.maxRetry {
      var rest := SpendsAll(c, Final(c, s, es), Retried(job, ""), n + 1);
      RunsConcat(c, s, es, rest);
      es := es + rest;
    }
  }

  lemma LoneFacts(s: State, job: Job, n: nat)
    requires Lone(s, job, n)
    ensures job.retry >= 0 && !Expired(s, job) && job.id in s.calls && s.calls[job.id] == n
  {
  }

  /** A job can spend all the HandleJob calls the pool allows it at a single instant: no backoff is ever waited for. */
  lemma RetriesAtOnce(c: Config, s: State, job: Job) returns (es: seq<Event>)
    requires Init(c, s) && c.workers >= 1 && c.capacity >= 1 && job.retry >= 0 && !Expired(s, job)
    ensures Runs(c, s, es) && Timeless(es) && Final(c, s, es).now == s.now
    ensures job.id in Final(c, s, es).calls && Final(c, s, es).calls[job.id] == Budget(job)
  {
    var e := Event.Enqueue(job, true);
    var t := Apply(c, s, e);
    assert t.queue.Keys == {job} && Lone(t, job, 0);
    hide Apply, Enabled, Lone;
    RunsAppend(c, s, [], e);
    var rest := SpendsAll(c, t, job, 0);
    RunsConcat(c, s, [] + [e], rest);
    es := [] + [e] + rest;
  }

  /** `out` is one of the orders in which repeated pops empty the queue. */
  ghost predicate Drains(queue: map<Job, int>, out: seq<Job>)
    decreases |out|
  {
    if out == [] then queue == map[] else IsMinimum(queue, out[0]) && Drains(queue - {out[0]}, out[1..])
  }

  lemma {:induction false} DrainPermutes(queue: map<Job, int>, out: seq<Job>)
    requires Drains(queue, out)
    ensures multiset(out) == multiset(queue.Keys)
    decreases |out|
  {
    if out != [] {
      DrainPermutes(queue - {out[0]}, out[1..]);
      assert out == [out[0]] + out[1..];
      assert queue.Keys == (queue - {out[0]}).Keys + {out[0]};
    }
  }

  lemma {:induction false} DrainMembers(queue: map<Job, int>, out: seq<Job>)
    requires Drains(queue, out)
    ensures forall i :: 0 <= i < |out| ==> out[i] in queue
    decreases |out|
  {
    if out != [] {
      DrainMembers(queue - {out[0]}, out[1..]);
      forall i | 0 <= i < |out|
        ensures out[i] in queue
      {
        assert i > 0 ==> out[i] == out[1..][i - 1];
      }
    }
  }

  lemma {:induction false} DrainSorted(queue: map<Job, int>, out: seq<Job>, i: nat, j: nat)
    requires Drains(queue, out) && i < j < |out|
    ensures out[i] in queue && out[j] in queue && queue[out[i]] <= queue[out[j]]
    decreases |out|
  {
    DrainMembers(queue, out);
    if i > 0 {
      DrainSorted(queue - {out[0]}, out[1..], i - 1, j - 1);
    }
  }

  /** Draining the queue of any reachable state yields its members, each once, by (priority, time key a writer gave). */
  lemma DrainIsSort(c: Config, s: State, es: seq<Event>, out: seq<Job>)
    requires Deployed(c) && Init(c, s) && Runs(c, s, es) && TimelyRun(c, s, es) && Drains(Final(c, s, es).queue, out)
    ensures var t := Final(c, s, es);
            && multiset(out) == multiset(t.queue.Keys)
            && (forall j :: j in t.queue ==> TimeKey(t, j, KeyIn(t.queue[j])))
            && forall i, j :: 0 <= i < j < |out| ==>
                 out[i] in t.queue && out[j] in t.queue
                 && Before(out[i], KeyIn(t.queue[out[i]]), out[j], KeyIn(t.queue[out[j]]))
  {
    hide Apply, TimeKey;
    EveryScoreExact(c, s, es);
    var t := Final(c, s, es);
    DrainPermutes(t.queue, out);
    assert forall j :: j in t.queue ==> ScoreOf(t, j, t.queue[j]);
    forall i, j | 0 <= i < j < |out|
      ensures out[i] in t.queue && out[j] in t.queue
      ensures Before(out[i], KeyIn(t.queue[out[i]]), out[j], KeyIn(t.queue[out[j]]))
    {
      DrainSorted(t.queue, out, i, j);
    }
  }
}
