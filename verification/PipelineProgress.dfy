/**
 Runs without storage failure, shutdown or TTL deletion lose no job; once nothing more is enqueued and
 payloads decode, they do a bounded amount of work and can only stop with every job finished.
 */
module PipelineProgress {
  import opened Common
  import opened Pipeline
  import opened PipelineFlow
  import opened PipelineJobs
  import opened PipelineDocs

  predicate Healthy(e: Event) {
    match e
    case Cancel => false
    case Enqueue(_, ok) => ok
    case Check(pushOk) => pushOk
    case Requeue(_) => false
    case HandleFails(_, _, addOk, pushOk) => addOk && pushOk
    case Persist(ok, pushOk) => ok && pushOk
    case Begin(ok) => ok
    case Reject(_, ok) => ok
    case Attempted(_, _, _, ok) => ok
    case TtlDelete(_) => false
    case _ => true
  }

  predicate AllHealthy(es: seq<Event>) {
    forall k :: 0 <= k < |es| ==> Healthy(es[k])
  }

  ghost predicate DocsHealthy(s: State) {
    forall i :: 0 <= i < |s.docs| ==>
      && s.docs[i].present
      && (s.docs[i].status == Processing ==> s.active.Some? && s.active.value.doc == i)
  }

  ghost predicate PoolHealthy(c: Config, s: State) {
    !s.cancelled && s.lost == [] && |s.hands| == c.workers
  }

  ghost predicate HealthyOk(c: Config, s: State) {
    JobsOk(s) && DocsOk(c, s) && DocsHealthy(s) && PoolHealthy(c, s)
  }

  /** The step's last storage call for its job failed. */
  predicate LastCallFails(s: State, e: Event) {
    match e
    case Check(pushOk) => s.producer.Checking? && Expired(s, s.producer.job) && !pushOk
    case Requeue(ok) => !ok
    case HandleFails(k, error, addOk, pushOk) =>
      k < |s.hands| && s.hands[k].Busy? && (GivesUp(s, Retried(s.hands[k].job, error)) || !addOk) && !pushOk
    case Persist(ok, pushOk) => !ok && !pushOk
    case _ => false
  }

  ghost predicate LosesIffFails(c: Config, s: State, e: Event)
    requires Enabled(c, s, e)
  {
    var t := Apply(c, s, e);
    && s.lost <= t.lost && (s.lost == t.lost <==> !LastCallFails(s, e))
    && |t.hands| == |s.hands| && (!e.Cancel? ==> t.cancelled == s.cancelled)
  }

  lemma FailingHandle(c: Config, s: State, e: Event)
    requires Enabled(c, s, e) && e.HandleFails?
    ensures LosesIffFails(c, s, e)
  {
  }

  lemma FailingCalls(c: Config, s: State, e: Event)
    requires Enabled(c, s, e) && (e.Check? || e.Requeue? || e.Persist?)
    ensures LosesIffFails(c, s, e)
  {
    hide Settle, Recorded, Snaps, UpdateOne, IsBatch, IsMinimum, GivesUp, NewDoc, Bump, Ready;
    match e
    case Check(_) =>
    case Requeue(_) =>
    case Persist(_, _) =>
  }

  lemma PoolCalls(c: Config, s: State, e: Event)
    requires Enabled(c, s, e)
    requires e.Enqueue? || e.Pop? || e.Send? || e.Receive? || e.Handled? || e.TakeDead?
    ensures LosesIffFails(c, s, e)
  {
  }

  lemma StoreCalls(c: Config, s: State, e: Event)
    requires Enabled(c, s, e)
    requires e.Advance? || e.Cancel? || e.Find? || e.Begin? || e.Reject? || e.Attempted? || e.TtlDelete?
    ensures LosesIffFails(c, s, e)
  {
  }

  /** A step loses a job iff its last storage call for that job fails; nothing lost comes back. */
  lemma LostExactly(c: Config, s: State, e: Event)
    requires Enabled(c, s, e)
    ensures s.lost <= Apply(c, s, e).lost
    ensures s.lost == Apply(c, s, e).lost <==> !LastCallFails(s, e)
    ensures |Apply(c, s, e).hands| == |s.hands|
    ensures !e.Cancel? ==> Apply(c, s, e).cancelled == s.cancelled
  {
    hide Apply, Enabled, LastCallFails;
    if e.HandleFails? {
      FailingHandle(c, s, e);
    } else if e.Check? || e.Requeue? || e.Persist? {
      FailingCalls(c, s, e);
    } else if e.Enqueue? || e.Pop? || e.Send? || e.Receive? || e.Handled? || e.TakeDead? {
      PoolCalls(c, s, e);
    } else {
      StoreCalls(c, s, e);
    }
  }

  lemma StoreHealthyStep(c: Config, s: State, e: Event)
    requires DocsOk(c, s) && DocsHealthy(s) && Enabled(c, s, e) && Healthy(e)
    requires e.Persist? || e.Begin? || e.Reject? || e.Attempted?
    ensures DocsHealthy(Apply(c, s, e))
  {
  }

  lemma DocsHealthyStep(c: Config, s: State, e: Event)
    requires DocsOk(c, s) && DocsHealthy(s) && Enabled(c, s, e) && Healthy(e)
    ensures DocsHealthy(Apply(c, s, e))
  {
    if e.Persist? || e.Begin? || e.Reject? || e.Attempted? {
      StoreHealthyStep(c, s, e);
    } else if e.Advance? || e.Find? {
    } else {
      PoolFrame(c, s, e);
    }
  }

  lemma HealthyStep(c: Config, s: State, e: Event)
    requires HealthyOk(c, s) && Enabled(c, s, e) && Healthy(e)
    ensures HealthyOk(c, Apply(c, s, e))
  {
    hide Apply;
    JobsStep(c, s, e);
    DocsStep(c, s, e);
    DocsHealthyStep(c, s, e);
    LostExactly(c, s, e);
  }

  lemma {:induction false} HealthyRun(c: Config, s: State, es: seq<Event>)
    requires HealthyOk(c, s) && Runs(c, s, es) && AllHealthy(es)
    ensures HealthyOk(c, Final(c, s, es))
    decreases |es|
  {
    hide Apply, Enabled, HealthyOk;
    if es != [] {
      assert Healthy(es[0]);
      HealthyStep(c, s, es[0]);
      HealthyRun(c, Apply(c, s, es[0]), es[1..]);
    }
  }

  lemma InitHealthy(c: Config, s: State)
    requires Init(c, s) && !s.cancelled
    ensures HealthyOk(c, s)
  {
    hide Conserved, DocsOk;
    InitConserved(c, s);
    InitDocs(c, s);
  }

  /** A run in which no storage call fails and nobody cancels the pool loses no job. */
  lemma HealthyRunsLoseNothing(c: Config, s: State, es: seq<Event>)
    requires Init(c, s) && !s.cancelled && Runs(c, s, es) && AllHealthy(es)
    ensures HealthyOk(c, Final(c, s, es)) && Final(c, s, es).lost == []
  {
    hide Apply, Enabled, JobsOk, DocsOk, DocsHealthy;
    InitHealthy(c, s);
    HealthyRun(c, s, es);
  }

  // ---------- Termination ----------

  /** HandleJob calls the pool may still make for a job that is to run again. */
  function Rounds(job: Job): nat {
    Max(1, job.maxRetry - job.retry)
  }

  function DocWork(c: Config): Doc -> nat {
    var limit := c.maxRetryCount;
    (d: Doc) =>
      if Terminal(d) || d.retryCount >= limit then 0
      else 2 * (limit - d.retryCount) - (if d.status == Processing then 1 else 0)
  }

  function Stage(c: Config, before: nat): Job -> nat {
    var dead := 2 * Max(0, c.maxRetryCount) + 2;
    (job: Job) => dead + Max(0, 5 * Rounds(job) - before)
  }

  function Fixed(n: nat): Job -> nat {
    (job: Job) => n
  }

  /** Remaining steps of each job, by stage, remaining pool retries and remaining document retries. */
  function Work(c: Config): Weights {
    var m := 2 * Max(0, c.maxRetryCount);
    Weights(Stage(c, 0), Stage(c, 1), Stage(c, 2), Stage(c, 3), Stage(c, 4), Fixed(m + 2), Fixed(m + 1),
            DocWork(c), Fixed(0), Fixed(0))
  }

  function ConsumerIdle(s: State): bool {
    s.batch == [] && s.active.None?
  }

  ghost function Measure(c: Config, s: State): nat {
    2 * Load(s, Work(c)) + if ConsumerIdle(s) then 1 else 0
  }

  /** Steps of a healthy run without new jobs. */
  predicate Closed(e: Event) {
    Healthy(e) && !e.Enqueue?
  }

  /** Every job's payload can be read back by the retry consumer. */
  ghost predicate Decodable(c: Config, s: State) {
    forall id :: id in s.origin ==> c.decode(s.origin[id].payload).Some?
  }

  lemma NothingRejected(c: Config, s: State, e: Event)
    requires DeadOk(s) && DocsOk(c, s) && Decodable(c, s) && Enabled(c, s, e)
    ensures !e.Reject?
  {
  }

  predicate AllClosed(es: seq<Event>) {
    forall k :: 0 <= k < |es| ==> Closed(es[k])
  }

  /** Time passing and a tick that finds nothing are idle. */
  predicate Works(e: Event) {
    !e.Advance? && !(e.Find? && e.picks == [])
  }

  lemma PoolWorkDecreases(c: Config, s: State, e: Event)
    requires Enabled(c, s, e) && Closed(e)
    requires e.Pop? || e.Check? || e.Send? || e.Receive? || e.Handled? || e.HandleFails? || e.TakeDead?
    ensures Shift(c, s, e, Work(c)) < 0
    ensures ConsumerIdle(Apply(c, s, e)) == ConsumerIdle(s)
  {
  }

  lemma DocWorkDecreases(c: Config, s: State, e: Event)
    requires DocsOk(c, s) && DocsHealthy(s) && Enabled(c, s, e) && Closed(e) && c.maxRetryCount >= 1
    requires e.Persist? || e.Begin? || e.Attempted?
    ensures Shift(c, s, e, Work(c)) < 0
    ensures e.Persist? ==> ConsumerIdle(Apply(c, s, e)) == ConsumerIdle(s)
  {
  }

  lemma WorkShift(c: Config, s: State, e: Event)
    requires DocsOk(c, s) && DocsHealthy(s) && Enabled(c, s, e) && Closed(e) && !e.Reject? && c.maxRetryCount >= 1
    ensures var moved := 2 * Shift(c, s, e, Work(c))
                         + (if ConsumerIdle(Apply(c, s, e)) then 1 else 0) - (if ConsumerIdle(s) then 1 else 0);
            (Works(e) ==> moved < 0) && (!Works(e) ==> moved == 0)
  {
    match e
    case Advance(_) =>
    case Find(picks) =>
    case Persist(_, _) => DocWorkDecreases(c, s, e);
    case Begin(_) => DocWorkDecreases(c, s, e);
    case Attempted(_, _, _, _) => DocWorkDecreases(c, s, e);
    case _ => PoolWorkDecreases(c, s, e);
  }

  lemma WorkDecreases(c: Config, s: State, e: Event)
    requires HealthyOk(c, s) && Decodable(c, s) && Enabled(c, s, e) && Closed(e) && c.maxRetryCount >= 1
    ensures Works(e) ==> Measure(c, Apply(c, s, e)) < Measure(c, s)
    ensures !Works(e) ==> Measure(c, Apply(c, s, e)) == Measure(c, s)
    ensures Decodable(c, Apply(c, s, e))
  {
    hide Apply, Measure;
    OriginGrows(c, s, e);
    NothingRejected(c, s, e);
    UnrejectedDecreases(c, s, e);
  }

  lemma UnrejectedDecreases(c: Config, s: State, e: Event)
    requires HealthyOk(c, s) && !e.Reject? && Enabled(c, s, e) && Closed(e) && c.maxRetryCount >= 1
    ensures Works(e) ==> Measure(c, Apply(c, s, e)) < Measure(c, s)
    ensures !Works(e) ==> Measure(c, Apply(c, s, e)) == Measure(c, s)
  {
    hide Apply;
    WorkShift(c, s, e);
    assert NoClash(s, e) by {
      ConservedNoClash(c, s, e);
    }
    Flow(c, s, e, Work(c));
  }

  function WorkSteps(es: seq<Event>): nat {
    if es == [] then 0 else (if Works(es[0]) then 1 else 0) + WorkSteps(es[1..])
  }

  /** However a healthy run continues once nothing more is enqueued, it makes at most Measure working steps. */
  lemma {:induction false} BoundedWork(c: Config, s: State, es: seq<Event>)
    requires HealthyOk(c, s) && Decodable(c, s) && c.maxRetryCount >= 1 && Runs(c, s, es) && AllClosed(es)
    ensures WorkSteps(es) + Measure(c, Final(c, s, es)) <= Measure(c, s)
    decreases |es|
  {
    hide Apply, Enabled, HealthyOk;
    if es != [] {
      assert Closed(es[0]);
      WorkDecreases(c, s, es[0]);
      HealthyStep(c, s, es[0]);
      BoundedWork(c, Apply(c, s, es[0]), es[1..]);
    }
  }

  ghost predicate Settled(s: State) {
    && s.queue == map[] && s.producer == Idle && s.channel == []
    && (forall k :: 0 <= k < |s.hands| ==> s.hands[k] == Free)
    && s.dlq == [] && s.taken == None && ConsumerIdle(s)
    && forall i :: 0 <= i < |s.docs| ==> Terminal(s.docs[i])
  }

  // ---------- A batch always exists ----------

  ghost predicate OldestFirst(c: Config, docs: seq<Doc>, now: int, picks: seq<nat>) {
    && Distinct(picks) && Within(picks, |docs|)
    && (forall k :: 0 <= k < |picks| ==> Ready(c, docs[picks[k]], now))
    && (forall k, l :: 0 <= k < l < |picks| ==> docs[picks[k]].createdAt <= docs[picks[l]].createdAt)
    && (forall i, k :: 0 <= i < |docs| && Ready(c, docs[i], now) && i !in picks && 0 <= k < |picks| ==>
          docs[picks[k]].createdAt <= docs[i].createdAt)
  }

  lemma {:induction false} OldestLeft(c: Config, docs: seq<Doc>, now: int, picks: seq<nat>, n: nat) returns (best: nat)
    requires n <= |docs|
    requires exists i :: 0 <= i < n && Ready(c, docs[i], now) && i !in picks
    ensures best < n && Ready(c, docs[best], now) && best !in picks
    ensures forall i :: 0 <= i < n && Ready(c, docs[i], now) && i !in picks ==> docs[best].createdAt <= docs[i].createdAt
  {
    var last := n - 1;
    if exists i :: 0 <= i < last && Ready(c, docs[i], now) && i !in picks {
      best := OldestLeft(c, docs, now, picks, last);
      if Ready(c, docs[last], now) && last !in picks && docs[last].createdAt < docs[best].createdAt {
        best := last;
      }
    } else {
      best := last;
    }
  }

  function One<T>(): T -> nat {
    (x: T) => 1
  }

  lemma {:induction false} PickCount<T>(xs: seq<T>, picks: seq<nat>)
    requires Within(picks, |xs|)
    ensures PickSum(xs, picks, One()) == |picks|
  {
    if picks != [] {
      PickCount(xs, picks[1..]);
    }
  }

  lemma DistinctFits<T>(xs: seq<T>, picks: seq<nat>)
    requires Distinct(picks) && Within(picks, |xs|)
    ensures |picks| <= |xs|
  {
    PickSumLe(xs, picks, One());
    PickCount(xs, picks);
    SumBound(xs, One(), 1);
  }

  lemma {:induction false} GrowBatch(c: Config, docs: seq<Doc>, now: int, picks: seq<nat>) returns (all: seq<nat>)
    requires OldestFirst(c, docs, now, picks) && (c.batchSize > 0 ==> |picks| <= c.batchSize)
    ensures IsBatch(c, docs, now, all) && |picks| <= |all|
    ensures picks == [] && (exists i :: 0 <= i < |docs| && Ready(c, docs[i], now)) ==> all != []
    decreases |docs| - |picks|
  {
    if (exists i :: 0 <= i < |docs| && Ready(c, docs[i], now) && i !in picks) && !(0 < c.batchSize == |picks|) {
      var best := OldestLeft(c, docs, now, picks, |docs|);
      DistinctFits(docs, picks + [best]);
      all := GrowBatch(c, docs, now, picks + [best]);
    } else {
      all := picks;
    }
  }

  /** The tick's query always has an answer, non-empty when some document is ready. */
  lemma BatchExists(c: Config, docs: seq<Doc>, now: int) returns (picks: seq<nat>)
    ensures IsBatch(c, docs, now, picks)
    ensures (exists i :: 0 <= i < |docs| && Ready(c, docs[i], now)) ==> picks != []
  {
    picks := GrowBatch(c, docs, now, []);
  }

  lemma {:induction false} MinimumExists(queue: map<Job, int>) returns (m: Job)
    requires queue != map[]
    ensures IsMinimum(queue, m)
    decreases |queue|
  {
    var j :| j in queue;
    var rest := queue - {j};
    if rest == map[] {
      m := j;
      assert forall k :: k in queue && k != j ==> k in rest;
    } else {
      var n := MinimumExists(rest);
      m := if queue[j] <= queue[n] then j else n;
      forall k | k in queue
        ensures queue[m] <= queue[k]
      {
        assert k == j || k in rest;
      }
    }
  }

  lemma PoolNotStuck(c: Config, s: State) returns (e: Event)
    requires PoolOk(s) && BudgetOk(s) && |s.hands| == c.workers >= 1 && c.capacity >= 1
    requires s.queue != map[] || s.producer != Idle || s.channel != [] || !(forall k :: 0 <= k < |s.hands| ==> s.hands[k] == Free)
    ensures Enabled(c, s, e) && Closed(e) && Works(e)
    ensures e.Handled? || e.Receive? || e.Send? || e.Check? || e.Pop?
  {
    if k :| 0 <= k < |s.hands| && s.hands[k] != Free {
      e := Handled(k);
    } else if s.channel != [] {
      e := Receive(0);
    } else if s.producer.Sending? {
      e := Send;
    } else if s.producer.Checking? {
      e := Check(true);
    } else {
      var m := MinimumExists(s.queue);
      e := Pop(m);
    }
  }

  lemma DocumentsNotStuck(c: Config, s: State) returns (e: Event, t: int)
    requires DocsOk(c, s) && DocsHealthy(s) && c.maxRetryCount >= 1
    requires s.active.Some? ==> c.decode(s.active.value.payload).Some?
    requires s.dlq != [] || s.taken != None || !ConsumerIdle(s) || !(forall i :: 0 <= i < |s.docs| ==> Terminal(s.docs[i]))
    ensures s.now <= t && Enabled(c, s.(now := t), e) && Closed(e) && Works(e)
    ensures e.Persist? || e.TakeDead? || e.Attempted? || e.Begin? || e.Find?
  {
    t := s.now;
    if s.taken.Some? {
      e := Persist(true, true);
    } else if s.dlq != [] {
      e := TakeDead;
    } else if s.active.Some? {
      assert SnapOk(c, s.docs, s.now, s.active.value);
      e := Attempted(true, "", t, true);
    } else if s.batch != [] {
      assert SnapOk(c, s.docs, s.now, s.batch[0]);
      e := Begin(true);
    } else {
      var i :| 0 <= i < |s.docs| && !Terminal(s.docs[i]);
      var d := s.docs[i];
      assert DocOk(c, d, s.now);
      t := if d.nextRetryAt.Some? then Max(s.now, d.nextRetryAt.value + MILLISECOND) else s.now;
      assert Ready(c, d, t);
      var picks := BatchExists(c, s.docs, t);
      e := Find(picks);
    }
  }

  /**
   A healthy pipeline that cannot work even after waiting is settled: unless everything is settled,
   some working step is possible now or at a later instant.
   */
  lemma NeverStuck(c: Config, s: State) returns (e: Event, t: int)
    requires HealthyOk(c, s) && Decodable(c, s)
    requires c.workers >= 1 && c.capacity >= 1 && c.maxRetryCount >= 1
    requires !Settled(s)
    ensures s.now <= t && Enabled(c, s.(now := t), e) && Closed(e) && Works(e)
  {
    if s.queue != map[] || s.producer != Idle || s.channel != [] || !(forall k :: 0 <= k < |s.hands| ==> s.hands[k] == Free) {
      e := PoolNotStuck(c, s);
      t := s.now;
    } else {
      assert s.active.Some? ==>
               SnapOk(c, s.docs, s.now, s.active.value) && DocTracked(s.origin, s.calls, s.docs[s.active.value.doc]);
      e, t := DocumentsNotStuck(c, s);
    }
  }

  lemma {:induction false} SumAllZero<T>(xs: seq<T>, f: T -> nat)
    requires forall i :: 0 <= i < |xs| ==> f(xs[i]) == 0
    ensures Sum(xs, f) == 0
  {
    if xs != [] {
      SumAllZero(xs[1..], f);
    }
  }

  /** The job is in the done ledger, or its document is completed or permanently failed. */
  predicate Finished(s: State, id: string) {
    || (exists i :: 0 <= i < |s.done| && s.done[i].id == id)
    || (exists i :: 0 <= i < |s.docs| && s.docs[i].jobId == id && Terminal(s.docs[i]))
  }

  /** In a settled healthy state each job ever enqueued is done, or its one document is completed or permanently failed. */
  lemma SettledMeansFinished(c: Config, s: State, id: string)
    requires HealthyOk(c, s) && Settled(s) && id in s.origin
    ensures Finished(s, id)
  {
    assert Count(s, id) == 1;
    SumFree(s.hands, Tags(id));
    assert s.queue.Keys == {};
    if forall i :: 0 <= i < |s.done| ==> s.done[i].id != id {
      SumAllZero(s.done, Names(id));
      if forall i :: 0 <= i < |s.docs| ==> s.docs[i].jobId != id {
        SumAllZero(s.docs, DocNames(id));
        assert false;
      }
    }
  }

  ghost predicate Ongoing(c: Config, s: State) {
    HealthyOk(c, s) && Decodable(c, s) && c.maxRetryCount >= 1
  }

  lemma OngoingStep(c: Config, s: State, e: Event)
    requires Ongoing(c, s) && Enabled(c, s, e) && Closed(e)
    ensures Ongoing(c, Apply(c, s, e)) && Measure(c, Apply(c, s, e)) <= Measure(c, s)
    ensures Works(e) ==> Measure(c, Apply(c, s, e)) < Measure(c, s)
  {
    HealthyStep(c, s, e);
    WorkDecreases(c, s, e);
  }

  lemma Prepend(c: Config, s: State, e: Event, es: seq<Event>)
    requires Enabled(c, s, e) && Runs(c, Apply(c, s, e), es) && Closed(e) && AllClosed(es)
    ensures Runs(c, s, [e] + es) && Final(c, s, [e] + es) == Final(c, Apply(c, s, e), es) && AllClosed([e] + es)
  {
    hide Apply, Enabled;
    assert ([e] + es)[1..] == es;
  }

  lemma PrependTwo(c: Config, s: State, d: Event, e: Event, es: seq<Event>)
    requires Enabled(c, s, d) && Enabled(c, Apply(c, s, d), e) && Closed(d) && Closed(e)
    requires Runs(c, Apply(c, Apply(c, s, d), e), es) && AllClosed(es)
    ensures Runs(c, s, [d, e] + es) && AllClosed([d, e] + es)
    ensures Final(c, s, [d, e] + es) == Final(c, Apply(c, Apply(c, s, d), e), es)
  {
    hide Apply, Enabled;
    Prepend(c, Apply(c, s, d), e, es);
    Prepend(c, s, d, [e] + es);
    assert [d, e] + es == [d] + ([e] + es);
  }

  lemma WaitThenWork(c: Config, s: State, t: int, e: Event) returns (next: State)
    requires Ongoing(c, s) && s.now <= t && Enabled(c, s.(now := t), e) && Closed(e) && Works(e)
    ensures Enabled(c, s, Advance(t)) && Apply(c, s, Advance(t)) == s.(now := t)
    ensures next == Apply(c, s.(now := t), e) && Ongoing(c, next) && Measure(c, next) < Measure(c, s)
    ensures |next.hands| == |s.hands|
  {
    hide HealthyOk, Measure, Decodable;
    OngoingStep(c, s, Advance(t));
    next := FollowStep(c, Apply(c, s, Advance(t)), e);
  }

  lemma FollowStep(c: Config, s: State, e: Event) returns (next: State)
    requires Ongoing(c, s) && Enabled(c, s, e) && Closed(e) && Works(e)
    ensures next == Apply(c, s, e) && Ongoing(c, next) && Measure(c, next) < Measure(c, s)
    ensures |next.hands| == |s.hands|
  {
    hide Apply, Enabled, Measure, Ongoing;
    OngoingStep(c, s, e);
    LostExactly(c, s, e);
    next := Apply(c, s, e);
  }

  /** Every healthy state whose jobs decode can be run to a settled one. */
  lemma {:induction false} Settles(c: Config, s: State) returns (es: seq<Event>)
    requires Ongoing(c, s) && c.workers >= 1 && c.capacity >= 1
    ensures Runs(c, s, es) && AllClosed(es) && Settled(Final(c, s, es))
    decreases Measure(c, s)
  {
    hide Apply, Enabled, HealthyOk, Decodable, Settled, Measure;
    if Settled(s) {
      es := [];
    } else {
      var e, t := NeverStuck(c, s);
      var next := WaitThenWork(c, s, t, e);
      var rest := Settles(c, next);
      PrependTwo(c, s, Advance(t), e, rest);
      es := [Advance(t), e] + rest;
    }
  }

  lemma {:induction false} SameOrigin(c: Config, s: State, es: seq<Event>)
    requires Runs(c, s, es) && AllClosed(es)
    ensures Final(c, s, es).origin == s.origin
    decreases |es|
  {
    hide Apply, Enabled;
    if es != [] {
      assert Closed(es[0]);
      OriginGrows(c, s, es[0]);
      SameOrigin(c, Apply(c, s, es[0]), es[1..]);
    }
  }

  /**
   From the start, after any run without storage failure, shutdown or TTL deletion whose jobs decode, the pipeline can go
   on until every job enqueued is done, completed or permanently failed. By BoundedWork and NeverStuck it stops nowhere else.
   */
  lemma EveryJobFinishes(c: Config, s: State, before: seq<Event>) returns (after: seq<Event>)
    requires Init(c, s) && !s.cancelled && Runs(c, s, before) && AllHealthy(before)
    requires Decodable(c, Final(c, s, before)) && c.workers >= 1 && c.capacity >= 1 && c.maxRetryCount >= 1
    ensures var t := Final(c, s, before);
            && Runs(c, t, after) && AllClosed(after) && WorkSteps(after) <= Measure(c, t)
            && forall id :: id in t.origin ==> Finished(Final(c, t, after), id)
  {
    hide Apply, Enabled, HealthyOk, Decodable, Measure, Settled;
    HealthyRunsLoseNothing(c, s, before);
    var t := Final(c, s, before);
    after := Settles(c, t);
    BoundedWork(c, t, after);
    AllClosedHealthy(after);
    HealthyRun(c, t, after);
    SameOrigin(c, t, after);
    forall id | id in t.origin
      ensures Finished(Final(c, t, after), id)
    {
      SettledMeansFinished(c, Final(c, t, after), id);
    }
  }

  lemma AllClosedHealthy(es: seq<Event>)
    requires AllClosed(es)
    ensures AllHealthy(es)
  {
    forall k | 0 <= k < |es|
      ensures Healthy(es[k])
    {
      assert Closed(es[k]);
    }
  }
}
