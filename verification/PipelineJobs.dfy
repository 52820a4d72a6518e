/** Safety of the jobs over every run: conservation, and the bound on HandleJob calls by the pool. */
module PipelineJobs {
  import opened Common
  import opened PriorityScore
  import opened Pipeline
  import opened PipelineFlow

  // ---------- Conservation ----------

  function Names(id: string): Job -> nat {
    (job: Job) => if job.id == id then 1 else 0
  }

  function DocNames(id: string): Doc -> nat {
    (d: Doc) => if d.jobId == id then 1 else 0
  }

  function Tags(id: string): Weights {
    var n := Names(id);
    Weights(n, n, n, n, n, n, n, DocNames(id), n, n)
  }

  /** How many of the places (a document deleted by its TTL still counts as one) hold the job. */
  ghost function Count(s: State, id: string): nat {
    Load(s, Tags(id))
  }

  /** Each enqueued job is in exactly one place, and nothing else is anywhere. */
  ghost predicate Conserved(s: State) {
    forall id :: Count(s, id) == if id in s.origin then 1 else 0
  }

  lemma {:induction false} SumZero<T>(xs: seq<T>, f: T -> nat)
    requires Sum(xs, f) == 0
    ensures forall i :: 0 <= i < |xs| ==> f(xs[i]) == 0
  {
    forall i | 0 <= i < |xs|
      ensures f(xs[i]) == 0
    {
      SumUpdate(xs, i, xs[i], f);
    }
  }

  lemma InQueue(s: State, job: Job)
    requires job in s.queue
    ensures Tally(s.queue.Keys, Names(job.id)) >= 1
  {
    TallyRemove(s.queue.Keys, job, Names(job.id));
  }

  lemma HandCount(s: State, k: nat)
    requires k < |s.hands| && s.hands[k].Busy?
    ensures Sum(s.hands, SlotWeight(Tags(s.hands[k].job.id))) >= 1
  {
    SumUpdate(s.hands, k, Free, SlotWeight(Tags(s.hands[k].job.id)));
  }

  lemma ConservedNoClash(c: Config, s: State, e: Event)
    requires Conserved(s) && Enabled(c, s, e)
    ensures NoClash(s, e)
  {
    match e
    case Enqueue(job, _) =>
      if job in s.queue {
        InQueue(s, job);
        var count := Count(s, job.id);
      }
    case Requeue(_) =>
      var job := s.producer.job;
      if job in s.queue {
        InQueue(s, job);
        var count := Count(s, job.id);
      }
    case HandleFails(k, error, _, _) =>
      var job := Retried(s.hands[k].job, error);
      if job in s.queue {
        InQueue(s, job);
        HandCount(s, k);
        var count := Count(s, job.id);
      }
    case _ =>
  }

  lemma ShiftKeepsNames(c: Config, s: State, e: Event, id: string)
    requires Enabled(c, s, e)
    ensures Shift(c, s, e, Tags(id)) == if e.Enqueue? && e.ok && e.job.id == id then 1 else 0
  {
  }

  lemma ConservedStep(c: Config, s: State, e: Event)
    requires Conserved(s) && Enabled(c, s, e)
    ensures Conserved(Apply(c, s, e))
  {
    hide Apply, Enabled, Load, Shift, NoClash;
    ConservedNoClash(c, s, e);
    OriginGrows(c, s, e);
    forall id
      ensures Count(Apply(c, s, e), id) == if id in Apply(c, s, e).origin then 1 else 0
    {
      var before := Count(s, id);
      Flow(c, s, e, Tags(id));
      ShiftKeepsNames(c, s, e, id);
    }
  }

  lemma OriginGrows(c: Config, s: State, e: Event)
    requires Enabled(c, s, e)
    ensures Apply(c, s, e).origin == if e.Enqueue? && e.ok then s.origin[e.job.id := e.job] else s.origin
    ensures e.Enqueue? ==> e.job.id !in s.origin
  {
    hide Apply;
    if IsProducerEvent(e) {
      ProducerFrame(c, s, e);
    } else if IsWorkerEvent(e) {
      WorkerFrame(c, s, e);
    } else {
      StoreFrame(c, s, e);
    }
  }

  lemma {:induction false} SumFree(hands: seq<Slot>, w: Weights)
    requires forall k :: 0 <= k < |hands| ==> hands[k] == Free
    ensures Sum(hands, SlotWeight(w)) == 0
  {
    if hands != [] {
      SumFree(hands[1..], w);
    }
  }

  lemma InitConserved(c: Config, s: State)
    requires Init(c, s)
    ensures Conserved(s)
  {
    forall id
      ensures Count(s, id) == 0
    {
      SumFree(s.hands, Tags(id));
      assert s.queue.Keys == {};
    }
  }

  // ---------- The pool calls HandleJob a bounded number of times per job ----------

  /** The HandleJob calls a job may get from the pool, given how it was enqueued. */
  function Budget(job: Job): nat {
    Max(1, job.maxRetry - job.retry)
  }

  /** A travelling copy differs from the enqueued job only in its retry counter, which counts the failed calls. */
  predicate Tracked(origin: map<string, Job>, calls: map<string, nat>, job: Job) {
    && job.id in origin && job.id in calls
    && job == origin[job.id].(retry := job.retry, errorMsg := job.errorMsg)
    && job.retry == origin[job.id].retry + calls[job.id]
  }

  predicate Runnable(origin: map<string, Job>, calls: map<string, nat>, job: Job) {
    Tracked(origin, calls, job) && calls[job.id] < Budget(origin[job.id])
  }

  predicate DocTracked(origin: map<string, Job>, calls: map<string, nat>, d: Doc) {
    && d.jobId in origin && d.jobId in calls
    && d.kind == origin[d.jobId].kind && d.payload == origin[d.jobId].payload
    && d.originalRetryCount == origin[d.jobId].retry + calls[d.jobId]
  }

  ghost predicate PoolOk(s: State) {
    && (forall j :: j in s.queue ==> Runnable(s.origin, s.calls, j))
    && (s.producer != Idle ==> Runnable(s.origin, s.calls, s.producer.job))
    && (forall i :: 0 <= i < |s.channel| ==> Runnable(s.origin, s.calls, s.channel[i]))
    && (forall k :: 0 <= k < |s.hands| && s.hands[k].Busy? ==> Runnable(s.origin, s.calls, s.hands[k].job))
  }

  ghost predicate DeadOk(s: State) {
    && (forall i :: 0 <= i < |s.dlq| ==> Tracked(s.origin, s.calls, s.dlq[i]))
    && (s.taken.Some? ==> Tracked(s.origin, s.calls, s.taken.value))
    && (forall i :: 0 <= i < |s.docs| ==> DocTracked(s.origin, s.calls, s.docs[i]))
  }

  ghost predicate BudgetOk(s: State) {
    && s.calls.Keys == s.origin.Keys
    && (forall id :: id in s.origin ==>
          s.origin[id].retry >= 0 && id in s.calls && s.calls[id] <= Budget(s.origin[id]))
  }

  ghost predicate BooksOk(s: State) {
    BudgetOk(s) && PoolOk(s) && DeadOk(s)
  }

  ghost predicate JobsOk(s: State) {
    Conserved(s) && BooksOk(s)
  }

  /** No other place holds the job that worker `k` is handling. */
  ghost predicate Alone(s: State, k: nat)
    requires k < |s.hands| && s.hands[k].Busy?
  {
    var id := s.hands[k].job.id;
    && (forall j :: j in s.queue ==> j.id != id)
    && (s.producer != Idle ==> s.producer.job.id != id)
    && (forall i :: 0 <= i < |s.channel| ==> s.channel[i].id != id)
    && (forall l :: 0 <= l < |s.hands| && l != k && s.hands[l].Busy? ==> s.hands[l].job.id != id)
    && (forall i :: 0 <= i < |s.dlq| ==> s.dlq[i].id != id)
    && (s.taken.Some? ==> s.taken.value.id != id)
    && (forall i :: 0 <= i < |s.docs| ==> s.docs[i].jobId != id)
  }

  lemma HandledAlone(s: State, k: nat)
    requires Conserved(s) && k < |s.hands| && s.hands[k].Busy?
    ensures Alone(s, k)
  {
    var id := s.hands[k].job.id;
    var count := Count(s, id);
    HandCount(s, k);
    forall j | j in s.queue
      ensures j.id != id
    {
      if j.id == id {
        InQueue(s, j);
      }
    }
    SumZero(s.channel, Names(id));
    SumZero(s.dlq, Names(id));
    SumZero(s.docs, DocNames(id));
    OtherHands(s, k);
  }

  lemma OtherHands(s: State, k: nat)
    requires k < |s.hands| && s.hands[k].Busy?
    requires Sum(s.hands, SlotWeight(Tags(s.hands[k].job.id))) <= 1
    ensures forall l :: 0 <= l < |s.hands| && l != k && s.hands[l].Busy? ==> s.hands[l].job.id != s.hands[k].job.id
  {
    var f := SlotWeight(Tags(s.hands[k].job.id));
    forall l | 0 <= l < |s.hands| && l != k && s.hands[l].Busy?
      ensures s.hands[l].job.id != s.hands[k].job.id
    {
      if l < k {
        SumPair(s.hands, l, k, f);
      } else {
        SumPair(s.hands, k, l, f);
      }
    }
  }

  lemma BumpKeepsOthers(s: State, k: nat)
    requires BooksOk(s) && k < |s.hands| && s.hands[k].Busy? && Alone(s, k)
    ensures var job := s.hands[k].job;
            var freed := s.(hands := s.hands[k := Free], calls := Bump(s.calls, job.id));
            BooksOk(freed)
  {
    var job := s.hands[k].job;
    var calls := Bump(s.calls, job.id);
    assert Runnable(s.origin, s.calls, job);
    forall j: Job | j.id != job.id && Runnable(s.origin, s.calls, j)
      ensures Runnable(s.origin, calls, j)
    {
    }
    forall j: Job | j.id != job.id && Tracked(s.origin, s.calls, j)
      ensures Tracked(s.origin, calls, j)
    {
    }
    forall d: Doc | d.jobId != job.id && DocTracked(s.origin, s.calls, d)
      ensures DocTracked(s.origin, calls, d)
    {
    }
  }

  lemma HandledStep(c: Config, s: State, e: Event)
    requires BooksOk(s) && Enabled(c, s, e) && (e.Handled? || e.HandleFails?) && Alone(s, e.worker)
    ensures BooksOk(Apply(c, s, e))
  {
    BumpKeepsOthers(s, e.worker);
    var job := s.hands[e.worker].job;
    var calls := Bump(s.calls, job.id);
    if e.HandleFails? {
      assert Tracked(s.origin, calls, Retried(job, e.error)) by {
        assert Tracked(s.origin, s.calls, job);
      }
      RouteOk(c, s.(hands := s.hands[e.worker := Free], calls := calls), Retried(job, e.error), e.addOk, e.pushOk);
    }
  }

  lemma DeadOkPush(s: State, job: Job, ok: bool)
    requires BooksOk(s) && Tracked(s.origin, s.calls, job)
    ensures var t := MoveToDLQ(s, job, ok); BooksOk(t)
  {
  }

  lemma PoolOkAdd(c: Config, s: State, job: Job, key: int)
    requires BooksOk(s) && Runnable(s.origin, s.calls, job)
    ensures var t := ZAdd(c, s, job, key); BooksOk(t)
  {
  }

  lemma RouteOk(c: Config, s: State, job: Job, addOk: bool, pushOk: bool)
    requires BooksOk(s) && Tracked(s.origin, s.calls, job)
    ensures var t := RouteFailure(c, s, job, addOk, pushOk); BooksOk(t)
  {
    if GivesUp(s, job) || !addOk {
      DeadOkPush(s, job, pushOk);
    } else {
      PoolOkAdd(c, s, job, Unix(s.now + c.delay(job.retry)));
    }
  }

  lemma EnqueueStep(c: Config, s: State, e: Event)
    requires BooksOk(s) && Enabled(c, s, e) && e.Enqueue?
    ensures BooksOk(Apply(c, s, e))
  {
    if !e.ok {
      return;
    }
    var origin, calls := s.origin[e.job.id := e.job], s.calls[e.job.id := 0];
    forall j: Job | Runnable(s.origin, s.calls, j)
      ensures Runnable(origin, calls, j)
    {
    }
    forall j: Job | Tracked(s.origin, s.calls, j)
      ensures Tracked(origin, calls, j)
    {
    }
    forall d: Doc | DocTracked(s.origin, s.calls, d)
      ensures DocTracked(origin, calls, d)
    {
    }
    var booked := s.(origin := origin, calls := calls);
    assert BooksOk(booked);
    PoolOkAdd(c, booked, e.job, e.job.expireAt);
  }

  lemma MovedStep(c: Config, s: State, e: Event)
    requires BooksOk(s) && Enabled(c, s, e)
    requires e.Pop? || e.Send? || e.Receive? || e.TakeDead?
    ensures BooksOk(Apply(c, s, e))
  {
    hide Settle, Recorded, Snaps, UpdateOne, IsBatch, GivesUp, Expired, NewDoc, Bump, Ready, Runnable, Tracked, DocTracked;
    match e
    case Pop(_) =>
    case Send =>
    case Receive(_) =>
    case TakeDead =>
  }

  lemma ProducedStep(c: Config, s: State, e: Event)
    requires BooksOk(s) && Enabled(c, s, e)
    requires e.Check? || e.Requeue?
    ensures BooksOk(Apply(c, s, e))
  {
    hide Settle, Recorded, Snaps, UpdateOne, IsBatch, IsMinimum, GivesUp, NewDoc, Bump, Ready, DocTracked;
    assert Runnable(s.origin, s.calls, s.producer.job);
    var idle := s.(producer := Idle);
    assert BooksOk(idle);
    match e
    case Check(pushOk) =>
      DeadOkPush(idle, ExpiredJob(s.producer.job), pushOk);
    case Requeue(_) =>
      PoolOkAdd(c, idle, s.producer.job, s.producer.job.createdAt);
  }

  lemma PersistStep(c: Config, s: State, e: Event)
    requires BooksOk(s) && Enabled(c, s, e) && e.Persist?
    ensures BooksOk(Apply(c, s, e))
  {
    assert Tracked(s.origin, s.calls, s.taken.value);
    var empty := s.(taken := None);
    assert BooksOk(empty);
    if e.ok {
      var d := NewDoc(s.taken.value, s.now);
      assert DocTracked(s.origin, s.calls, d);
      InsertOk(empty, d);
    } else {
      DeadOkPush(empty, s.taken.value, e.pushOk);
    }
  }

  lemma InsertOk(s: State, d: Doc)
    requires BooksOk(s) && DocTracked(s.origin, s.calls, d)
    ensures BooksOk(s.(docs := s.docs + [d]))
  {
  }

  /** Updates of one document keep its identity. */
  predicate SameDoc(d: Doc, to: Doc) {
    && d.jobId == to.jobId && d.kind == to.kind && d.payload == to.payload
    && d.originalRetryCount == to.originalRetryCount && d.createdAt == to.createdAt
  }

  ghost predicate SameDocs(docs: seq<Doc>, to: seq<Doc>) {
    |docs| == |to| && forall i :: 0 <= i < |docs| ==> SameDoc(docs[i], to[i])
  }

  lemma UpdatedDocs(s: State, t: State)
    requires BooksOk(s) && SameDocs(s.docs, t.docs)
    requires t == s.(now := t.now, docs := t.docs, batch := t.batch, active := t.active)
    ensures BooksOk(t)
  {
  }

  lemma AttemptKeepsDocs(c: Config, s: State, e: Event)
    requires Enabled(c, s, e) && e.Attempted?
    ensures var t := Apply(c, s, e);
            SameDocs(s.docs, t.docs) && t == s.(now := t.now, docs := t.docs, batch := t.batch, active := t.active)
  {
  }

  lemma DocsKept(c: Config, s: State, e: Event)
    requires Enabled(c, s, e) && (e.Begin? || e.Reject? || e.Attempted? || e.TtlDelete?)
    ensures var t := Apply(c, s, e);
            SameDocs(s.docs, t.docs) && t == s.(now := t.now, docs := t.docs, batch := t.batch, active := t.active)
  {
    if e.Attempted? {
      AttemptKeepsDocs(c, s, e);
    } else {
      match e
      case Begin(_) =>
      case Reject(_, _) =>
      case TtlDelete(_) =>
    }
  }

  lemma DocumentStep(c: Config, s: State, e: Event)
    requires BooksOk(s) && Enabled(c, s, e)
    requires e.Begin? || e.Reject? || e.Attempted? || e.TtlDelete?
    ensures BooksOk(Apply(c, s, e))
  {
    DocsKept(c, s, e);
    UpdatedDocs(s, Apply(c, s, e));
  }

  lemma IdleStep(c: Config, s: State, e: Event)
    requires BooksOk(s) && Enabled(c, s, e) && (e.Advance? || e.Cancel? || e.Find?)
    ensures BooksOk(Apply(c, s, e))
  {
  }

  lemma JobsStep(c: Config, s: State, e: Event)
    requires JobsOk(s) && Enabled(c, s, e)
    ensures JobsOk(Apply(c, s, e))
  {
    hide Apply, BooksOk;
    ConservedStep(c, s, e);
    if e.Handled? || e.HandleFails? {
      HandledAlone(s, e.worker);
      HandledStep(c, s, e);
    } else if e.Enqueue? {
      EnqueueStep(c, s, e);
    } else if e.Begin? || e.Reject? || e.Attempted? || e.TtlDelete? {
      DocumentStep(c, s, e);
    } else if e.Persist? {
      PersistStep(c, s, e);
    } else if e.Check? || e.Requeue? {
      ProducedStep(c, s, e);
    } else if e.Advance? || e.Cancel? || e.Find? {
      IdleStep(c, s, e);
    } else {
      MovedStep(c, s, e);
    }
  }

  lemma {:induction false} JobsRun(c: Config, s: State, es: seq<Event>)
    requires JobsOk(s) && Runs(c, s, es)
    ensures JobsOk(Final(c, s, es))
    decreases |es|
  {
    hide Apply, Enabled, JobsOk;
    if es != [] {
      JobsStep(c, s, es[0]);
      JobsRun(c, Apply(c, s, es[0]), es[1..]);
    }
  }

  /** Over every run, storage failures and shutdown included, each enqueued job is in exactly one place. */
  lemma EveryRunConserves(c: Config, s: State, es: seq<Event>, id: string)
    requires Init(c, s) && Runs(c, s, es)
    ensures Count(Final(c, s, es), id) == if id in Final(c, s, es).origin then 1 else 0
  {
    InitConserved(c, s);
    JobsRun(c, s, es);
  }

  /** Over every run the pool calls HandleJob at most max(1, MaxRetry - Retry) times for a job. */
  lemma EveryRunBoundsCalls(c: Config, s: State, es: seq<Event>, id: string)
    requires Init(c, s) && Runs(c, s, es) && id in Final(c, s, es).origin
    ensures var t := Final(c, s, es); id in t.calls && t.calls[id] <= Budget(t.origin[id])
  {
    InitConserved(c, s);
    JobsRun(c, s, es);
  }
}
