/**
 Why a job is dead, how long its document is kept, and in which order jobs leave the channel and the dead-letter list,
 over every run.
 */
module PipelineCauses {
  import opened Common
  import opened Pipeline
  import opened PipelineFlow
  import opened PipelineJobs
  import opened PipelineSteps

  // ---------- No job dies without a cause ----------

  /** No retry failed to be queued. */
  predicate Queues(e: Event) {
    e.HandleFails? ==> e.addOk
  }

  predicate AllQueue(es: seq<Event>) {
    forall k :: 0 <= k < |es| ==> Queues(es[k])
  }

  /** A job with retry counter `retry` has used up its retries, or has outlived its expiry. */
  predicate Cause(origin: map<string, Job>, now: int, id: string, retry: int) {
    id in origin && (retry >= origin[id].maxRetry || now >= (origin[id].expireAt + 1) * 1_000_000_000)
  }

  ghost predicate Caused(s: State) {
    && (forall i :: 0 <= i < |s.dlq| ==> Cause(s.origin, s.now, s.dlq[i].id, s.dlq[i].retry))
    && (s.taken.Some? ==> Cause(s.origin, s.now, s.taken.value.id, s.taken.value.retry))
    && (forall i :: 0 <= i < |s.docs| ==> Cause(s.origin, s.now, s.docs[i].jobId, s.docs[i].originalRetryCount))
  }

  /** Time passing and jobs being enqueued under new ids keep every cause. */
  lemma CausesStay(s: State, t: State)
    requires BooksOk(s) && Caused(s) && t.dlq == s.dlq && t.taken == s.taken && t.docs == s.docs && s.now <= t.now
    requires forall id :: id in s.origin ==> id in t.origin && t.origin[id] == s.origin[id]
    ensures Caused(t)
  {
  }

  lemma CausedPush(s: State, t: State, job: Job, pushOk: bool)
    requires Caused(s) && Dies(s, t, job, pushOk) && Cause(s.origin, s.now, job.id, job.retry)
    requires t.taken == s.taken && t.docs == s.docs && t.origin == s.origin && t.now == s.now
    ensures Caused(t)
  {
  }

  lemma CausedByCheck(c: Config, s: State, e: Event)
    requires BooksOk(s) && Caused(s) && Enabled(c, s, e) && e.Check?
    ensures Caused(Apply(c, s, e))
  {
    CheckExactly(c, s, e.pushOk);
    ProducerFrame(c, s, e);
    TakenStays(c, s, e);
    var t, job := Apply(c, s, e), s.producer.job;
    assert Runnable(s.origin, s.calls, job);
    hide Apply, BooksOk;
    if t.producer == Sending(job) {
    } else {
      CausedPush(s, t, job.(errorMsg := "Job expired"), e.pushOk);
    }
  }

  lemma TakenStays(c: Config, s: State, e: Event)
    requires Enabled(c, s, e) && (e.Check? || e.HandleFails?)
    ensures Apply(c, s, e).taken == s.taken
  {
    hide Settle, Recorded, Snaps, UpdateOne, IsBatch, IsMinimum, GivesUp, Expired, NewDoc, Bump, Ready;
  }

  lemma CausedByFailure(c: Config, s: State, e: Event)
    requires BooksOk(s) && Caused(s) && Enabled(c, s, e) && e.HandleFails? && e.addOk
    ensures Caused(Apply(c, s, e))
  {
    FailureExactly(c, s, e.worker, e.error, e.addOk, e.pushOk);
    WorkerFrame(c, s, e);
    TakenStays(c, s, e);
    var t, job := Apply(c, s, e), s.hands[e.worker].job;
    assert Runnable(s.origin, s.calls, job);
    var failed := job.(retry := job.retry + 1, errorMsg := e.error);
    hide Apply, BooksOk;
    if job.retry + 1 < job.maxRetry && s.now < (job.expireAt + 1) * 1_000_000_000 {
      CausesKept(s, t);
    } else {
      CausedPush(s, t, failed, e.pushOk);
    }
  }

  lemma CausesKept(s: State, t: State)
    requires Caused(s) && t.dlq == s.dlq && t.taken == s.taken && t.docs == s.docs && t.now == s.now && t.origin == s.origin
    ensures Caused(t)
  {
  }

  lemma CausedByPersist(c: Config, s: State, e: Event)
    requires Caused(s) && Enabled(c, s, e) && e.Persist?
    ensures Caused(Apply(c, s, e))
  {
    PersistExactly(c, s, e.ok, e.pushOk);
    StoreFrame(c, s, e);
    var t := Apply(c, s, e);
    assert t.now == s.now;
    hide Apply;
    if e.ok {
      assert forall i :: 0 <= i < |s.docs| ==> t.docs[i] == t.docs[..|s.docs|][i];
    }
  }

  lemma CausedInDocs(c: Config, s: State, e: Event)
    requires Caused(s) && Enabled(c, s, e) && (e.Begin? || e.Reject? || e.Attempted? || e.TtlDelete?)
    ensures Caused(Apply(c, s, e))
  {
    StoreFrame(c, s, e);
    DocsKept(c, s, e);
    var t := Apply(c, s, e);
    hide Apply;
    forall i | 0 <= i < |t.docs|
      ensures Cause(t.origin, t.now, t.docs[i].jobId, t.docs[i].originalRetryCount)
    {
      assert SameDoc(s.docs[i], t.docs[i]);
    }
  }

  lemma CausedElsewhere(c: Config, s: State, e: Event)
    requires BooksOk(s) && Caused(s) && Enabled(c, s, e)
    requires e.Advance? || e.Cancel? || e.Enqueue? || e.Pop? || e.Send? || e.Requeue? || e.Receive? || e.Handled? || e.Find?
    ensures Caused(Apply(c, s, e))
  {
    OriginGrows(c, s, e);
    QuietSteps(c, s, e);
    hide Apply, BooksOk;
    var t := Apply(c, s, e);
    assert forall id :: id in s.origin ==> id in t.origin && t.origin[id] == s.origin[id];
    CausesStay(s, t);
  }

  lemma QuietSteps(c: Config, s: State, e: Event)
    requires Enabled(c, s, e)
    requires e.Advance? || e.Cancel? || e.Enqueue? || e.Pop? || e.Send? || e.Requeue? || e.Receive? || e.Handled? || e.Find?
    ensures var t := Apply(c, s, e); t.dlq == s.dlq && t.taken == s.taken && t.docs == s.docs && s.now <= t.now
  {
    hide Settle, Recorded, Snaps, UpdateOne, IsBatch, IsMinimum, GivesUp, Expired, NewDoc, Bump, Ready;
    match e
    case Advance(_) =>
    case Cancel =>
    case Enqueue(_, _) =>
    case Pop(_) =>
    case Send =>
    case Requeue(_) =>
    case Receive(_) =>
    case Handled(_) =>
    case Find(_) =>
  }

  lemma CausedByTaking(c: Config, s: State, e: Event)
    requires Caused(s) && Enabled(c, s, e) && e.TakeDead?
    ensures Caused(Apply(c, s, e))
  {
    hide Settle, Recorded, Snaps, UpdateOne, IsBatch, IsMinimum, GivesUp, Expired, NewDoc, Bump, Ready;
  }

  lemma CausedStep(c: Config, s: State, e: Event)
    requires BooksOk(s) && Caused(s) && Enabled(c, s, e) && Queues(e)
    ensures Caused(Apply(c, s, e))
  {
    hide Apply, BooksOk, Caused;
    if e.Check? {
      CausedByCheck(c, s, e);
    } else if e.HandleFails? {
      CausedByFailure(c, s, e);
    } else if e.TakeDead? {
      CausedByTaking(c, s, e);
    } else if e.Persist? {
      CausedByPersist(c, s, e);
    } else if e.Begin? || e.Reject? || e.Attempted? || e.TtlDelete? {
      CausedInDocs(c, s, e);
    } else {
      CausedElsewhere(c, s, e);
    }
  }

  lemma {:induction false} CausedRun(c: Config, s: State, es: seq<Event>)
    requires JobsOk(s) && Caused(s) && Runs(c, s, es) && AllQueue(es)
    ensures Caused(Final(c, s, es))
    decreases |es|
  {
    hide Apply, Enabled, Conserved, BooksOk, Caused;
    if es != [] {
      assert Queues(es[0]);
      JobsStep(c, s, es[0]);
      CausedStep(c, s, es[0]);
      assert forall k :: 0 <= k < |es[1..]| ==> es[1..][k] == es[k + 1];
      CausedRun(c, Apply(c, s, es[0]), es[1..]);
    }
  }

  /**
   In every run in which retries can be queued, whatever else fails, a job is in the dead-letter list, in the dead-letter
   worker's hand or in a document only if it has used up its retries or the second in which it expires is over.
   */
  lemma DiesForCause(c: Config, s: State, es: seq<Event>)
    requires Init(c, s) && Runs(c, s, es) && AllQueue(es)
    ensures var t := Final(c, s, es);
            && (forall i :: 0 <= i < |t.dlq| ==> Cause(t.origin, t.now, t.dlq[i].id, t.dlq[i].retry))
            && (t.taken.Some? ==> Cause(t.origin, t.now, t.taken.value.id, t.taken.value.retry))
            && (forall i :: 0 <= i < |t.docs| ==> Cause(t.origin, t.now, t.docs[i].jobId, t.docs[i].originalRetryCount))
  {
    hide Apply, Enabled, JobsOk;
    InitJobs(c, s);
    CausedRun(c, s, es);
  }

  lemma InitJobs(c: Config, s: State)
    requires Init(c, s)
    ensures JobsOk(s) && Caused(s)
  {
    InitConserved(c, s);
  }

  // ---------- Documents are kept for a week ----------

  /** The stored expiry is seven days after the stored creation, and a document gone by its TTL has outlived it. */
  predicate Kept(d: Doc, now: int) {
    && d.expireAt == d.createdAt + 604_800_000_000_000
    && (!d.present ==> now > d.createdAt + 604_800_000_000_000)
  }

  ghost predicate AllKept(s: State) {
    forall i :: 0 <= i < |s.docs| ==> Kept(s.docs[i], s.now)
  }

  lemma KeptByPersist(c: Config, s: State, e: Event)
    requires AllKept(s) && Enabled(c, s, e) && e.Persist?
    ensures AllKept(Apply(c, s, e))
  {
    PersistExactly(c, s, e.ok, e.pushOk);
    var t := Apply(c, s, e);
    assert t.now == s.now;
    hide Apply;
    if e.ok {
      assert forall i :: 0 <= i < |s.docs| ==> t.docs[i] == t.docs[..|s.docs|][i];
    }
  }

  /** Updates change neither the expiry nor, except for the TTL's, the presence of a document. */
  lemma ExpiryStays(c: Config, s: State, e: Event, i: nat)
    requires Enabled(c, s, e) && i < |s.docs| && (e.Begin? || e.Reject? || e.Attempted? || e.TtlDelete?)
    ensures var t := Apply(c, s, e);
            && |t.docs| == |s.docs| && s.now <= t.now
            && t.docs[i].expireAt == s.docs[i].expireAt && t.docs[i].createdAt == s.docs[i].createdAt
            && (t.docs[i].present <==> s.docs[i].present && e != TtlDelete(i))
  {
    hide Snaps, IsBatch, IsMinimum, GivesUp, Expired, NewDoc, Bump, Ready;
    if e.Attempted? {
      AttemptExactly(c, s, e);
      hide Apply;
    } else {
      match e
      case Begin(_) =>
      case Reject(_, _) =>
      case TtlDelete(_) =>
    }
  }

  lemma KeptStep(c: Config, s: State, e: Event)
    requires AllKept(s) && Enabled(c, s, e)
    ensures AllKept(Apply(c, s, e))
  {
    if e.Persist? {
      hide Apply, Enabled, AllKept;
      KeptByPersist(c, s, e);
    } else if e.Begin? || e.Reject? || e.Attempted? || e.TtlDelete? {
      KeptInDocs(c, s, e);
    } else if e.Advance? || e.Find? {
    } else {
      hide Apply, Enabled;
      if IsProducerEvent(e) {
        ProducerFrame(c, s, e);
      } else {
        WorkerFrame(c, s, e);
      }
    }
  }

  lemma KeptInDocs(c: Config, s: State, e: Event)
    requires AllKept(s) && Enabled(c, s, e) && (e.Begin? || e.Reject? || e.Attempted? || e.TtlDelete?)
    ensures AllKept(Apply(c, s, e))
  {
    hide Apply;
    var t := Apply(c, s, e);
    DocsKept(c, s, e);
    forall i | 0 <= i < |t.docs|
      ensures Kept(t.docs[i], t.now)
    {
      ExpiryStays(c, s, e, i);
      assert Kept(s.docs[i], s.now);
      if e == TtlDelete(i) {
        DeletableExactly(c, s, i);
      }
    }
  }

  lemma {:induction false} KeptRun(c: Config, s: State, es: seq<Event>)
    requires AllKept(s) && Runs(c, s, es)
    ensures AllKept(Final(c, s, es))
    decreases |es|
  {
    hide Apply, Enabled, AllKept;
    if es != [] {
      KeptStep(c, s, es[0]);
      KeptRun(c, Apply(c, s, es[0]), es[1..]);
    }
  }

  /** In every reachable state a document that the TTL has deleted is more than seven days old. */
  lemma KeptForAWeek(c: Config, s: State, es: seq<Event>, i: nat)
    requires Init(c, s) && Runs(c, s, es) && i < |Final(c, s, es).docs|
    ensures var t := Final(c, s, es);
            && t.docs[i].expireAt == t.docs[i].createdAt + 604_800_000_000_000
            && (!t.docs[i].present ==> t.now > t.docs[i].createdAt + 604_800_000_000_000)
  {
    hide Apply, Enabled;
    KeptRun(c, s, es);
    assert Kept(Final(c, s, es).docs[i], Final(c, s, es).now);
  }

  // ---------- First in, first out ----------

  /** The job a step puts into the channel, and the job it takes out. */
  function Sent(s: State, e: Event): seq<Job> {
    if e.Send? && s.producer.Sending? then [s.producer.job] else []
  }

  function Received(s: State, t: State, e: Event): seq<Job> {
    if e.Receive? && e.worker < |t.hands| && t.hands[e.worker].Busy? then [t.hands[e.worker].job] else []
  }

  ghost function AllSent(c: Config, s: State, es: seq<Event>): seq<Job>
    requires Runs(c, s, es)
    decreases |es|
  {
    if es == [] then [] else Sent(s, es[0]) + AllSent(c, Apply(c, s, es[0]), es[1..])
  }

  ghost function AllReceived(c: Config, s: State, es: seq<Event>): seq<Job>
    requires Runs(c, s, es)
    decreases |es|
  {
    if es == [] then []
    else Received(s, Apply(c, s, es[0]), es[0]) + AllReceived(c, Apply(c, s, es[0]), es[1..])
  }

  lemma ChannelMoves(c: Config, s: State, e: Event)
    requires Enabled(c, s, e) && (e.Send? || e.Receive?)
    ensures var t := Apply(c, s, e); s.channel + Sent(s, e) == Received(s, t, e) + t.channel
    ensures |s.channel| <= c.capacity ==> |Apply(c, s, e).channel| <= c.capacity
  {
    hide Settle, Recorded, Snaps, UpdateOne, IsBatch, IsMinimum, GivesUp, Expired, NewDoc, Bump, Ready;
    match e
    case Send =>
    case Receive(_) => assert s.channel == [s.channel[0]] + s.channel[1..];
  }

  lemma ChannelStays(c: Config, s: State, e: Event)
    requires Enabled(c, s, e) && !e.Send? && !e.Receive?
    ensures Apply(c, s, e).channel == s.channel
  {
    hide Settle, Recorded, Snaps, UpdateOne, IsBatch, IsMinimum, GivesUp, Expired, NewDoc, Bump, Ready;
    if IsProducerEvent(e) || IsWorkerEvent(e) {
      match e
      case Cancel =>
      case Enqueue(_, _) =>
      case Pop(_) =>
      case Check(_) =>
      case Requeue(_) =>
      case Handled(_) =>
      case HandleFails(_, _, _, _) =>
      case TakeDead =>
    }
  }

  /** Over every run the workers receive the jobs in the order in which the producer sent them, each once. */
  lemma {:induction false} ChannelInOrder(c: Config, s: State, es: seq<Event>)
    requires Runs(c, s, es)
    ensures s.channel + AllSent(c, s, es) == AllReceived(c, s, es) + Final(c, s, es).channel
    ensures |s.channel| <= c.capacity ==> |Final(c, s, es).channel| <= c.capacity
    decreases |es|
  {
    hide Apply, Enabled;
    if es != [] {
      var e, t := es[0], Apply(c, s, es[0]);
      if e.Send? || e.Receive? {
        ChannelMoves(c, s, e);
      } else {
        ChannelStays(c, s, e);
      }
      ChannelInOrder(c, t, es[1..]);
      Telescope(s.channel, Sent(s, e), AllSent(c, t, es[1..]), Received(s, t, e), t.channel, AllReceived(c, t, es[1..]),
                Final(c, t, es[1..]).channel);
    }
  }

  lemma Telescope<T>(a: seq<T>, sent: seq<T>, later: seq<T>, got: seq<T>, b: seq<T>, gotLater: seq<T>, last: seq<T>)
    requires a + sent == got + b && b + later == gotLater + last
    ensures a + (sent + later) == (got + gotLater) + last
  {
    assert a + (sent + later) == (a + sent) + later == got + (b + later);
    assert got + (gotLater + last) == (got + gotLater) + last;
  }

  function JobIds(jobs: seq<Job>): (ids: seq<string>)
    ensures |ids| == |jobs|
  {
    seq(|jobs|, i requires 0 <= i < |jobs| => jobs[i].id)
  }

  function DocIds(docs: seq<Doc>): (ids: seq<string>)
    ensures |ids| == |docs|
  {
    seq(|docs|, i requires 0 <= i < |docs| => docs[i].jobId)
  }

  /** The dead jobs in line: those that have a document, the one in the dead-letter worker's hand, those in the list. */
  function Line(s: State): seq<string> {
    DocIds(s.docs) + (if s.taken.Some? then [s.taken.value.id] else []) + JobIds(s.dlq)
  }

  lemma JoinsLine(s: State, t: State, job: Job, pushOk: bool)
    requires Dies(s, t, job, pushOk) && t.docs == s.docs && t.taken == s.taken
    ensures Line(s) <= Line(t)
  {
    if pushOk {
      assert JobIds(t.dlq) == JobIds(s.dlq) + [job.id];
      assert Line(t) == Line(s) + [job.id];
    }
  }

  lemma LineMoves(c: Config, s: State, e: Event)
    requires Enabled(c, s, e) && (e.TakeDead? || (e.Persist? && e.ok))
    ensures Line(Apply(c, s, e)) == Line(s)
  {
    hide Settle, Recorded, Snaps, UpdateOne, IsBatch, IsMinimum, GivesUp, Expired, Bump, Ready;
    var t := Apply(c, s, e);
    if e.TakeDead? {
      assert s.dlq == [s.dlq[0]] + s.dlq[1..];
      assert JobIds(s.dlq) == [s.dlq[0].id] + JobIds(t.dlq);
    } else {
      PersistExactly(c, s, e.ok, e.pushOk);
      assert forall i :: 0 <= i < |s.docs| ==> t.docs[i] == t.docs[..|s.docs|][i];
      assert DocIds(t.docs) == DocIds(s.docs) + [s.taken.value.id];
    }
  }

  lemma LineStep(c: Config, s: State, e: Event)
    requires Enabled(c, s, e) && (e.Persist? ==> e.ok)
    ensures Line(s) <= Line(Apply(c, s, e))
  {
    hide Apply, Enabled, Line, Dies;
    if e.TakeDead? || e.Persist? {
      LineMoves(c, s, e);
    } else if e.Check? {
      LineAtCheck(c, s, e);
    } else if e.HandleFails? {
      LineAtFailure(c, s, e);
    } else if e.Begin? || e.Reject? || e.Attempted? || e.TtlDelete? {
      LineInDocs(c, s, e);
    } else {
      LineElsewhere(c, s, e);
    }
  }

  lemma LineAtCheck(c: Config, s: State, e: Event)
    requires Enabled(c, s, e) && e.Check?
    ensures Line(s) <= Line(Apply(c, s, e))
  {
    hide Apply, Line, Dies;
    CheckExactly(c, s, e.pushOk);
    ProducerFrame(c, s, e);
    TakenStays(c, s, e);
    var t, job := Apply(c, s, e), s.producer.job;
    if t.producer != Sending(job) {
      JoinsLine(s, t, job.(errorMsg := "Job expired"), e.pushOk);
    } else {
      SameLine(s, t);
    }
  }

  lemma LineAtFailure(c: Config, s: State, e: Event)
    requires Enabled(c, s, e) && e.HandleFails?
    ensures Line(s) <= Line(Apply(c, s, e))
  {
    hide Apply, Line, Dies;
    FailureExactly(c, s, e.worker, e.error, e.addOk, e.pushOk);
    WorkerFrame(c, s, e);
    TakenStays(c, s, e);
    var t, job := Apply(c, s, e), s.hands[e.worker].job;
    if job.retry + 1 < job.maxRetry && s.now < (job.expireAt + 1) * 1_000_000_000 && e.addOk {
      SameLine(s, t);
    } else {
      JoinsLine(s, t, job.(retry := job.retry + 1, errorMsg := e.error), e.pushOk);
    }
  }

  lemma LineInDocs(c: Config, s: State, e: Event)
    requires Enabled(c, s, e) && (e.Begin? || e.Reject? || e.Attempted? || e.TtlDelete?)
    ensures Line(Apply(c, s, e)) == Line(s)
  {
    hide Apply;
    DocsKept(c, s, e);
    var t := Apply(c, s, e);
    assert forall i :: 0 <= i < |s.docs| ==> SameDoc(s.docs[i], t.docs[i]);
    assert DocIds(t.docs) == DocIds(s.docs);
  }

  lemma LineElsewhere(c: Config, s: State, e: Event)
    requires Enabled(c, s, e)
    requires e.Advance? || e.Cancel? || e.Enqueue? || e.Pop? || e.Send? || e.Requeue? || e.Receive? || e.Handled? || e.Find?
    ensures Line(Apply(c, s, e)) == Line(s)
  {
    hide Apply;
    QuietSteps(c, s, e);
  }

  lemma SameLine(s: State, t: State)
    requires t.docs == s.docs && t.taken == s.taken && t.dlq == s.dlq
    ensures Line(t) == Line(s)
  {
  }

  /**
   Over every run in which no insert fails, dead jobs get their documents in the order in which they died: nobody in line is
   overtaken.
   */
  lemma {:induction false} DeadInOrder(c: Config, s: State, es: seq<Event>)
    requires Runs(c, s, es) && forall k :: 0 <= k < |es| && es[k].Persist? ==> es[k].ok
    ensures Line(s) <= Line(Final(c, s, es))
    decreases |es|
  {
    hide Apply, Enabled, Line;
    if es != [] {
      LineStep(c, s, es[0]);
      assert forall k :: 0 <= k < |es[1..]| ==> es[1..][k] == es[k + 1];
      DeadInOrder(c, Apply(c, s, es[0]), es[1..]);
    }
  }
}
