/**
 The pipeline's steps in plain terms: when a job is alive, where a failed one goes, what is written into a document and
 when a document may be read or deleted. Instants and durations are written out in nanoseconds.
 */
module PipelineSteps {
  import opened Common
  import opened PriorityScore
  import opened Pipeline

  /** A job is alive up to the end of the second in which it expires. */
  predicate Alive(job: Job, now: int) {
    now < (job.expireAt + 1) * 1_000_000_000
  }

  lemma AliveExactly(s: State, job: Job)
    ensures Expired(s, job) <==> !Alive(job, s.now)
  {
  }

  /** A dead job is pushed to the end of the list, or lost. */
  predicate Dies(s: State, t: State, job: Job, pushOk: bool) {
    && t.queue == s.queue
    && t.dlq == (if pushOk then s.dlq + [job] else s.dlq)
    && t.lost == (if pushOk then s.lost else s.lost + [job])
  }

  /** The producer's check: a job goes on to the channel iff it is alive, and is dead-lettered as expired otherwise. */
  lemma CheckExactly(c: Config, s: State, pushOk: bool)
    requires Enabled(c, s, Check(pushOk))
    ensures var t := Apply(c, s, Check(pushOk));
            var job := s.producer.job;
            && (t.producer == Sending(job) <==> s.now < (job.expireAt + 1) * 1_000_000_000)
            && (t.producer != Sending(job) ==> t.producer == Idle && Dies(s, t, job.(errorMsg := "Job expired"), pushOk))
            && (t.producer == Sending(job) ==> t == s.(producer := Sending(job)))
  {
    hide Settle, Recorded, Snaps, UpdateOne, IsBatch, IsMinimum, GivesUp, NewDoc, Bump, Ready;
  }

  /** Where a job goes whose call has failed, its counter already raised. */
  lemma RoutedExactly(c: Config, s: State, job: Job, addOk: bool, pushOk: bool)
    ensures var t := RouteFailure(c, s, job, addOk, pushOk);
            var again := job.retry < job.maxRetry && s.now < (job.expireAt + 1) * 1_000_000_000;
            && t.hands == s.hands
            && (again && addOk ==>
                  && t.queue == s.queue[job := c.score(job.priority, (s.now + c.delay(job.retry)) / 1_000_000_000)]
                  && t.dlq == s.dlq && t.lost == s.lost)
            && (!(again && addOk) ==> Dies(s, t, job, pushOk))
  {
    AliveExactly(s, job);
    InSeconds(s.now + c.delay(job.retry));
    hide Expired, Unix, Alive;
    assert Alive(job, s.now) <==> s.now < (job.expireAt + 1) * 1_000_000_000 by {
      AliveMeans(job, s.now);
    }
  }

  lemma AliveMeans(job: Job, now: int)
    ensures Alive(job, now) <==> now < (job.expireAt + 1) * 1_000_000_000
  {
  }

  lemma InSeconds(t: int)
    ensures Unix(t) == t / 1_000_000_000
  {
  }

  /**
   A failed call: the job is put back into the queue iff it has retries left and is alive, and the queue takes it; otherwise
   it dies. Either way its counter has gone up by one and it carries the error.
   */
  lemma FailureExactly(c: Config, s: State, worker: nat, error: string, addOk: bool, pushOk: bool)
    requires Enabled(c, s, HandleFails(worker, error, addOk, pushOk))
    ensures var t := Apply(c, s, HandleFails(worker, error, addOk, pushOk));
            var job := s.hands[worker].job;
            var failed := job.(retry := job.retry + 1, errorMsg := error);
            var again := job.retry + 1 < job.maxRetry && s.now < (job.expireAt + 1) * 1_000_000_000;
            && t.hands == s.hands[worker := Free]
            && (again && addOk ==>
                  && t.queue == s.queue[failed := c.score(job.priority, (s.now + c.delay(job.retry + 1)) / 1_000_000_000)]
                  && t.dlq == s.dlq && t.lost == s.lost)
            && (!(again && addOk) ==> Dies(s, t, failed, pushOk))
  {
    hide RouteFailure, Bump;
    var job := s.hands[worker].job;
    RoutedExactly(c, s.(hands := s.hands[worker := Free], calls := Bump(s.calls, job.id)), Retried(job, error), addOk, pushOk);
  }

  lemma RoutingCallsNothing(c: Config, s: State, job: Job, addOk: bool, pushOk: bool)
    ensures RouteFailure(c, s, job, addOk, pushOk).calls == s.calls
  {
  }

  lemma CallsOfWorkers(c: Config, s: State, e: Event, id: string)
    requires Enabled(c, s, e) && id in s.calls && (e.Handled? || e.HandleFails?)
    ensures var t := Apply(c, s, e);
            id in t.calls && t.calls[id] == s.calls[id] + if s.hands[e.worker].job.id == id then 1 else 0
  {
    hide Settle, Recorded, Snaps, UpdateOne, IsBatch, IsMinimum, GivesUp, Expired, NewDoc, Ready, RouteFailure;
    if e.HandleFails? {
      var job := s.hands[e.worker].job;
      RoutingCallsNothing(c, s.(hands := s.hands[e.worker := Free], calls := Bump(s.calls, job.id)), Retried(job, e.error),
                          e.addOk, e.pushOk);
    }
  }

  lemma CallsOfStore(c: Config, s: State, e: Event)
    requires Enabled(c, s, e)
    requires e.Check? || e.Requeue? || e.Persist? || e.Begin? || e.Reject? || e.Attempted?
    ensures Apply(c, s, e).calls == s.calls
  {
    hide Settle, Recorded, Snaps, UpdateOne, IsBatch, IsMinimum, GivesUp, Expired, NewDoc, Ready, RouteFailure, Bump, ExpiredJob;
    match e
    case Check(_) =>
    case Requeue(_) =>
    case Persist(_, _) =>
    case Begin(_) =>
    case Reject(_, _) =>
    case Attempted(_, _, _, _) =>
  }

  lemma CallsElsewhere(c: Config, s: State, e: Event)
    requires Enabled(c, s, e) && !e.Handled? && !e.HandleFails?
    ensures Apply(c, s, e).calls == if e.Enqueue? && e.ok then s.calls[e.job.id := 0] else s.calls
  {
    hide Settle, Recorded, Snaps, UpdateOne, IsBatch, IsMinimum, GivesUp, Expired, NewDoc, Ready, RouteFailure, Bump;
    if e.Check? || e.Requeue? || e.Persist? || e.Begin? || e.Reject? || e.Attempted? {
      hide Apply, Enabled;
      CallsOfStore(c, s, e);
    } else {
      match e
      case Advance(_) =>
      case Cancel =>
      case Enqueue(_, _) =>
      case Pop(_) =>
      case Send =>
      case Receive(_) =>
      case TakeDead =>
      case Find(_) =>
      case TtlDelete(_) =>
    }
  }

  /** `calls` counts HandleJob calls of the pool: each handled or failed job raises its own count by one, and nothing else does. */
  lemma CallsExactly(c: Config, s: State, e: Event, id: string)
    requires Enabled(c, s, e) && id in s.calls && (e.Enqueue? ==> e.job.id != id)
    ensures var t := Apply(c, s, e);
            var called := (e.Handled? || e.HandleFails?) && s.hands[e.worker].job.id == id;
            id in t.calls && t.calls[id] == s.calls[id] + if called then 1 else 0
  {
    hide Apply;
    if e.Handled? || e.HandleFails? {
      CallsOfWorkers(c, s, e, id);
    } else {
      CallsElsewhere(c, s, e);
    }
  }

  /** The last instant, as stored, that is not after `u`. */
  function Stored(u: int): int {
    u - u % 1_000_000
  }

  /** What the dead-letter worker writes: the job's own payload and error, untried, to be kept for seven days. */
  predicate WrittenFor(d: Doc, job: Job, now: int) {
    && d.jobId == job.id && d.kind == job.kind && d.payload == job.payload && d.errorMsg == job.errorMsg
    && d.status == Pending && d.retryCount == 0 && d.originalRetryCount == job.retry
    && d.nextRetryAt == None && d.createdAt == Stored(now) && d.expireAt == Stored(now + 604_800_000_000_000)
    && d.present && d.attempts == []
  }

  lemma PersistExactly(c: Config, s: State, ok: bool, pushOk: bool)
    requires Enabled(c, s, Persist(ok, pushOk))
    ensures var t := Apply(c, s, Persist(ok, pushOk));
            var job := s.taken.value;
            && t.taken == None
            && (ok ==>
                  && |t.docs| == |s.docs| + 1 && t.docs[..|s.docs|] == s.docs && WrittenFor(t.docs[|s.docs|], job, s.now)
                  && t.dlq == s.dlq && t.lost == s.lost)
            && (!ok ==> t.docs == s.docs && Dies(s, t, job, pushOk))
  {
    hide Settle, Recorded, Snaps, UpdateOne, IsBatch, IsMinimum, GivesUp, Expired, Bump, Ready;
  }

  /** A new document may be retried at once, if documents are retried at all. */
  lemma NewIsReady(c: Config, d: Doc, job: Job, written: int, now: int)
    requires WrittenFor(d, job, written)
    ensures Ready(c, d, now) <==> c.maxRetryCount > 0
  {
  }

  /** The store may delete a document iff it is still there and its stored expiry has passed. */
  lemma DeletableExactly(c: Config, s: State, i: nat)
    ensures Enabled(c, s, TtlDelete(i)) <==> i < |s.docs| && s.docs[i].present && s.now > s.docs[i].expireAt
  {
  }

  /** What a retry's final update leaves of a document that was read with retry counter `n`. */
  predicate SettledTo(c: Config, d: Doc, to: Doc, n: int, success: bool, error: string, end: int) {
    if success then
      to == d.(status := Completed)
    else if n + 1 >= c.maxRetryCount then
      to == d.(status := PermanentlyFailed, errorMsg := error)
    else
      to == d.(status := Failed, retryCount := n + 1, errorMsg := error,
               nextRetryAt := Some(Stored(end + c.backoff(n + 1))))
  }

  /** One attempt: the call is recorded, and the document is settled iff the update goes through and finds it. */
  lemma AttemptExactly(c: Config, s: State, e: Event)
    requires e.Attempted? && Enabled(c, s, e)
    ensures var t := Apply(c, s, e);
            var snap := s.active.value;
            var d := s.docs[snap.doc];
            var tried := d.(attempts := d.attempts + [Attempt(s.now, e.success)]);
            && |t.docs| == |s.docs| && t.docs == s.docs[snap.doc := t.docs[snap.doc]]
            && (if e.ok && d.present
                then SettledTo(c, tried, t.docs[snap.doc], snap.retryCount, e.success, e.error, e.end)
                else t.docs[snap.doc] == tried)
            && t.now == e.end && t.active == None
  {
    hide Snaps, IsBatch, IsMinimum, GivesUp, Expired, Bump, Ready, NewDoc;
  }

  /** Marking as processing and putting back as failed change the status, and the second the error text; nothing else. */
  lemma MarkingExactly(c: Config, s: State, e: Event)
    requires (e.Begin? || e.Reject?) && Enabled(c, s, e)
    ensures var t := Apply(c, s, e);
            var i := if e.Begin? then s.batch[0].doc else s.active.value.doc;
            var d := s.docs[i];
            var to := if e.Begin? then d.(status := Processing) else d.(status := Failed, errorMsg := e.error);
            && t.docs == (if e.ok && d.present then s.docs[i := to] else s.docs)
            && (e.Begin? ==> t.batch == s.batch[1..] && t.active == if e.ok then Some(s.batch[0]) else s.active)
            && (e.Reject? ==> t.active == None)
  {
    hide Snaps, IsBatch, IsMinimum, GivesUp, Expired, Bump, Ready, NewDoc;
  }

  /**
   When a failed document may be tried again: after its n-th attempt fails, ends at `end` and is recorded, with n below the
   limit, the query selects it at an instant iff RetryInterval*B^n has passed since `end`, to the millisecond.
   */
  lemma RetryReadyExactly(c: Config, s: State, e: Event, now: int)
    requires Deployed(c) && Enabled(c, s, e) && e.Attempted? && !e.success && e.ok
    requires s.docs[s.active.value.doc].present && s.active.value.retryCount + 1 < c.maxRetryCount
    ensures var n := s.active.value.retryCount + 1;
            Ready(c, Apply(c, s, e).docs[s.active.value.doc], now) <==>
              now / 1_000_000 >= (e.end + c.retryInterval * Pow(c.backoffFactor, n)) / 1_000_000
  {
    hide Snaps, IsBatch, IsMinimum, GivesUp, Expired, Bump, NewDoc, Pow;
    AttemptExactly(c, s, e);
    var n := s.active.value.retryCount + 1;
    assert c.backoff(n) == c.retryInterval * Pow(c.backoffFactor, n);
    MillisecondsApart(now, e.end + c.backoff(n));
  }

  lemma MillisecondsApart(a: int, b: int)
    ensures Milli(a) >= Stored(b) <==> a / 1_000_000 >= b / 1_000_000
  {
  }
}
