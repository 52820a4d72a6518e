/** Safety of the dead-letter documents over every run: status machine, attempt bound, spacing of attempts. */
module PipelineDocs {
  import opened Common
  import opened Pipeline
  import opened PipelineFlow
  import opened PipelineJobs

  ghost predicate Spaced(c: Config, attempts: seq<Attempt>) {
    forall k :: 1 <= k < |attempts| ==> attempts[k - 1].at + c.backoff(k) < attempts[k].at + MILLISECOND
  }

  /** After a failed attempt the document waits until the backoff has passed. */
  predicate NextOk(c: Config, d: Doc) {
    if d.attempts == [] then d.nextRetryAt.None?
    else d.nextRetryAt.Some? && d.attempts[|d.attempts| - 1].at + c.backoff(|d.attempts|) < d.nextRetryAt.value + MILLISECOND
  }

  predicate StatusOk(c: Config, d: Doc) {
    match d.status
    case Pending => d.retryCount == 0 && (d.present ==> d.attempts == [])
    case Failed => d.present ==> |d.attempts| == d.retryCount
    case Processing => true
    case Completed => 0 < |d.attempts| == d.retryCount + 1 && d.attempts[|d.attempts| - 1].ok
    case PermanentlyFailed =>
      0 < |d.attempts| == d.retryCount + 1 == c.maxRetryCount && !d.attempts[|d.attempts| - 1].ok
  }

  ghost predicate DocOk(c: Config, d: Doc, now: int) {
    && 0 <= d.retryCount <= |d.attempts| <= d.retryCount + 1
    && (d.retryCount > 0 ==> d.retryCount < c.maxRetryCount)
    && (d.attempts != [] ==> |d.attempts| <= c.maxRetryCount)
    && (forall k :: 0 <= k < d.retryCount ==> !d.attempts[k].ok)
    && (forall k :: 0 <= k < |d.attempts| ==> d.attempts[k].at <= now)
    && Spaced(c, d.attempts)
    && (c.decode(d.payload).None? ==> d.attempts == [])
    && (|d.attempts| == d.retryCount ==> NextOk(c, d))
    && StatusOk(c, d)
  }

  /** What the consumer read is still what the store holds. */
  predicate SnapOk(c: Config, docs: seq<Doc>, now: int, snap: Snapshot) {
    && snap.doc < |docs|
    && snap == Snap(docs, snap.doc)
    && |docs[snap.doc].attempts| == snap.retryCount < c.maxRetryCount
    && (docs[snap.doc].nextRetryAt.Some? ==> docs[snap.doc].nextRetryAt.value <= now)
  }

  ghost predicate BatchOk(c: Config, docs: seq<Doc>, now: int, batch: seq<Snapshot>) {
    && (forall k :: 0 <= k < |batch| ==> SnapOk(c, docs, now, batch[k]))
    && (forall k :: 0 <= k < |batch| && docs[batch[k].doc].present ==>
          docs[batch[k].doc].status == Pending || docs[batch[k].doc].status == Failed)
    && (forall k, l :: 0 <= k < l < |batch| ==> batch[k].doc != batch[l].doc)
  }

  ghost predicate ActiveOk(c: Config, docs: seq<Doc>, now: int, batch: seq<Snapshot>, active: Option<Snapshot>) {
    active.Some? ==>
      && SnapOk(c, docs, now, active.value)
      && (docs[active.value.doc].present ==> docs[active.value.doc].status == Processing)
      && forall k :: 0 <= k < |batch| ==> batch[k].doc != active.value.doc
  }

  ghost predicate AllOk(c: Config, docs: seq<Doc>, now: int) {
    forall i :: 0 <= i < |docs| ==> DocOk(c, docs[i], now)
  }

  ghost predicate DocsOk(c: Config, s: State) {
    AllOk(c, s.docs, s.now) && BatchOk(c, s.docs, s.now, s.batch) && ActiveOk(c, s.docs, s.now, s.batch, s.active)
  }

  lemma Later(c: Config, s: State, now: int)
    requires DocsOk(c, s) && s.now <= now
    ensures DocsOk(c, s.(now := now))
  {
  }

  /** Replacing a document nobody in the batch refers to keeps the batch good. */
  lemma BatchKept(c: Config, docs: seq<Doc>, i: nat, d: Doc, now: int, batch: seq<Snapshot>)
    requires BatchOk(c, docs, now, batch) && i < |docs|
    requires forall k :: 0 <= k < |batch| ==> batch[k].doc != i
    ensures BatchOk(c, docs[i := d], now, batch)
  {
  }

  lemma AllKept(c: Config, docs: seq<Doc>, i: nat, d: Doc, now: int)
    requires AllOk(c, docs, now) && i < |docs| && DocOk(c, d, now)
    ensures AllOk(c, docs[i := d], now)
  {
  }

  lemma FindStep(c: Config, s: State, picks: seq<nat>)
    requires DocsOk(c, s) && Enabled(c, s, Find(picks))
    ensures DocsOk(c, Apply(c, s, Find(picks)))
  {
    forall k | 0 <= k < |picks|
      ensures SnapOk(c, s.docs, s.now, Snap(s.docs, picks[k]))
    {
      assert Ready(c, s.docs[picks[k]], s.now) && DocOk(c, s.docs[picks[k]], s.now);
    }
  }

  lemma BeginStep(c: Config, s: State, ok: bool)
    requires DocsOk(c, s) && Enabled(c, s, Begin(ok))
    ensures DocsOk(c, Apply(c, s, Begin(ok)))
  {
  }

  lemma RejectStep(c: Config, s: State, error: string, ok: bool)
    requires DocsOk(c, s) && Enabled(c, s, Reject(error, ok))
    ensures DocsOk(c, Apply(c, s, Reject(error, ok)))
  {
    var snap := s.active.value;
    var d := s.docs[snap.doc];
    assert SnapOk(c, s.docs, s.now, snap) && DocOk(c, d, s.now);
    var failed := d.(status := Failed, errorMsg := error);
    assert DocOk(c, failed, s.now);
    AllKept(c, s.docs, snap.doc, failed, s.now);
    BatchKept(c, s.docs, snap.doc, failed, s.now, s.batch);
  }

  lemma RecordedOk(c: Config, docs: seq<Doc>, snap: Snapshot, now: int, success: bool)
    requires SnapOk(c, docs, now, snap) && DocOk(c, docs[snap.doc], now)
    requires c.decode(snap.payload).Some?
    requires docs[snap.doc].present ==> docs[snap.doc].status == Processing
    ensures DocOk(c, Recorded(docs[snap.doc], now, success), now)
  {
  }

  lemma SettledOk(c: Config, tried: Doc, retryCount: nat, success: bool, error: string, start: int, end: int)
    requires DocOk(c, tried, start) && start <= end
    requires tried.retryCount == retryCount && |tried.attempts| == retryCount + 1
    requires tried.attempts[retryCount] == Attempt(start, success)
    ensures DocOk(c, Settle(c, tried, retryCount, success, error, end), end)
  {
  }

  lemma AttemptStep(c: Config, s: State, e: Event)
    requires e.Attempted? && DocsOk(c, s) && Enabled(c, s, e)
    ensures DocsOk(c, Apply(c, s, e))
  {
    hide Settle, Snaps, IsBatch, IsMinimum, GivesUp, Expired, NewDoc, Bump, Ready, Spaced, NextOk, StatusOk;
    var snap := s.active.value;
    var d := s.docs[snap.doc];
    assert SnapOk(c, s.docs, s.now, snap) && DocOk(c, d, s.now);
    RecordedOk(c, s.docs, snap, s.now, e.success);
    var tried := Recorded(d, s.now, e.success);
    var settled := Settle(c, tried, snap.retryCount, e.success, e.error, e.end);
    SettledOk(c, tried, snap.retryCount, e.success, e.error, s.now, e.end);
    Later(c, s, e.end);
    assert DocOk(c, tried, e.end);
    var docs := s.docs[snap.doc := tried];
    AllKept(c, s.docs, snap.doc, tried, e.end);
    BatchKept(c, s.docs, snap.doc, tried, e.end, s.batch);
    AllKept(c, docs, snap.doc, settled, e.end);
    BatchKept(c, docs, snap.doc, settled, e.end, s.batch);
  }

  lemma TtlStep(c: Config, s: State, i: nat)
    requires DocsOk(c, s) && Enabled(c, s, TtlDelete(i))
    ensures DocsOk(c, Apply(c, s, TtlDelete(i)))
  {
    hide Settle, Recorded, Snaps, IsBatch, IsMinimum, Ready;
    var gone := s.docs[i].(present := false);
    assert DocOk(c, gone, s.now) by {
      assert DocOk(c, s.docs[i], s.now);
    }
    AllKept(c, s.docs, i, gone, s.now);
  }

  lemma PersistStep(c: Config, s: State, ok: bool, pushOk: bool)
    requires DocsOk(c, s) && Enabled(c, s, Persist(ok, pushOk))
    ensures DocsOk(c, Apply(c, s, Persist(ok, pushOk)))
  {
  }

  /** The pool's own steps do not touch the documents or the consumer. */
  lemma PoolFrame(c: Config, s: State, e: Event)
    requires Enabled(c, s, e) && (IsProducerEvent(e) || IsWorkerEvent(e))
    ensures var t := Apply(c, s, e);
            t.docs == s.docs && t.batch == s.batch && t.active == s.active && t.now == s.now
  {
    hide Apply, Enabled;
    if IsProducerEvent(e) {
      ProducerFrame(c, s, e);
    } else {
      WorkerFrame(c, s, e);
    }
  }

  lemma DocsStep(c: Config, s: State, e: Event)
    requires DocsOk(c, s) && Enabled(c, s, e)
    ensures DocsOk(c, Apply(c, s, e))
  {
    hide Settle, Recorded, Snaps, UpdateOne, IsBatch, IsMinimum, GivesUp, Expired, NewDoc, Bump, Ready;
    match e
    case Advance(to) => Later(c, s, to);
    case Persist(ok, pushOk) => PersistStep(c, s, ok, pushOk);
    case Find(picks) => FindStep(c, s, picks);
    case Begin(ok) => BeginStep(c, s, ok);
    case Reject(error, ok) => RejectStep(c, s, error, ok);
    case Attempted(_, _, _, _) => AttemptStep(c, s, e);
    case TtlDelete(i) => TtlStep(c, s, i);
    case _ => PoolFrame(c, s, e);
  }

  lemma {:induction false} DocsRun(c: Config, s: State, es: seq<Event>)
    requires DocsOk(c, s) && Runs(c, s, es)
    ensures DocsOk(c, Final(c, s, es))
    decreases |es|
  {
    hide Apply, Enabled, DocsOk;
    if es != [] {
      DocsStep(c, s, es[0]);
      DocsRun(c, Apply(c, s, es[0]), es[1..]);
    }
  }

  lemma InitDocs(c: Config, s: State)
    requires Init(c, s)
    ensures DocsOk(c, s)
  {
  }

  // ---------- Main results ----------

  /** What a document says about its HandleJob calls, in every reachable state. */
  lemma EveryRunKeepsDocuments(c: Config, s: State, es: seq<Event>, i: nat)
    requires Init(c, s) && Runs(c, s, es) && i < |Final(c, s, es).docs|
    ensures var d := Final(c, s, es).docs[i];
            && 0 <= d.retryCount && (c.maxRetryCount >= 1 ==> d.retryCount < c.maxRetryCount)
            && |d.attempts| <= Max(0, c.maxRetryCount)
            && (d.status == PermanentlyFailed ==>
                  && |d.attempts| == c.maxRetryCount && d.retryCount == c.maxRetryCount - 1
                  && forall k :: 0 <= k < |d.attempts| ==> !d.attempts[k].ok)
            && (d.status == Completed ==>
                  0 < |d.attempts| && forall k :: 0 <= k < |d.attempts| ==> (d.attempts[k].ok <==> k == |d.attempts| - 1))
            && (d.present && (d.status == Pending || d.status == Failed) ==>
                  |d.attempts| == d.retryCount && forall k :: 0 <= k < |d.attempts| ==> !d.attempts[k].ok)
  {
    hide Apply, Enabled;
    InitDocs(c, s);
    DocsRun(c, s, es);
    var d := Final(c, s, es).docs[i];
    assert DocOk(c, d, Final(c, s, es).now);
  }

  /** In every reachable state a document whose payload does not decode has not been attempted and is not finished. */
  lemma UndecodableNeverFinishes(c: Config, s: State, es: seq<Event>, i: nat)
    requires Init(c, s) && Runs(c, s, es) && i < |Final(c, s, es).docs|
    requires c.decode(Final(c, s, es).docs[i].payload).None?
    ensures Final(c, s, es).docs[i].attempts == [] && !Terminal(Final(c, s, es).docs[i])
  {
    hide Apply, Enabled;
    InitDocs(c, s);
    DocsRun(c, s, es);
    assert DocOk(c, Final(c, s, es).docs[i], Final(c, s, es).now);
  }

  predicate Terminal(d: Doc) {
    d.status == Completed || d.status == PermanentlyFailed
  }

  /**
   Finished documents, and those left in `processing` by an update that failed after the consumer let go of them.
   */
  ghost predicate Frozen(s: State, i: nat) {
    && i < |s.docs| && s.docs[i].present
    && (Terminal(s.docs[i]) || (s.docs[i].status == Processing && (s.active.None? || s.active.value.doc != i)))
  }

  /** The consumer's next move is never on a frozen document. */
  lemma FrozenUntouched(c: Config, s: State, i: nat)
    requires DocsOk(c, s) && Frozen(s, i)
    ensures s.batch != [] ==> s.batch[0].doc != i
    ensures s.active.Some? ==> s.active.value.doc != i
  {
  }

  lemma FrozenInStore(c: Config, s: State, e: Event, i: nat)
    requires Enabled(c, s, e) && Frozen(s, i) && e != TtlDelete(i)
    requires s.batch != [] ==> s.batch[0].doc != i
    requires s.active.Some? ==> s.active.value.doc != i
    requires e.Persist? || e.Begin? || e.Reject? || e.TtlDelete?
    ensures var t := Apply(c, s, e); Frozen(t, i) && t.docs[i] == s.docs[i]
  {
    hide Settle, Snaps, IsBatch, IsMinimum, GivesUp, Expired, NewDoc, Bump, Ready;
    match e
    case Persist(_, _) =>
    case Begin(_) =>
    case Reject(_, _) =>
    case TtlDelete(_) =>
  }

  lemma FrozenInAttempt(c: Config, s: State, e: Event, i: nat)
    requires Enabled(c, s, e) && Frozen(s, i) && e.Attempted?
    requires s.active.Some? ==> s.active.value.doc != i
    ensures var t := Apply(c, s, e); Frozen(t, i) && t.docs[i] == s.docs[i]
  {
  }

  lemma FrozenStep(c: Config, s: State, e: Event, i: nat)
    requires DocsOk(c, s) && Enabled(c, s, e) && Frozen(s, i) && e != TtlDelete(i)
    ensures var t := Apply(c, s, e); Frozen(t, i) && t.docs[i] == s.docs[i]
  {
    hide Enabled;
    if e.Attempted? {
      FrozenUntouched(c, s, i);
      FrozenInAttempt(c, s, e, i);
    } else if e.Persist? || e.Begin? || e.Reject? || e.TtlDelete? {
      FrozenUntouched(c, s, i);
      FrozenInStore(c, s, e, i);
    } else if e.Advance? || e.Find? {
    } else {
      PoolFrame(c, s, e);
    }
  }

  /**
   Completed and permanently failed are absorbing: the document never changes again until the TTL deletes it.
   So is `processing` once the final update has failed: such a document is never retried.
   */
  lemma {:induction false} FrozenForever(c: Config, s: State, es: seq<Event>, i: nat)
    requires DocsOk(c, s) && Runs(c, s, es) && Frozen(s, i)
    requires forall k :: 0 <= k < |es| ==> es[k] != TtlDelete(i)
    ensures Frozen(Final(c, s, es), i) && Final(c, s, es).docs[i] == s.docs[i]
    decreases |es|
  {
    hide Apply, Enabled, DocsOk, Frozen;
    if es != [] {
      DocsStep(c, s, es[0]);
      FrozenStep(c, s, es[0], i);
      FrozenForever(c, Apply(c, s, es[0]), es[1..], i);
    }
  }

  /** In `processing` though the consumer is not at work on it. */
  ghost predicate Stuck(s: State, i: nat) {
    i < |s.docs| && s.docs[i].present && s.docs[i].status == Processing && (s.active.None? || s.active.value.doc != i)
  }

  lemma StuckInStore(c: Config, s: State, e: Event, i: nat)
    requires DocsOk(c, s) && Enabled(c, s, e) && i < |s.docs| && !Stuck(s, i)
    requires e.Persist? || e.Begin? || e.Reject? || e.TtlDelete?
    ensures Stuck(Apply(c, s, e), i) <==> e.Reject? && !e.ok && s.active.value.doc == i && s.docs[i].present
  {
    hide Settle, Recorded, Snaps, IsBatch, IsMinimum, GivesUp, Expired, Bump, Ready, Spaced, NextOk, StatusOk;
    match e
    case Persist(_, _) =>
    case Begin(_) => assert SnapOk(c, s.docs, s.now, s.batch[0]);
    case Reject(_, _) =>
    case TtlDelete(_) =>
  }

  lemma StuckInAttempt(c: Config, s: State, e: Event, i: nat)
    requires DocsOk(c, s) && Enabled(c, s, e) && i < |s.docs| && !Stuck(s, i) && e.Attempted?
    ensures Stuck(Apply(c, s, e), i) <==> !e.ok && s.active.value.doc == i && s.docs[i].present
  {
    hide Snaps, IsBatch, IsMinimum, GivesUp, Expired, NewDoc, Bump, Ready, Spaced, NextOk, StatusOk;
  }

  /** A document gets stuck exactly when the update that ends its retry fails. */
  lemma StuckExactly(c: Config, s: State, e: Event, i: nat)
    requires DocsOk(c, s) && Enabled(c, s, e) && i < |s.docs| && !Stuck(s, i)
    ensures Stuck(Apply(c, s, e), i) <==>
              (e.Reject? || e.Attempted?) && !e.ok && s.active.value.doc == i && s.docs[i].present
  {
    hide Enabled, DocsOk;
    if e.Attempted? {
      StuckInAttempt(c, s, e, i);
    } else if e.Persist? || e.Begin? || e.Reject? || e.TtlDelete? {
      StuckInStore(c, s, e, i);
    } else if e.Advance? || e.Find? {
    } else {
      PoolFrame(c, s, e);
    }
  }

  function BackoffSum(c: Config, n: nat): int {
    if n == 0 then 0 else BackoffSum(c, n - 1) + c.backoff(n)
  }

  lemma GeometricStep(b: int, i: int, p: int, sum: int)
    requires (b - 1) * sum == i * (p - b)
    ensures (b - 1) * (sum + i * p) == i * (b * p - b)
  {
  }

  /** (B - 1) * (I*B + ... + I*B^n) == I * (B^(n+1) - B). */
  lemma {:induction false} GeometricSum(c: Config, n: nat)
    requires Deployed(c)
    ensures (c.backoffFactor - 1) * BackoffSum(c, n) == c.retryInterval * (Pow(c.backoffFactor, n + 1) - c.backoffFactor)
  {
    if n == 0 {
      assert Pow(c.backoffFactor, 1) == c.backoffFactor * Pow(c.backoffFactor, 0);
    } else {
      GeometricSum(c, n - 1);
      GeometricStep(c.backoffFactor, c.retryInterval, Pow(c.backoffFactor, n), BackoffSum(c, n - 1));
    }
  }

  lemma {:induction false} SpacedSpan(c: Config, attempts: seq<Attempt>, n: nat)
    requires Spaced(c, attempts) && n < |attempts|
    ensures attempts[n].at - attempts[0].at >= BackoffSum(c, n) - n * MILLISECOND
  {
    if n > 0 {
      SpacedSpan(c, attempts, n - 1);
    }
  }

  /**
   In every reachable state, failed attempt k and attempt k+1 of a document are RetryInterval*B^k apart, so n attempts
   span at least RetryInterval*(B^n - B)/(B - 1), each less the millisecond that the stored instant may lose.
   */
  lemma EveryRunSpacesAttempts(c: Config, s: State, es: seq<Event>, i: nat, k: nat)
    requires Deployed(c) && Init(c, s) && Runs(c, s, es) && i < |Final(c, s, es).docs|
    requires 1 <= k < |Final(c, s, es).docs[i].attempts|
    ensures var a := Final(c, s, es).docs[i].attempts;
            && a[k].at - a[k - 1].at > c.retryInterval * Pow(c.backoffFactor, k) - MILLISECOND
            && (c.backoffFactor >= 2 ==>
                  (c.backoffFactor - 1) * (a[k].at - a[0].at + k * MILLISECOND)
                  >= c.retryInterval * (Pow(c.backoffFactor, k + 1) - c.backoffFactor))
  {
    hide Apply, Enabled;
    InitDocs(c, s);
    DocsRun(c, s, es);
    var a := Final(c, s, es).docs[i].attempts;
    assert DocOk(c, Final(c, s, es).docs[i], Final(c, s, es).now);
    SpacedSpan(c, a, k);
    GeometricSum(c, k);
    if c.backoffFactor >= 2 {
      TimesLe(c.backoffFactor - 1, BackoffSum(c, k), a[k].at - a[0].at + k * MILLISECOND);
    }
  }

  lemma TimesLe(f: int, x: int, y: int)
    requires f >= 0 && x <= y
    ensures f * x <= f * y
  {
  }

  function AttemptsOf(id: string): Doc -> nat {
    (d: Doc) => if d.jobId == id then |d.attempts| else 0
  }

  lemma {:induction false} AttemptsWithin(docs: seq<Doc>, id: string, bound: nat)
    requires forall i :: 0 <= i < |docs| ==> |docs[i].attempts| <= bound
    ensures Sum(docs, AttemptsOf(id)) <= bound * Sum(docs, DocNames(id))
  {
    if docs != [] {
      AttemptsWithin(docs[1..], id, bound);
      assert bound * (DocNames(id)(docs[0]) + Sum(docs[1..], DocNames(id)))
          == bound * DocNames(id)(docs[0]) + bound * Sum(docs[1..], DocNames(id));
    }
  }

  /**
   Over every run, storage failures and shutdown included, a job gets at most max(1, MaxRetry - Retry)
   HandleJob calls from the pool and at most MaxRetryCount more through its dead-letter document.
   */
  lemma EveryRunBoundsAllCalls(c: Config, s: State, es: seq<Event>, id: string)
    requires Init(c, s) && Runs(c, s, es) && id in Final(c, s, es).origin
    ensures var t := Final(c, s, es);
            && id in t.calls && t.calls[id] <= Budget(t.origin[id])
            && Sum(t.docs, AttemptsOf(id)) <= Max(0, c.maxRetryCount)
  {
    hide Apply, Enabled;
    EveryRunBoundsCalls(c, s, es, id);
    EveryRunConserves(c, s, es, id);
    InitDocs(c, s);
    DocsRun(c, s, es);
    var t := Final(c, s, es);
    var bound := Max(0, c.maxRetryCount);
    forall i | 0 <= i < |t.docs|
      ensures |t.docs[i].attempts| <= bound
    {
      assert DocOk(c, t.docs[i], t.now);
    }
    AttemptsWithin(t.docs, id, bound);
    assert Sum(t.docs, DocNames(id)) <= Count(t, id) == 1;
    TimesLe(bound, Sum(t.docs, DocNames(id)), 1);
  }
}
