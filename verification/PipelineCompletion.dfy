/**
 When every job can still be finished: exactly when no job whose payload does not decode is dead or expired on its way
 to the workers.
 */
module PipelineCompletion {
  import opened Common
  import opened Pipeline
  import opened PipelineFlow
  import opened PipelineJobs
  import opened PipelineDocs
  import opened PipelineProgress

  predicate Reads(c: Config, payload: string) {
    c.decode(payload).Some?
  }

  /** What is in the dead-letter list, in the dead-letter worker's hand, or in an unfinished document decodes. */
  ghost predicate DeadRead(c: Config, s: State) {
    && (forall i :: 0 <= i < |s.dlq| ==> Reads(c, s.dlq[i].payload))
    && (s.taken.Some? ==> Reads(c, s.taken.value.payload))
    && (forall i :: 0 <= i < |s.docs| && !Terminal(s.docs[i]) ==> Reads(c, s.docs[i].payload))
  }

  /** So does what has expired in the queue or in the producer's hand before the check. */
  ghost predicate ExpiredRead(c: Config, s: State) {
    && (forall j :: j in s.queue && Expired(s, j) ==> Reads(c, j.payload))
    && (s.producer.Checking? && Expired(s, s.producer.job) ==> Reads(c, s.producer.job.payload))
  }

  ghost predicate Salvageable(c: Config, s: State) {
    DeadRead(c, s) && ExpiredRead(c, s)
  }

  // ---------- A salvageable pipeline can finish ----------

  lemma ActiveReads(c: Config, s: State)
    requires DocsOk(c, s) && DocsHealthy(s) && DeadRead(c, s)
    ensures s.active.Some? ==> c.decode(s.active.value.payload).Some?
  {
    if s.active.Some? {
      assert SnapOk(c, s.docs, s.now, s.active.value);
      assert !Terminal(s.docs[s.active.value.doc]);
    }
  }

  /** The pool's steps, every call succeeding: nothing dies but what has expired. */
  lemma PoolSalvages(c: Config, s: State, e: Event)
    requires Salvageable(c, s) && Enabled(c, s, e) && Closed(e)
    requires e.Handled? || e.Receive? || e.Send? || e.Check? || e.Pop?
    ensures Salvageable(c, Apply(c, s, e)) && Apply(c, s, e).now == s.now
  {
    hide Settle, Recorded, Snaps, UpdateOne, IsBatch, GivesUp, NewDoc, Bump, Ready;
    match e
    case Handled(_) =>
    case Receive(_) =>
    case Send =>
    case Check(_) =>
    case Pop(_) =>
  }

  /** The queue and the producer's hand are empty. */
  predicate PoolIdle(s: State) {
    s.queue == map[] && s.producer == Idle && s.channel == [] && forall k :: 0 <= k < |s.hands| ==> s.hands[k] == Free
  }

  lemma StoreSalvages(c: Config, s: State, e: Event)
    requires DeadRead(c, s) && PoolIdle(s) && Enabled(c, s, e) && Closed(e) && DocsOk(c, s)
    requires e.Persist? || e.TakeDead? || e.Begin? || e.Find? || e.Advance?
    ensures DeadRead(c, Apply(c, s, e)) && PoolIdle(Apply(c, s, e))
  {
    hide Settle, Recorded, Snaps, IsBatch, GivesUp, Bump, Ready, Expired;
    match e
    case Persist(_, _) =>
    case TakeDead =>
    case Begin(_) => assert SnapOk(c, s.docs, s.now, s.batch[0]);
    case Find(_) =>
    case Advance(_) =>
  }

  lemma AttemptSalvages(c: Config, s: State, e: Event)
    requires DeadRead(c, s) && PoolIdle(s) && Enabled(c, s, e) && e.Attempted? && DocsOk(c, s)
    ensures DeadRead(c, Apply(c, s, e)) && PoolIdle(Apply(c, s, e))
  {
    hide IsBatch, GivesUp, Bump, Ready, Expired;
    assert SnapOk(c, s.docs, s.now, s.active.value);
  }

  lemma IdleSalvages(c: Config, s: State)
    requires DeadRead(c, s) && PoolIdle(s)
    ensures Salvageable(c, s)
  {
  }

  ghost predicate Saving(c: Config, s: State) {
    HealthyOk(c, s) && Salvageable(c, s) && c.workers >= 1 && c.capacity >= 1 && c.maxRetryCount >= 1
  }

  /** One step of the pool at this instant, if it has anything to do. */
  lemma SavePool(c: Config, s: State) returns (e: Event)
    requires Saving(c, s) && !PoolIdle(s)
    ensures Enabled(c, s, e) && Closed(e) && Works(e) && !e.Reject? && Salvageable(c, Apply(c, s, e))
  {
    hide Apply, Enabled, Salvageable;
    e := PoolNotStuck(c, s);
    PoolSalvages(c, s, e);
  }

  /** Otherwise one step of the dead-letter worker or the consumer, perhaps after waiting. */
  lemma SaveDead(c: Config, s: State) returns (e: Event, t: int)
    requires Saving(c, s) && PoolIdle(s) && !Settled(s)
    ensures s.now <= t && Enabled(c, s, Advance(t)) && Apply(c, s, Advance(t)) == s.(now := t)
    ensures Enabled(c, s.(now := t), e) && Closed(e) && Works(e) && !e.Reject?
    ensures Salvageable(c, s.(now := t)) && Salvageable(c, Apply(c, s.(now := t), e))
  {
    ActiveReads(c, s);
    e, t := DocumentsNotStuck(c, s);
    var later := s.(now := t);
    DocsStep(c, s, Advance(t));
    hide Enabled, DocsOk, JobsOk, Ready, IsBatch;
    assert Apply(c, s, Advance(t)) == later;
    IdleSalvages(c, later);
    hide Apply;
    if e.Attempted? {
      AttemptSalvages(c, later, e);
    } else {
      StoreSalvages(c, later, e);
    }
    IdleSalvages(c, Apply(c, later, e));
  }

  /** A working step of a saving pipeline that does not reject. */
  lemma SavingStep(c: Config, s: State, e: Event)
    requires Saving(c, s) && Enabled(c, s, e) && Closed(e) && !e.Reject? && Salvageable(c, Apply(c, s, e))
    ensures Saving(c, Apply(c, s, e)) && Measure(c, Apply(c, s, e)) <= Measure(c, s)
    ensures Works(e) ==> Measure(c, Apply(c, s, e)) < Measure(c, s)
  {
    hide Apply, Enabled, Salvageable, Measure, HealthyOk;
    HealthyStep(c, s, e);
    UnrejectedDecreases(c, s, e);
  }

  /** Every salvageable healthy state can be run to a settled one. */
  lemma {:induction false} Saves(c: Config, s: State) returns (es: seq<Event>)
    requires Saving(c, s)
    ensures Runs(c, s, es) && AllClosed(es) && Settled(Final(c, s, es))
    decreases Measure(c, s)
  {
    hide Apply, Enabled, Saving, Settled, Measure, Salvageable, PoolIdle;
    if Settled(s) {
      es := [];
    } else if !PoolIdle(s) {
      var e := SavePool(c, s);
      SavingStep(c, s, e);
      var rest := Saves(c, Apply(c, s, e));
      Prepend(c, s, e, rest);
      es := [e] + rest;
    } else {
      var e, t := SaveDead(c, s);
      SavingStep(c, s, Advance(t));
      SavingStep(c, s.(now := t), e);
      var rest := Saves(c, Apply(c, s.(now := t), e));
      PrependTwo(c, s, Advance(t), e, rest);
      es := [Advance(t), e] + rest;
    }
  }

  // ---------- What cannot be finished ----------

  /** The job's payload does not decode, and it is dead or expired before the check. */
  ghost predicate Doomed(c: Config, s: State, id: string) {
    && id in s.origin && !Reads(c, s.origin[id].payload)
    && (InDead(s, id) || InExpired(s, id))
  }

  ghost predicate InDead(s: State, id: string) {
    || (exists i :: 0 <= i < |s.dlq| && s.dlq[i].id == id)
    || (s.taken.Some? && s.taken.value.id == id)
    || (exists i :: 0 <= i < |s.docs| && s.docs[i].jobId == id)
  }

  ghost predicate InExpired(s: State, id: string) {
    || (exists j :: j in s.queue && j.id == id && Expired(s, j))
    || (s.producer.Checking? && s.producer.job.id == id && Expired(s, s.producer.job))
  }

  lemma DeadStays(c: Config, s: State, e: Event, id: string)
    requires Enabled(c, s, e) && Closed(e) && InDead(s, id)
    requires e.TakeDead? || e.Persist? || e.Begin? || e.Reject? || e.Attempted?
    ensures InDead(Apply(c, s, e), id)
  {
    var t := Apply(c, s, e);
    if i :| 0 <= i < |s.dlq| && s.dlq[i].id == id {
      if e.TakeDead? && i > 0 {
        assert t.dlq[i - 1] == s.dlq[i];
      }
    } else if i :| 0 <= i < |s.docs| && s.docs[i].jobId == id {
      if e.Begin? || e.Reject? || e.Attempted? {
        DocsKept(c, s, e);
      }
      assert t.docs[i].jobId == id;
    } else if e.Persist? {
      assert t.docs[|s.docs|].jobId == id;
    }
  }

  lemma DeadUntouched(c: Config, s: State, e: Event, id: string)
    requires Enabled(c, s, e) && Closed(e) && InDead(s, id)
    requires !e.TakeDead? && !e.Persist? && !e.Begin? && !e.Reject? && !e.Attempted?
    ensures InDead(Apply(c, s, e), id)
  {
    hide Settle, Recorded, Snaps, UpdateOne, IsBatch, IsMinimum, NewDoc, Bump, Ready;
    assert s.dlq <= Apply(c, s, e).dlq by {
      DeadListGrows(c, s, e);
    }
    assert Apply(c, s, e).docs == s.docs && Apply(c, s, e).taken == s.taken by {
      DeadListGrows(c, s, e);
    }
  }

  lemma DeadListGrows(c: Config, s: State, e: Event)
    requires Enabled(c, s, e) && Closed(e)
    requires !e.TakeDead? && !e.Persist? && !e.Begin? && !e.Reject? && !e.Attempted?
    ensures var t := Apply(c, s, e); s.dlq <= t.dlq && t.docs == s.docs && t.taken == s.taken
  {
    hide Settle, Recorded, Snaps, UpdateOne, IsBatch, IsMinimum, GivesUp, Expired, NewDoc, Bump, Ready;
    match e
    case Advance(_) =>
    case Pop(_) =>
    case Check(_) =>
    case Send =>
    case Receive(_) =>
    case Handled(_) =>
    case HandleFails(_, _, _, _) =>
    case Find(_) =>
  }

  /** An expired job leaves the queue only for the producer's hand, and that only for the dead-letter list. */
  lemma ExpiredStays(c: Config, s: State, e: Event, id: string)
    requires Enabled(c, s, e) && Closed(e) && InExpired(s, id)
    ensures InExpired(Apply(c, s, e), id) || InDead(Apply(c, s, e), id)
  {
    if e.Pop? || e.Check? {
      ExpiredMoves(c, s, e, id);
    } else if e.HandleFails? {
      QueueKeeps(c, s, e);
    } else {
      ProducerKeeps(c, s, e);
    }
  }

  lemma ExpiredMoves(c: Config, s: State, e: Event, id: string)
    requires Enabled(c, s, e) && Closed(e) && InExpired(s, id) && (e.Pop? || e.Check?)
    ensures InExpired(Apply(c, s, e), id) || InDead(Apply(c, s, e), id)
  {
    hide Settle, Recorded, Snaps, UpdateOne, IsBatch, GivesUp, NewDoc, Bump, Ready;
    var t := Apply(c, s, e);
    if j :| j in s.queue && j.id == id && Expired(s, j) {
      if e.Pop? && j == e.member {
        assert t.producer.job == j && Expired(t, j);
      } else {
        assert j in t.queue && Expired(t, j);
      }
    } else if e.Check? {
      assert t.dlq[|s.dlq|].id == id;
    }
  }

  lemma QueueKeeps(c: Config, s: State, e: Event)
    requires Enabled(c, s, e) && Closed(e) && e.HandleFails?
    ensures var t := Apply(c, s, e); s.queue.Keys <= t.queue.Keys && t.producer == s.producer && t.now == s.now
  {
    hide Settle, Recorded, Snaps, UpdateOne, IsBatch, GivesUp, NewDoc, Bump, Ready;
  }

  lemma ProducerKeeps(c: Config, s: State, e: Event)
    requires Enabled(c, s, e) && Closed(e) && !e.Pop? && !e.Check? && !e.HandleFails?
    ensures var t := Apply(c, s, e);
            s.queue == t.queue && (s.producer.Checking? ==> t.producer == s.producer) && s.now <= t.now
  {
    hide Settle, Recorded, Snaps, UpdateOne, IsBatch, IsMinimum, GivesUp, Expired, NewDoc, Bump, Ready;
    match e
    case Advance(_) =>
    case Send =>
    case Receive(_) =>
    case Handled(_) =>
    case TakeDead =>
    case Persist(_, _) =>
    case Find(_) =>
    case Begin(_) =>
    case Reject(_, _) =>
    case Attempted(_, _, _, _) =>
  }

  lemma DoomedStep(c: Config, s: State, e: Event, id: string)
    requires Enabled(c, s, e) && Closed(e) && Doomed(c, s, id)
    ensures Doomed(c, Apply(c, s, e), id)
  {
    hide Apply, Enabled, InDead, InExpired;
    OriginGrows(c, s, e);
    if InDead(s, id) {
      if e.TakeDead? || e.Persist? || e.Begin? || e.Reject? || e.Attempted? {
        DeadStays(c, s, e, id);
      } else {
        DeadUntouched(c, s, e, id);
      }
    } else {
      ExpiredStays(c, s, e, id);
    }
  }

  lemma {:induction false} DoomedRun(c: Config, s: State, es: seq<Event>, id: string)
    requires Runs(c, s, es) && AllClosed(es) && Doomed(c, s, id)
    ensures Doomed(c, Final(c, s, es), id)
    decreases |es|
  {
    hide Apply, Enabled, Doomed;
    if es != [] {
      assert Closed(es[0]);
      DoomedStep(c, s, es[0], id);
      DoomedRun(c, Apply(c, s, es[0]), es[1..], id);
    }
  }

  lemma DoneAlone(s: State, id: string, i: nat)
    requires Conserved(s) && i < |s.done| && s.done[i].id == id
    ensures !InDead(s, id) && !InExpired(s, id)
  {
    var count := Count(s, id);
    SumUpdate(s.done, i, s.done[i], Names(id));
    SumZero(s.dlq, Names(id));
    SumZero(s.docs, DocNames(id));
    forall j | j in s.queue
      ensures j.id != id
    {
      if j.id == id {
        InQueue(s, j);
      }
    }
  }

  lemma DoomedUnfinished(c: Config, s: State, id: string)
    requires HealthyOk(c, s) && Doomed(c, s, id)
    ensures !Finished(s, id)
  {
    if i :| 0 <= i < |s.done| && s.done[i].id == id {
      DoneAlone(s, id, i);
    }
    forall i | 0 <= i < |s.docs| && s.docs[i].jobId == id
      ensures !Terminal(s.docs[i])
    {
      assert DocTracked(s.origin, s.calls, s.docs[i]) && DocOk(c, s.docs[i], s.now);
    }
  }

  /** What is not salvageable holds a doomed job. */
  lemma UnsalvageableDooms(c: Config, s: State) returns (id: string)
    requires BooksOk(s) && !Salvageable(c, s)
    ensures Doomed(c, s, id)
  {
    if i :| 0 <= i < |s.dlq| && !Reads(c, s.dlq[i].payload) {
      assert Tracked(s.origin, s.calls, s.dlq[i]);
      id := s.dlq[i].id;
    } else if s.taken.Some? && !Reads(c, s.taken.value.payload) {
      id := s.taken.value.id;
    } else if i :| 0 <= i < |s.docs| && !Terminal(s.docs[i]) && !Reads(c, s.docs[i].payload) {
      assert DocTracked(s.origin, s.calls, s.docs[i]);
      id := s.docs[i].jobId;
    } else if j :| j in s.queue && Expired(s, j) && !Reads(c, j.payload) {
      assert Runnable(s.origin, s.calls, j);
      id := j.id;
    } else {
      id := s.producer.job.id;
    }
  }

  // ---------- Main result ----------

  /** Some continuation without failures or new jobs finishes every job. */
  ghost predicate CanFinish(c: Config, s: State, es: seq<Event>) {
    Runs(c, s, es) && AllClosed(es) && forall id :: id in s.origin ==> Finished(Final(c, s, es), id)
  }

  lemma SettledFinishes(c: Config, s: State, es: seq<Event>)
    requires HealthyOk(c, s) && Runs(c, s, es) && AllClosed(es) && Settled(Final(c, s, es))
    ensures CanFinish(c, s, es)
  {
    hide Apply, Enabled, HealthyOk, Settled, Finished;
    AllClosedHealthy(es);
    HealthyRun(c, s, es);
    SameOrigin(c, s, es);
    forall id | id in s.origin
      ensures Finished(Final(c, s, es), id)
    {
      SettledMeansFinished(c, Final(c, s, es), id);
    }
  }

  lemma DoomedPrevents(c: Config, s: State, es: seq<Event>, id: string)
    requires HealthyOk(c, s) && Doomed(c, s, id)
    ensures !CanFinish(c, s, es)
  {
    hide Apply, Enabled, HealthyOk, Finished;
    if Runs(c, s, es) && AllClosed(es) {
      AllClosedHealthy(es);
      HealthyRun(c, s, es);
      DoomedRun(c, s, es, id);
      DoomedUnfinished(c, Final(c, s, es), id);
    }
  }

  /**
   After any run from the start without storage failure, shutdown or TTL deletion, the jobs enqueued can all still be finished
   exactly when every job that is dead, or has expired before the workers get it, has a payload that decodes.
   */
  lemma FinishableExactly(c: Config, s: State, before: seq<Event>)
    requires Init(c, s) && !s.cancelled && Runs(c, s, before) && AllHealthy(before)
    requires c.workers >= 1 && c.capacity >= 1 && c.maxRetryCount >= 1
    ensures (exists es :: CanFinish(c, Final(c, s, before), es)) <==> Salvageable(c, Final(c, s, before))
  {
    hide Apply, Enabled, CanFinish, Salvageable, Settled, DocsOk, DocsHealthy, PoolHealthy, Conserved, BooksOk;
    HealthyRunsLoseNothing(c, s, before);
    var t := Final(c, s, before);
    if Salvageable(c, t) {
      var es := Saves(c, t);
      SettledFinishes(c, t, es);
    } else {
      var id := UnsalvageableDooms(c, t);
      forall es
        ensures !CanFinish(c, t, es)
      {
        DoomedPrevents(c, t, es, id);
      }
    }
  }
}
