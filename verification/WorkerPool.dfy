/**
 The worker pool as the object whose methods change it. Each method is shown to take steps of the
 pipeline, so every run of the object is a run of the step system.
 Outcomes of storage calls and of HandleJob, and the store's answer to a query, are parameters.
 */
module WorkerPools {
  import opened Common
  import opened PriorityScore
  import opened Pipeline
  import opened PipelineDocs
  import opened PipelineProgress

  /** What happens while one picked document is retried. */
  datatype Outcome = Outcome(beginOk: bool, success: bool, error: string, duration: nat, updateOk: bool)

  /** The events lead from one state to the other. */
  ghost predicate Reaches(c: Config, from: State, es: seq<Event>, to: State) {
    Runs(c, from, es) && Final(c, from, es) == to
  }

  predicate NoFind(es: seq<Event>) {
    forall k :: 0 <= k < |es| ==> !es[k].Find?
  }

  class WorkerPool {
    const c: Config
    var now: int
    var cancelled: bool
    var queue: map<Job, int>
    var producer: Producer
    var jobChannel: seq<Job>
    var hands: seq<Slot>
    var dlq: seq<Job>
    var taken: Option<Job>
    var docs: seq<Doc>
    var batch: seq<Snapshot>
    var active: Option<Snapshot>
    ghost var done: seq<Job>
    ghost var lost: seq<Job>
    ghost var origin: map<string, Job>
    ghost var calls: map<string, nat>

    ghost function View(): State
      reads this
    {
      State(now, cancelled, queue, producer, jobChannel, hands, dlq, taken, docs, batch, active, done, lost, origin, calls)
    }

    constructor (workers: nat, decode: string -> Option<Job>, now: int)
      ensures c == SourceConfig(workers, decode) && Deployed(c)
      ensures Init(c, View()) && !cancelled && this.now == now
    {
      c := SourceConfig(workers, decode);
      this.now := now;
      cancelled, queue, producer, jobChannel := false, map[], Idle, [];
      hands := seq(workers, i => Free);
      dlq, taken, docs, batch, active := [], None, [], [], None;
      done, lost, origin, calls := [], [], map[], map[];
    }

    method Enqueue(job: Job, ok: bool)
      requires Enabled(c, View(), Event.Enqueue(job, ok))
      modifies this`queue, this`origin, this`calls
      ensures View() == Apply(c, old(View()), Event.Enqueue(job, ok))
    {
      if ok {
        queue := queue[job := c.score(job.priority, job.expireAt)];
        origin, calls := origin[job.id := job], calls[job.id := 0];
      }
    }

    /** The script's atomic pop: any member of least score. */
    method PopJob() returns (job: Option<Job>)
      requires producer.Idle?
      modifies this`queue, this`producer
      ensures job.None? <==> old(queue) == map[]
      ensures job.None? ==> View() == old(View())
      ensures job.Some? ==>
                Enabled(c, old(View()), Pop(job.value)) && View() == Apply(c, old(View()), Pop(job.value))
    {
      if queue == map[] {
        return None;
      }
      ghost var least := MinimumExists(queue);
      var m: Job :| m in queue && IsMinimum(queue, m);
      queue, producer := queue - {m}, Checking(m);
      job := Some(m);
    }

    method MoveToDLQ(job: Job, ok: bool)
      modifies this`dlq, this`lost
      ensures View() == Pipeline.MoveToDLQ(old(View()), job, ok)
    {
      if ok {
        dlq := dlq + [job];
      } else {
        lost := lost + [job];
      }
    }

    method ScheduleRetry(job: Job, addOk: bool, pushOk: bool)
      modifies this`queue, this`dlq, this`lost
      ensures View() == Pipeline.ScheduleRetry(c, old(View()), job, addOk, pushOk)
    {
      var retryAt := Unix(now + c.delay(job.retry));
      if addOk {
        queue := queue[job := c.score(job.priority, retryAt)];
      } else {
        MoveToDLQ(job, pushOk);
      }
    }

    /** `requeueJob`, run on the context that has just been cancelled. */
    method RequeueJob(ok: bool)
      requires producer.Sending? && cancelled
      modifies this`queue, this`producer, this`lost
      ensures View() == Apply(c, old(View()), Requeue(ok))
    {
      var job := producer.job;
      producer := Idle;
      if ok {
        queue := queue[job := c.score(job.priority, job.createdAt)];
      } else {
        lost := lost + [job];
      }
    }

    /** Expired jobs go to the dead-letter list, the others on to the channel. */
    method CheckExpiry(pushOk: bool)
      requires producer.Checking?
      modifies this`producer, this`dlq, this`lost
      ensures View() == Apply(c, old(View()), Check(pushOk)) && !producer.Checking?
    {
      var job := producer.job;
      if Unix(now) > job.expireAt {
        producer := Idle;
        MoveToDLQ(job.(errorMsg := "Job expired"), pushOk);
      } else {
        producer := Sending(job);
      }
    }

    /** The producer's select: a send that waits for room, or cancellation; `prefersDone` decides when both are possible. */
    method SendOrRequeue(addOk: bool, prefersDone: bool) returns (ghost e: Option<Event>)
      requires producer.Sending?
      modifies this`queue, this`producer, this`jobChannel, this`lost
      ensures e.None? ==> View() == old(View()) && !cancelled && |jobChannel| >= c.capacity
      ensures e.Some? ==> Enabled(c, old(View()), e.value) && View() == Apply(c, old(View()), e.value) && producer.Idle?
    {
      if cancelled && (prefersDone || |jobChannel| >= c.capacity) {
        RequeueJob(addOk);
        e := Some(Requeue(addOk));
      } else if |jobChannel| < c.capacity {
        jobChannel, producer := jobChannel + [producer.job], Idle;
        e := Some(Send);
      } else {
        e := None;
      }
    }

    /** One turn of the producer loop: pop, expiry check, send. */
    method Produce(pushOk: bool, addOk: bool, prefersDone: bool) returns (ghost es: seq<Event>)
      modifies this`queue, this`producer, this`jobChannel, this`dlq, this`lost
      ensures Reaches(c, old(View()), es, View())
      ensures old(producer).Idle? && old(queue) != map[] ==> es != []
      ensures producer.Sending? ==> !cancelled && |jobChannel| >= c.capacity
      ensures !producer.Checking?
    {
      hide Apply;
      es := [];
      if producer.Idle? {
        var popped := PopJob();
        if popped.None? {
          return;
        }
        es := Extend(es, Pop(popped.value), old(View()), old(View()), View());
      }
      if producer.Checking? {
        ghost var mid := View();
        CheckExpiry(pushOk);
        es := Extend(es, Check(pushOk), old(View()), mid, View());
      }
      if producer.Sending? {
        ghost var mid := View();
        ghost var e := SendOrRequeue(addOk, prefersDone);
        if e.Some? {
          es := Extend(es, e.value, old(View()), mid, View());
        }
      }
    }

    /** A run followed by one more step. */
    ghost method Extend(es: seq<Event>, e: Event, from: State, mid: State, to: State) returns (fs: seq<Event>)
      requires Reaches(c, from, es, mid) && Enabled(c, mid, e) && to == Apply(c, mid, e)
      ensures fs == es + [e] && Reaches(c, from, fs, to)
    {
      hide Apply, Enabled;
      fs := es + [e];
      RunsAppend(c, from, es, e);
    }

    /** `handlerJobFailure`: one more failed call, then the dead-letter list or another round. */
    method HandlerJobFailure(worker: nat, error: string, addOk: bool, pushOk: bool)
      requires Enabled(c, View(), HandleFails(worker, error, addOk, pushOk))
      modifies this`queue, this`hands, this`dlq, this`lost, this`calls
      ensures View() == Apply(c, old(View()), HandleFails(worker, error, addOk, pushOk))
    {
      var job := hands[worker].job;
      hands, calls := hands[worker := Free], Bump(calls, job.id);
      job := job.(retry := job.retry + 1, errorMsg := error);
      if job.retry >= job.maxRetry || Unix(now) > job.expireAt {
        MoveToDLQ(job, pushOk);
      } else {
        ScheduleRetry(job, addOk, pushOk);
      }
    }

    method ReceiveJob(worker: nat)
      requires Enabled(c, View(), Receive(worker))
      modifies this`jobChannel, this`hands
      ensures View() == Apply(c, old(View()), Receive(worker))
    {
      jobChannel, hands := jobChannel[1..], hands[worker := Busy(jobChannel[0])];
    }

    method FinishJob(worker: nat)
      requires Enabled(c, View(), Handled(worker))
      modifies this`hands, this`done, this`calls
      ensures View() == Apply(c, old(View()), Handled(worker))
    {
      ghost var job := hands[worker].job;
      hands, done, calls := hands[worker := Free], done + [job], Bump(calls, job.id);
    }

    /** One turn of a free worker: receive a job and handle it. */
    method Work(worker: nat, success: bool, error: string, addOk: bool, pushOk: bool) returns (ghost es: seq<Event>)
      requires worker < |hands| && hands[worker].Free?
      requires forall i :: 0 <= i < |jobChannel| ==> jobChannel[i].retry >= 0
      modifies this`queue, this`jobChannel, this`hands, this`dlq, this`lost, this`done, this`calls
      ensures Reaches(c, old(View()), es, View())
      ensures old(jobChannel) == [] ==> es == []
      ensures old(jobChannel) != [] ==>
                es == [Receive(worker), if success then Handled(worker) else HandleFails(worker, error, addOk, pushOk)]
    {
      hide Settle, Recorded, Snaps, UpdateOne, IsBatch, IsMinimum, GivesUp, Expired, NewDoc, Bump, Ready, RouteFailure;
      es := [];
      if jobChannel == [] {
        return;
      }
      ReceiveJob(worker);
      ghost var mid := View();
      es := Extend(es, Receive(worker), old(View()), old(View()), mid);
      if success {
        FinishJob(worker);
        es := Extend(es, Handled(worker), old(View()), mid, View());
      } else {
        HandlerJobFailure(worker, error, addOk, pushOk);
        es := Extend(es, HandleFails(worker, error, addOk, pushOk), old(View()), mid, View());
      }
    }

    /** `BLPOP` on the dead-letter list. */
    method TakeDeadJob()
      requires taken.None? && dlq != []
      modifies this`dlq, this`taken
      ensures View() == Apply(c, old(View()), TakeDead) && taken.Some?
    {
      dlq, taken := dlq[1..], Some(dlq[0]);
    }

    /** The insert of one dead job; if it fails the job is pushed back to the end of the list. */
    method InsertDead(insertOk: bool, pushOk: bool)
      requires taken.Some?
      modifies this`dlq, this`taken, this`docs, this`lost
      ensures View() == Apply(c, old(View()), Persist(insertOk, pushOk)) && taken.None?
    {
      var job := taken.value;
      taken := None;
      if insertOk {
        docs := docs + [NewDoc(job, now)];
      } else {
        MoveToDLQ(job, pushOk);
      }
    }

    /** One turn of `StartDLQWorker`. */
    method PersistDead(insertOk: bool, pushOk: bool) returns (ghost es: seq<Event>)
      requires taken.None?
      modifies this`dlq, this`taken, this`docs, this`lost
      ensures Reaches(c, old(View()), es, View()) && taken.None?
      ensures es == if old(dlq) == [] then [] else [TakeDead, Persist(insertOk, pushOk)]
    {
      hide Apply;
      es := [];
      if dlq == [] {
        return;
      }
      TakeDeadJob();
      ghost var mid := View();
      es := Extend(es, TakeDead, old(View()), old(View()), mid);
      InsertDead(insertOk, pushOk);
      es := Extend(es, Persist(insertOk, pushOk), old(View()), mid, View());
    }

    method MarkDLQJobAsCompleted(i: nat, ok: bool)
      requires i < |docs|
      modifies this`docs
      ensures docs == UpdateOne(old(docs), i, old(docs)[i].(status := Completed), ok)
    {
      if ok && docs[i].present {
        docs := docs[i := docs[i].(status := Completed)];
      }
    }

    method MarkDLQJobAsPermanentlyFailed(i: nat, error: string, ok: bool)
      requires i < |docs|
      modifies this`docs
      ensures docs == UpdateOne(old(docs), i, old(docs)[i].(status := PermanentlyFailed, errorMsg := error), ok)
    {
      if ok && docs[i].present {
        docs := docs[i := docs[i].(status := PermanentlyFailed, errorMsg := error)];
      }
    }

    method MarkDLQJobAsFailed(i: nat, error: string, ok: bool)
      requires i < |docs|
      modifies this`docs
      ensures docs == UpdateOne(old(docs), i, old(docs)[i].(status := Failed, errorMsg := error), ok)
    {
      if ok && docs[i].present {
        docs := docs[i := docs[i].(status := Failed, errorMsg := error)];
      }
    }

    method HandleDLQRetryFailure(snap: Snapshot, error: string, ok: bool)
      requires snap.doc < |docs| && snap.retryCount >= 0
      modifies this`docs
      ensures docs == UpdateOne(old(docs), snap.doc, Settle(c, old(docs)[snap.doc], snap.retryCount, false, error, now), ok)
    {
      var newRetryCount := snap.retryCount + 1;
      if newRetryCount >= c.maxRetryCount {
        MarkDLQJobAsPermanentlyFailed(snap.doc, error, ok);
        return;
      }
      var nextRetryAt := now + c.backoff(newRetryCount);
      if ok && docs[snap.doc].present {
        docs := docs[snap.doc := docs[snap.doc].(status := Failed, retryCount := newRetryCount, errorMsg := error,
                                                 nextRetryAt := Some(Milli(nextRetryAt)))];
      }
    }

    /** Marks the next document of the batch as processing; if that fails the document is passed over. */
    method BeginDocument(ok: bool)
      requires Enabled(c, View(), Begin(ok))
      modifies this`docs, this`batch, this`active
      ensures View() == Apply(c, old(View()), Begin(ok))
    {
      var snap := batch[0];
      batch := batch[1..];
      if ok {
        active := Some(snap);
        if docs[snap.doc].present {
          docs := docs[snap.doc := docs[snap.doc].(status := Processing)];
        }
      }
    }

    method RejectDocument(error: string, ok: bool)
      requires Enabled(c, View(), Reject(error, ok))
      modifies this`docs, this`active
      ensures View() == Apply(c, old(View()), Reject(error, ok)) && active.None?
    {
      var i := active.value.doc;
      active := None;
      MarkDLQJobAsFailed(i, error, ok);
    }

    /** The HandleJob call for the active document and the update that follows from its outcome. */
    method AttemptDocument(success: bool, error: string, end: int, ok: bool)
      requires Enabled(c, View(), Attempted(success, error, end, ok))
      modifies this`now, this`docs, this`active
      ensures View() == Apply(c, old(View()), Attempted(success, error, end, ok)) && active.None?
    {
      hide DocsOk, Snaps, IsBatch, IsMinimum, GivesUp, Expired, NewDoc, Bump, Ready;
      var snap := active.value;
      docs := docs[snap.doc := Recorded(docs[snap.doc], now, success)];
      now, active := end, None;
      if success {
        MarkDLQJobAsCompleted(snap.doc, ok);
      } else {
        HandleDLQRetryFailure(snap, error, ok);
      }
    }

    method StartDocument(ok: bool)
      requires DocsOk(c, View()) && batch != [] && active.None?
      modifies this`docs, this`batch, this`active
      ensures Enabled(c, old(View()), Begin(ok)) && View() == Apply(c, old(View()), Begin(ok))
      ensures DocsOk(c, View()) && batch == old(batch)[1..] && (ok <==> active.Some?)
    {
      assert SnapOk(c, docs, now, batch[0]);
      DocsStep(c, View(), Begin(ok));
      BeginDocument(ok);
    }

    /** Decodes the active document's payload and retries it, or gives it back as failed. */
    method SettleDocument(o: Outcome) returns (ghost e: Event)
      requires DocsOk(c, View()) && active.Some?
      modifies this`now, this`docs, this`active
      ensures Enabled(c, old(View()), e) && View() == Apply(c, old(View()), e) && !e.Find?
      ensures DocsOk(c, View()) && active.None?
    {
      hide Apply;
      ghost var from := View();
      assert SnapOk(c, docs, now, active.value);
      if c.decode(active.value.payload).None? {
        e := Reject(o.error, o.updateOk);
        RejectDocument(o.error, o.updateOk);
      } else {
        e := Attempted(o.success, o.error, now + o.duration, o.updateOk);
        AttemptDocument(o.success, o.error, now + o.duration, o.updateOk);
      }
      DocsStep(c, from, e);
    }

    /** `retryDLQJob` on the first document of the batch. */
    method RetryDLQJob(o: Outcome) returns (ghost es: seq<Event>)
      requires DocsOk(c, View()) && batch != [] && active.None?
      modifies this`now, this`docs, this`batch, this`active
      ensures Reaches(c, old(View()), es, View())
      ensures DocsOk(c, View()) && batch == old(batch)[1..] && active.None?
      ensures es != [] && es[0] == Begin(o.beginOk) && NoFind(es)
    {
      hide Apply, Enabled;
      ghost var from := View();
      StartDocument(o.beginOk);
      ghost var mid := View();
      es := Extend([], Begin(o.beginOk), from, from, mid);
      if o.beginOk {
        ghost var e := SettleDocument(o);
        es := Extend(es, e, from, mid, View());
      }
    }

    method QueryBatch(picks: seq<nat>)
      requires Enabled(c, View(), Find(picks))
      modifies this`batch
      ensures View() == Apply(c, old(View()), Find(picks)) && |batch| == |picks|
    {
      batch := Snaps(docs, picks);
    }

    /** The loop over the batch. */
    method RetryBatch(outcomes: seq<Outcome>) returns (ghost es: seq<Event>)
      requires DocsOk(c, View()) && active.None? && |outcomes| == |batch|
      modifies this`now, this`docs, this`batch, this`active
      ensures Reaches(c, old(View()), es, View()) && NoFind(es)
      ensures DocsOk(c, View()) && batch == [] && active.None?
    {
      hide Apply, Enabled;
      ghost var from := View();
      es := [];
      for i := 0 to |outcomes|
        invariant Reaches(c, from, es, View()) && NoFind(es)
        invariant DocsOk(c, View()) && |batch| == |outcomes| - i && active.None?
      {
        ghost var mid := View();
        ghost var fs := RetryDLQJob(outcomes[i]);
        es := Join(es, fs, from, mid, View());
      }
    }

    ghost method Join(es: seq<Event>, fs: seq<Event>, from: State, mid: State, to: State) returns (all: seq<Event>)
      requires Reaches(c, from, es, mid) && Reaches(c, mid, fs, to)
      ensures all == es + fs && Reaches(c, from, all, to)
    {
      hide Apply, Enabled;
      RunsConcat(c, from, es, fs);
      all := es + fs;
    }

    /** `processDLQJobs`: query a batch, then retry its documents one after another. */
    method ProcessDLQJobs(picks: seq<nat>, outcomes: seq<Outcome>) returns (ghost es: seq<Event>)
      requires DocsOk(c, View()) && batch == [] && active.None?
      requires IsBatch(c, docs, now, picks) && |outcomes| == |picks|
      modifies this`now, this`docs, this`batch, this`active
      ensures Reaches(c, old(View()), es, View())
      ensures DocsOk(c, View()) && batch == [] && active.None?
      ensures es != [] && es[0] == Find(picks) && NoFind(es[1..])
    {
      hide Apply;
      ghost var from := View();
      FindStep(c, from, picks);
      QueryBatch(picks);
      ghost var mid := View();
      es := Extend([], Find(picks), from, from, mid);
      ghost var fs := RetryBatch(outcomes);
      es := Join(es, fs, from, mid, View());
      assert es[1..] == fs;
    }
  }
}
