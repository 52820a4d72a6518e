/**
 How each step moves jobs between the places of the pipeline, for any assignment of weights to
 (place, job) pairs. Conservation, termination and fairness are instances.
 */
module PipelineFlow {
  import opened Common
  import opened PriorityScore
  import opened Pipeline

  datatype Weights = Weights(
    queue: Job -> nat,
    checking: Job -> nat,
    sending: Job -> nat,
    channel: Job -> nat,
    hand: Job -> nat,
    dlq: Job -> nat,
    taken: Job -> nat,
    doc: Doc -> nat,
    done: Job -> nat,
    lost: Job -> nat)

  function SlotWeight(w: Weights): Slot -> nat {
    var hand := w.hand;
    (x: Slot) => if x.Busy? then hand(x.job) else 0
  }

  function ProducerWeight(p: Producer, w: Weights): nat {
    match p
    case Idle => 0
    case Checking(job) => w.checking(job)
    case Sending(job) => w.sending(job)
  }

  function TakenWeight(t: Option<Job>, w: Weights): nat {
    match t case None => 0 case Some(job) => w.taken(job)
  }

  /** The weight of everything in the pipeline. */
  ghost function Load(s: State, w: Weights): nat {
    Tally(s.queue.Keys, w.queue) + ProducerWeight(s.producer, w) + Sum(s.channel, w.channel)
    + Sum(s.hands, SlotWeight(w)) + Sum(s.dlq, w.dlq) + TakenWeight(s.taken, w)
    + Sum(s.docs, w.doc) + Sum(s.done, w.done) + Sum(s.lost, w.lost)
  }

  /** No step puts a member into the sorted set that is already there. */
  ghost predicate NoClash(s: State, e: Event) {
    match e
    case Enqueue(job, _) => job !in s.queue
    case Requeue(_) => s.producer.Sending? ==> s.producer.job !in s.queue
    case HandleFails(w, error, _, _) => w < |s.hands| && s.hands[w].Busy? ==> Retried(s.hands[w].job, error) !in s.queue
    case _ => true
  }

  function DeadWeight(job: Job, ok: bool, w: Weights): nat {
    if ok then w.dlq(job) else w.lost(job)
  }

  function RouteWeight(s: State, job: Job, addOk: bool, pushOk: bool, w: Weights): nat {
    if !GivesUp(s, job) && addOk then w.queue(job) else DeadWeight(job, pushOk, w)
  }

  function Changed(d: Doc, to: Doc, ok: bool, w: Weights): int {
    if ok && d.present then w.doc(to) - w.doc(d) else 0
  }

  /** The change of load a step makes. */
  ghost function Shift(c: Config, s: State, e: Event, w: Weights): int
    requires Enabled(c, s, e)
  {
    match e
    case Advance(_) => 0
    case Cancel => 0
    case Enqueue(job, ok) => if ok then w.queue(job) else 0
    case Pop(m) => w.checking(m) - w.queue(m)
    case Check(pushOk) =>
      var job := s.producer.job;
      (if Expired(s, job) then DeadWeight(ExpiredJob(job), pushOk, w) else w.sending(job)) - w.checking(job)
    case Send => w.channel(s.producer.job) - w.sending(s.producer.job)
    case Requeue(ok) => (if ok then w.queue(s.producer.job) else w.lost(s.producer.job)) - w.sending(s.producer.job)
    case Receive(_) => w.hand(s.channel[0]) - w.channel(s.channel[0])
    case Handled(k) => w.done(s.hands[k].job) - w.hand(s.hands[k].job)
    case HandleFails(k, error, addOk, pushOk) =>
      RouteWeight(s, Retried(s.hands[k].job, error), addOk, pushOk, w) - w.hand(s.hands[k].job)
    case TakeDead => w.taken(s.dlq[0]) - w.dlq(s.dlq[0])
    case Persist(ok, pushOk) =>
      (if ok then w.doc(NewDoc(s.taken.value, s.now)) else DeadWeight(s.taken.value, pushOk, w))
      - w.taken(s.taken.value)
    case Find(_) => 0
    case Begin(ok) =>
      var d := s.docs[s.batch[0].doc];
      Changed(d, d.(status := Processing), ok, w)
    case Reject(error, ok) =>
      var d := s.docs[s.active.value.doc];
      Changed(d, d.(status := Failed, errorMsg := error), ok, w)
    case Attempted(success, error, end, ok) =>
      var d := s.docs[s.active.value.doc];
      var tried := Recorded(d, s.now, success);
      (if ok && d.present then w.doc(Settle(c, tried, s.active.value.retryCount, success, error, end)) else w.doc(tried))
      - w.doc(d)
    case TtlDelete(i) => w.doc(s.docs[i].(present := false)) - w.doc(s.docs[i])
  }

  lemma SumTail<T>(xs: seq<T>, f: T -> nat)
    requires xs != []
    ensures Sum(xs, f) == f(xs[0]) + Sum(xs[1..], f)
  {
  }

  lemma AddMember(q: map<Job, int>, job: Job, score: int, f: Job -> nat)
    requires job !in q
    ensures Tally(q[job := score].Keys, f) == Tally(q.Keys, f) + f(job)
  {
    assert q[job := score].Keys == q.Keys + {job};
    TallyAdd(q.Keys, job, f);
  }

  lemma RemoveMember(q: map<Job, int>, job: Job, f: Job -> nat)
    requires job in q
    ensures Tally(q.Keys, f) == f(job) + Tally((q - {job}).Keys, f)
  {
    assert (q - {job}).Keys == q.Keys - {job};
    TallyRemove(q.Keys, job, f);
  }

  lemma DeadFlow(s: State, job: Job, ok: bool, w: Weights)
    ensures Load(MoveToDLQ(s, job, ok), w) == Load(s, w) + DeadWeight(job, ok, w)
  {
    SumAppend(s.dlq, job, w.dlq);
    SumAppend(s.lost, job, w.lost);
  }

  lemma RouteFlow(c: Config, s: State, job: Job, addOk: bool, pushOk: bool, w: Weights)
    requires job !in s.queue
    ensures Load(RouteFailure(c, s, job, addOk, pushOk), w) == Load(s, w) + RouteWeight(s, job, addOk, pushOk, w)
  {
    if GivesUp(s, job) || !addOk {
      DeadFlow(s, job, pushOk, w);
    } else {
      AddMember(s.queue, job, c.score(job.priority, Unix(s.now + c.delay(job.retry))), w.queue);
    }
  }

  lemma HandFlow(s: State, k: nat, w: Weights, calls: map<string, nat>)
    requires k < |s.hands| && s.hands[k].Busy?
    ensures Load(s.(hands := s.hands[k := Free], calls := calls), w) + w.hand(s.hands[k].job) == Load(s, w)
  {
    SumUpdate(s.hands, k, Free, SlotWeight(w));
  }

  lemma DocFlow(docs: seq<Doc>, i: nat, d: Doc, ok: bool, w: Weights)
    requires i < |docs|
    ensures Sum(UpdateOne(docs, i, d, ok), w.doc) == Sum(docs, w.doc) + Changed(docs[i], d, ok, w)
  {
    SumUpdate(docs, i, d, w.doc);
  }

  lemma QueueFlow(c: Config, s: State, e: Event, w: Weights)
    requires Enabled(c, s, e) && NoClash(s, e)
    requires e.Enqueue? || e.Pop? || e.Requeue?
    ensures Load(Apply(c, s, e), w) == Load(s, w) + Shift(c, s, e, w)
  {
    match e
    case Enqueue(job, _) =>
      AddMember(s.queue, job, c.score(job.priority, job.expireAt), w.queue);
    case Pop(m) =>
      RemoveMember(s.queue, m, w.queue);
    case Requeue(ok) =>
      var job := s.producer.job;
      AddMember(s.queue, job, c.score(job.priority, job.createdAt), w.queue);
      SumAppend(s.lost, job, w.lost);
  }

  lemma ChannelFlow(c: Config, s: State, e: Event, w: Weights)
    requires Enabled(c, s, e)
    requires e.Send? || e.Receive?
    ensures Load(Apply(c, s, e), w) == Load(s, w) + Shift(c, s, e, w)
  {
    hide Settle, Recorded, Snaps, UpdateOne, IsBatch, IsMinimum, GivesUp, Expired, NewDoc, Bump, Ready;
    match e
    case Send =>
      SumAppend(s.channel, s.producer.job, w.channel);
    case Receive(k) =>
      SumTail(s.channel, w.channel);
      SumUpdate(s.hands, k, Busy(s.channel[0]), SlotWeight(w));
  }

  lemma CheckFlow(c: Config, s: State, e: Event, w: Weights)
    requires Enabled(c, s, e) && e.Check?
    ensures Load(Apply(c, s, e), w) == Load(s, w) + Shift(c, s, e, w)
  {
    hide Settle, Recorded, Snaps, UpdateOne, IsBatch, IsMinimum, GivesUp, NewDoc, Bump, Ready;
    DeadFlow(s.(producer := Idle), ExpiredJob(s.producer.job), e.pushOk, w);
  }

  lemma WorkerFlow(c: Config, s: State, e: Event, w: Weights)
    requires Enabled(c, s, e) && NoClash(s, e)
    requires e.Handled? || e.HandleFails?
    ensures Load(Apply(c, s, e), w) == Load(s, w) + Shift(c, s, e, w)
  {
    var job := s.hands[e.worker].job;
    var calls := Bump(s.calls, job.id);
    HandFlow(s, e.worker, w, calls);
    if e.Handled? {
      SumAppend(s.done, job, w.done);
    } else {
      RouteFlow(c, s.(hands := s.hands[e.worker := Free], calls := calls), Retried(job, e.error), e.addOk, e.pushOk, w);
    }
  }

  lemma AttemptFlow(c: Config, s: State, e: Event, w: Weights)
    requires Enabled(c, s, e) && e.Attempted?
    ensures Load(Apply(c, s, e), w) == Load(s, w) + Shift(c, s, e, w)
  {
    var i := s.active.value.doc;
    var tried := Recorded(s.docs[i], s.now, e.success);
    var settled := Settle(c, tried, s.active.value.retryCount, e.success, e.error, e.end);
    SumUpdate(s.docs, i, tried, w.doc);
    DocFlow(s.docs[i := tried], i, settled, e.ok, w);
  }

  lemma DeadFlowSteps(c: Config, s: State, e: Event, w: Weights)
    requires Enabled(c, s, e) && (e.TakeDead? || e.Persist?)
    ensures Load(Apply(c, s, e), w) == Load(s, w) + Shift(c, s, e, w)
  {
    match e
    case TakeDead =>
      SumTail(s.dlq, w.dlq);
    case Persist(_, pushOk) =>
      DeadFlow(s.(taken := None), s.taken.value, pushOk, w);
      SumAppend(s.docs, NewDoc(s.taken.value, s.now), w.doc);
  }

  lemma StoreFlow(c: Config, s: State, e: Event, w: Weights)
    requires Enabled(c, s, e) && (e.Find? || e.Begin? || e.Reject? || e.TtlDelete?)
    ensures Load(Apply(c, s, e), w) == Load(s, w) + Shift(c, s, e, w)
  {
    match e
    case Find(_) =>
    case Begin(ok) =>
      var i := s.batch[0].doc;
      DocFlow(s.docs, i, s.docs[i].(status := Processing), true, w);
    case Reject(error, ok) =>
      var i := s.active.value.doc;
      DocFlow(s.docs, i, s.docs[i].(status := Failed, errorMsg := error), ok, w);
    case TtlDelete(i) =>
      SumUpdate(s.docs, i, s.docs[i].(present := false), w.doc);
  }

  /** Every step changes the load by exactly what its own job moves. */
  lemma Flow(c: Config, s: State, e: Event, w: Weights)
    requires Enabled(c, s, e) && NoClash(s, e)
    ensures Load(Apply(c, s, e), w) == Load(s, w) + Shift(c, s, e, w)
  {
    if e.Advance? || e.Cancel? {
    } else if e.Attempted? {
      AttemptFlow(c, s, e, w);
    } else if e.TakeDead? || e.Persist? {
      DeadFlowSteps(c, s, e, w);
    } else if e.Find? || e.Begin? || e.Reject? || e.TtlDelete? {
      StoreFlow(c, s, e, w);
    } else if e.Handled? || e.HandleFails? {
      WorkerFlow(c, s, e, w);
    } else if e.Check? {
      CheckFlow(c, s, e, w);
    } else if e.Send? || e.Receive? {
      ChannelFlow(c, s, e, w);
    } else {
      QueueFlow(c, s, e, w);
    }
  }

  // ---------- What steps leave alone ----------

  predicate IsProducerEvent(e: Event) {
    e.Enqueue? || e.Pop? || e.Check? || e.Send? || e.Requeue?
  }

  predicate IsWorkerEvent(e: Event) {
    e.Cancel? || e.Receive? || e.Handled? || e.HandleFails? || e.TakeDead?
  }

  /** The producer's steps do not touch the documents, the consumer or the clock. */
  lemma ProducerFrame(c: Config, s: State, e: Event)
    requires Enabled(c, s, e) && IsProducerEvent(e)
    ensures var t := Apply(c, s, e);
            && t.docs == s.docs && t.batch == s.batch && t.active == s.active && t.now == s.now
            && (s.cancelled ==> t.cancelled) && t.origin == (if e.Enqueue? && e.ok then s.origin[e.job.id := e.job] else s.origin)
            && (!e.Enqueue? && !e.Requeue? ==> t.queue == if e.Pop? then s.queue - {e.member} else s.queue)
  {
    hide Settle, Recorded, Snaps, UpdateOne, IsBatch, IsMinimum, GivesUp, Expired, NewDoc, Bump, Ready;
    match e
    case Enqueue(_, _) =>
    case Pop(_) =>
    case Check(_) =>
    case Send =>
    case Requeue(_) =>
  }

  /** Neither do the workers', which only put a job back into the queue when its call fails. */
  lemma WorkerFrame(c: Config, s: State, e: Event)
    requires Enabled(c, s, e) && IsWorkerEvent(e)
    ensures var t := Apply(c, s, e);
            && t.docs == s.docs && t.batch == s.batch && t.active == s.active && t.now == s.now
            && (s.cancelled ==> t.cancelled) && t.origin == s.origin && (!e.HandleFails? ==> t.queue == s.queue)
  {
    hide Settle, Recorded, Snaps, UpdateOne, IsBatch, IsMinimum, GivesUp, Expired, NewDoc, Bump, Ready;
    match e
    case Cancel =>
    case Receive(_) =>
    case Handled(_) =>
    case HandleFails(_, _, _, _) =>
    case TakeDead =>
  }

  /** The clock, the dead-letter worker and the consumer touch neither the queue nor the books. */
  lemma StoreFrame(c: Config, s: State, e: Event)
    requires Enabled(c, s, e) && !IsProducerEvent(e) && !IsWorkerEvent(e)
    ensures var t := Apply(c, s, e); t.origin == s.origin && t.queue == s.queue && s.now <= t.now && t.cancelled == s.cancelled
  {
    hide Settle, Recorded, Snaps, UpdateOne, IsBatch, IsMinimum, GivesUp, Expired, NewDoc, Bump, Ready;
    match e
    case Advance(_) =>
    case Persist(_, _) =>
    case Find(_) =>
    case Begin(_) =>
    case Reject(_, _) =>
    case Attempted(_, _, _, _) =>
    case TtlDelete(_) =>
  }
}
