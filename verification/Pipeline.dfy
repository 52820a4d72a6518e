/**
 The job pipeline as a step system: priority queue, producer, channel, workers,
 dead-letter list, dead-letter documents and the ticking retry consumer.
 Instants are nanoseconds since the epoch; every storage call has a nondeterministic outcome.
 */
module Pipeline {
  import opened Common
  import opened PriorityScore

  datatype Job = Job(
    id: string,
    kind: string,
    payload: string,
    priority: int,
    retry: int,
    maxRetry: int,
    errorMsg: string,
    createdAt: int,
    expireAt: int)

  datatype Status = Pending | Processing | Failed | Completed | PermanentlyFailed

  /** One HandleJob call made for a document. */
  datatype Attempt = Attempt(at: int, ok: bool)

  /**
   A dead-letter document. `present` turns false when the TTL index deletes it;
   `attempts` is the history of HandleJob calls, which the store does not keep.
   */
  datatype Doc = Doc(
    jobId: string,
    kind: string,
    payload: string,
    status: Status,
    retryCount: int,
    originalRetryCount: int,
    errorMsg: string,
    nextRetryAt: Option<int>,
    createdAt: int,
    expireAt: int,
    present: bool,
    attempts: seq<Attempt>)

  /**
   The pool's settings. The three formulas (score of a priority and a time key, delay before a retry, delay
   after a failed document attempt) are parameters: most laws hold whatever they are. `Deployed` fixes them.
   */
  datatype Config = Config(
    workers: nat,
    capacity: nat,
    batchSize: nat,
    retryInterval: nat,
    maxRetryCount: int,
    backoffFactor: nat,
    decode: string -> Option<Job>,
    score: (int, int) -> int,
    delay: int -> int,
    backoff: int -> int)

  ghost predicate Deployed(c: Config) {
    && (forall p, k :: c.score(p, k) == Score(p, k))
    && (forall r :: r >= 1 ==> c.delay(r) == Delay(r))
    && (forall n :: n >= 0 ==> c.backoff(n) == c.retryInterval * Pow(c.backoffFactor, n))
  }

  /** `NewWorkerPool`'s settings. */
  function SourceConfig(workers: nat, decode: string -> Option<Job>): (c: Config)
    ensures Deployed(c)
    ensures c.workers == workers && c.capacity == 100 && c.batchSize == 10 && c.maxRetryCount == 3
    ensures c.retryInterval == 60_000_000_000 && c.backoffFactor == 2 && c.decode == decode
  {
    Config(workers, 100, 10, 60 * SECOND, 3, 2, decode, (p, k) => Score(p, k),
           r => if r >= 1 then Delay(r) else 0, n => if n >= 0 then 60 * SECOND * Pow(2, n) else 0)
  }

  datatype Producer = Idle | Checking(job: Job) | Sending(job: Job)

  datatype Slot = Free | Busy(job: Job)

  /** What the retry consumer read about one document when it queried its batch. */
  datatype Snapshot = Snapshot(doc: nat, retryCount: int, payload: string)

  /**
   `docs` is the collection in insertion order. `origin` holds each job as it was enqueued and
   `calls` the number of HandleJob calls the pool has made for it.
   */
  datatype State = State(
    now: int,
    cancelled: bool,
    queue: map<Job, int>,
    producer: Producer,
    channel: seq<Job>,
    hands: seq<Slot>,
    dlq: seq<Job>,
    taken: Option<Job>,
    docs: seq<Doc>,
    batch: seq<Snapshot>,
    active: Option<Snapshot>,
    done: seq<Job>,
    lost: seq<Job>,
    origin: map<string, Job>,
    calls: map<string, nat>)

  datatype Event =
    | Advance(to: int)
    | Cancel
    | Enqueue(job: Job, ok: bool)
    | Pop(member: Job)
    | Check(pushOk: bool)
    | Send
    | Requeue(ok: bool)
    | Receive(worker: nat)
    | Handled(worker: nat)
    | HandleFails(worker: nat, error: string, addOk: bool, pushOk: bool)
    | TakeDead
    | Persist(ok: bool, pushOk: bool)
    | Find(picks: seq<nat>)
    | Begin(ok: bool)
    | Reject(error: string, ok: bool)
    | Attempted(success: bool, error: string, end: int, ok: bool)
    | TtlDelete(doc: nat)

  // ---------- Queue and dead-letter list ----------

  function Expired(s: State, job: Job): bool {
    Unix(s.now) > job.expireAt
  }

  /** `ZADD priority_queue`: sets the member's score. */
  function ZAdd(c: Config, s: State, job: Job, key: int): State {
    s.(queue := s.queue[job := c.score(job.priority, key)])
  }

  /** `moveToDLQ`: a failed push loses the job. */
  function MoveToDLQ(s: State, job: Job, ok: bool): State {
    if ok then s.(dlq := s.dlq + [job]) else s.(lost := s.lost + [job])
  }

  /** `scheduleRetry`: the retry instant is only an ordering key. */
  function ScheduleRetry(c: Config, s: State, job: Job, addOk: bool, pushOk: bool): State {
    if addOk then ZAdd(c, s, job, Unix(s.now + c.delay(job.retry))) else MoveToDLQ(s, job, pushOk)
  }

  function Retried(job: Job, error: string): Job {
    job.(retry := job.retry + 1, errorMsg := error)
  }

  /** `handlerJobFailure`, given the job with its retry counter already raised. */
  function RouteFailure(c: Config, s: State, job: Job, addOk: bool, pushOk: bool): State {
    if GivesUp(s, job) then MoveToDLQ(s, job, pushOk) else ScheduleRetry(c, s, job, addOk, pushOk)
  }

  function GivesUp(s: State, job: Job): bool {
    job.retry >= job.maxRetry || Expired(s, job)
  }

  function ExpiredJob(job: Job): Job {
    job.(errorMsg := "Job expired")
  }

  // ---------- Dead-letter documents ----------

  const TTL := 7 * 24 * 3600 * SECOND
  const MILLISECOND := 1_000_000

  /** The store keeps instants in whole milliseconds, and compares with a clock reading cut the same way. */
  function Milli(t: int): (stored: int)
    ensures stored <= t < stored + MILLISECOND
  {
    t - t % MILLISECOND
  }

  function NewDoc(job: Job, now: int): Doc {
    Doc(job.id, job.kind, job.payload, Pending, 0, job.retry, job.errorMsg, None,
        Milli(now), Milli(now + TTL), true, [])
  }

  /** The query filter of `processDLQJobs`. */
  predicate Ready(c: Config, d: Doc, now: int) {
    && d.present
    && (d.status == Pending || d.status == Failed)
    && d.retryCount < c.maxRetryCount
    && (d.nextRetryAt.None? || d.nextRetryAt.value <= Milli(now))
  }

  /** An oldest-first batch of ready documents; a limit of 0 means no limit, ties in age go either way. */
  ghost predicate IsBatch(c: Config, docs: seq<Doc>, now: int, picks: seq<nat>) {
    && Distinct(picks)
    && Within(picks, |docs|)
    && (forall k :: 0 <= k < |picks| ==> Ready(c, docs[picks[k]], now))
    && (forall k, l :: 0 <= k < l < |picks| ==> docs[picks[k]].createdAt <= docs[picks[l]].createdAt)
    && (c.batchSize > 0 ==> |picks| <= c.batchSize)
    && (forall i :: 0 <= i < |docs| && Ready(c, docs[i], now) && i !in picks ==>
          0 < c.batchSize == |picks|
          && forall k :: 0 <= k < |picks| ==> docs[picks[k]].createdAt <= docs[i].createdAt)
  }

  function Snap(docs: seq<Doc>, i: nat): Snapshot
    requires i < |docs|
  {
    Snapshot(i, docs[i].retryCount, docs[i].payload)
  }

  function Snaps(docs: seq<Doc>, picks: seq<nat>): (r: seq<Snapshot>)
    requires Within(picks, |docs|)
    ensures |r| == |picks|
    ensures forall k :: 0 <= k < |picks| ==> r[k] == Snap(docs, picks[k])
  {
    seq(|picks|, k requires 0 <= k < |picks| => Snap(docs, picks[k]))
  }

  /** `UpdateOne` by id: a failed call and a deleted document both leave the collection as it is. */
  function UpdateOne(docs: seq<Doc>, i: nat, d: Doc, ok: bool): seq<Doc>
    requires i < |docs|
  {
    if ok && docs[i].present then docs[i := d] else docs
  }

  /** The document after `handleDLQRetryFailure` or `markDLQJobAsCompleted`. */
  function Settle(c: Config, d: Doc, retryCount: int, success: bool, error: string, now: int): Doc
    requires retryCount >= 0
  {
    if success then
      d.(status := Completed)
    else if retryCount + 1 >= c.maxRetryCount then
      d.(status := PermanentlyFailed, errorMsg := error)
    else
      d.(status := Failed, retryCount := retryCount + 1, errorMsg := error,
         nextRetryAt := Some(Milli(now + c.backoff(retryCount + 1))))
  }

  function Recorded(d: Doc, at: int, ok: bool): Doc {
    d.(attempts := d.attempts + [Attempt(at, ok)])
  }

  // ---------- Steps ----------

  ghost predicate Enabled(c: Config, s: State, e: Event) {
    match e
    case Advance(to) => s.now <= to
    case Cancel => true
    case Enqueue(job, _) => job.id !in s.origin && job.retry >= 0
    case Pop(m) => s.producer.Idle? && IsMinimum(s.queue, m)
    case Check(_) => s.producer.Checking?
    case Send => s.producer.Sending? && |s.channel| < c.capacity
    case Requeue(_) => s.producer.Sending? && s.cancelled
    case Receive(w) => w < |s.hands| && s.hands[w].Free? && s.channel != []
    case Handled(w) => w < |s.hands| && s.hands[w].Busy?
    case HandleFails(w, _, _, _) => w < |s.hands| && s.hands[w].Busy? && s.hands[w].job.retry >= 0
    case TakeDead => s.taken.None? && s.dlq != []
    case Persist(_, _) => s.taken.Some?
    case Find(picks) => s.batch == [] && s.active.None? && IsBatch(c, s.docs, s.now, picks)
    case Begin(_) => s.active.None? && s.batch != [] && s.batch[0].doc < |s.docs|
    case Reject(_, _) =>
      && s.active.Some? && s.active.value.doc < |s.docs|
      && c.decode(s.active.value.payload).None?
    case Attempted(_, _, end, _) =>
      && s.active.Some? && s.active.value.doc < |s.docs| && s.active.value.retryCount >= 0
      && c.decode(s.active.value.payload).Some?
      && s.now <= end
    case TtlDelete(i) => i < |s.docs| && s.docs[i].present && s.now > s.docs[i].expireAt
  }

  predicate IsMinimum(queue: map<Job, int>, m: Job) {
    m in queue && forall j :: j in queue ==> queue[m] <= queue[j]
  }

  function Bump(calls: map<string, nat>, id: string): map<string, nat> {
    calls[id := (if id in calls then calls[id] else 0) + 1]
  }

  ghost function Apply(c: Config, s: State, e: Event): State
    requires Enabled(c, s, e)
  {
    match e
    case Advance(to) => s.(now := to)
    case Cancel => s.(cancelled := true)
    case Enqueue(job, ok) =>
      if ok then ZAdd(c, s, job, job.expireAt).(origin := s.origin[job.id := job], calls := s.calls[job.id := 0]) else s
    case Pop(m) => s.(queue := s.queue - {m}, producer := Checking(m))
    case Check(pushOk) =>
      var job := s.producer.job;
      if Expired(s, job) then MoveToDLQ(s.(producer := Idle), ExpiredJob(job), pushOk)
      else s.(producer := Sending(job))
    case Send => s.(producer := Idle, channel := s.channel + [s.producer.job])
    case Requeue(ok) =>
      var job := s.producer.job;
      var idle := s.(producer := Idle);
      if ok then ZAdd(c, idle, job, job.createdAt) else idle.(lost := s.lost + [job])
    case Receive(w) => s.(channel := s.channel[1..], hands := s.hands[w := Busy(s.channel[0])])
    case Handled(w) =>
      var job := s.hands[w].job;
      s.(hands := s.hands[w := Free], done := s.done + [job], calls := Bump(s.calls, job.id))
    case HandleFails(w, error, addOk, pushOk) =>
      var job := s.hands[w].job;
      RouteFailure(c, s.(hands := s.hands[w := Free], calls := Bump(s.calls, job.id)), Retried(job, error), addOk, pushOk)
    case TakeDead => s.(dlq := s.dlq[1..], taken := Some(s.dlq[0]))
    case Persist(ok, pushOk) =>
      var job := s.taken.value;
      var empty := s.(taken := None);
      if ok then empty.(docs := s.docs + [NewDoc(job, s.now)]) else MoveToDLQ(empty, job, pushOk)
    case Find(picks) => s.(batch := Snaps(s.docs, picks))
    case Begin(ok) =>
      var snap := s.batch[0];
      var rest := s.(batch := s.batch[1..]);
      if ok then
        rest.(active := Some(snap), docs := UpdateOne(s.docs, snap.doc, s.docs[snap.doc].(status := Processing), true))
      else rest
    case Reject(error, ok) =>
      var snap := s.active.value;
      s.(active := None, docs := UpdateOne(s.docs, snap.doc, s.docs[snap.doc].(status := Failed, errorMsg := error), ok))
    case Attempted(success, error, end, ok) =>
      var snap := s.active.value;
      var tried := Recorded(s.docs[snap.doc], s.now, success);
      s.(now := end, active := None,
         docs := UpdateOne(s.docs[snap.doc := tried], snap.doc,
                           Settle(c, tried, snap.retryCount, success, error, end), ok))
    case TtlDelete(i) => s.(docs := s.docs[i := s.docs[i].(present := false)])
  }

  // ---------- Runs ----------

  ghost predicate Init(c: Config, s: State) {
    && s.queue == map[] && s.producer == Idle && s.channel == []
    && |s.hands| == c.workers && (forall w :: 0 <= w < |s.hands| ==> s.hands[w] == Free)
    && s.dlq == [] && s.taken == None && s.docs == [] && s.batch == [] && s.active == None
    && s.done == [] && s.lost == [] && s.origin == map[] && s.calls == map[]
  }

  ghost predicate Runs(c: Config, s: State, es: seq<Event>)
    decreases |es|
  {
    es == [] || (Enabled(c, s, es[0]) && Runs(c, Apply(c, s, es[0]), es[1..]))
  }

  ghost function Final(c: Config, s: State, es: seq<Event>): State
    requires Runs(c, s, es)
    decreases |es|
  {
    if es == [] then s else Final(c, Apply(c, s, es[0]), es[1..])
  }

  lemma {:induction false} RunsConcat(c: Config, s: State, es: seq<Event>, fs: seq<Event>)
    requires Runs(c, s, es) && Runs(c, Final(c, s, es), fs)
    ensures Runs(c, s, es + fs) && Final(c, s, es + fs) == Final(c, Final(c, s, es), fs)
    decreases |es|
  {
    hide Apply, Enabled;
    if es == [] {
      assert es + fs == fs;
    } else {
      RunsConcat(c, Apply(c, s, es[0]), es[1..], fs);
      assert (es + fs)[1..] == es[1..] + fs;
    }
  }

  lemma RunsAppend(c: Config, s: State, es: seq<Event>, e: Event)
    requires Runs(c, s, es) && Enabled(c, Final(c, s, es), e)
    ensures Runs(c, s, es + [e]) && Final(c, s, es + [e]) == Apply(c, Final(c, s, es), e)
  {
    hide Apply, Enabled;
    var t := Final(c, s, es);
    assert Runs(c, t, [e]) && Final(c, t, [e]) == Final(c, Apply(c, t, e), []) by {
      assert [e][1..] == [];
      assert Runs(c, Apply(c, t, e), []);
    }
    RunsConcat(c, s, es, [e]);
  }
}
