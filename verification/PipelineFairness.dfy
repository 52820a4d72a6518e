/**
 Waiting in the dead-letter retry: how many ticks can pass over a ready document, from any reachable state and whatever
 fails. Fewer than BatchSize undecodable documents as old: a bounded number. BatchSize of them older: for ever.
 Documents deleted by their TTL and documents stuck in `processing` do not matter.
 */
module PipelineFairness {
  import opened Common
  import opened Pipeline
  import opened PipelineFlow
  import opened PipelineJobs
  import opened PipelineDocs
  import opened PipelineSteps

  // ---------- What stands before a document ----------

  /** In the store, and with a status the query asks for. */
  predicate Open(d: Doc) {
    d.present && (d.status == Pending || d.status == Failed)
  }

  /** Open decodable documents created no later than `age` that may be attempted again. */
  function Competing(c: Config, age: int): Doc -> nat {
    var limit, decode := c.maxRetryCount, c.decode;
    (d: Doc) => if Open(d) && d.createdAt <= age && decode(d.payload).Some? && d.retryCount < limit then 1 else 0
  }

  /** The attempts these documents are still owed. */
  function Owed(c: Config, age: int): Doc -> nat {
    var limit, decode := c.maxRetryCount, c.decode;
    (d: Doc) =>
      if Open(d) && d.createdAt <= age && decode(d.payload).Some? && d.retryCount < limit
      then limit - d.retryCount else 0
  }

  /** Open undecodable documents created no later than `age`. */
  function Unreadable(c: Config, age: int): Doc -> nat {
    var decode := c.decode;
    (d: Doc) => if Open(d) && d.createdAt <= age && decode(d.payload).None? then 1 else 0
  }

  /** The undecodable documents as old as `age`: those that are open, and the one in the consumer's hands. */
  ghost function Blockers(c: Config, s: State, age: int): nat {
    Sum(s.docs, Unreadable(c, age)) + ActiveBlocks(c, s.docs, s.active, age)
  }

  function ActiveBlocks(c: Config, docs: seq<Doc>, active: Option<Snapshot>, age: int): nat {
    if active.Some? && active.value.doc < |docs| then
      var d := docs[active.value.doc];
      if d.present && d.createdAt <= age && c.decode(d.payload).None? then 1 else 0
    else 0
  }

  function Readable(c: Config): Doc -> nat {
    var decode := c.decode;
    (d: Doc) => if d.present && decode(d.payload).Some? then 1 else 0
  }

  function ReadableSnap(c: Config, docs: seq<Doc>): Snapshot -> nat {
    var readable := Readable(c);
    (snap: Snapshot) => if snap.doc < |docs| then readable(docs[snap.doc]) else 0
  }

  /** What the decodable document in the consumer's hands is owed after this attempt. */
  function ActiveOwed(c: Config, docs: seq<Doc>, active: Option<Snapshot>): int {
    if active.Some? && active.value.doc < |docs| then
      var d := docs[active.value.doc];
      if d.present && c.decode(d.payload).Some? then c.maxRetryCount - d.retryCount - 1 else 0
    else 0
  }

  /** The attempts owed once the batch in the consumer's hands has been worked through. */
  ghost function Debt(c: Config, s: State, age: int): int {
    Sum(s.docs, Owed(c, age)) - Sum(s.batch, ReadableSnap(c, s.docs)) + ActiveOwed(c, s.docs, s.active)
  }

  ghost predicate OldSnap(s: State, snap: Snapshot, age: int) {
    snap.doc < |s.docs| && s.docs[snap.doc].createdAt <= age
  }

  /** Document `i` is waiting: ready, not in the consumer's hands, and everything in its hands is as old. */
  ghost predicate Waiting(c: Config, s: State, i: nat, d: Doc) {
    && i < |s.docs| && s.docs[i] == d && d.createdAt < Milli(s.now)
    && Ready(c, d, s.now) && c.decode(d.payload).Some?
    && (forall k :: 0 <= k < |s.batch| ==> s.batch[k].doc != i && OldSnap(s, s.batch[k], d.createdAt))
    && (s.active.Some? ==> s.active.value.doc != i && OldSnap(s, s.active.value, d.createdAt))
  }

  predicate SkipsEvent(e: Event, i: nat) {
    e.Find? ==> i !in e.picks
  }

  predicate Skips(es: seq<Event>, i: nat) {
    forall k :: 0 <= k < |es| ==> SkipsEvent(es[k], i)
  }

  /** The TTL spares document `i`. */
  predicate Spares(es: seq<Event>, i: nat) {
    forall k :: 0 <= k < |es| ==> es[k] != TtlDelete(i)
  }

  function Ticks(es: seq<Event>): nat {
    if es == [] then 0 else (if es[0].Find? then 1 else 0) + Ticks(es[1..])
  }

  /** A batch slot wasted because marking its document as processing failed. */
  function Wasted(e: Event): nat {
    if e.Begin? && !e.ok then 1 else 0
  }

  function WastedSlots(es: seq<Event>): nat {
    if es == [] then 0 else Wasted(es[0]) + WastedSlots(es[1..])
  }

  // ---------- A tick that passes over the document spends a full batch ----------

  lemma {:induction false} SnapsReadable(c: Config, docs: seq<Doc>, picks: seq<nat>)
    requires Within(picks, |docs|)
    ensures Sum(Snaps(docs, picks), ReadableSnap(c, docs)) == PickSum(docs, picks, Readable(c))
  {
    if picks != [] {
      SnapsReadable(c, docs, picks[1..]);
      assert Snaps(docs, picks)[1..] == Snaps(docs, picks[1..]);
    }
  }

  lemma {:induction false} PickSplit(c: Config, docs: seq<Doc>, picks: seq<nat>, age: int)
    requires Within(picks, |docs|)
    requires forall k :: 0 <= k < |picks| ==> Open(docs[picks[k]]) && docs[picks[k]].createdAt <= age
    ensures PickSum(docs, picks, Readable(c)) + PickSum(docs, picks, Unreadable(c, age)) == |picks|
  {
    if picks != [] {
      PickSplit(c, docs, picks[1..], age);
    }
  }

  /** A batch that passes over a ready document is full, and at most the blockers in it are undecodable. */
  lemma FullBatch(c: Config, s: State, picks: seq<nat>, i: nat, d: Doc)
    requires Waiting(c, s, i, d) && Enabled(c, s, Find(picks)) && i !in picks
    ensures |picks| == c.batchSize && forall k :: 0 <= k < |picks| ==> s.docs[picks[k]].createdAt <= d.createdAt
    ensures Sum(Snaps(s.docs, picks), ReadableSnap(c, s.docs)) + Blockers(c, s, d.createdAt) >= c.batchSize
  {
    SnapsReadable(c, s.docs, picks);
    assert forall k :: 0 <= k < |picks| ==> Ready(c, s.docs[picks[k]], s.now);
    PickSplit(c, s.docs, picks, d.createdAt);
    PickSumLe(s.docs, picks, Unreadable(c, d.createdAt));
  }

  /** The step adds no blocker, pays for a tick, and costs at most the slot it wastes. */
  ghost predicate Pays(c: Config, s: State, t: State, age: int, tick: bool, wasted: nat) {
    && Blockers(c, t, age) <= Blockers(c, s, age)
    && Debt(c, t, age) + (if tick then c.batchSize - Blockers(c, s, age) else 0) <= Debt(c, s, age) + wasted
  }

  lemma FindPays(c: Config, s: State, picks: seq<nat>, i: nat, d: Doc)
    requires Waiting(c, s, i, d) && Enabled(c, s, Find(picks)) && i !in picks
    ensures var t := Apply(c, s, Find(picks)); Pays(c, s, t, d.createdAt, true, 0) && Waiting(c, t, i, d)
  {
    FullBatch(c, s, picks, i, d);
  }

  // ---------- Steps that replace one document ----------

  /** Replacing a document other than the target, no older and no younger, keeps the target waiting. */
  lemma ReplacedWaits(c: Config, s: State, t: State, i: nat, d: Doc, j: nat, y: Doc)
    requires Waiting(c, s, i, d) && j < |s.docs| && j != i && y.createdAt == s.docs[j].createdAt
    requires t.docs == s.docs[j := y] && s.now <= t.now
    requires forall k :: 0 <= k < |t.batch| ==> t.batch[k] in s.batch
    requires t.active.Some? ==> t.active == s.active || t.active.value in s.batch
    ensures Waiting(c, t, i, d)
  {
    MilliMonotone(s.now, t.now);
  }

  lemma MilliMonotone(a: int, b: int)
    requires a <= b
    ensures Milli(a) <= Milli(b)
  {
  }

  /** What replacing one document does to the two sums over the documents. */
  lemma ReplacedSums(c: Config, docs: seq<Doc>, j: nat, y: Doc, age: int)
    requires j < |docs|
    ensures var u := Unreadable(c, age); Sum(docs[j := y], u) + u(docs[j]) == Sum(docs, u) + u(y)
    ensures var o := Owed(c, age); Sum(docs[j := y], o) + o(docs[j]) == Sum(docs, o) + o(y)
  {
    SumUpdate(docs, j, y, Unreadable(c, age));
    SumUpdate(docs, j, y, Owed(c, age));
  }

  lemma {:induction false} SumSame<T>(xs: seq<T>, f: T -> nat, g: T -> nat)
    requires forall k :: 0 <= k < |xs| ==> f(xs[k]) == g(xs[k])
    ensures Sum(xs, f) == Sum(xs, g)
  {
    if xs != [] {
      SumSame(xs[1..], f, g);
    }
  }

  /** A document that is not in the batch, or stays as readable as it was, can be replaced without changing the batch's weight. */
  lemma BatchSame(c: Config, docs: seq<Doc>, j: nat, y: Doc, batch: seq<Snapshot>)
    requires j < |docs|
    requires Readable(c)(y) == Readable(c)(docs[j]) || forall k :: 0 <= k < |batch| ==> batch[k].doc != j
    ensures Sum(batch, ReadableSnap(c, docs[j := y])) == Sum(batch, ReadableSnap(c, docs))
  {
    forall k | 0 <= k < |batch|
      ensures ReadableSnap(c, docs[j := y])(batch[k]) == ReadableSnap(c, docs)(batch[k])
    {
      if batch[k].doc == j {
        assert Readable(c)(y) == Readable(c)(docs[j]);
      }
    }
    SumSame(batch, ReadableSnap(c, docs[j := y]), ReadableSnap(c, docs));
  }

  lemma BeginEffect(c: Config, s: State) returns (j: nat, y: Doc)
    requires DocsOk(c, s) && Enabled(c, s, Begin(true))
    ensures j == s.batch[0].doc < |s.docs| && y == if s.docs[j].present then s.docs[j].(status := Processing) else s.docs[j]
    ensures Apply(c, s, Begin(true)) == s.(batch := s.batch[1..], active := Some(s.batch[0]), docs := s.docs[j := y])
    ensures (s.docs[j].present ==> Open(s.docs[j])) && s.docs[j].retryCount < c.maxRetryCount
  {
    assert SnapOk(c, s.docs, s.now, s.batch[0]);
    j := s.batch[0].doc;
    y := Apply(c, s, Begin(true)).docs[j];
  }

  /** The next document of the batch is marked as processing. */
  lemma BeginPays(c: Config, s: State, i: nat, d: Doc)
    requires DocsOk(c, s) && Waiting(c, s, i, d) && Enabled(c, s, Begin(true))
    ensures var t := Apply(c, s, Begin(true)); Pays(c, s, t, d.createdAt, false, 0) && Waiting(c, t, i, d)
  {
    hide Apply, DocsOk, Pays, Blockers, Debt;
    var j, y := BeginEffect(c, s);
    var t := Apply(c, s, Begin(true));
    BeginSums(c, s, t, j, y, d.createdAt);
    ReplacedWaits(c, s, t, i, d, j, y);
  }

  lemma BeginSums(c: Config, s: State, t: State, j: nat, y: Doc, age: int)
    requires s.batch != [] && s.active.None? && j == s.batch[0].doc < |s.docs| && s.docs[j].createdAt <= age
    requires var x := s.docs[j];
             (x.present ==> Open(x)) && x.retryCount < c.maxRetryCount
             && y == if x.present then x.(status := Processing) else x
    requires t == s.(batch := s.batch[1..], active := Some(s.batch[0]), docs := s.docs[j := y])
    ensures Pays(c, s, t, age, false, 0)
  {
    ReplacedSums(c, s.docs, j, y, age);
    SumTail(s.batch, ReadableSnap(c, s.docs));
    BatchSame(c, s.docs, j, y, s.batch[1..]);
  }

  lemma PassedOver(c: Config, s: State, i: nat, d: Doc)
    requires Waiting(c, s, i, d) && Enabled(c, s, Begin(false))
    ensures var t := Apply(c, s, Begin(false)); Pays(c, s, t, d.createdAt, false, 1) && Waiting(c, t, i, d)
  {
    SumTail(s.batch, ReadableSnap(c, s.docs));
  }

  lemma RejectEffect(c: Config, s: State, error: string, ok: bool) returns (j: nat, y: Doc)
    requires DocsOk(c, s) && Enabled(c, s, Reject(error, ok))
    ensures j == s.active.value.doc < |s.docs| && c.decode(s.docs[j].payload).None?
    ensures Apply(c, s, Reject(error, ok)) == s.(active := None, docs := s.docs[j := y])
    ensures var x := s.docs[j];
            && y.createdAt == x.createdAt && y.payload == x.payload && y.present == x.present
            && (x.present ==> x.status == Processing) && (ok && x.present ==> Open(y)) && (!ok ==> y == x)
  {
    assert SnapOk(c, s.docs, s.now, s.active.value);
    j := s.active.value.doc;
    y := Apply(c, s, Reject(error, ok)).docs[j];
  }

  /** An undecodable document is put back, or stays in `processing` if the update fails. */
  lemma RejectPays(c: Config, s: State, error: string, ok: bool, i: nat, d: Doc)
    requires DocsOk(c, s) && Waiting(c, s, i, d) && Enabled(c, s, Reject(error, ok))
    ensures var t := Apply(c, s, Reject(error, ok)); Pays(c, s, t, d.createdAt, false, 0) && Waiting(c, t, i, d)
  {
    hide Apply, DocsOk;
    var j, y := RejectEffect(c, s, error, ok);
    var t := Apply(c, s, Reject(error, ok));
    ReplacedSums(c, s.docs, j, y, d.createdAt);
    BatchSame(c, s.docs, j, y, s.batch);
    ReplacedWaits(c, s, t, i, d, j, y);
  }

  /** The document an attempt leaves behind owes no more than it was going to owe. */
  lemma AttemptEffect(c: Config, s: State, e: Event) returns (j: nat, y: Doc)
    requires DocsOk(c, s) && Enabled(c, s, e) && e.Attempted?
    ensures j == s.active.value.doc < |s.docs| && c.decode(s.docs[j].payload).Some?
    ensures Apply(c, s, e) == s.(now := e.end, active := None, docs := s.docs[j := y])
    ensures var x := s.docs[j];
            && y.createdAt == x.createdAt && y.payload == x.payload && y.present == x.present
            && (x.present ==> x.status == Processing) && 0 <= x.retryCount < c.maxRetryCount
            && (Open(y) ==> y.retryCount == x.retryCount + 1)
  {
    var snap := s.active.value;
    assert SnapOk(c, s.docs, s.now, snap) && DocOk(c, s.docs[snap.doc], s.now);
    j := snap.doc;
    y := Apply(c, s, e).docs[j];
  }

  lemma AttemptPays(c: Config, s: State, e: Event, i: nat, d: Doc)
    requires DocsOk(c, s) && Waiting(c, s, i, d) && Enabled(c, s, e) && e.Attempted?
    ensures var t := Apply(c, s, e); Pays(c, s, t, d.createdAt, false, 0) && Waiting(c, t, i, d)
  {
    hide Apply, DocsOk;
    var j, y := AttemptEffect(c, s, e);
    var t := Apply(c, s, e);
    ReplacedSums(c, s.docs, j, y, d.createdAt);
    BatchSame(c, s.docs, j, y, s.batch);
    ReplacedWaits(c, s, t, i, d, j, y);
  }

  /** A document is deleted. If it was picked, its slot is wasted but so is what it was owed. */
  lemma DeletePicked(c: Config, s: State, t: State, j: nat, age: int, k: nat)
    requires BatchOk(c, s.docs, s.now, s.batch) && ActiveOk(c, s.docs, s.now, s.batch, s.active)
    requires k < |s.batch| && s.batch[k].doc == j && OldSnap(s, s.batch[k], age)
    requires j < |s.docs| && s.docs[j].present && t == s.(docs := s.docs[j := s.docs[j].(present := false)])
    ensures Pays(c, s, t, age, false, 0)
  {
    assert SnapOk(c, s.docs, s.now, s.batch[k]) && Open(s.docs[j]);
    assert s.active.Some? ==> s.active.value.doc != j;
    var y := s.docs[j].(present := false);
    assert !Open(y);
    ReplacedSums(c, s.docs, j, y, age);
    OneLess(s.batch, k, ReadableSnap(c, t.docs), ReadableSnap(c, s.docs));
  }

  lemma DeleteUnpicked(c: Config, s: State, t: State, j: nat, age: int)
    requires ActiveOk(c, s.docs, s.now, s.batch, s.active) && forall k :: 0 <= k < |s.batch| ==> s.batch[k].doc != j
    requires j < |s.docs| && s.docs[j].present && t == s.(docs := s.docs[j := s.docs[j].(present := false)])
    ensures Pays(c, s, t, age, false, 0)
  {
    assert s.active.Some? ==> SnapOk(c, s.docs, s.now, s.active.value);
    var y := s.docs[j].(present := false);
    assert !Open(y);
    ReplacedSums(c, s.docs, j, y, age);
    BatchSame(c, s.docs, j, y, s.batch);
  }

  lemma DeletePays(c: Config, s: State, j: nat, i: nat, d: Doc)
    requires DocsOk(c, s) && Waiting(c, s, i, d) && Enabled(c, s, TtlDelete(j)) && j != i
    ensures var t := Apply(c, s, TtlDelete(j)); Pays(c, s, t, d.createdAt, false, 0) && Waiting(c, t, i, d)
  {
    var t := s.(docs := s.docs[j := s.docs[j].(present := false)]);
    assert Apply(c, s, TtlDelete(j)) == t;
    hide Apply, Enabled, Pays, Blockers, Debt;
    if k :| 0 <= k < |s.batch| && s.batch[k].doc == j {
      DeletePicked(c, s, t, j, d.createdAt, k);
    } else {
      DeleteUnpicked(c, s, t, j, d.createdAt);
    }
    ReplacedWaits(c, s, t, i, d, j, t.docs[j]);
  }

  /** Two weights that agree but at one place. */
  lemma OneLess<T>(xs: seq<T>, k: nat, f: T -> nat, g: T -> nat)
    requires k < |xs| && forall l :: 0 <= l < |xs| && l != k ==> f(xs[l]) == g(xs[l])
    ensures Sum(xs, f) + g(xs[k]) == Sum(xs, g) + f(xs[k])
  {
    SumWithout(xs, k, f);
    SumWithout(xs, k, g);
    SumSame(xs[..k] + xs[k + 1..], f, g);
  }

  lemma SumWithout<T>(xs: seq<T>, i: nat, f: T -> nat)
    requires i < |xs|
    ensures Sum(xs, f) == Sum(xs[..i] + xs[i + 1..], f) + f(xs[i])
  {
    var front, back := xs[..i], xs[i..];
    assert xs == front + back;
    SumConcat(front, back, f);
    SumConcat(front, xs[i + 1..], f);
    assert back[1..] == xs[i + 1..] && back[0] == xs[i];
    SumTail(back, f);
  }

  // ---------- The other steps ----------

  lemma InsertPays(c: Config, s: State, t: State, x: Doc, i: nat, d: Doc)
    requires DocsOk(c, s) && Waiting(c, s, i, d) && x.createdAt > d.createdAt
    requires t.docs == s.docs + [x] && t.batch == s.batch && t.active == s.active && t.now == s.now
    ensures Pays(c, s, t, d.createdAt, false, 0) && Waiting(c, t, i, d)
  {
    hide Ready;
    SumAppend(s.docs, x, Owed(c, d.createdAt));
    SumAppend(s.docs, x, Unreadable(c, d.createdAt));
    forall k | 0 <= k < |s.batch|
      ensures ReadableSnap(c, t.docs)(s.batch[k]) == ReadableSnap(c, s.docs)(s.batch[k])
    {
      assert OldSnap(s, s.batch[k], d.createdAt);
    }
    SumSame(s.batch, ReadableSnap(c, t.docs), ReadableSnap(c, s.docs));
  }

  lemma PersistEffect(c: Config, s: State, ok: bool, pushOk: bool)
    requires Enabled(c, s, Persist(ok, pushOk))
    ensures var t := Apply(c, s, Persist(ok, pushOk));
            && t.docs == (if ok then s.docs + [NewDoc(s.taken.value, s.now)] else s.docs)
            && t.batch == s.batch && t.active == s.active && t.now == s.now
  {
  }

  lemma PersistPays(c: Config, s: State, ok: bool, pushOk: bool, i: nat, d: Doc)
    requires DocsOk(c, s) && Waiting(c, s, i, d) && Enabled(c, s, Persist(ok, pushOk))
    ensures var t := Apply(c, s, Persist(ok, pushOk)); Pays(c, s, t, d.createdAt, false, 0) && Waiting(c, t, i, d)
  {
    hide Apply, DocsOk, Pays;
    PersistEffect(c, s, ok, pushOk);
    var t := Apply(c, s, Persist(ok, pushOk));
    if ok {
      InsertPays(c, s, t, NewDoc(s.taken.value, s.now), i, d);
    } else {
      QuietPays(c, s, t, i, d);
    }
  }

  lemma QuietPays(c: Config, s: State, t: State, i: nat, d: Doc)
    requires Waiting(c, s, i, d)
    requires t.docs == s.docs && t.batch == s.batch && t.active == s.active && s.now <= t.now
    ensures Pays(c, s, t, d.createdAt, false, 0) && Waiting(c, t, i, d)
  {
    MilliMonotone(s.now, t.now);
  }

  lemma AdvanceFrame(c: Config, s: State, e: Event)
    requires Enabled(c, s, e) && e.Advance?
    ensures var t := Apply(c, s, e);
            t.docs == s.docs && t.batch == s.batch && t.active == s.active && s.now <= t.now
  {
  }

  lemma ConsumerStep(c: Config, s: State, e: Event, i: nat, d: Doc)
    requires DocsOk(c, s) && Waiting(c, s, i, d) && Enabled(c, s, e) && SkipsEvent(e, i) && e != TtlDelete(i)
    requires e.Find? || e.Begin? || e.Reject? || e.Attempted? || e.Persist? || e.TtlDelete?
    ensures Pays(c, s, Apply(c, s, e), d.createdAt, e.Find?, Wasted(e)) && Waiting(c, Apply(c, s, e), i, d)
  {
    hide Apply, DocsOk, Pays, Waiting;
    match e
    case Find(picks) => FindPays(c, s, picks, i, d);
    case Begin(ok) =>
      if ok {
        BeginPays(c, s, i, d);
      } else {
        PassedOver(c, s, i, d);
      }
    case Reject(error, ok) => RejectPays(c, s, error, ok, i, d);
    case Attempted(_, _, _, _) => AttemptPays(c, s, e, i, d);
    case Persist(ok, pushOk) => PersistPays(c, s, ok, pushOk, i, d);
    case TtlDelete(j) => DeletePays(c, s, j, i, d);
  }

  lemma WaitingStep(c: Config, s: State, e: Event, i: nat, d: Doc)
    requires DocsOk(c, s) && Waiting(c, s, i, d) && Enabled(c, s, e) && SkipsEvent(e, i) && e != TtlDelete(i)
    ensures Pays(c, s, Apply(c, s, e), d.createdAt, e.Find?, Wasted(e)) && Waiting(c, Apply(c, s, e), i, d)
  {
    hide Apply, DocsOk, Pays, Waiting;
    if e.Find? || e.Begin? || e.Reject? || e.Attempted? || e.Persist? || e.TtlDelete? {
      ConsumerStep(c, s, e, i, d);
    } else if e.Advance? {
      AdvanceFrame(c, s, e);
      QuietPays(c, s, Apply(c, s, e), i, d);
    } else {
      PoolFrame(c, s, e);
      QuietPays(c, s, Apply(c, s, e), i, d);
    }
  }

  /** What one tick costs: the batch size less the undecodable documents as old as `d`. */
  ghost function Price(c: Config, s: State, d: Doc): int {
    c.batchSize - Blockers(c, s, d.createdAt)
  }

  lemma {:induction false} WaitingRun(c: Config, s: State, es: seq<Event>, i: nat, d: Doc, price: int)
    requires DocsOk(c, s) && Waiting(c, s, i, d) && Runs(c, s, es) && Skips(es, i) && Spares(es, i)
    requires price <= Price(c, s, d)
    ensures DocsOk(c, Final(c, s, es)) && Waiting(c, Final(c, s, es), i, d)
    ensures Ticks(es) * price + Debt(c, Final(c, s, es), d.createdAt) <= Debt(c, s, d.createdAt) + WastedSlots(es)
    decreases |es|
  {
    hide Apply, Enabled, DocsOk, Waiting, Debt, Blockers;
    if es != [] {
      assert SkipsEvent(es[0], i) && es[0] != TtlDelete(i);
      DocsStep(c, s, es[0]);
      WaitingStep(c, s, es[0], i, d);
      WaitingRun(c, Apply(c, s, es[0]), es[1..], i, d, price);
      OneMore(es[0].Find?, Ticks(es[1..]), price);
    }
  }

  lemma OneMore(tick: bool, ticks: nat, price: int)
    ensures ((if tick then 1 else 0) + ticks) * price == (if tick then price else 0) + ticks * price
  {
  }

  // ---------- What is owed at the start and at the end ----------

  lemma {:induction false} OwedPerDocument(c: Config, docs: seq<Doc>, age: int)
    requires forall i :: 0 <= i < |docs| ==> docs[i].retryCount >= 0
    ensures Sum(docs, Owed(c, age)) <= Max(0, c.maxRetryCount) * Sum(docs, Competing(c, age))
  {
    if docs != [] {
      OwedPerDocument(c, docs[1..], age);
      var limit := Max(0, c.maxRetryCount);
      assert limit * (Competing(c, age)(docs[0]) + Sum(docs[1..], Competing(c, age)))
          == limit * Competing(c, age)(docs[0]) + limit * Sum(docs[1..], Competing(c, age));
    }
  }

  /** The other open decodable documents created no later than document `i`. */
  function Ahead(c: Config, docs: seq<Doc>, i: nat): nat
    requires i < |docs|
  {
    Sum(docs[..i] + docs[i + 1..], Competing(c, docs[i].createdAt))
  }

  lemma OwedAhead(c: Config, s: State, i: nat)
    requires DocsOk(c, s) && i < |s.docs|
    ensures var age := s.docs[i].createdAt;
            Sum(s.docs, Owed(c, age)) <= Max(0, c.maxRetryCount) * Ahead(c, s.docs, i) + Owed(c, age)(s.docs[i])
  {
    var rest := s.docs[..i] + s.docs[i + 1..];
    SumWithout(s.docs, i, Owed(c, s.docs[i].createdAt));
    assert forall k :: 0 <= k < |s.docs| ==> DocOk(c, s.docs[k], s.now);
    OwedPerDocument(c, rest, s.docs[i].createdAt);
  }

  /** Each readable document of the batch is owed at least the attempt it is about to get. */
  lemma {:induction false} BatchOwed(c: Config, docs: seq<Doc>, now: int, batch: seq<Snapshot>, picks: seq<nat>, age: int)
    requires BatchOk(c, docs, now, batch) && |picks| == |batch| && Within(picks, |docs|)
    requires forall k :: 0 <= k < |batch| ==> picks[k] == batch[k].doc && docs[picks[k]].createdAt <= age
    ensures Sum(batch, ReadableSnap(c, docs)) <= PickSum(docs, picks, Owed(c, age))
  {
    if batch != [] {
      assert SnapOk(c, docs, now, batch[0]) && picks[0] == batch[0].doc;
      assert ReadableSnap(c, docs)(batch[0]) <= Owed(c, age)(docs[picks[0]]) by {
        assert docs[picks[0]].present ==> Open(docs[picks[0]]);
      }
      assert BatchOk(c, docs, now, batch[1..]);
      BatchOwed(c, docs, now, batch[1..], picks[1..], age);
      SumTail(batch, ReadableSnap(c, docs));
    }
  }

  lemma DebtLeft(c: Config, s: State, i: nat, d: Doc)
    requires DocsOk(c, s) && Waiting(c, s, i, d)
    ensures Debt(c, s, d.createdAt) >= Owed(c, d.createdAt)(d)
  {
    hide Owed, Ready;
    var picks := seq(|s.batch|, k requires 0 <= k < |s.batch| => s.batch[k].doc);
    BatchOwed(c, s.docs, s.now, s.batch, picks, d.createdAt);
    PickSumLe(s.docs, [i] + picks, Owed(c, d.createdAt));
    assert ([i] + picks)[1..] == picks;
    if s.active.Some? {
      assert SnapOk(c, s.docs, s.now, s.active.value);
    }
  }

  // ---------- Bounded waiting ----------

  /** Between two ticks of a reachable state, document `i` is ready, decodable, and was not created this millisecond. */
  ghost predicate ReadyAt(c: Config, s: State, i: nat) {
    && s.batch == [] && s.active.None?
    && i < |s.docs| && s.docs[i].createdAt < Milli(s.now)
    && Ready(c, s.docs[i], s.now) && c.decode(s.docs[i].payload).Some?
  }

  /**
   Bounded waiting. In every reachable state and whatever happens next, storage failures, shutdown and TTL deletions of
   other documents included, the ticks that pass over a ready decodable document number at most
   (k*MaxRetryCount + w) / (BatchSize - u), where k other decodable and u undecodable documents open then are as old,
   and w times marking a picked document as processing failed.
   */
  lemma TicksPassingOver(c: Config, start: State, before: seq<Event>, es: seq<Event>, i: nat)
    requires Init(c, start) && Runs(c, start, before) && ReadyAt(c, Final(c, start, before), i)
    requires Runs(c, Final(c, start, before), es) && Skips(es, i) && Spares(es, i)
    ensures var s := Final(c, start, before);
            Ticks(es) * Price(c, s, s.docs[i]) <= Max(0, c.maxRetryCount) * Ahead(c, s.docs, i) + WastedSlots(es)
  {
    hide Apply, Enabled, DocsOk, Owed;
    InitDocs(c, start);
    DocsRun(c, start, before);
    var s := Final(c, start, before);
    var d := s.docs[i];
    WaitingRun(c, s, es, i, d, Price(c, s, d));
    DebtLeft(c, Final(c, s, es), i, d);
    OwedAhead(c, s, i);
  }

  /** So one of any floor((k*MaxRetryCount + w) / (BatchSize - u)) + 1 ticks picks the document. */
  lemma PickedInTime(c: Config, start: State, before: seq<Event>, es: seq<Event>, i: nat)
    requires Init(c, start) && Runs(c, start, before) && ReadyAt(c, Final(c, start, before), i)
    requires Runs(c, Final(c, start, before), es) && Spares(es, i)
    requires var s := Final(c, start, before);
             && Price(c, s, s.docs[i]) > 0
             && Ticks(es) > (Max(0, c.maxRetryCount) * Ahead(c, s.docs, i) + WastedSlots(es)) / Price(c, s, s.docs[i])
    ensures exists k :: 0 <= k < |es| && es[k].Find? && i in es[k].picks
  {
    hide Apply, Enabled, Ready, Price, Ahead;
    var s := Final(c, start, before);
    if Skips(es, i) {
      TicksPassingOver(c, start, before, es, i);
      DivideOut(Ticks(es), Price(c, s, s.docs[i]), Max(0, c.maxRetryCount) * Ahead(c, s.docs, i) + WastedSlots(es));
      assert false;
    }
    var k :| 0 <= k < |es| && !SkipsEvent(es[k], i);
    assert es[k].Find? && i in es[k].picks;
  }

  lemma DivideOut(ticks: nat, price: int, work: nat)
    requires price > 0 && ticks * price <= work
    ensures ticks <= work / price
  {
    var q := work / price;
    assert work < (q + 1) * price;
    Monotone(q + 1, ticks, price);
  }

  lemma Monotone(a: int, b: int, c: int)
    requires c >= 0
    ensures a <= b ==> a * c <= b * c
  {
  }

  // ---------- Picked means attempted ----------

  /** Document `i` has been attempted more than `n` times, or is in the consumer's hands. */
  ghost predicate Due(s: State, i: nat, n: nat) {
    && i < |s.docs|
    && (|s.docs[i].attempts| > n
        || (exists k :: 0 <= k < |s.batch| && s.batch[k].doc == i)
        || (s.active.Some? && s.active.value.doc == i))
  }

  /** Documents keep their payload, and their attempts only grow. */
  ghost predicate Grown(docs: seq<Doc>, to: seq<Doc>) {
    |docs| <= |to| && forall i :: 0 <= i < |docs| ==> SameDoc(docs[i], to[i]) && |docs[i].attempts| <= |to[i].attempts|
  }

  lemma DocsGrow(c: Config, s: State, e: Event)
    requires Enabled(c, s, e)
    ensures Grown(s.docs, Apply(c, s, e).docs)
  {
    if IsProducerEvent(e) || IsWorkerEvent(e) {
      hide Apply;
      PoolFrame(c, s, e);
    } else {
      hide Ready, IsBatch, Bump, GivesUp, IsMinimum;
      match e
      case Advance(_) =>
      case Find(_) =>
      case Begin(_) =>
      case Reject(_, _) =>
      case Attempted(_, _, _, _) =>
      case TtlDelete(_) =>
      case Persist(_, _) =>
    }
  }

  lemma BeginDue(c: Config, s: State, i: nat, n: nat)
    requires DocsOk(c, s) && Enabled(c, s, Begin(true)) && Due(s, i, n)
    ensures Due(Apply(c, s, Begin(true)), i, n)
  {
    var t := Apply(c, s, Begin(true));
    if k :| 0 <= k < |s.batch| && s.batch[k].doc == i {
      assert k > 0 ==> t.batch[k - 1] == s.batch[k];
    }
  }

  lemma AttemptDue(c: Config, s: State, e: Event, i: nat, n: nat)
    requires DocsOk(c, s) && Enabled(c, s, e) && e.Attempted? && Due(s, i, n) && |s.docs[i].attempts| >= n
    ensures Due(Apply(c, s, e), i, n)
  {
    hide Ready, IsBatch, Bump, GivesUp, IsMinimum, DocsOk;
  }

  lemma RejectDue(c: Config, s: State, e: Event, i: nat, n: nat)
    requires DocsOk(c, s) && Enabled(c, s, e) && e.Reject? && Due(s, i, n) && c.decode(s.docs[i].payload).Some?
    ensures Due(Apply(c, s, e), i, n)
  {
    assert SnapOk(c, s.docs, s.now, s.active.value);
  }

  /** Only a failed update to `processing` lets go of a picked decodable document before it is attempted. */
  lemma DueStep(c: Config, s: State, e: Event, i: nat, n: nat)
    requires DocsOk(c, s) && Enabled(c, s, e) && Due(s, i, n) && c.decode(s.docs[i].payload).Some? && Wasted(e) == 0
    requires |s.docs[i].attempts| >= n
    ensures Due(Apply(c, s, e), i, n)
  {
    hide Apply, DocsOk, Due;
    assert i < |s.docs| by {
      HandsWithin(c, s, i, n);
    }
    DocsGrow(c, s, e);
    match e
    case Begin(_) => BeginDue(c, s, i, n);
    case Reject(_, _) => RejectDue(c, s, e, i, n);
    case Attempted(_, _, _, _) => AttemptDue(c, s, e, i, n);
    case _ => HandsKept(c, s, e, i, n);
  }

  lemma HandsWithin(c: Config, s: State, i: nat, n: nat)
    requires Due(s, i, n)
    ensures i < |s.docs|
  {
  }

  lemma HandsKept(c: Config, s: State, e: Event, i: nat, n: nat)
    requires Enabled(c, s, e) && Due(s, i, n) && Grown(s.docs, Apply(c, s, e).docs)
    requires !e.Begin? && !e.Reject? && !e.Attempted?
    ensures Due(Apply(c, s, e), i, n)
  {
    if IsProducerEvent(e) || IsWorkerEvent(e) {
      hide Apply;
      PoolFrame(c, s, e);
    } else if e.Persist? {
      hide Apply;
      PersistEffect(c, s, e.ok, e.pushOk);
    }
  }

  lemma {:induction false} DueRun(c: Config, s: State, es: seq<Event>, i: nat, n: nat)
    requires DocsOk(c, s) && Runs(c, s, es) && Due(s, i, n) && |s.docs[i].attempts| >= n
    requires c.decode(s.docs[i].payload).Some? && WastedSlots(es) == 0
    ensures Due(Final(c, s, es), i, n)
    decreases |es|
  {
    hide Apply, Enabled, DocsOk;
    if es != [] {
      DocsStep(c, s, es[0]);
      DueStep(c, s, es[0], i, n);
      DocsGrow(c, s, es[0]);
      assert SameDoc(s.docs[i], Apply(c, s, es[0]).docs[i]);
      DueRun(c, Apply(c, s, es[0]), es[1..], i, n);
    }
  }

  /**
   A decodable document that a tick picks has been attempted once the consumer is idle again, unless an update to `processing`
   failed. Even its deletion in the meantime does not prevent that.
   */
  lemma PickedIsAttempted(c: Config, s: State, picks: seq<nat>, es: seq<Event>, i: nat)
    requires DocsOk(c, s) && Enabled(c, s, Find(picks)) && i in picks && c.decode(s.docs[i].payload).Some?
    requires Runs(c, Apply(c, s, Find(picks)), es) && WastedSlots(es) == 0
    requires var t := Final(c, Apply(c, s, Find(picks)), es); t.batch == [] && t.active.None?
    ensures var t := Final(c, Apply(c, s, Find(picks)), es);
            i < |t.docs| && |t.docs[i].attempts| > |s.docs[i].attempts|
  {
    var t := Apply(c, s, Find(picks));
    var k :| 0 <= k < |picks| && picks[k] == i;
    assert t.batch[k].doc == i;
    FindStep(c, s, picks);
    DueRun(c, t, es, i, |s.docs[i].attempts|);
  }

  /** The first pick in a run without wasted slots leads to an attempt before the run ends with the consumer idle. */
  lemma {:induction false} PickedInRun(c: Config, s: State, es: seq<Event>, i: nat)
    requires DocsOk(c, s) && Runs(c, s, es) && i < |s.docs| && c.decode(s.docs[i].payload).Some? && WastedSlots(es) == 0
    requires exists k :: 0 <= k < |es| && !SkipsEvent(es[k], i)
    requires Final(c, s, es).batch == [] && Final(c, s, es).active.None?
    ensures i < |Final(c, s, es).docs| && |Final(c, s, es).docs[i].attempts| > |s.docs[i].attempts|
    decreases |es|
  {
    hide Apply, Enabled, DocsOk;
    if !SkipsEvent(es[0], i) {
      PickedIsAttempted(c, s, es[0].picks, es[1..], i);
    } else {
      DocsStep(c, s, es[0]);
      DocsGrow(c, s, es[0]);
      var t := Apply(c, s, es[0]);
      assert SameDoc(s.docs[i], t.docs[i]) && |s.docs[i].attempts| <= |t.docs[i].attempts|;
      var k :| 0 <= k < |es| && !SkipsEvent(es[k], i);
      assert es[1..][k - 1] == es[k];
      PickedInRun(c, t, es[1..], i);
    }
  }

  /**
   Bounded waiting for an attempt: in every reachable state, floor(k*MaxRetryCount / (BatchSize - u)) + 1 ticks without a failed
   update to `processing` attempt a ready decodable document, whatever else happens.
   */
  lemma AttemptedInTime(c: Config, start: State, before: seq<Event>, es: seq<Event>, i: nat)
    requires Init(c, start) && Runs(c, start, before) && ReadyAt(c, Final(c, start, before), i)
    requires Runs(c, Final(c, start, before), es) && Spares(es, i) && WastedSlots(es) == 0
    requires var s := Final(c, start, before);
             && Price(c, s, s.docs[i]) > 0
             && Ticks(es) > Max(0, c.maxRetryCount) * Ahead(c, s.docs, i) / Price(c, s, s.docs[i])
    requires var t := Final(c, Final(c, start, before), es); t.batch == [] && t.active.None?
    ensures var s := Final(c, start, before);
            var t := Final(c, s, es);
            i < |t.docs| && |t.docs[i].attempts| > |s.docs[i].attempts|
  {
    hide Apply, Enabled, Ready, Price, Ahead, DocsOk;
    PickedInTime(c, start, before, es, i);
    InitDocs(c, start);
    DocsRun(c, start, before);
    PickedInRun(c, Final(c, start, before), es, i);
  }

  // ---------- From one attempt to the next ----------

  /** As its last update left it, or in the consumer's hands again, or attempted once more, or gone. */
  ghost predicate Rests(s: State, i: nat, d: Doc) {
    && i < |s.docs|
    && (s.docs[i] == d
        || |s.docs[i].attempts| > |d.attempts|
        || (s.active.Some? && s.active.value.doc == i && s.docs[i] == d.(status := Processing)))
  }

  lemma RestsInStore(c: Config, s: State, e: Event, i: nat, d: Doc)
    requires DocsOk(c, s) && Enabled(c, s, e) && Rests(s, i, d) && e != TtlDelete(i) && d.present
    requires e.Begin? || e.Reject? || e.TtlDelete? || e.Persist?
    requires c.decode(d.payload).Some?
    ensures Rests(Apply(c, s, e), i, d)
  {
    hide Settle, Recorded, Snaps, IsBatch, IsMinimum, GivesUp, Expired, Bump, Ready, NewDoc, StatusOk, NextOk, Spaced;
    match e
    case Begin(_) => assert SnapOk(c, s.docs, s.now, s.batch[0]);
    case Reject(_, _) => assert SnapOk(c, s.docs, s.now, s.active.value);
    case TtlDelete(_) =>
    case Persist(_, _) =>
  }

  lemma RestsInAttempt(c: Config, s: State, e: Event, i: nat, d: Doc)
    requires Enabled(c, s, e) && e.Attempted? && Rests(s, i, d)
    ensures Rests(Apply(c, s, e), i, d)
  {
    hide Snaps, IsBatch, IsMinimum, GivesUp, Expired, Bump, Ready, NewDoc;
  }

  lemma RestsStep(c: Config, s: State, e: Event, i: nat, d: Doc)
    requires DocsOk(c, s) && Enabled(c, s, e) && Rests(s, i, d) && e != TtlDelete(i) && d.present
    requires c.decode(d.payload).Some?
    ensures Rests(Apply(c, s, e), i, d)
  {
    hide Enabled, DocsOk;
    if e.Begin? || e.Reject? || e.TtlDelete? || e.Persist? {
      RestsInStore(c, s, e, i, d);
    } else if e.Attempted? {
      RestsInAttempt(c, s, e, i, d);
    } else if e.Advance? || e.Find? {
    } else {
      hide Apply;
      PoolFrame(c, s, e);
    }
  }

  lemma {:induction false} RestsRun(c: Config, s: State, es: seq<Event>, i: nat, d: Doc)
    requires DocsOk(c, s) && Runs(c, s, es) && Rests(s, i, d) && Spares(es, i) && d.present && c.decode(d.payload).Some?
    ensures Rests(Final(c, s, es), i, d) && DocsOk(c, Final(c, s, es))
    decreases |es|
  {
    hide Apply, Enabled, DocsOk, Rests;
    if es != [] {
      assert es[0] != TtlDelete(i);
      DocsStep(c, s, es[0]);
      RestsStep(c, s, es[0], i, d);
      assert forall k :: 0 <= k < |es[1..]| ==> es[1..][k] == es[k + 1];
      RestsRun(c, Apply(c, s, es[0]), es[1..], i, d);
    }
  }

  /** Documents are not from the future. */
  ghost predicate Born(s: State) {
    forall i :: 0 <= i < |s.docs| ==> s.docs[i].createdAt <= Milli(s.now)
  }

  lemma BornStep(c: Config, s: State, e: Event)
    requires Born(s) && Enabled(c, s, e)
    ensures Born(Apply(c, s, e))
  {
    BirthKept(c, s, e);
    Forward(c, s, e);
    NewestIsNew(c, s, e);
    hide Apply, Enabled;
    var t := Apply(c, s, e);
    MilliMonotone(s.now, t.now);
    forall i | 0 <= i < |t.docs|
      ensures t.docs[i].createdAt <= Milli(t.now)
    {
      assert i < |s.docs| ==> SameDoc(s.docs[i], t.docs[i]);
    }
  }

  lemma NewestIsNew(c: Config, s: State, e: Event)
    requires Enabled(c, s, e)
    ensures var t := Apply(c, s, e);
            forall i :: |s.docs| <= i < |t.docs| ==> t.docs[i].createdAt <= Milli(t.now)
  {
    if e.Persist? {
      PersistExactly(c, s, e.ok, e.pushOk);
    } else if e.Begin? || e.Reject? || e.Attempted? || e.TtlDelete? {
      hide Apply;
      DocsKept(c, s, e);
    } else if e.Advance? || e.Find? {
    } else {
      hide Apply;
      PoolFrame(c, s, e);
    }
  }

  lemma {:induction false} BornRun(c: Config, s: State, es: seq<Event>)
    requires Born(s) && Runs(c, s, es)
    ensures Born(Final(c, s, es))
    decreases |es|
  {
    hide Apply, Enabled, Born;
    if es != [] {
      BornStep(c, s, es[0]);
      BornRun(c, Apply(c, s, es[0]), es[1..]);
    }
  }

  /** The document in the consumer's hands fails its n-th attempt, n below the limit, and that is recorded. */
  ghost predicate FailsOnce(c: Config, s: State, e: Event) {
    && Enabled(c, s, e) && e.Attempted? && !e.success && e.ok
    && s.docs[s.active.value.doc].present && s.active.value.retryCount + 1 < c.maxRetryCount
  }

  /** RetryInterval*B^n has passed since the end of that attempt, to the millisecond. */
  ghost predicate WaitedFor(c: Config, s: State, e: Event, now: int)
    requires e.Attempted? && s.active.Some? && s.active.value.retryCount >= 0
  {
    now / 1_000_000 >= (e.end + c.retryInterval * Pow(c.backoffFactor, s.active.value.retryCount + 1)) / 1_000_000
  }

  /** Until its next attempt the failed document stays as it was recorded. */
  lemma FailedRests(c: Config, start: State, before: seq<Event>, e: Event, wait: seq<Event>)
    requires Init(c, start) && Runs(c, start, before) && FailsOnce(c, Final(c, start, before), e)
    requires var s := Final(c, start, before); Runs(c, Apply(c, s, e), wait) && Spares(wait, s.active.value.doc)
    ensures var s := Final(c, start, before);
            var i := s.active.value.doc;
            var u := Final(c, Apply(c, s, e), wait);
            && i < |Apply(c, s, e).docs| && Rests(u, i, Apply(c, s, e).docs[i])
            && c.decode(Apply(c, s, e).docs[i].payload).Some? && Apply(c, s, e).docs[i].status == Failed
  {
    InitDocs(c, start);
    DocsRun(c, start, before);
    var s := Final(c, start, before);
    var i := s.active.value.doc;
    assert SnapOk(c, s.docs, s.now, s.active.value);
    DocsStep(c, s, e);
    AttemptExactly(c, s, e);
    var t := Apply(c, s, e);
    hide Apply, Enabled, DocsOk;
    RestsRun(c, t, wait, i, t.docs[i]);
  }

  lemma ReadyAgain(c: Config, start: State, before: seq<Event>, e: Event, u: State)
    requires Deployed(c) && c.retryInterval >= MILLISECOND && c.backoffFactor >= 1
    requires Init(c, start) && Runs(c, start, before) && FailsOnce(c, Final(c, start, before), e)
    requires var s := Final(c, start, before);
             var i := s.active.value.doc;
             && WaitedFor(c, s, e, u.now) && u.batch == [] && u.active.None?
             && i < |Apply(c, s, e).docs| && c.decode(Apply(c, s, e).docs[i].payload).Some?
             && i < |u.docs| && u.docs[i] == Apply(c, s, e).docs[i]
    ensures ReadyAt(c, u, Final(c, start, before).active.value.doc)
  {
    var s := Final(c, start, before);
    RetryReadyExactly(c, s, e, u.now);
    BornBefore(c, start, before, e, u.now);
  }

  /**
   When a document is tried again. Let its n-th attempt fail at `end`, n below the limit, and be recorded. Once
   RetryInterval*B^n has passed and the consumer is between two ticks, either the next attempt has already been made, or the
   ticks named by `AttemptedInTime`, counted from then, make it.
   */
  lemma RetriedInTime(c: Config, start: State, before: seq<Event>, e: Event, wait: seq<Event>, es: seq<Event>)
    requires Deployed(c) && c.retryInterval >= MILLISECOND && c.backoffFactor >= 1
    requires Init(c, start) && Runs(c, start, before) && FailsOnce(c, Final(c, start, before), e)
    requires var s := Final(c, start, before);
             Runs(c, Apply(c, s, e), wait) && Spares(wait, s.active.value.doc) && Spares(es, s.active.value.doc)
    requires var s := Final(c, start, before);
             var u := Final(c, Apply(c, s, e), wait);
             var i := s.active.value.doc;
             && u.batch == [] && u.active.None? && i < |u.docs| && WaitedFor(c, s, e, u.now)
             && Runs(c, u, es) && WastedSlots(es) == 0 && Price(c, u, u.docs[i]) > 0
             && Ticks(es) > Max(0, c.maxRetryCount) * Ahead(c, u.docs, i) / Price(c, u, u.docs[i])
             && Final(c, u, es).batch == [] && Final(c, u, es).active.None?
    ensures var s := Final(c, start, before);
            var i := s.active.value.doc;
            var t := Final(c, Final(c, Apply(c, s, e), wait), es);
            i < |t.docs| && i < |Apply(c, s, e).docs| && |t.docs[i].attempts| > |Apply(c, s, e).docs[i].attempts|
  {
    hide Apply, Price, Ahead, WaitedFor, ReadyAt, Runs, Final, Spares, Init, WastedSlots, Ticks;
    var s := Final(c, start, before);
    var i := s.active.value.doc;
    hide Enabled;
    var u := Final(c, Apply(c, s, e), wait);
    RestedOrRetried(c, start, before, e, wait);
    if u.docs[i] == Apply(c, s, e).docs[i] {
      LongerRun(c, start, before, e, wait);
      AttemptedInTime(c, start, before + [e] + wait, es, i);
    } else {
      AttemptsStay(c, u, es, i);
    }
  }

  /** With the consumer idle, the failed document is ready again, or has been attempted once more. */
  lemma RestedOrRetried(c: Config, start: State, before: seq<Event>, e: Event, wait: seq<Event>)
    requires Deployed(c) && c.retryInterval >= MILLISECOND && c.backoffFactor >= 1
    requires Init(c, start) && Runs(c, start, before) && FailsOnce(c, Final(c, start, before), e)
    requires var s := Final(c, start, before); Runs(c, Apply(c, s, e), wait) && Spares(wait, s.active.value.doc)
    requires var s := Final(c, start, before);
             var u := Final(c, Apply(c, s, e), wait);
             u.batch == [] && u.active.None? && WaitedFor(c, s, e, u.now)
    ensures var s := Final(c, start, before);
            var i := s.active.value.doc;
            var t := Apply(c, s, e);
            var u := Final(c, t, wait);
            && i < |u.docs| && i < |t.docs|
            && (u.docs[i] == t.docs[i] ==> ReadyAt(c, u, i))
            && (u.docs[i] != t.docs[i] ==> |u.docs[i].attempts| > |t.docs[i].attempts|)
  {
    hide Apply, WaitedFor, ReadyAt, Runs, Final, Spares, Init;
    var s := Final(c, start, before);
    var i := s.active.value.doc;
    hide Enabled;
    FailedRests(c, start, before, e, wait);
    var u := Final(c, Apply(c, s, e), wait);
    if u.docs[i] == Apply(c, s, e).docs[i] {
      ReadyAgain(c, start, before, e, u);
    }
  }

  lemma LongerRun(c: Config, start: State, before: seq<Event>, e: Event, wait: seq<Event>)
    requires Runs(c, start, before) && Enabled(c, Final(c, start, before), e)
    requires Runs(c, Apply(c, Final(c, start, before), e), wait)
    ensures Runs(c, start, before + [e] + wait)
    ensures Final(c, start, before + [e] + wait) == Final(c, Apply(c, Final(c, start, before), e), wait)
  {
    hide Apply, Enabled;
    RunsAppend(c, start, before, e);
    RunsConcat(c, start, before + [e], wait);
  }

  /** The document was created before the instant from which it may be tried again. */
  lemma BornBefore(c: Config, start: State, before: seq<Event>, e: Event, now: int)
    requires c.retryInterval >= MILLISECOND && c.backoffFactor >= 1
    requires Init(c, start) && Runs(c, start, before) && FailsOnce(c, Final(c, start, before), e)
    requires WaitedFor(c, Final(c, start, before), e, now)
    ensures var s := Final(c, start, before);
            s.active.value.doc < |Apply(c, s, e).docs| && Apply(c, s, e).docs[s.active.value.doc].createdAt < Milli(now)
  {
    var s := Final(c, start, before);
    var i, n := s.active.value.doc, s.active.value.retryCount + 1;
    var end := e.end;
    assert s.now <= end;
    BornRun(c, start, before);
    AttemptKeepsDocs(c, s, e);
    hide Apply, Pow, Init, Runs, Enabled;
    assert SameDoc(s.docs[i], Apply(c, s, e).docs[i]);
    PowPositive(c.backoffFactor, n);
    LaterMillisecond(s.now, end, c.retryInterval, Pow(c.backoffFactor, n), now);
  }

  lemma LaterMillisecond(a: int, end: int, interval: int, power: int, now: int)
    requires a <= end && interval >= 1_000_000 && power >= 1 && now / 1_000_000 >= (end + interval * power) / 1_000_000
    ensures Milli(a) < Milli(now)
  {
    assert interval * power >= interval;
  }

  lemma {:induction false} AttemptsStay(c: Config, s: State, es: seq<Event>, i: nat)
    requires Runs(c, s, es) && i < |s.docs|
    ensures i < |Final(c, s, es).docs| && |s.docs[i].attempts| <= |Final(c, s, es).docs[i].attempts|
    decreases |es|
  {
    hide Apply, Enabled;
    if es != [] {
      DocsGrow(c, s, es[0]);
      AttemptsStay(c, Apply(c, s, es[0]), es[1..], i);
    }
  }

  lemma Forward(c: Config, s: State, e: Event)
    requires Enabled(c, s, e)
    ensures s.now <= Apply(c, s, e).now
  {
    hide Apply, Enabled;
    if IsProducerEvent(e) {
      ProducerFrame(c, s, e);
    } else if IsWorkerEvent(e) {
      WorkerFrame(c, s, e);
    } else {
      StoreFrame(c, s, e);
    }
  }

  // ---------- Starvation ----------

  /** A step that may take an undecodable document out of the way. */
  function Loss(e: Event): nat {
    if e.TtlDelete? || (e.Reject? && !e.ok) then 1 else 0
  }

  function Losses(es: seq<Event>): nat {
    if es == [] then 0 else Loss(es[0]) + Losses(es[1..])
  }

  /** Document `i` is decodable, and undecodable documents at least a millisecond older fill a batch even after `losses`. */
  ghost predicate Starved(c: Config, s: State, i: nat, losses: nat) {
    && i < |s.docs| && c.decode(s.docs[i].payload).Some?
    && 0 < c.batchSize && c.batchSize + losses <= Blockers(c, s, s.docs[i].createdAt - 1)
  }

  /** An open undecodable document is ready at every tick. */
  lemma UnreadableReady(c: Config, s: State, j: nat)
    requires DocsOk(c, s) && c.maxRetryCount >= 1
    requires j < |s.docs| && Open(s.docs[j]) && c.decode(s.docs[j].payload).None?
    ensures Ready(c, s.docs[j], s.now)
  {
    assert DocOk(c, s.docs[j], s.now);
  }

  lemma BlockersPicked(c: Config, s: State, picks: seq<nat>, i: nat, j: nat)
    requires DocsOk(c, s) && Enabled(c, s, Find(picks)) && c.maxRetryCount >= 1
    requires i < |s.docs| && i in picks && j < |s.docs| && Unreadable(c, s.docs[i].createdAt - 1)(s.docs[j]) != 0
    ensures j in picks
  {
    UnreadableReady(c, s, j);
    var k :| 0 <= k < |picks| && picks[k] == i;
  }

  lemma StarvedSkipped(c: Config, s: State, picks: seq<nat>, i: nat)
    requires DocsOk(c, s) && Starved(c, s, i, 0) && Enabled(c, s, Find(picks)) && c.maxRetryCount >= 1
    ensures i !in picks
  {
    hide Ready, DocsOk, Distinct, Within;
    if i in picks {
      var f := Unreadable(c, s.docs[i].createdAt - 1);
      forall j | 0 <= j < |s.docs| && f(s.docs[j]) != 0
        ensures j in picks
      {
        BlockersPicked(c, s, picks, i, j);
      }
      AllPicked(s.docs, picks, f);
      var k :| 0 <= k < |picks| && picks[k] == i;
      PickBelow(s.docs, picks, f, k);
    }
  }

  /** Positions that hold all the weight hold it all. */
  lemma AllPicked<T>(xs: seq<T>, picks: seq<nat>, f: T -> nat)
    requires Distinct(picks) && Within(picks, |xs|)
    requires forall j :: 0 <= j < |xs| && j !in picks ==> f(xs[j]) == 0
    ensures PickSum(xs, picks, f) == Sum(xs, f)
  {
    var flags := seq(|xs|, j requires 0 <= j < |xs| => f(xs[j]));
    PickSumFlags(xs, picks, f, flags);
    TotalIsSum(xs, f, flags);
  }

  lemma {:induction false} TotalIsSum<T>(xs: seq<T>, f: T -> nat, flags: seq<nat>)
    requires |flags| == |xs| && forall j :: 0 <= j < |xs| ==> flags[j] == f(xs[j])
    ensures Total(flags) == Sum(xs, f)
  {
    if xs != [] {
      TotalIsSum(xs[1..], f, flags[1..]);
    }
  }

  lemma {:induction false} PickBelow(docs: seq<Doc>, picks: seq<nat>, f: Doc -> nat, k: nat)
    requires Within(picks, |docs|) && k < |picks| && f(docs[picks[k]]) == 0
    requires forall d :: f(d) <= 1
    ensures PickSum(docs, picks, f) < |picks|
  {
    if k > 0 {
      PickBelow(docs, picks[1..], f, k - 1);
    } else {
      PickAtMost(docs, picks[1..], f);
    }
  }

  lemma {:induction false} PickAtMost(docs: seq<Doc>, picks: seq<nat>, f: Doc -> nat)
    requires Within(picks, |docs|) && forall d :: f(d) <= 1
    ensures PickSum(docs, picks, f) <= |picks|
  {
    if picks != [] {
      PickAtMost(docs, picks[1..], f);
    }
  }

  lemma {:induction false} SumGrows<T>(xs: seq<T>, ys: seq<T>, f: T -> nat)
    requires |xs| <= |ys| && forall i :: 0 <= i < |xs| ==> f(xs[i]) == f(ys[i])
    ensures Sum(xs, f) <= Sum(ys, f)
  {
    if xs != [] {
      SumGrows(xs[1..], ys[1..], f);
    }
  }

  lemma BirthKept(c: Config, s: State, e: Event)
    requires Enabled(c, s, e)
    ensures |s.docs| <= |Apply(c, s, e).docs|
    ensures forall i :: 0 <= i < |s.docs| ==> SameDoc(s.docs[i], Apply(c, s, e).docs[i])
  {
    match e
    case Advance(_) =>
    case Find(_) =>
    case Begin(_) => DocsKept(c, s, e);
    case Reject(_, _) => DocsKept(c, s, e);
    case Attempted(_, _, _, _) => DocsKept(c, s, e);
    case TtlDelete(_) => DocsKept(c, s, e);
    case Persist(_, _) =>
    case _ => PoolFrame(c, s, e);
  }

  lemma BeginBlocks(c: Config, s: State, ok: bool, age: int)
    requires DocsOk(c, s) && Enabled(c, s, Begin(ok))
    ensures Blockers(c, Apply(c, s, Begin(ok)), age) == Blockers(c, s, age)
  {
    var j := s.batch[0].doc;
    assert SnapOk(c, s.docs, s.now, s.batch[0]);
    ReplacedSums(c, s.docs, j, s.docs[j].(status := Processing), age);
  }

  lemma RejectBlocks(c: Config, s: State, error: string, ok: bool, age: int)
    requires DocsOk(c, s) && Enabled(c, s, Reject(error, ok))
    ensures Blockers(c, Apply(c, s, Reject(error, ok)), age) + (if ok then 0 else 1) >= Blockers(c, s, age)
  {
    hide Apply, DocsOk;
    var j, y := RejectEffect(c, s, error, ok);
    ReplacedSums(c, s.docs, j, y, age);
  }

  lemma AttemptBlocks(c: Config, s: State, e: Event, age: int)
    requires DocsOk(c, s) && Enabled(c, s, e) && e.Attempted?
    ensures Blockers(c, Apply(c, s, e), age) == Blockers(c, s, age)
  {
    hide Apply, DocsOk;
    var j, y := AttemptEffect(c, s, e);
    ReplacedSums(c, s.docs, j, y, age);
  }

  lemma DeleteBlocks(c: Config, s: State, j: nat, age: int)
    requires DocsOk(c, s) && Enabled(c, s, TtlDelete(j))
    ensures Blockers(c, Apply(c, s, TtlDelete(j)), age) + 1 >= Blockers(c, s, age)
  {
    ReplacedSums(c, s.docs, j, s.docs[j].(present := false), age);
    if s.active.Some? {
      assert SnapOk(c, s.docs, s.now, s.active.value);
    }
  }

  lemma PersistBlocks(c: Config, s: State, ok: bool, pushOk: bool, age: int)
    requires DocsOk(c, s) && Enabled(c, s, Persist(ok, pushOk))
    ensures Blockers(c, Apply(c, s, Persist(ok, pushOk)), age) >= Blockers(c, s, age)
  {
    hide Apply;
    PersistEffect(c, s, ok, pushOk);
    SumAppend(s.docs, NewDoc(s.taken.value, s.now), Unreadable(c, age));
  }

  /** A step loses at most one blocker, and only by a deletion or a failed update. */
  lemma BlockersStep(c: Config, s: State, e: Event, age: int)
    requires DocsOk(c, s) && Enabled(c, s, e)
    ensures Blockers(c, Apply(c, s, e), age) + Loss(e) >= Blockers(c, s, age)
  {
    hide Apply, DocsOk, Blockers;
    match e
    case Advance(_) => SameBlockers(c, s, e, age);
    case Find(_) => SameBlockers(c, s, e, age);
    case Begin(ok) => BeginBlocks(c, s, ok, age);
    case Reject(error, ok) => RejectBlocks(c, s, error, ok, age);
    case Attempted(_, _, _, _) => AttemptBlocks(c, s, e, age);
    case TtlDelete(j) => DeleteBlocks(c, s, j, age);
    case Persist(ok, pushOk) => PersistBlocks(c, s, ok, pushOk, age);
    case _ => SameBlockers(c, s, e, age);
  }

  lemma SameBlockers(c: Config, s: State, e: Event, age: int)
    requires Enabled(c, s, e) && (e.Advance? || e.Find? || IsProducerEvent(e) || IsWorkerEvent(e))
    ensures Blockers(c, Apply(c, s, e), age) == Blockers(c, s, age)
  {
    if e.Advance? || e.Find? {
    } else {
      hide Apply;
      PoolFrame(c, s, e);
    }
  }

  lemma {:induction false} StarvedRun(c: Config, s: State, es: seq<Event>, i: nat)
    requires DocsOk(c, s) && Starved(c, s, i, Losses(es)) && c.maxRetryCount >= 1 && Runs(c, s, es)
    ensures Skips(es, i)
    decreases |es|
  {
    hide Apply, Enabled, DocsOk, Blockers;
    if es != [] {
      if es[0].Find? {
        StarvedSkipped(c, s, es[0].picks, i);
      }
      DocsStep(c, s, es[0]);
      BlockersStep(c, s, es[0], s.docs[i].createdAt - 1);
      BirthKept(c, s, es[0]);
      assert SameDoc(s.docs[i], Apply(c, s, es[0]).docs[i]);
      StarvedRun(c, Apply(c, s, es[0]), es[1..], i);
      forall k | 0 <= k < |es|
        ensures SkipsEvent(es[k], i)
      {
        if k > 0 {
          assert SkipsEvent(es[1..][k - 1], i);
        }
      }
    }
  }

  /**
   Starvation. In every reachable state, a decodable document with BatchSize + n older undecodable ones open is picked by
   no tick of any continuation with at most n TTL deletions and failed put-backs, however long.
   */
  lemma StarvedForever(c: Config, start: State, before: seq<Event>, es: seq<Event>, i: nat)
    requires Init(c, start) && Runs(c, start, before) && c.maxRetryCount >= 1
    requires Runs(c, Final(c, start, before), es) && Starved(c, Final(c, start, before), i, Losses(es))
    ensures Skips(es, i)
  {
    hide Apply, Enabled, DocsOk, Starved;
    InitDocs(c, start);
    DocsRun(c, start, before);
    StarvedRun(c, Final(c, start, before), es, i);
  }
}
