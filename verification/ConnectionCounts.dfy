/**
 The per-address connection count under interleaving: handshakes, the goroutines that count down after a
 disconnect, and the sweep that drops limiters without connections, all for one address.
 Every lookup of the limiter and every update of a limiter is one step of its own.
 */
module ConnectionCounts {
  import opened Common

  /** `limit` is ConnectionsPerIP. */
  datatype Config = Config(enabled: bool, limit: nat)

  /**
   Where a call of HandleWebSocket is. Limiters are numbered in creation order; a call may hold one that has been
   replaced since. A live connection remembers the limiter its +1 went to, if there was one.
   */
  datatype Phase =
    | Looking
    | Creating
    | Checking(limiter: nat)
    | Passed
    | Refused
    | Opened
    | Adding(limiter: nat)
    | Live(on: Option<nat>)
    | Dropping(on: Option<nat>, limiter: nat)
    | Gone

  datatype Conn = Conn(phase: Phase, cancelled: bool)

  /** `current` is the limiter in the table, `counts` what each limiter has recorded for the address. */
  datatype State = State(current: Option<nat>, counts: seq<int>, conns: seq<Conn>)

  /** `ok` decides whether an admitted call finds room in the hub and succeeds with its upgrade. */
  datatype Event = Arrive | Move(conn: nat, ok: bool) | Cancel(conn: nat) | Sweep

  const EMPTY := State(None, [], [])

  /** What `checkRateLimit` would read. */
  function Recorded(s: State): int {
    if s.current.Some? && s.current.value < |s.counts| then s.counts[s.current.value] else 0
  }

  /** A count that would not stay positive is deleted. */
  function Bumped(n: int, delta: int): int {
    if n + delta <= 0 then 0 else n + delta
  }

  predicate HoldsLimiter(p: Phase, n: nat) {
    match p
    case Checking(l) => l < n
    case Adding(l) => l < n
    case Dropping(_, l) => l < n
    case _ => true
  }

  predicate Enabled(c: Config, s: State, e: Event) {
    match e
    case Arrive => true
    case Move(i, _) =>
      && i < |s.conns| && !s.conns[i].phase.Refused? && !s.conns[i].phase.Gone?
      && (s.conns[i].phase.Live? ==> s.conns[i].cancelled)
      && HoldsLimiter(s.conns[i].phase, |s.counts|)
    case Cancel(i) => i < |s.conns| && (s.conns[i].phase.Opened? || s.conns[i].phase.Adding? || s.conns[i].phase.Live?)
    case Sweep => true
  }

  function To(s: State, i: nat, p: Phase): State
    requires i < |s.conns|
  {
    s.(conns := s.conns[i := s.conns[i].(phase := p)])
  }

  /** The next step of one call. */
  function Moved(c: Config, s: State, i: nat, ok: bool): State
    requires Enabled(c, s, Move(i, ok))
  {
    match s.conns[i].phase
    case Looking =>
      To(s, i, if !c.enabled then Passed else if s.current.Some? then Checking(s.current.value) else Creating)
    case Creating => To(s.(current := Some(|s.counts|), counts := s.counts + [0]), i, Checking(|s.counts|))
    case Checking(l) => To(s, i, if s.counts[l] < c.limit then Passed else Refused)
    case Passed => To(s, i, if ok then Opened else Refused)
    case Opened => To(s, i, if s.current.Some? then Adding(s.current.value) else Live(None))
    case Adding(l) => To(s.(counts := s.counts[l := Bumped(s.counts[l], 1)]), i, Live(Some(l)))
    case Live(on) => To(s, i, if s.current.Some? then Dropping(on, s.current.value) else Gone)
    case Dropping(_, l) => To(s.(counts := s.counts[l := Bumped(s.counts[l], -1)]), i, Gone)
    case Refused => s
    case Gone => s
  }

  function Apply(c: Config, s: State, e: Event): State
    requires Enabled(c, s, e)
  {
    match e
    case Arrive => s.(conns := s.conns + [Conn(Looking, false)])
    case Move(i, ok) => Moved(c, s, i, ok)
    case Cancel(i) => s.(conns := s.conns[i := s.conns[i].(cancelled := true)])
    case Sweep => if Recorded(s) == 0 then s.(current := None) else s
  }

  predicate Runs(c: Config, s: State, es: seq<Event>)
    decreases |es|
  {
    es == [] || (Enabled(c, s, es[0]) && Runs(c, Apply(c, s, es[0]), es[1..]))
  }

  function Final(c: Config, s: State, es: seq<Event>): State
    requires Runs(c, s, es)
    decreases |es|
  {
    if es == [] then s else Final(c, Apply(c, s, es[0]), es[1..])
  }

  // ---------- Any interleaving ----------

  /** Connections whose +1 went to a limiter and that have not counted down yet. */
  function CountedOn(l: nat): Conn -> nat {
    (k: Conn) => if (k.phase.Live? || k.phase.Dropping?) && k.phase.on == Some(l) then 1 else 0
  }

  function Counted(): Conn -> nat {
    (k: Conn) => if (k.phase.Live? || k.phase.Dropping?) && k.phase.on.Some? then 1 else 0
  }

  /** A connection counted on the limiter in the table counts down on the same limiter. */
  predicate PhaseOk(current: Option<nat>, n: nat, p: Phase) {
    && HoldsLimiter(p, n)
    && ((p.Live? || p.Dropping?) && p.on.Some? ==> p.on.value < n)
    && (p.Dropping? && p.on.Some? && p.on == current ==> p.limiter == p.on.value)
  }

  ghost predicate Ok(s: State) {
    && (s.current.Some? ==> s.current.value < |s.counts| && s.counts[s.current.value] <= Sum(s.conns, CountedOn(s.current.value)))
    && (forall l :: 0 <= l < |s.counts| ==> s.counts[l] >= 0)
    && (forall i :: 0 <= i < |s.conns| ==> PhaseOk(s.current, |s.counts|, s.conns[i].phase))
  }

  lemma {:induction false} CountedOnSome(conns: seq<Conn>, l: nat)
    ensures 0 <= Sum(conns, CountedOn(l)) <= Sum(conns, Counted())
  {
    SumLe(conns, CountedOn(l), Counted());
  }

  lemma MoveOk(c: Config, s: State, i: nat, ok: bool)
    requires Ok(s) && Enabled(c, s, Move(i, ok))
    ensures Ok(Moved(c, s, i, ok))
  {
    var t := Moved(c, s, i, ok);
    assert PhaseOk(s.current, |s.counts|, s.conns[i].phase);
    MovePhases(c, s, i, ok);
    if t.current.Some? {
      SumUpdate(s.conns, i, t.conns[i], CountedOn(t.current.value));
    }
  }

  lemma MovePhases(c: Config, s: State, i: nat, ok: bool)
    requires Ok(s) && Enabled(c, s, Move(i, ok))
    ensures var t := Moved(c, s, i, ok);
            forall j :: 0 <= j < |t.conns| ==> PhaseOk(t.current, |t.counts|, t.conns[j].phase)
  {
  }

  lemma StepOk(c: Config, s: State, e: Event)
    requires Ok(s) && Enabled(c, s, e)
    ensures Ok(Apply(c, s, e))
  {
    match e
    case Arrive =>
      if s.current.Some? {
        SumAppend(s.conns, Conn(Looking, false), CountedOn(s.current.value));
      }
    case Move(i, ok) => MoveOk(c, s, i, ok);
    case Cancel(i) =>
      if s.current.Some? {
        SumUpdate(s.conns, i, s.conns[i].(cancelled := true), CountedOn(s.current.value));
      }
    case Sweep =>
  }

  lemma {:induction false} RunOk(c: Config, s: State, es: seq<Event>)
    requires Ok(s) && Runs(c, s, es)
    ensures Ok(Final(c, s, es))
    decreases |es|
  {
    hide Enabled, Apply, Ok;
    if es != [] {
      StepOk(c, s, es[0]);
      RunOk(c, Apply(c, s, es[0]), es[1..]);
    }
  }

  /**
   In any interleaving the recorded count is never negative and never exceeds the connections that were counted
   and have not counted down yet.
   */
  lemma EveryRunCounts(c: Config, es: seq<Event>)
    requires Runs(c, EMPTY, es)
    ensures 0 <= Recorded(Final(c, EMPTY, es)) <= Sum(Final(c, EMPTY, es).conns, Counted())
  {
    RunOk(c, EMPTY, es);
    var s := Final(c, EMPTY, es);
    if s.current.Some? {
      CountedOnSome(s.conns, s.current.value);
    }
  }

  // ---------- Atomic handshakes and disconnects ----------

  /** The call is between two of its own steps. */
  predicate Unsettled(k: Conn) {
    match k.phase
    case Refused => false
    case Gone => false
    case Live(_) => k.cancelled
    case _ => true
  }

  predicate Settled(s: State) {
    forall i :: 0 <= i < |s.conns| ==> !Unsettled(s.conns[i])
  }

  /** Nothing but the step of an unsettled call may come next. */
  predicate Undisturbed(s: State, e: Event) {
    forall i :: 0 <= i < |s.conns| && Unsettled(s.conns[i]) ==> e.Move? && e.conn == i
  }

  /** A call that has begun a handshake or a count-down finishes it before anything else happens. */
  ghost predicate AtomicRuns(c: Config, s: State, es: seq<Event>)
    decreases |es|
  {
    es == []
    || (&& Enabled(c, s, es[0])
        && Undisturbed(s, es[0])
        && AtomicRuns(c, Apply(c, s, es[0]), es[1..]))
  }

  predicate AtomicPhase(c: Config, current: Option<nat>, count: int, p: Phase) {
    match p
    case Looking => true
    case Creating => current.None?
    case Checking(l) => current == Some(l)
    case Passed => current.Some? && count < c.limit
    case Opened => current.Some? && count < c.limit
    case Adding(l) => current == Some(l) && count < c.limit
    case Live(on) => current.Some? && on == current
    case Dropping(on, l) => current == Some(l) && on == current
    case Refused => true
    case Gone => true
  }

  ghost predicate Exact(c: Config, s: State) {
    && (s.current.Some? ==> s.current.value < |s.counts|)
    && Recorded(s) == Sum(s.conns, Counted()) <= c.limit
    && (forall i :: 0 <= i < |s.conns| ==> AtomicPhase(c, s.current, Recorded(s), s.conns[i].phase))
    && (forall i, j :: 0 <= i < j < |s.conns| ==> !Unsettled(s.conns[i]) || !Unsettled(s.conns[j]))
  }

  lemma ExactMove(c: Config, s: State, i: nat, ok: bool)
    requires c.enabled && Exact(c, s) && Enabled(c, s, Move(i, ok)) && Unsettled(s.conns[i])
    ensures Exact(c, Moved(c, s, i, ok))
  {
    var t := Moved(c, s, i, ok);
    assert AtomicPhase(c, s.current, Recorded(s), s.conns[i].phase);
    SumUpdate(s.conns, i, t.conns[i], Counted());
    OthersSettled(c, s, i, ok);
  }

  lemma OthersSettled(c: Config, s: State, i: nat, ok: bool)
    requires c.enabled && Exact(c, s) && Enabled(c, s, Move(i, ok)) && Unsettled(s.conns[i])
    ensures var t := Moved(c, s, i, ok);
            forall j :: 0 <= j < |s.conns| && j != i ==>
              !Unsettled(t.conns[j]) && AtomicPhase(c, t.current, Recorded(t), t.conns[j].phase)
  {
  }

  lemma ExactStep(c: Config, s: State, e: Event)
    requires c.enabled && Exact(c, s) && Enabled(c, s, e)
    requires Undisturbed(s, e)
    ensures Exact(c, Apply(c, s, e))
  {
    match e
    case Arrive => SumAppend(s.conns, Conn(Looking, false), Counted());
    case Move(i, ok) => ExactMove(c, s, i, ok);
    case Cancel(i) => SumUpdate(s.conns, i, s.conns[i].(cancelled := true), Counted());
    case Sweep =>
      forall i | 0 <= i < |s.conns| && Recorded(s) == 0
        ensures !s.conns[i].phase.Live?
      {
        assert AtomicPhase(c, s.current, Recorded(s), s.conns[i].phase);
        SumUpdate(s.conns, i, s.conns[i], Counted());
      }
  }

  lemma {:induction false} ExactRun(c: Config, s: State, es: seq<Event>)
    requires c.enabled && Exact(c, s) && AtomicRuns(c, s, es)
    ensures Runs(c, s, es) && Exact(c, Final(c, s, es))
    decreases |es|
  {
    hide Enabled, Apply, Exact;
    if es != [] {
      ExactStep(c, s, es[0]);
      ExactRun(c, Apply(c, s, es[0]), es[1..]);
    }
  }

  function Uncancelled(): Conn -> nat {
    (k: Conn) => if k.phase.Live? && !k.cancelled then 1 else 0
  }

  /** Cancelled, but not counted down yet. */
  predicate Leaving(k: Conn) {
    (k.phase.Live? && k.cancelled) || k.phase.Dropping?
  }

  function LeavingCount(): Conn -> nat {
    (k: Conn) => if Leaving(k) then 1 else 0
  }

  function Alive(): Conn -> nat {
    (k: Conn) => if k.phase.Live? || k.phase.Dropping? then 1 else 0
  }

  lemma {:induction false} AliveSplit(conns: seq<Conn>)
    ensures Sum(conns, Alive()) == Sum(conns, Uncancelled()) + Sum(conns, LeavingCount())
    ensures Sum(conns, LeavingCount()) == 0 <==> forall i :: 0 <= i < |conns| ==> !Leaving(conns[i])
  {
    if conns != [] {
      AliveSplit(conns[1..]);
      assert forall i :: 0 <= i < |conns[1..]| ==> conns[1..][i] == conns[i + 1];
      assert forall i :: 1 <= i < |conns| ==> conns[i] == conns[1..][i - 1];
    }
  }

  /**
   With limiting enabled and atomic handshakes and count-downs, the recorded count never exceeds ConnectionsPerIP. It is
   the number of live connections, and that of the uncancelled ones exactly when none is on its way out.
   */
  lemma AtomicCountsExactly(c: Config, es: seq<Event>)
    requires c.enabled && AtomicRuns(c, EMPTY, es)
    ensures Runs(c, EMPTY, es)
    ensures var s := Final(c, EMPTY, es);
            && Recorded(s) == Sum(s.conns, Alive()) <= c.limit
            && (Recorded(s) == Sum(s.conns, Uncancelled()) <==> forall i :: 0 <= i < |s.conns| ==> !Leaving(s.conns[i]))
  {
    ExactRun(c, EMPTY, es);
    var s := Final(c, EMPTY, es);
    forall k | k in s.conns
      ensures Counted()(k) == Alive()(k)
    {
      var i :| 0 <= i < |s.conns| && s.conns[i] == k;
      assert AtomicPhase(c, s.current, Recorded(s), s.conns[i].phase);
    }
    SumLe(s.conns, Counted(), Alive());
    SumLe(s.conns, Alive(), Counted());
    AliveSplit(s.conns);
  }

  lemma {:induction false} AtomicAppend(c: Config, s: State, es: seq<Event>, e: Event)
    requires AtomicRuns(c, s, es) && Runs(c, s, es)
    requires Enabled(c, Final(c, s, es), e) && Undisturbed(Final(c, s, es), e)
    ensures AtomicRuns(c, s, es + [e]) && Runs(c, s, es + [e])
    ensures Final(c, s, es + [e]) == Apply(c, Final(c, s, es), e)
    decreases |es|
  {
    hide Enabled, Apply, Unsettled;
    if es == [] {
      assert ([e])[1..] == [];
    } else {
      AtomicAppend(c, Apply(c, s, es[0]), es[1..], e);
      assert (es + [e])[1..] == es[1..] + [e];
    }
  }

  /** The calls of `s` as they were, one more at the end. */
  predicate OneMore(s: State, t: State, p: Phase) {
    t.conns == s.conns + [Conn(p, false)] && (t.current.Some? ==> t.current.value < |t.counts|)
  }

  lemma MoveLast(c: Config, s: State, es: seq<Event>, ok: bool) returns (fs: seq<Event>)
    requires Settled(s) && AtomicRuns(c, s, es) && Runs(c, s, es)
    requires var t := Final(c, s, es); |t.conns| == |s.conns| + 1 && OneMore(s, t, t.conns[|s.conns|].phase)
    requires Enabled(c, Final(c, s, es), Move(|s.conns|, ok))
    ensures AtomicRuns(c, s, fs) && Runs(c, s, fs) && Final(c, s, fs) == Moved(c, Final(c, s, es), |s.conns|, ok)
  {
    AtomicAppend(c, s, es, Move(|s.conns|, ok));
    fs := es + [Move(|s.conns|, ok)];
  }

  /** An undisturbed handshake is counted iff the count was below the limit and the upgrade succeeded. */
  lemma AtomicHandshake(c: Config, s: State, ok: bool) returns (es: seq<Event>)
    requires c.enabled && Exact(c, s) && Settled(s)
    ensures AtomicRuns(c, s, es) && Runs(c, s, es) && Settled(Final(c, s, es))
    ensures Recorded(Final(c, s, es)) == Recorded(s) + if Recorded(s) < c.limit && ok then 1 else 0
  {
    hide AtomicRuns, Runs, Final;
    AtomicAppendFirst(c, s);
    es := [Arrive];
    es := MoveLast(c, s, es, ok);
    if s.current.None? {
      es := MoveLast(c, s, es, ok);
    }
    es := MoveLast(c, s, es, ok);
    if Recorded(s) < c.limit {
      es := MoveLast(c, s, es, ok);
      if ok {
        es := MoveLast(c, s, es, ok);
        es := MoveLast(c, s, es, ok);
      }
    }
  }

  lemma AtomicAppendFirst(c: Config, s: State)
    requires Settled(s)
    ensures AtomicRuns(c, s, [Arrive]) && Runs(c, s, [Arrive]) && Final(c, s, [Arrive]) == Apply(c, s, Arrive)
  {
  }

  // ---------- When the limit holds ----------

  predicate InHandshake(p: Phase) {
    p.Looking? || p.Creating? || p.Checking? || p.Passed? || p.Opened? || p.Adding?
  }

  function Shaking(): Conn -> nat {
    (k: Conn) => if InHandshake(k.phase) then 1 else 0
  }

  function Overlap(s: State): nat {
    Sum(s.conns, Shaking())
  }

  /** At most `h` calls are in their handshake at any time of the run. */
  predicate Narrow(c: Config, s: State, es: seq<Event>, h: nat)
    requires Runs(c, s, es)
    decreases |es|
  {
    Overlap(s) <= h && (es != [] ==> Narrow(c, Apply(c, s, es[0]), es[1..], h))
  }

  /** Only an arrival starts a handshake. */
  lemma StepOverlap(c: Config, s: State, e: Event)
    requires Enabled(c, s, e)
    ensures Overlap(Apply(c, s, e)) <= Overlap(s) + if e.Arrive? then 1 else 0
  {
    match e
    case Arrive => SumAppend(s.conns, Conn(Looking, false), Shaking());
    case Move(i, ok) => SumUpdate(s.conns, i, Moved(c, s, i, ok).conns[i], Shaking());
    case Cancel(i) => SumUpdate(s.conns, i, s.conns[i].(cancelled := true), Shaking());
    case Sweep =>
  }

  /** Calls that may still count without looking at the limiter in the table again. */
  function Pending(current: Option<nat>): Conn -> nat {
    (k: Conn) =>
      if k.phase.Passed? || k.phase.Opened? || k.phase.Adding? || (k.phase.Checking? && current != Some(k.phase.limiter))
      then 1 else 0
  }

  ghost predicate Within(c: Config, s: State, h: nat) {
    Recorded(s) + Sum(s.conns, Pending(s.current)) <= c.limit + h - 1
  }

  lemma PendingShaking(s: State, current: Option<nat>)
    ensures Sum(s.conns, Pending(current)) <= Overlap(s)
  {
    SumLe(s.conns, Pending(current), Shaking());
  }

  /** A call in its handshake that is not pending leaves room for one. */
  lemma PendingBelow(s: State, current: Option<nat>, i: nat)
    requires i < |s.conns| && InHandshake(s.conns[i].phase) && Pending(current)(s.conns[i]) == 0
    ensures Sum(s.conns, Pending(current)) < Overlap(s)
  {
    var rest := s.conns[i := Conn(Gone, false)];
    SumUpdate(s.conns, i, Conn(Gone, false), Pending(current));
    SumUpdate(s.conns, i, Conn(Gone, false), Shaking());
    SumLe(rest, Pending(current), Shaking());
  }

  lemma CreatingWithin(c: Config, s: State, i: nat, ok: bool, h: nat)
    requires c.limit >= 1 && Overlap(s) <= h && Enabled(c, s, Move(i, ok)) && s.conns[i].phase.Creating?
    ensures Within(c, Moved(c, s, i, ok), h)
  {
    hide Overlap;
    StepOverlap(c, s, Move(i, ok));
    var t := Moved(c, s, i, ok);
    PendingBelow(t, t.current, i);
  }

  lemma CheckingWithin(c: Config, s: State, i: nat, ok: bool, h: nat)
    requires Within(c, s, h) && Overlap(s) <= h && Enabled(c, s, Move(i, ok)) && s.conns[i].phase.Checking?
    ensures Within(c, Moved(c, s, i, ok), h)
  {
    hide Overlap;
    SumUpdate(s.conns, i, Moved(c, s, i, ok).conns[i], Pending(s.current));
    if s.current == Some(s.conns[i].phase.limiter) {
      PendingBelow(s, s.current, i);
    }
  }

  lemma WithinMove(c: Config, s: State, i: nat, ok: bool, h: nat)
    requires c.enabled && c.limit >= 1 && Ok(s) && Within(c, s, h) && Overlap(s) <= h
    requires Enabled(c, s, Move(i, ok))
    ensures Within(c, Moved(c, s, i, ok), h)
  {
    hide Overlap, PhaseOk;
    if s.conns[i].phase.Creating? {
      CreatingWithin(c, s, i, ok, h);
    } else if s.conns[i].phase.Checking? {
      CheckingWithin(c, s, i, ok, h);
    } else {
      SumUpdate(s.conns, i, Moved(c, s, i, ok).conns[i], Pending(s.current));
    }
  }

  lemma WithinStep(c: Config, s: State, e: Event, h: nat)
    requires c.enabled && c.limit >= 1 && h >= 1 && Ok(s) && Within(c, s, h) && Overlap(s) <= h && Enabled(c, s, e)
    ensures Within(c, Apply(c, s, e), h)
  {
    match e
    case Arrive => SumAppend(s.conns, Conn(Looking, false), Pending(s.current));
    case Move(i, ok) => WithinMove(c, s, i, ok, h);
    case Cancel(i) => SumUpdate(s.conns, i, s.conns[i].(cancelled := true), Pending(s.current));
    case Sweep => PendingShaking(s, None);
  }

  lemma {:induction false} WithinRun(c: Config, s: State, es: seq<Event>, g: nat, h: nat)
    requires c.enabled && c.limit >= 1 && g <= h && h >= 1 && Ok(s) && Within(c, s, h)
    requires Runs(c, s, es) && Narrow(c, s, es, g)
    ensures Within(c, Final(c, s, es), h)
    decreases |es|
  {
    hide Enabled, Apply, Ok, Within, Overlap;
    if es != [] {
      StepOk(c, s, es[0]);
      WithinStep(c, s, es[0], h);
      WithinRun(c, Apply(c, s, es[0]), es[1..], g, h);
    }
  }

  /** In every interleaving with at most `h` handshakes at a time the limit is exceeded by at most h - 1. */
  lemma OverlapBound(c: Config, es: seq<Event>, h: nat)
    requires c.enabled && c.limit >= 1 && h >= 1 && Runs(c, EMPTY, es) && Narrow(c, EMPTY, es, h)
    ensures Recorded(Final(c, EMPTY, es)) <= c.limit + h - 1
  {
    WithinRun(c, EMPTY, es, h, h);
  }

  lemma {:induction false} RunsAppend(c: Config, s: State, es: seq<Event>, e: Event, h: nat)
    requires Runs(c, s, es) && Narrow(c, s, es, h) && Enabled(c, Final(c, s, es), e)
    requires Overlap(Apply(c, Final(c, s, es), e)) <= h
    ensures Runs(c, s, es + [e]) && Narrow(c, s, es + [e], h) && Final(c, s, es + [e]) == Apply(c, Final(c, s, es), e)
    decreases |es|
  {
    hide Enabled, Apply, Overlap;
    if es == [] {
      assert ([e])[1..] == [];
    } else {
      RunsAppend(c, Apply(c, s, es[0]), es[1..], e, h);
      assert (es + [e])[1..] == es[1..] + [e];
    }
  }

  /** A narrow run from the start, one step longer. */
  lemma Then(c: Config, es: seq<Event>, e: Event, h: nat) returns (fs: seq<Event>)
    requires Runs(c, EMPTY, es) && Narrow(c, EMPTY, es, h) && Enabled(c, Final(c, EMPTY, es), e)
    requires e.Arrive? ==> Overlap(Final(c, EMPTY, es)) < h
    ensures Runs(c, EMPTY, fs) && Narrow(c, EMPTY, fs, h) && Final(c, EMPTY, fs) == Apply(c, Final(c, EMPTY, es), e)
  {
    FinalNarrow(c, EMPTY, es, h);
    StepOverlap(c, Final(c, EMPTY, es), e);
    RunsAppend(c, EMPTY, es, e, h);
    fs := es + [e];
  }

  lemma {:induction false} FinalNarrow(c: Config, s: State, es: seq<Event>, h: nat)
    requires Runs(c, s, es) && Narrow(c, s, es, h)
    ensures Overlap(Final(c, s, es)) <= h
    decreases |es|
  {
    hide Enabled, Apply, Overlap;
    if es != [] {
      FinalNarrow(c, Apply(c, s, es[0]), es[1..], h);
    }
  }

  /** `n` calls of which the first `m` are counted and the rest have passed the check. */
  function Crowd(n: nat, m: nat): State {
    State(Some(0), [m], seq(n, i => Conn(if i < m then Live(Some(0)) else Passed, false)))
  }

  lemma {:induction false} CrowdOverlap(n: nat, m: nat)
    requires m <= n
    ensures Overlap(Crowd(n, m)) == n - m
  {
    if n > 0 {
      var last := Conn(if m == n then Live(Some(0)) else Passed, false);
      var before := if m == n then m - 1 else m;
      CrowdOverlap(n - 1, before);
      assert Crowd(n, m).conns == Crowd(n - 1, before).conns + [last];
      SumAppend(Crowd(n - 1, before).conns, last, Shaking());
    }
  }

  lemma OnePasses(c: Config, h: nat) returns (es: seq<Event>)
    requires c.enabled && c.limit >= 1 && h >= 1
    ensures Runs(c, EMPTY, es) && Narrow(c, EMPTY, es, h) && Final(c, EMPTY, es) == Crowd(1, 0)
  {
    es := Then(c, [], Arrive, h);
    es := Then(c, es, Move(0, true), h);
    es := Then(c, es, Move(0, true), h);
    es := Then(c, es, Move(0, true), h);
  }

  /** One more call arrives and passes the check. */
  lemma Passes(c: Config, n: nat, m: nat, h: nat, es: seq<Event>) returns (fs: seq<Event>)
    requires c.enabled && m <= n && m < c.limit && n - m < h
    requires Runs(c, EMPTY, es) && Narrow(c, EMPTY, es, h) && Final(c, EMPTY, es) == Crowd(n, m)
    ensures Runs(c, EMPTY, fs) && Narrow(c, EMPTY, fs, h) && Final(c, EMPTY, fs) == Crowd(n + 1, m)
  {
    CrowdOverlap(n, m);
    fs := Then(c, es, Arrive, h);
    fs := Then(c, fs, Move(n, true), h);
    fs := Then(c, fs, Move(n, true), h);
    assert Final(c, EMPTY, fs).conns == Crowd(n + 1, m).conns;
  }

  /** The next call that has passed is counted. */
  lemma Enters(c: Config, n: nat, m: nat, h: nat, es: seq<Event>) returns (fs: seq<Event>)
    requires m < n && Runs(c, EMPTY, es) && Narrow(c, EMPTY, es, h) && Final(c, EMPTY, es) == Crowd(n, m)
    ensures Runs(c, EMPTY, fs) && Narrow(c, EMPTY, fs, h) && Final(c, EMPTY, fs) == Crowd(n, m + 1)
  {
    fs := Then(c, es, Move(m, true), h);
    fs := Then(c, fs, Move(m, true), h);
    fs := Then(c, fs, Move(m, true), h);
    assert Final(c, EMPTY, fs).conns == Crowd(n, m + 1).conns;
  }

  /** Calls pass while fewer than the limit are counted. */
  lemma {:induction false} AllPass(c: Config, n: nat, m: nat, h: nat) returns (es: seq<Event>)
    requires c.enabled && n >= 1 && m < c.limit && m <= n <= m + h && h >= 1
    ensures Runs(c, EMPTY, es) && Narrow(c, EMPTY, es, h) && Final(c, EMPTY, es) == Crowd(n, m)
    decreases n + m
  {
    if n == 1 && m == 0 {
      es := OnePasses(c, h);
    } else if n == m {
      es := AllPass(c, n, m - 1, h);
      es := Enters(c, n, m - 1, h, es);
    } else {
      es := AllPass(c, n - 1, m, h);
      es := Passes(c, n - 1, m, h, es);
    }
  }

  /** Those that have passed all enter. */
  lemma {:induction false} AllEnter(c: Config, n: nat, m: nat, h: nat) returns (es: seq<Event>)
    requires c.enabled && c.limit >= 1 && n >= 1 && h >= 1 && m <= n && n < c.limit + h
    requires m < c.limit ==> n <= m + h
    ensures Runs(c, EMPTY, es) && Narrow(c, EMPTY, es, h) && Final(c, EMPTY, es) == Crowd(n, m)
    decreases m
  {
    if m < c.limit {
      es := AllPass(c, n, m, h);
    } else {
      es := AllEnter(c, n, m - 1, h);
      es := Enters(c, n, m - 1, h, es);
    }
  }

  /** And it is exceeded by h - 1 in some interleaving with at most `h` handshakes at a time. */
  lemma OverlapReached(c: Config, h: nat) returns (es: seq<Event>)
    requires c.enabled && c.limit >= 1 && h >= 1
    ensures Runs(c, EMPTY, es) && Narrow(c, EMPTY, es, h) && Recorded(Final(c, EMPTY, es)) == c.limit + h - 1
  {
    es := AllEnter(c, c.limit + h - 1, c.limit + h - 1, h);
  }

  ghost predicate Exceeds(c: Config, es: seq<Event>, h: nat) {
    Runs(c, EMPTY, es) && Narrow(c, EMPTY, es, h) && Recorded(Final(c, EMPTY, es)) > c.limit
  }

  ghost predicate NobodyIn(s: State) {
    && (forall l :: 0 <= l < |s.counts| ==> s.counts[l] == 0)
    && (forall i :: 0 <= i < |s.conns| ==>
          var p := s.conns[i].phase; p.Looking? || p.Creating? || p.Checking? || p.Refused?)
  }

  /** With a limit of 0 every call is refused. */
  lemma {:induction false} NobodyEnters(c: Config, s: State, es: seq<Event>)
    requires c.enabled && c.limit == 0 && NobodyIn(s) && Runs(c, s, es)
    ensures NobodyIn(Final(c, s, es))
    decreases |es|
  {
    if es != [] {
      NobodyEnters(c, Apply(c, s, es[0]), es[1..]);
    }
  }

  /**
   ConnectionsPerIP can be exceeded exactly when it is positive, limiting is enabled and two handshakes may overlap:
   one handshake at a time is enough for the limit, whatever count-downs and sweeps come in between.
   */
  lemma LimitHoldsExactly(c: Config, h: nat)
    ensures (exists es :: Exceeds(c, es, h)) <==> c.enabled && c.limit >= 1 && h >= 2
  {
    if c.enabled && c.limit >= 1 && h >= 2 {
      var es := OverlapReached(c, h);
      assert Exceeds(c, es, h);
    } else if es :| Exceeds(c, es, h) {
      if !c.enabled {
        DisabledCountsNothing(c, EMPTY, es);
      } else if c.limit == 0 {
        NobodyEnters(c, EMPTY, es);
      } else {
        WithinRun(c, EMPTY, es, h, 1);
      }
    }
  }

  /** Calls that all check before any of them counts get past every positive limit, in any number. */
  lemma LimitExceeded(c: Config, n: nat) returns (es: seq<Event>)
    requires c.enabled && c.limit >= 1 && n >= 1
    ensures Runs(c, EMPTY, es) && Recorded(Final(c, EMPTY, es)) == n
  {
    es := AllEnter(c, n, n, n);
  }

  // ---------- When the count is that of the live connections ----------

  /** A step that makes a connection live without counting it in the table, or replaces a limiter that records some. */
  predicate Misplaced(s: State, e: Event) {
    e.Move? && e.conn < |s.conns| &&
    match s.conns[e.conn].phase
    case Opened => s.current.None?
    case Adding(l) => s.current != Some(l)
    case Creating => Recorded(s) > 0
    case _ => false
  }

  predicate NoneMisplaced(c: Config, s: State, es: seq<Event>)
    requires Runs(c, s, es)
    decreases |es|
  {
    es != [] ==> !Misplaced(s, es[0]) && NoneMisplaced(c, Apply(c, s, es[0]), es[1..])
  }

  predicate CountsLive(s: State) {
    Recorded(s) == Sum(s.conns, Alive())
  }

  predicate AlwaysCountsLive(c: Config, s: State, es: seq<Event>)
    requires Runs(c, s, es)
    decreases |es|
  {
    CountsLive(s) && (es != [] ==> AlwaysCountsLive(c, Apply(c, s, es[0]), es[1..]))
  }

  /** If the count is that of the live connections, each of them was counted on the limiter in the table. */
  lemma AllOnCurrent(s: State, i: nat)
    requires Ok(s) && CountsLive(s) && i < |s.conns| && (s.conns[i].phase.Live? || s.conns[i].phase.Dropping?)
    ensures s.current.Some? && s.conns[i].phase.on == s.current && Recorded(s) >= 1
  {
    SumUpdate(s.conns, i, Conn(Gone, false), Alive());
    if s.current.Some? {
      var f := CountedOn(s.current.value);
      SumUpdate(s.conns, i, Conn(Gone, false), f);
      SumLe(s.conns[i := Conn(Gone, false)], f, Alive());
    }
  }

  lemma LiveMove(c: Config, s: State, i: nat, ok: bool)
    requires Ok(s) && CountsLive(s) && Enabled(c, s, Move(i, ok))
    ensures CountsLive(Moved(c, s, i, ok)) <==> !Misplaced(s, Move(i, ok))
  {
    var t := Moved(c, s, i, ok);
    assert PhaseOk(s.current, |s.counts|, s.conns[i].phase);
    SumUpdate(s.conns, i, t.conns[i], Alive());
    if s.conns[i].phase.Live? || s.conns[i].phase.Dropping? {
      AllOnCurrent(s, i);
    }
  }

  lemma LiveStep(c: Config, s: State, e: Event)
    requires Ok(s) && CountsLive(s) && Enabled(c, s, e)
    ensures CountsLive(Apply(c, s, e)) <==> !Misplaced(s, e)
  {
    match e
    case Arrive => SumAppend(s.conns, Conn(Looking, false), Alive());
    case Move(i, ok) => LiveMove(c, s, i, ok);
    case Cancel(i) => SumUpdate(s.conns, i, s.conns[i].(cancelled := true), Alive());
    case Sweep =>
  }

  lemma {:induction false} LiveRun(c: Config, s: State, es: seq<Event>)
    requires Ok(s) && CountsLive(s) && Runs(c, s, es)
    ensures AlwaysCountsLive(c, s, es) <==> NoneMisplaced(c, s, es)
    decreases |es|
  {
    hide Enabled, Apply, Ok, CountsLive, Misplaced;
    if es != [] {
      StepOk(c, s, es[0]);
      LiveStep(c, s, es[0]);
      var t := Apply(c, s, es[0]);
      if CountsLive(t) {
        LiveRun(c, t, es[1..]);
      }
    }
  }

  /**
   In any interleaving, limiting enabled or not, the recorded count is that of the live connections all along exactly when
   no step is misplaced: no call finds the limiter gone, counts on a replaced one, or replaces one that records connections.
   */
  lemma CountsLiveExactly(c: Config, es: seq<Event>)
    requires Runs(c, EMPTY, es)
    ensures AlwaysCountsLive(c, EMPTY, es) <==> NoneMisplaced(c, EMPTY, es)
  {
    LiveRun(c, EMPTY, es);
  }

  /** One call up to the point where it holds the limiter it is going to count on. */
  lemma AboutToCount(c: Config) returns (es: seq<Event>)
    requires c.enabled && c.limit >= 1
    ensures Runs(c, EMPTY, es) && Narrow(c, EMPTY, es, 1)
    ensures Final(c, EMPTY, es) == State(Some(0), [0], [Conn(Adding(0), false)])
  {
    es := OnePasses(c, 1);
    es := Then(c, es, Move(0, true), 1);
    es := Then(c, es, Move(0, true), 1);
  }

  /** A sweep between the lookup and the +1 drops the limiter, and a live connection goes uncounted. */
  lemma SweptAway(c: Config) returns (es: seq<Event>)
    requires c.enabled && c.limit >= 1
    ensures Runs(c, EMPTY, es)
    ensures var s := Final(c, EMPTY, es); Recorded(s) == 0 && s.conns == [Conn(Live(Some(0)), false)]
  {
    es := AboutToCount(c);
    es := Then(c, es, Sweep, 1);
    es := Then(c, es, Move(0, true), 1);
  }

  /** Between its cancellation and its count-down a connection is still counted. */
  lemma CancelledStillCounted(c: Config) returns (es: seq<Event>)
    requires c.enabled && c.limit >= 1
    ensures Runs(c, EMPTY, es)
    ensures var s := Final(c, EMPTY, es); Recorded(s) == 1 && Sum(s.conns, Uncancelled()) == 0
  {
    es := AllEnter(c, 1, 1, 1);
    es := Then(c, es, Cancel(0), 1);
    var conns := Final(c, EMPTY, es).conns;
    assert conns == [Conn(Live(Some(0)), true)];
    assert Sum(conns, Uncancelled()) == Uncancelled()(conns[0]) + Sum(conns[1..], Uncancelled());
  }

  /** With limiting disabled no limiter is ever made and nothing is counted. */
  lemma {:induction false} DisabledCountsNothing(c: Config, s: State, es: seq<Event>)
    requires !c.enabled && s.current.None? && Runs(c, s, es)
    requires forall i :: 0 <= i < |s.conns| ==> !s.conns[i].phase.Creating?
    ensures Final(c, s, es).current.None? && Recorded(Final(c, s, es)) == 0
    decreases |es|
  {
    if es != [] {
      DisabledCountsNothing(c, Apply(c, s, es[0]), es[1..]);
    }
  }
}
