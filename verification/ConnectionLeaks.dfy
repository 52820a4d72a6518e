/**
 The hub's registry and the connection counts together, with handshakes and closings that are not interrupted: which
 connections stay counted when their peers go away.
 */
module ConnectionLeaks {
  import opened Common
  import opened HubRegistry

  /** Clients are numbered; `ipOf` is the address each connected from, `counts` what its limiter records. */
  datatype Server = Server(hub: Registry<int>, ipOf: map<int, string>, counts: map<string, int>)

  /**
   A connection admitted; a request of the client; its connection broken by the peer, which runs the cleanup; and the client
   closed, either by one of its own replies that finds no room in its buffer or because somebody found it in a room: the
   janitor, a broadcast or the hub's shutdown.
   */
  datatype Event =
    | Admit(client: int, user: string, room: string, ip: string)
    | JoinRoom(client: int, room: string)
    | LeaveRoom(client: int)
    | Broken(client: int)
    | Shut(client: int, byReply: bool)

  const EMPTY := Server(Empty<int>(), map[], map[])

  function Count(s: Server, ip: string): int {
    if ip in s.counts then s.counts[ip] else 0
  }

  predicate Seated(s: Server, c: int) {
    exists x :: x in s.hub.rooms && c in s.hub.rooms[x]
  }

  function StepOf(e: Event): Step<int> {
    match e
    case Admit(c, user, room, _) => Connect(c, user, room)
    case JoinRoom(c, room) => Join(c, room)
    case LeaveRoom(c) => Leave(c)
    case Broken(c) => Cleanup(c)
    case Shut(c, _) => Close(c)
  }

  predicate Can(limit: nat, s: Server, e: Event) {
    && Enabled(s.hub, StepOf(e))
    && (e.Admit? ==> e.client !in s.ipOf && Count(s, e.ip) < limit)
    && (!e.Admit? ==> e.client in s.ipOf)
    && (e.Shut? && !e.byReply ==> Seated(s, e.client))
  }

  /** Only a closing that takes effect cancels the context that the count-down waits for. */
  function Next(limit: nat, s: Server, e: Event): Server
    requires Can(limit, s, e)
  {
    var hub := Apply(s.hub, StepOf(e));
    match e
    case Admit(c, _, _, ip) => Server(hub, s.ipOf[c := ip], s.counts[ip := Count(s, ip) + 1])
    case Shut(c, _) =>
      var ip := s.ipOf[c];
      Server(hub, s.ipOf, if c in s.hub.active then s.counts[ip := Max(0, Count(s, ip) - 1)] else s.counts)
    case _ => s.(hub := hub)
  }

  predicate CanAll(limit: nat, s: Server, es: seq<Event>)
    decreases |es|
  {
    es == [] || (Can(limit, s, es[0]) && CanAll(limit, Next(limit, s, es[0]), es[1..]))
  }

  function After(limit: nat, s: Server, es: seq<Event>): Server
    requires CanAll(limit, s, es)
    decreases |es|
  {
    if es == [] then s else After(limit, Next(limit, s, es[0]), es[1..])
  }

  // ---------- What is counted ----------

  function ActiveOf(s: Server, ip: string): set<int> {
    set c | c in s.hub.active && c in s.ipOf && s.ipOf[c] == ip
  }

  /** Each address is charged for its clients that have not been closed, wherever they are. */
  ghost predicate Charged(limit: nat, s: Server) {
    && s.hub.active <= s.ipOf.Keys
    && forall ip :: Count(s, ip) == |ActiveOf(s, ip)| <= limit
  }

  lemma AdmitEffect(limit: nat, s: Server, e: Event)
    requires Can(limit, s, e) && e.Admit?
    ensures var t := Next(limit, s, e);
            && t.hub.active == s.hub.active + {e.client} && t.ipOf == s.ipOf[e.client := e.ip]
            && t.counts == s.counts[e.ip := Count(s, e.ip) + 1]
  {
  }

  lemma AdmittedOne(s: Server, t: Server, c: int, at: string, ip: string)
    requires c !in s.ipOf && s.hub.active <= s.ipOf.Keys
    requires t.hub.active == s.hub.active + {c} && t.ipOf == s.ipOf[c := at]
    ensures |ActiveOf(t, ip)| == |ActiveOf(s, ip)| + if ip == at then 1 else 0
  {
    if ip == at {
      assert ActiveOf(t, ip) == ActiveOf(s, ip) + {c};
      assert c !in ActiveOf(s, ip);
    } else {
      assert ActiveOf(t, ip) == ActiveOf(s, ip);
    }
  }

  lemma AdmitCharged(limit: nat, s: Server, e: Event)
    requires Charged(limit, s) && Can(limit, s, e) && e.Admit?
    ensures Charged(limit, Next(limit, s, e))
  {
    hide Next, ActiveOf, Seated, Enabled;
    AdmitEffect(limit, s, e);
    var t := Next(limit, s, e);
    forall ip
      ensures Count(t, ip) == |ActiveOf(t, ip)| <= limit
    {
      AdmittedOne(s, t, e.client, e.ip, ip);
    }
  }

  lemma ShutCharged(limit: nat, s: Server, e: Event)
    requires Charged(limit, s) && Can(limit, s, e) && e.Shut?
    ensures Charged(limit, Next(limit, s, e))
  {
    var t := Next(limit, s, e);
    assert t.hub.active == s.hub.active - {e.client};
    forall ip
      ensures Count(t, ip) == |ActiveOf(t, ip)| <= limit
    {
      assert ActiveOf(t, ip) == ActiveOf(s, ip) - if ip == s.ipOf[e.client] then {e.client} else {};
      assert e.client in s.hub.active ==> e.client in ActiveOf(s, s.ipOf[e.client]);
    }
  }

  lemma ChargedStep(limit: nat, s: Server, e: Event)
    requires Charged(limit, s) && Can(limit, s, e)
    ensures Charged(limit, Next(limit, s, e))
  {
    if e.Admit? {
      AdmitCharged(limit, s, e);
    } else if e.Shut? {
      ShutCharged(limit, s, e);
    } else {
      var t := Next(limit, s, e);
      assert t.hub.active == s.hub.active && t.ipOf == s.ipOf && t.counts == s.counts;
      assert forall ip :: ActiveOf(t, ip) == ActiveOf(s, ip) && Count(t, ip) == Count(s, ip);
    }
  }

  lemma {:induction false} ChargedRun(limit: nat, s: Server, es: seq<Event>)
    requires Charged(limit, s) && CanAll(limit, s, es)
    ensures Charged(limit, After(limit, s, es))
    decreases |es|
  {
    hide Can, Next, Charged;
    if es != [] {
      ChargedStep(limit, s, es[0]);
      ChargedRun(limit, Next(limit, s, es[0]), es[1..]);
    }
  }

  lemma EmptyCharged(limit: nat)
    ensures Charged(limit, EMPTY)
  {
    forall ip
      ensures Count(EMPTY, ip) == |ActiveOf(EMPTY, ip)| <= limit
    {
      assert ActiveOf(EMPTY, ip) == {};
    }
  }

  /** Not closed, and where nobody looks for clients to close. */
  predicate Leaked(s: Server, c: int) {
    c in s.hub.active && !Seated(s, c)
  }

  /**
   In every run the count of an address is the number of its clients that have not been closed. It is the number of those in
   rooms exactly when none of them has leaked.
   */
  lemma EveryRunCharges(limit: nat, es: seq<Event>, ip: string)
    requires CanAll(limit, EMPTY, es)
    ensures var s := After(limit, EMPTY, es);
            var seated := set c | c in ActiveOf(s, ip) && Seated(s, c);
            && Count(s, ip) == |ActiveOf(s, ip)| <= limit
            && (Count(s, ip) == |seated| <==> forall c :: c in ActiveOf(s, ip) ==> !Leaked(s, c))
  {
    EmptyCharged(limit);
    ChargedRun(limit, EMPTY, es);
    var s := After(limit, EMPTY, es);
    var seated := set c | c in ActiveOf(s, ip) && Seated(s, c);
    var leaked := ActiveOf(s, ip) - seated;
    assert ActiveOf(s, ip) == seated + leaked && seated !! leaked;
    if forall c :: c in ActiveOf(s, ip) ==> !Leaked(s, c) {
      assert leaked == {};
    }
  }

  // ---------- A leaked connection stays ----------

  /** The client has gone: it sends no request, so it neither joins a room nor gets a reply. */
  predicate Silent(e: Event, c: int) {
    !(e.JoinRoom? && e.client == c) && !(e.Shut? && e.client == c && e.byReply)
  }

  predicate SilentAll(es: seq<Event>, clients: set<int>) {
    forall k, c :: 0 <= k < |es| && c in clients ==> Silent(es[k], c)
  }

  lemma OthersSeats(r: Registry<int>, e: Step<int>, c: int)
    requires Enabled(r, e) && e.client != c && forall x :: x in r.rooms ==> c !in r.rooms[x]
    ensures var t := Apply(r, e); (forall x :: x in t.rooms ==> c !in t.rooms[x]) && (c in r.active <==> c in t.active)
  {
  }

  lemma LeakedStep(limit: nat, s: Server, e: Event, c: int)
    requires Can(limit, s, e) && Leaked(s, c) && c in s.ipOf && Silent(e, c)
    ensures Leaked(Next(limit, s, e), c) && c in Next(limit, s, e).ipOf && Next(limit, s, e).ipOf[c] == s.ipOf[c]
  {
    if e.client != c {
      OthersSeats(s.hub, StepOf(e), c);
    }
  }

  lemma {:induction false} LeakedRun(limit: nat, s: Server, es: seq<Event>, c: int)
    requires CanAll(limit, s, es) && Leaked(s, c) && c in s.ipOf && SilentAll(es, {c})
    ensures var t := After(limit, s, es); Leaked(t, c) && c in t.ipOf && t.ipOf[c] == s.ipOf[c]
    decreases |es|
  {
    hide Can, Next, Leaked;
    if es != [] {
      assert Silent(es[0], c);
      LeakedStep(limit, s, es[0], c);
      assert forall k :: 0 <= k < |es[1..]| ==> es[1..][k] == es[k + 1];
      LeakedRun(limit, Next(limit, s, es[0]), es[1..], c);
    }
  }

  /** However the server goes on, an address with as many leaked connections as ConnectionsPerIP is never admitted again. */
  lemma NeverAdmitted(limit: nat, before: seq<Event>, after: seq<Event>, gone: set<int>, ip: string, e: Event)
    requires CanAll(limit, EMPTY, before) && CanAll(limit, After(limit, EMPTY, before), after) && SilentAll(after, gone)
    requires gone <= ActiveOf(After(limit, EMPTY, before), ip) && |gone| == limit
    requires forall c :: c in gone ==> Leaked(After(limit, EMPTY, before), c)
    ensures Count(After(limit, After(limit, EMPTY, before), after), ip) == limit
    ensures e.Admit? && e.ip == ip ==> !Can(limit, After(limit, After(limit, EMPTY, before), after), e)
  {
    hide Next, Leaked;
    EmptyCharged(limit);
    ChargedRun(limit, EMPTY, before);
    var s := After(limit, EMPTY, before);
    ChargedRun(limit, s, after);
    var t := After(limit, s, after);
    forall c | c in gone
      ensures c in ActiveOf(t, ip)
    {
      assert c in ActiveOf(s, ip);
      LeakedRun(limit, s, after, c);
      LeakedIsActive(t, c);
    }
    SubsetSize(gone, ActiveOf(t, ip));
  }

  lemma LeakedIsActive(s: Server, c: int)
    requires Leaked(s, c)
    ensures c in s.hub.active
  {
  }

  lemma SubsetSize(a: set<int>, b: set<int>)
    requires a <= b
    ensures |a| <= |b|
  {
    assert b == a + (b - a);
  }

  // ---------- Using an address up ----------

  lemma {:induction false} RunsOn(limit: nat, s: Server, es: seq<Event>, e: Event)
    requires CanAll(limit, s, es) && Can(limit, After(limit, s, es), e)
    ensures CanAll(limit, s, es + [e]) && After(limit, s, es + [e]) == Next(limit, After(limit, s, es), e)
    decreases |es|
  {
    hide Can, Next;
    if es == [] {
      assert ([e])[1..] == [];
    } else {
      RunsOn(limit, Next(limit, s, es[0]), es[1..], e);
      assert (es + [e])[1..] == es[1..] + [e];
    }
  }

  /** No rooms; the clients ever connected are `gone`, all from `ip`, and none of them has been closed. */
  ghost predicate Deserted(s: Server, gone: set<int>, ip: string) {
    && s.hub.rooms == map[] && s.hub.active == gone && s.ipOf.Keys == gone
    && s.hub.userOf.Keys == gone && s.hub.roomOf.Keys == gone
    && (forall c :: c in gone ==> s.ipOf[c] == ip) && Count(s, ip) == |gone|
  }

  lemma Comes(limit: nat, s: Server, gone: set<int>, c: int, user: string, room: string, ip: string)
    requires Deserted(s, gone, ip) && c !in gone && |gone| < limit && room != []
    ensures var e := Admit(c, user, room, ip);
            && Can(limit, s, e)
            && var t := Next(limit, s, e);
               && t.hub.rooms == map[room := {c}] && t.hub.active == gone + {c} && t.ipOf == s.ipOf[c := ip]
               && t.hub.userOf == s.hub.userOf[c := user] && t.hub.roomOf == s.hub.roomOf[c := room]
               && Count(t, ip) == |gone| + 1
  {
    assert MembersOf(s.hub.rooms, room) + {c} == {c};
  }

  lemma Goes(limit: nat, s: Server, c: int, room: string)
    requires s.hub.rooms == map[room := {c}] && room != [] && c in s.ipOf
    requires c in s.hub.userOf && c in s.hub.roomOf && s.hub.roomOf[c] == room
    ensures Can(limit, s, Broken(c))
    ensures var t := Next(limit, s, Broken(c));
            && t.hub.rooms == map[] && t.hub.active == s.hub.active && t.ipOf == s.ipOf && t.counts == s.counts
            && t.hub.userOf == s.hub.userOf && t.hub.roomOf == s.hub.roomOf
  {
    assert {c} - {c} == {};
  }

  lemma ComesAndGoes(limit: nat, s: Server, gone: set<int>, c: int, user: string, room: string, ip: string)
    requires Deserted(s, gone, ip) && c !in gone && |gone| < limit && room != []
    ensures var come, go := Admit(c, user, room, ip), Broken(c);
            && Can(limit, s, come) && Can(limit, Next(limit, s, come), go)
            && Deserted(Next(limit, Next(limit, s, come), go), gone + {c}, ip)
  {
    hide Can, Next;
    Comes(limit, s, gone, c, user, room, ip);
    Goes(limit, Next(limit, s, Admit(c, user, room, ip)), c, room);
  }

  lemma TwoMore(limit: nat, es: seq<Event>, d: Event, e: Event) returns (fs: seq<Event>)
    requires CanAll(limit, EMPTY, es) && Can(limit, After(limit, EMPTY, es), d)
    requires Can(limit, Next(limit, After(limit, EMPTY, es), d), e)
    ensures |fs| == |es| + 2 && CanAll(limit, EMPTY, fs)
    ensures After(limit, EMPTY, fs) == Next(limit, Next(limit, After(limit, EMPTY, es), d), e)
  {
    hide Can, Next;
    RunsOn(limit, EMPTY, es, d);
    RunsOn(limit, EMPTY, es + [d], e);
    fs := es + [d] + [e];
  }

  lemma DesertedLeaks(s: Server, gone: set<int>, ip: string)
    requires Deserted(s, gone, ip)
    ensures ActiveOf(s, ip) == gone && forall c :: c in gone ==> Leaked(s, c)
  {
    forall c
      ensures c in ActiveOf(s, ip) <==> c in gone
    {
      assert c in gone ==> s.ipOf[c] == ip;
    }
  }

  lemma EmptyDeserted(ip: string)
    ensures Deserted(EMPTY, {}, ip)
  {
  }

  lemma {:induction false} Deserts(limit: nat, n: nat, user: string, room: string, ip: string)
    returns (es: seq<Event>, gone: set<int>)
    requires n <= limit && room != []
    ensures |es| == 2 * n && CanAll(limit, EMPTY, es) && Deserted(After(limit, EMPTY, es), gone, ip)
    ensures |gone| == n && forall c :: c in gone ==> c < n
  {
    hide Can, Next, Deserted, EMPTY;
    if n == 0 {
      es, gone := [], {};
      EmptyDeserted(ip);
    } else {
      es, gone := Deserts(limit, n - 1, user, room, ip);
      ComesAndGoes(limit, After(limit, EMPTY, es), gone, n - 1, user, room, ip);
      es := TwoMore(limit, es, Admit(n - 1, user, room, ip), Broken(n - 1));
      assert n - 1 !in gone;
      gone := gone + {n - 1};
    }
  }

  /**
   ConnectionsPerIP connections that come and go one after another leave every room empty and the address at its limit, and
   whatever happens next short of a request from one of them it is refused for good.
   */
  lemma AddressUsedUp(limit: nat, user: string, room: string, ip: string) returns (es: seq<Event>, gone: set<int>)
    requires room != []
    ensures |es| == 2 * limit && CanAll(limit, EMPTY, es) && |gone| == limit
    ensures var s := After(limit, EMPTY, es);
            && s.hub.rooms == map[] && Count(s, ip) == limit
            && forall after, e: Event :: CanAll(limit, s, after) && SilentAll(after, gone) && e.Admit? && e.ip == ip ==>
                 !Can(limit, After(limit, s, after), e)
  {
    es, gone := Deserts(limit, limit, user, room, ip);
    var s := After(limit, EMPTY, es);
    DesertedLeaks(s, gone, ip);
    hide Can, Next, CanAll, After, ActiveOf, Leaked, SilentAll;
    forall after, e: Event | CanAll(limit, s, after) && SilentAll(after, gone) && e.Admit? && e.ip == ip
      ensures !Can(limit, After(limit, s, after), e)
    {
      NeverAdmitted(limit, es, after, gone, ip, e);
    }
  }
}
