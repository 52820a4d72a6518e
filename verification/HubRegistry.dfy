/** The hub's registry as a value: which client is in which room, each user's client list, and the steps on them. */
module HubRegistry {
  import opened Common

  datatype Registry<!C(==)> = Registry(
    rooms: map<string, set<C>>,
    userClients: map<string, seq<C>>,
    roomOf: map<C, string>,
    userOf: map<C, string>,
    active: set<C>,
    connections: nat)

  datatype Step<!C> =
    | Connect(client: C, user: string, room: string)
    | Join(client: C, room: string)
    | Leave(client: C)
    | Close(client: C)
    | Cleanup(client: C)

  function MembersOf<C>(rooms: map<string, set<C>>, room: string): set<C> {
    if room in rooms then rooms[room] else {}
  }

  function Members<C>(r: Registry<C>, room: string): set<C> {
    MembersOf(r.rooms, room)
  }

  function ListOf<C>(userClients: map<string, seq<C>>, user: string): seq<C> {
    if user in userClients then userClients[user] else []
  }

  function Registered<C>(r: Registry<C>, room: string, client: C): Registry<C>
    requires client in r.userOf
  {
    var user := r.userOf[client];
    r.(rooms := r.rooms[room := Members(r, room) + {client}],
       userClients := r.userClients[user := ListOf(r.userClients, user) + [client]],
       connections := r.connections + 1)
  }

  /** Empty rooms are dropped. */
  function WithoutMember<C>(rooms: map<string, set<C>>, room: string, client: C): map<string, set<C>> {
    if room !in rooms then rooms
    else
      var rest := rooms[room] - {client};
      if rest == {} then rooms - {room} else rooms[room := rest]
  }

  function IndexOf<C(==)>(list: seq<C>, client: C): (i: nat)
    ensures i <= |list| && (forall k :: 0 <= k < i ==> list[k] != client) && (i < |list| ==> list[i] == client)
    ensures i == |list| <==> client !in list
  {
    if list == [] || list[0] == client then 0
    else
      1 + IndexOf(list[1..], client)
  }

  /** The list as Unregister leaves it: the tail after the client is appended to the whole list. */
  function AfterRemoval<C(==)>(list: seq<C>, client: C): seq<C> {
    var i := IndexOf(list, client);
    if i < |list| then list + list[i + 1..] else list
  }

  function Unregistered<C(==)>(r: Registry<C>, room: string, client: C): Registry<C>
    requires client in r.userOf
  {
    var user := r.userOf[client];
    var list := AfterRemoval(ListOf(r.userClients, user), client);
    r.(rooms := WithoutMember(r.rooms, room, client),
       userClients := if list == [] then r.userClients - {user} else r.userClients[user := list])
  }

  predicate Enabled<C(==)>(r: Registry<C>, e: Step<C>) {
    match e
    case Connect(c, _, room) => c !in r.userOf && room != []
    case Join(c, _) => c in r.userOf && c in r.roomOf
    case Leave(c) => c in r.userOf && c in r.roomOf
    case Close(c) => c in r.userOf && c in r.roomOf
    case Cleanup(c) => c in r.userOf && c in r.roomOf
  }

  function Apply<C(==)>(r: Registry<C>, e: Step<C>): Registry<C>
    requires Enabled(r, e)
  {
    match e
    case Connect(c, user, room) =>
      var known := r.(roomOf := r.roomOf[c := room], userOf := r.userOf[c := user], active := r.active + {c});
      Registered(known, room, c)
    case Join(c, room) =>
      var left := r.roomOf[c];
      var moved := r.(roomOf := r.roomOf[c := room]);
      Registered(if left != [] && left != room then Unregistered(moved, left, c) else moved, room, c)
    case Leave(c) => Unregistered(r, r.roomOf[c], c)
    case Close(c) =>
      if c !in r.active then r
      else
        var closed := r.(active := r.active - {c});
        if r.roomOf[c] != [] then Unregistered(closed, r.roomOf[c], c) else closed
    case Cleanup(c) => if r.roomOf[c] != [] then Unregistered(r, r.roomOf[c], c) else r
  }

  // ---------- What each step does to whom ----------

  predicate In<C(==)>(r: Registry<C>, x: string, c: C) {
    x in r.rooms && c in r.rooms[x]
  }

  /** Which rooms the client of a step is in afterwards. */
  predicate InAfter<C(==)>(r: Registry<C>, e: Step<C>, x: string)
    requires Enabled(r, e)
  {
    match e
    case Connect(c, _, room) => x == room || In(r, x, c)
    case Join(c, room) => x == room || (In(r, x, c) && (x == [] || x != r.roomOf[c]))
    case Leave(c) => In(r, x, c) && x != r.roomOf[c]
    case Close(c) => In(r, x, c) && (c !in r.active || x == [] || x != r.roomOf[c])
    case Cleanup(c) => In(r, x, c) && (x == [] || x != r.roomOf[c])
  }

  lemma RegisteredMembers<C>(r: Registry<C>, room: string, c: C)
    requires c in r.userOf
    ensures forall x, d :: In(Registered(r, room, c), x, d) <==> In(r, x, d) || (x == room && d == c)
  {
  }

  lemma UnregisteredMembers<C>(r: Registry<C>, room: string, c: C)
    requires c in r.userOf
    ensures forall x, d :: In(Unregistered(r, room, c), x, d) <==> In(r, x, d) && !(x == room && d == c)
    ensures Unregistered(r, room, c).userOf == r.userOf
  {
    hide AfterRemoval;
    var t := Unregistered(r, room, c);
    forall x, d
      ensures In(t, x, d) <==> In(r, x, d) && !(x == room && d == c)
    {
      if In(r, room, d) && d != c {
        assert d in r.rooms[room] - {c};
      }
    }
  }

  /** A step of one client leaves everybody else in the rooms they were in, and puts the client where it should be. */
  lemma MembersExactly<C>(r: Registry<C>, e: Step<C>)
    requires Enabled(r, e)
    ensures forall x, d :: In(Apply(r, e), x, d) <==> if d == e.client then InAfter(r, e, x) else In(r, x, d)
  {
    hide WithoutMember, AfterRemoval, ListOf, Members;
    match e
    case Connect(c, user, room) =>
      RegisteredMembers(r.(roomOf := r.roomOf[c := room], userOf := r.userOf[c := user], active := r.active + {c}), room, c);
    case Join(c, room) =>
      var left := r.roomOf[c];
      var moved := r.(roomOf := r.roomOf[c := room]);
      UnregisteredMembers(moved, left, c);
      RegisteredMembers(if left != [] && left != room then Unregistered(moved, left, c) else moved, room, c);
    case Leave(c) => UnregisteredMembers(r, r.roomOf[c], c);
    case Close(c) => UnregisteredMembers(r.(active := r.active - {c}), r.roomOf[c], c);
    case Cleanup(c) => UnregisteredMembers(r, r.roomOf[c], c);
  }

  lemma OtherLists<C>(r: Registry<C>, room: string, c: C, u: string)
    requires c in r.userOf && u != r.userOf[c]
    ensures ListOf(Registered(r, room, c).userClients, u) == ListOf(r.userClients, u)
    ensures ListOf(Unregistered(r, room, c).userClients, u) == ListOf(r.userClients, u)
  {
  }

  /** A step touches no list but that of the client's own user. */
  lemma ListsOfOthers<C>(r: Registry<C>, e: Step<C>, u: string)
    requires Enabled(r, e) && (if e.Connect? then u != e.user else u != r.userOf[e.client])
    ensures ListOf(Apply(r, e).userClients, u) == ListOf(r.userClients, u)
  {
    hide ListOf, AfterRemoval, WithoutMember;
    match e
    case Connect(c, user, room) =>
      OtherLists(r.(roomOf := r.roomOf[c := room], userOf := r.userOf[c := user], active := r.active + {c}), room, c, u);
    case Join(c, room) =>
      var moved := r.(roomOf := r.roomOf[c := room]);
      OtherLists(moved, r.roomOf[c], c, u);
      OtherLists(moved, room, c, u);
      OtherLists(Unregistered(moved, r.roomOf[c], c), room, c, u);
    case Leave(c) => OtherLists(r, r.roomOf[c], c, u);
    case Close(c) => OtherLists(r.(active := r.active - {c}), r.roomOf[c], c, u);
    case Cleanup(c) => OtherLists(r, r.roomOf[c], c, u);
  }

  /** What a step records beside rooms and lists. */
  lemma RecordsExactly<C>(r: Registry<C>, e: Step<C>)
    requires Enabled(r, e)
    ensures var t := Apply(r, e);
            && t.roomOf == (if e.Connect? || e.Join? then r.roomOf[e.client := e.room] else r.roomOf)
            && t.userOf == (if e.Connect? then r.userOf[e.client := e.user] else r.userOf)
            && t.active == (if e.Connect? then r.active + {e.client} else if e.Close? then r.active - {e.client} else r.active)
            && t.connections == r.connections + (if e.Connect? || e.Join? then 1 else 0)
  {
    hide ListOf, AfterRemoval, WithoutMember, Members;
  }

  /** However the others connect, join, leave, close and break down, a client stays in the rooms it is in, and in no other. */
  lemma {:induction false} StaysUntilOwnStep<C>(r: Registry<C>, es: seq<Step<C>>, x: string, c: C)
    requires Runs(r, es) && forall k :: 0 <= k < |es| ==> es[k].client != c
    ensures In(Final(r, es), x, c) <==> In(r, x, c)
    decreases |es|
  {
    hide Enabled, Apply, In;
    if es != [] {
      MembersExactly(r, es[0]);
      assert forall k :: 0 <= k < |es[1..]| ==> es[1..][k] == es[k + 1];
      StaysUntilOwnStep(Apply(r, es[0]), es[1..], x, c);
    }
  }

  // ---------- Invariant ----------

  ghost predicate RoomsOk<C>(r: Registry<C>) {
    && (forall x :: x in r.rooms ==> x != [] && r.rooms[x] != {})
    && (forall x, c :: x in r.rooms && c in r.rooms[x] ==>
          c in r.roomOf && r.roomOf[c] == x && c in r.userOf && c in ListOf(r.userClients, r.userOf[c]))
  }

  lemma RegisteredOk<C>(r: Registry<C>, room: string, c: C)
    requires RoomsOk(r) && c in r.userOf && c in r.roomOf && r.roomOf[c] == room && room != []
    ensures RoomsOk(Registered(r, room, c))
  {
  }

  /** After Unregister the client is in no room it was in. */
  lemma UnregisteredOk<C>(r: Registry<C>, room: string, c: C)
    requires c in r.userOf
    requires forall x :: x in r.rooms ==> x != [] && r.rooms[x] != {}
    requires forall x, d :: x in r.rooms && d in r.rooms[x] ==>
               && d in r.userOf && d in ListOf(r.userClients, r.userOf[d])
               && (d == c ==> x == room) && (d != c ==> d in r.roomOf && r.roomOf[d] == x)
    ensures RoomsOk(Unregistered(r, room, c))
    ensures forall x :: x in Unregistered(r, room, c).rooms ==> c !in Unregistered(r, room, c).rooms[x]
  {
  }

  lemma StepOk<C>(r: Registry<C>, e: Step<C>)
    requires RoomsOk(r) && Enabled(r, e) && (e.Join? ==> e.room != [])
    ensures RoomsOk(Apply(r, e))
  {
    match e
    case Connect(c, user, room) =>
      var known := r.(roomOf := r.roomOf[c := room], userOf := r.userOf[c := user], active := r.active + {c});
      RegisteredOk(known, room, c);
    case Join(c, room) =>
      var left := r.roomOf[c];
      var moved := r.(roomOf := r.roomOf[c := room]);
      if left != [] && left != room {
        UnregisteredOk(moved, left, c);
        RegisteredOk(Unregistered(moved, left, c), room, c);
      } else {
        RegisteredOk(moved, room, c);
      }
    case Leave(c) => UnregisteredOk(r, r.roomOf[c], c);
    case Close(c) =>
      if c in r.active && r.roomOf[c] != [] {
        UnregisteredOk(r.(active := r.active - {c}), r.roomOf[c], c);
      }
    case Cleanup(c) =>
      if r.roomOf[c] != [] {
        UnregisteredOk(r, r.roomOf[c], c);
      }
  }

  predicate Runs<C(==)>(r: Registry<C>, es: seq<Step<C>>)
    decreases |es|
  {
    es == [] || (Enabled(r, es[0]) && Runs(Apply(r, es[0]), es[1..]))
  }

  function Final<C(==)>(r: Registry<C>, es: seq<Step<C>>): Registry<C>
    requires Runs(r, es)
    decreases |es|
  {
    if es == [] then r else Final(Apply(r, es[0]), es[1..])
  }

  predicate NamedRooms<C>(es: seq<Step<C>>) {
    forall k :: 0 <= k < |es| ==> es[k].Join? ==> es[k].room != []
  }

  /**
   Over every run of connect, join, leave, close and cleanup with non-empty room ids, each client is in at most the
   room its RoomID names, no room is empty, and every member is on its user's list.
   */
  lemma {:induction false} EveryRunOk<C>(r: Registry<C>, es: seq<Step<C>>)
    requires RoomsOk(r) && Runs(r, es) && NamedRooms(es)
    ensures RoomsOk(Final(r, es))
    decreases |es|
  {
    if es != [] {
      assert es[0].Join? ==> es[0].room != [];
      StepOk(r, es[0]);
      forall k | 0 <= k < |es[1..]|
        ensures es[1..][k].Join? ==> es[1..][k].room != []
      {
        assert es[1..][k] == es[k + 1];
      }
      EveryRunOk(Apply(r, es[0]), es[1..]);
    }
  }

  // ---------- Counting active clients ----------

  ghost function ActiveIn<C>(r: Registry<C>): string -> nat {
    var rooms, active := r.rooms, r.active;
    (x: string) => if x in rooms then |rooms[x] * active| else 0
  }

  /** The sum GetHubStats forms, room by room. */
  ghost function TotalActive<C>(r: Registry<C>): nat {
    Tally(r.rooms.Keys, ActiveIn(r))
  }

  ghost function SeatedIn<C>(r: Registry<C>, names: set<string>): set<C> {
    set c | c in r.active && c in r.roomOf && r.roomOf[c] in names && c in Members(r, r.roomOf[c])
  }

  lemma SeatedSplit<C>(r: Registry<C>, names: set<string>, x: string)
    requires RoomsOk(r) && x in names && x in r.rooms
    ensures |SeatedIn(r, names)| == |SeatedIn(r, names - {x})| + |r.rooms[x] * r.active|
  {
    var all, others, here := SeatedIn(r, names), SeatedIn(r, names - {x}), r.rooms[x] * r.active;
    forall c | c in others
      ensures c !in here
    {
      assert r.roomOf[c] != x;
    }
    forall c | c in here
      ensures c in all
    {
      assert r.roomOf[c] == x;
    }
    forall c | c in all && c !in others
      ensures c in here
    {
      assert r.roomOf[c] == x;
    }
    UnionSize(all, others, here);
  }

  lemma UnionSize<C>(all: set<C>, a: set<C>, b: set<C>)
    requires (forall c :: c in a ==> c !in b && c in all) && (forall c :: c in b ==> c in all)
    requires forall c :: c in all && c !in a ==> c in b
    ensures |all| == |a| + |b|
  {
    assert all == a + b;
    assert a !! b;
  }

  lemma {:induction false} TallySeated<C>(r: Registry<C>, names: set<string>)
    requires RoomsOk(r) && names <= r.rooms.Keys
    ensures Tally(names, ActiveIn(r)) == |SeatedIn(r, names)|
    decreases |names|
  {
    if names == {} {
      assert SeatedIn(r, names) == {};
    } else {
      hide SeatedIn, RoomsOk;
      var x := Member(names);
      TallyRemove(names, x, ActiveIn(r));
      TallySeated(r, names - {x});
      SeatedSplit(r, names, x);
    }
  }

  /** Because rooms are disjoint, the sum over rooms counts each active client in a room once. */
  lemma TotalCountsClients<C>(r: Registry<C>)
    requires RoomsOk(r)
    ensures TotalActive(r) == |set c | c in r.active && c in r.roomOf && c in Members(r, r.roomOf[c])|
  {
    TallySeated(r, r.rooms.Keys);
    assert SeatedIn(r, r.rooms.Keys) == set c | c in r.active && c in r.roomOf && c in Members(r, r.roomOf[c]);
  }

  // ---------- When the registry is right ----------

  function Empty<C>(): Registry<C> {
    Registry(map[], map[], map[], map[], {}, 0)
  }

  ghost predicate MembersActive<C>(r: Registry<C>) {
    forall x, c :: x in r.rooms && c in r.rooms[x] ==> c in r.active
  }

  /** Clean: the rooms are right, and nobody is in a room after being closed. */
  ghost predicate Clean<C>(r: Registry<C>) {
    RoomsOk(r) && MembersActive(r)
  }

  /** A join names a room, and its client has not been closed. */
  predicate Proper<C(==)>(r: Registry<C>, e: Step<C>) {
    e.Join? ==> e.room != [] && e.client in r.active
  }

  ghost predicate CleanAlong<C>(r: Registry<C>, es: seq<Step<C>>)
    requires Runs(r, es)
    decreases |es|
  {
    Clean(r) && (es != [] ==> CleanAlong(Apply(r, es[0]), es[1..]))
  }

  predicate ProperAlong<C(==)>(r: Registry<C>, es: seq<Step<C>>)
    requires Runs(r, es)
    decreases |es|
  {
    es != [] ==> Proper(r, es[0]) && ProperAlong(Apply(r, es[0]), es[1..])
  }

  lemma ImproperJoin<C>(r: Registry<C>, c: C, room: string)
    requires Enabled(r, Join(c, room)) && !Proper(r, Join(c, room))
    ensures !Clean(Apply(r, Join(c, room)))
  {
    var t := Apply(r, Join(c, room));
    assert room in t.rooms && c in t.rooms[room] && t.active == r.active;
  }

  lemma ProperStep<C>(r: Registry<C>, e: Step<C>)
    requires Clean(r) && Enabled(r, e) && Proper(r, e)
    ensures MembersActive(Apply(r, e))
  {
  }

  lemma CleanStep<C>(r: Registry<C>, e: Step<C>)
    requires Clean(r) && Enabled(r, e)
    ensures Clean(Apply(r, e)) <==> Proper(r, e)
  {
    if Proper(r, e) {
      StepOk(r, e);
      ProperStep(r, e);
    } else {
      ImproperJoin(r, e.client, e.room);
    }
  }

  lemma {:induction false} CleanRun<C>(r: Registry<C>, es: seq<Step<C>>)
    requires Clean(r) && Runs(r, es)
    ensures CleanAlong(r, es) <==> ProperAlong(r, es)
    decreases |es|
  {
    hide Enabled, Apply, Clean, Proper;
    if es != [] {
      CleanStep(r, es[0]);
      if Proper(r, es[0]) {
        CleanRun(Apply(r, es[0]), es[1..]);
      }
    }
  }

  /**
   From the empty registry, every state of a run has its rooms right and only active clients in them exactly when every
   join of the run names a room and is by a client that has not been closed.
   */
  lemma RegistryCleanExactly<C>(es: seq<Step<C>>)
    requires Runs(Empty<C>(), es)
    ensures CleanAlong(Empty<C>(), es) <==> ProperAlong(Empty<C>(), es)
  {
    CleanRun(Empty<C>(), es);
  }

  /** In any registry, closing a client takes it out of every room exactly when it is active and in no room but a named one it names. */
  lemma CloseRemovesExactly<C>(r: Registry<C>, c: C)
    requires Enabled(r, Close(c))
    ensures (forall x :: x in Apply(r, Close(c)).rooms ==> c !in Apply(r, Close(c)).rooms[x]) <==>
              forall x :: x in r.rooms && c in r.rooms[x] ==> c in r.active && x == r.roomOf[c] != []
    ensures c !in Apply(r, Close(c)).active
  {
    var t := Apply(r, Close(c));
    forall x | x in r.rooms && c in r.rooms[x] && !(c in r.active && x == r.roomOf[c] != [])
      ensures x in t.rooms && c in t.rooms[x]
    {
    }
  }

  // ---------- Where the registry leaks ----------

  /** Unregister takes nobody off the list: it grows by everything behind the client, who stays on it. */
  lemma RemovalGrows<C>(list: seq<C>, c: C)
    requires c in list
    ensures c in AfterRemoval(list, c) && list <= AfterRemoval(list, c)
    ensures |AfterRemoval(list, c)| == |list| + (|list| - 1 - IndexOf(list, c))
    ensures forall i :: 0 <= i < |list| && list[i] == c && c !in list[..i] ==> AfterRemoval(list, c)[|list|..] == list[i + 1..]
    ensures AfterRemoval(list, c) == list <==> c !in list[..|list| - 1]
  {
  }

  /** Every client ever connected is on its user's list. */
  ghost predicate Listed<C>(r: Registry<C>) {
    forall c :: c in r.userOf ==> c in ListOf(r.userClients, r.userOf[c])
  }

  lemma ListsOnlyGrow<C>(list: seq<C>, c: C)
    ensures list <= AfterRemoval(list, c)
  {
  }

  lemma UnregisteredListed<C>(r: Registry<C>, room: string, c: C)
    requires Listed(r) && c in r.userOf
    ensures Listed(Unregistered(r, room, c))
  {
    ListsOnlyGrow(ListOf(r.userClients, r.userOf[c]), c);
    var t := Unregistered(r, room, c);
    forall d | d in t.userOf
      ensures d in ListOf(t.userClients, t.userOf[d])
    {
      assert d in ListOf(r.userClients, r.userOf[d]);
    }
  }

  lemma RegisteredListed<C>(r: Registry<C>, room: string, c: C)
    requires c in r.userOf && forall d :: d in r.userOf && d != c ==> d in ListOf(r.userClients, r.userOf[d])
    ensures Listed(Registered(r, room, c))
  {
  }

  lemma ListedStep<C>(r: Registry<C>, e: Step<C>)
    requires Listed(r) && Enabled(r, e)
    ensures Listed(Apply(r, e))
  {
    match e
    case Connect(c, user, room) =>
      RegisteredListed(r.(roomOf := r.roomOf[c := room], userOf := r.userOf[c := user], active := r.active + {c}), room, c);
    case Join(c, room) =>
      var moved := r.(roomOf := r.roomOf[c := room]);
      UnregisteredListed(moved, r.roomOf[c], c);
      RegisteredListed(moved, room, c);
      RegisteredListed(Unregistered(moved, r.roomOf[c], c), room, c);
    case Leave(c) => UnregisteredListed(r, r.roomOf[c], c);
    case Close(c) => UnregisteredListed(r.(active := r.active - {c}), r.roomOf[c], c);
    case Cleanup(c) => UnregisteredListed(r, r.roomOf[c], c);
  }

  lemma {:induction false} ListedRun<C>(r: Registry<C>, es: seq<Step<C>>)
    requires Listed(r) && Runs(r, es)
    ensures Listed(Final(r, es))
    decreases |es|
  {
    hide Enabled, Apply, Listed;
    if es != [] {
      ListedStep(r, es[0]);
      ListedRun(Apply(r, es[0]), es[1..]);
    }
  }

  lemma JoinAppends<C>(r: Registry<C>, c: C, room: string)
    requires Enabled(r, Join(c, room))
    ensures var before, after := ListOf(r.userClients, r.userOf[c]), ListOf(Apply(r, Join(c, room)).userClients, r.userOf[c]);
            before + [c] == after || AfterRemoval(before, c) + [c] == after
  {
  }

  /**
   In every reachable state each client ever connected, closed or not, is on its user's list, so that every join, to whatever
   room, lists it once more and a message to the user reaches it more than once.
   */
  lemma JoinDuplicates<C>(es: seq<Step<C>>, c: C, room: string)
    requires Runs(Empty<C>(), es) && Enabled(Final(Empty<C>(), es), Join(c, room))
    ensures var r := Final(Empty<C>(), es);
            var before := ListOf(r.userClients, r.userOf[c]);
            var after := ListOf(Apply(r, Join(c, room)).userClients, r.userOf[c]);
            multiset(after)[c] > multiset(before)[c] >= 1
  {
    hide Apply;
    ListedRun(Empty<C>(), es);
    var r := Final(Empty<C>(), es);
    var before := ListOf(r.userClients, r.userOf[c]);
    JoinAppends(r, c, room);
    ListsOnlyGrow(before, c);
    var grown := AfterRemoval(before, c);
    assert grown == before + grown[|before|..];
    assert multiset(grown)[c] >= multiset(before)[c];
  }

  /** In any registry, the cleanup takes a client out of every room exactly when it is only in a named room that it names. */
  lemma CleanupRemovesExactly<C>(r: Registry<C>, c: C)
    requires Enabled(r, Cleanup(c))
    ensures (forall x :: x in Apply(r, Cleanup(c)).rooms ==> c !in Apply(r, Cleanup(c)).rooms[x]) <==>
              forall x :: x in r.rooms && c in r.rooms[x] ==> x == r.roomOf[c] != []
    ensures Apply(r, Cleanup(c)).active == r.active
  {
    var t := Apply(r, Cleanup(c));
    forall x | x in r.rooms && c in r.rooms[x] && !(x == r.roomOf[c] != [])
      ensures x in t.rooms && c in t.rooms[x]
    {
    }
  }

  /**
   The cleanup that a broken connection runs takes the client out of its room but leaves it active, so the hub,
   which looks for clients to close in its rooms only, does not find it.
   */
  lemma CleanupHides<C>(r: Registry<C>, c: C)
    requires RoomsOk(r) && Enabled(r, Cleanup(c)) && c in r.active
    ensures var after := Apply(r, Cleanup(c)); c in after.active && forall x :: x in after.rooms ==> c !in after.rooms[x]
  {
  }

  /** A client that joins after it was closed is a member that closing again does not take out. */
  lemma JoinAfterCloseStays<C>(r: Registry<C>, c: C, room: string)
    requires Enabled(r, Join(c, room)) && c !in r.active
    ensures var after := Apply(r, Join(c, room));
            c in Members(after, room) && Enabled(after, Close(c)) && Apply(after, Close(c)) == after
  {
  }

  /**
   But a join starts the client's pumps again, and those of a closed client return at once and run the cleanup: after it the
   client is out of every room exactly when the room it joined has a name.
   */
  lemma ClosedJoinUndoneExactly<C>(r: Registry<C>, c: C, room: string)
    requires RoomsOk(r) && Enabled(r, Join(c, room)) && c !in r.active
    ensures var joined := Apply(r, Join(c, room));
            && Enabled(joined, Cleanup(c))
            && var after := Apply(joined, Cleanup(c));
               (forall x :: x in after.rooms ==> c !in after.rooms[x]) <==> room != []
  {
    var joined := Apply(r, Join(c, room));
    CleanupRemovesExactly(joined, c);
    assert room in joined.rooms && c in joined.rooms[room];
    if room != [] {
      StepOk(r, Join(c, room));
    }
  }

  /** A client that joins the room with the empty name is still in it after it is closed. */
  lemma EmptyRoomStays<C>(r: Registry<C>, c: C)
    requires Enabled(r, Join(c, [])) && c in r.active
    ensures var joined := Apply(r, Join(c, []));
            Enabled(joined, Close(c)) && c in Members(Apply(joined, Close(c)), []) && c !in Apply(joined, Close(c)).active
  {
  }
}
