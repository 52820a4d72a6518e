/**
 The hub and its clients as objects. Each method is one step of the registry in HubRegistry; the queries are
 the accumulator loops over rooms and clients.
 */
module Hubs {
  import opened Common
  import opened HubRegistry

  class Client {
    const userID: string
    var roomID: string
    var isActive: bool

    constructor (userID: string, roomID: string)
      ensures this.userID == userID && this.roomID == roomID && isActive
    {
      this.userID, this.roomID, isActive := userID, roomID, true;
    }
  }

  class Hub {
    var rooms: map<string, set<Client>>
    var userClients: map<string, seq<Client>>
    var totalConnections: nat
    /** Every client ever connected to this hub. */
    ghost var known: set<Client>

    ghost predicate Valid()
      reads this
    {
      && (forall x, c :: x in rooms && c in rooms[x] ==> c in known)
      && (forall u, k :: u in userClients && 0 <= k < |userClients[u]| ==> userClients[u][k] in known)
    }

    ghost function View(): Registry<Client>
      reads this, known
    {
      Registry(rooms, userClients, (map c | c in known :: c.roomID), (map c | c in known :: c.userID),
               (set c | c in known && c.isActive), totalConnections)
    }

    constructor ()
      ensures Valid() && View() == Registry(map[], map[], map[], map[], {}, 0)
    {
      rooms, userClients, totalConnections, known := map[], map[], 0, {};
    }

    // ---------- Changes of the registry ----------

    method AddToRoom(roomID: string, client: Client)
      requires Valid() && client in known
      modifies this`rooms
      ensures Valid() && rooms == old(rooms)[roomID := MembersOf(old(rooms), roomID) + {client}]
    {
      if roomID !in rooms {
        rooms := rooms[roomID := {}];
      }
      rooms := rooms[roomID := rooms[roomID] + {client}];
    }

    method Register(roomID: string, client: Client)
      requires Valid() && client in known
      modifies this`rooms, this`userClients, this`totalConnections
      ensures Valid() && View() == Registered(old(View()), roomID, client)
    {
      AddToRoom(roomID, client);
      userClients := userClients[client.userID := ListOf(userClients, client.userID) + [client]];
      totalConnections := totalConnections + 1;
    }

    method RemoveFromRoom(roomID: string, client: Client)
      requires Valid()
      modifies this`rooms
      ensures Valid() && rooms == WithoutMember(old(rooms), roomID, client)
    {
      if roomID in rooms {
        var rest := rooms[roomID] - {client};
        rooms := rooms[roomID := rest];
        if rest == {} {
          rooms := rooms - {roomID};
        }
      }
    }

    /** The search of the user's list; what follows the client is appended to the whole list. */
    method RemoveFromUser(client: Client)
      requires Valid()
      modifies this`userClients
      ensures Valid()
      ensures var list := AfterRemoval(ListOf(old(userClients), client.userID), client);
              userClients == if list == [] then old(userClients) - {client.userID} else old(userClients)[client.userID := list]
    {
      var list := ListOf(userClients, client.userID);
      var i := Search(list, client);
      if i < |list| {
        userClients := userClients[client.userID := list + list[i + 1..]];
      }
      if ListOf(userClients, client.userID) == [] {
        userClients := userClients - {client.userID};
      }
    }

    method Unregister(roomID: string, client: Client)
      requires Valid() && client in known
      modifies this`rooms, this`userClients
      ensures Valid() && View() == Unregistered(old(View()), roomID, client)
    {
      hide WithoutMember, AfterRemoval;
      RemoveFromRoom(roomID, client);
      RemoveFromUser(client);
    }

    /** `HandleWebSocket`: a connection without a room id is refused. */
    method Connect(userID: string, roomID: string) returns (client: Option<Client>)
      requires Valid()
      modifies this
      ensures Valid() && (client.None? <==> roomID == [])
      ensures client.None? ==> View() == old(View()) && known == old(known)
      ensures client.Some? ==>
                && fresh(client.value) && known == old(known) + {client.value}
                && var e := Step.Connect(client.value, userID, roomID);
                   Enabled(old(View()), e) && View() == Apply(old(View()), e)
    {
      if roomID == [] {
        return None;
      }
      var c := new Client(userID, roomID);
      known := known + {c};
      label Known:
      Register(roomID, c);
      assert old@Known(View()).roomOf == old(View()).roomOf[c := roomID];
      assert old@Known(View()).userOf == old(View()).userOf[c := userID];
      assert old@Known(View()).active == old(View()).active + {c};
      client := Some(c);
    }

    method HandleJoinRoom(client: Client, roomID: string)
      requires Valid() && client in known
      modifies this`rooms, this`userClients, this`totalConnections, client`roomID
      ensures Valid() && View() == Apply(old(View()), Join(client, roomID))
    {
      var oldRoomID := client.roomID;
      client.roomID := roomID;
      assert View().roomOf == old(View()).roomOf[client := roomID];
      assert View().active == old(View()).active;
      if oldRoomID != [] && oldRoomID != roomID {
        Unregister(oldRoomID, client);
      }
      Register(roomID, client);
    }

    method HandleLeaveRoom(client: Client)
      requires Valid() && client in known
      modifies this`rooms, this`userClients
      ensures Valid() && View() == Apply(old(View()), Leave(client))
    {
      Unregister(client.roomID, client);
    }

    method Close(client: Client)
      requires Valid() && client in known
      modifies this`rooms, this`userClients, client`isActive
      ensures Valid() && View() == Apply(old(View()), Step.Close(client))
    {
      if !client.isActive {
        return;
      }
      client.isActive := false;
      assert View().active == old(View()).active - {client};
      assert View().roomOf == old(View()).roomOf;
      if client.roomID != [] {
        Unregister(client.roomID, client);
      }
    }

    /** The cleanup a client's reader runs when its connection breaks. */
    method Cleanup(client: Client)
      requires Valid() && client in known
      modifies this`rooms, this`userClients
      ensures Valid() && View() == Apply(old(View()), Step.Cleanup(client))
    {
      if client.roomID != [] {
        Unregister(client.roomID, client);
      }
    }

    // ---------- Queries ----------

    /** The loop over one room's clients: everyone active except one client, or except one user. */
    method Targets(roomID: string, except: Option<Client>, exceptUser: Option<string>) returns (targets: seq<Client>)
      ensures Distinct(targets)
      ensures forall c :: c in targets <==>
                && roomID in rooms && c in rooms[roomID] && c.isActive
                && except != Some(c) && exceptUser != Some(c.userID)
    {
      targets := [];
      var pending := if roomID in rooms then rooms[roomID] else {};
      ghost var all := pending;
      while pending != {}
        invariant pending <= all && Distinct(targets)
        invariant forall c :: c in targets <==>
                    c in all - pending && c.isActive && except != Some(c) && exceptUser != Some(c.userID)
        decreases |pending|
      {
        ghost var some := Member(pending);
        var c: Client :| c in pending;
        pending := pending - {c};
        if c.isActive && except != Some(c) && exceptUser != Some(c.userID) {
          targets := targets + [c];
        }
      }
    }

    /** The connections of one user that a message to the user goes to, in list order. */
    method GetUserClients(userID: string) returns (targets: seq<Client>)
      ensures forall c: Client :: multiset(targets)[c] == if c.isActive then multiset(ListOf(userClients, userID))[c] else 0
    {
      targets := [];
      var list := ListOf(userClients, userID);
      for i := 0 to |list|
        invariant forall c: Client :: multiset(targets)[c] == if c.isActive then multiset(list[..i])[c] else 0
      {
        assert list[..i + 1] == list[..i] + [list[i]];
        if list[i].isActive {
          targets := targets + [list[i]];
        }
      }
      assert list[..|list|] == list;
    }

    method IsUserOnlineInRoom(roomID: string, userID: string) returns (online: bool)
      ensures online <==> roomID in rooms && exists c :: c in rooms[roomID] && c.userID == userID && c.isActive
    {
      if roomID !in rooms {
        return false;
      }
      var pending := rooms[roomID];
      while pending != {}
        invariant pending <= rooms[roomID]
        invariant forall c :: c in rooms[roomID] - pending ==> !(c.userID == userID && c.isActive)
        decreases |pending|
      {
        ghost var some := Member(pending);
        var c: Client :| c in pending;
        if c.userID == userID && c.isActive {
          return true;
        }
        pending := pending - {c};
      }
      online := false;
    }

    /** `GetRoomStats`: connections, active connections and their distinct users. */
    method GetRoomStats(roomID: string) returns (present: bool, total: nat, active: nat, uniqueUsers: nat)
      ensures present <==> roomID in rooms
      ensures present ==>
                && total == |rooms[roomID]|
                && active == |ActiveOf(rooms[roomID])|
                && uniqueUsers == |UsersOf(ActiveOf(rooms[roomID]))|
      ensures uniqueUsers <= active <= total && (active > 0 ==> uniqueUsers > 0)
    {
      present, total, active, uniqueUsers := roomID in rooms, 0, 0, 0;
      if present {
        var users;
        total := |rooms[roomID]|;
        active, users := CountActive(rooms[roomID]);
        uniqueUsers := |users|;
      }
    }

    lemma ActiveInRoom(roomID: string)
      requires Valid() && roomID in rooms
      ensures ActiveIn(View())(roomID) == |ActiveOf(rooms[roomID])|
    {
      assert ActiveOf(rooms[roomID]) == View().rooms[roomID] * View().active;
    }

    /** The active clients that are in the room they name. */
    ghost function Seated(): set<Client>
      reads this, known
    {
      set c | c in known && c.isActive && c.roomID in rooms && c in rooms[c.roomID]
    }

    lemma SeatedClients()
      requires Valid() && RoomsOk(View())
      ensures TotalActive(View()) == |Seated()|
    {
      var r := View();
      TotalCountsClients(r);
      var viewed := set c | c in r.active && c in r.roomOf && c in Members(r, r.roomOf[c]);
      SameSeats(viewed);
    }

    lemma SameSeats(viewed: set<Client>)
      requires var r := View(); viewed == set c | c in r.active && c in r.roomOf && c in Members(r, r.roomOf[c])
      ensures viewed == Seated()
    {
    }

    /** Because the rooms are disjoint, the total over the rooms is the number of active clients in a room. */
    method GetHubStats() returns (totalRooms: nat, totalClients: nat, connections: nat)
      requires Valid()
      ensures totalRooms == |rooms| && connections == totalConnections
      ensures totalClients == TotalActive(View())
      ensures RoomsOk(View()) ==> totalClients == |Seated()|
    {
      hide RoomsOk, ActiveIn;
      totalRooms, totalClients, connections := |rooms|, 0, totalConnections;
      var pending := rooms.Keys;
      ghost var f := ActiveIn(View());
      while pending != {}
        invariant pending <= rooms.Keys
        invariant totalClients + Tally(pending, f) == Tally(rooms.Keys, f)
        decreases |pending|
      {
        ghost var some := Member(pending);
        var x: string :| x in pending;
        var here, users := CountActive(rooms[x]);
        ActiveInRoom(x);
        TallyRemove(pending, x, f);
        pending, totalClients := pending - {x}, totalClients + here;
      }
      if RoomsOk(View()) {
        SeatedClients();
      }
    }
  }

  /** The search loop of Unregister; it ends at the length of the list if the client is not on it. */
  method Search(list: seq<Client>, client: Client) returns (i: nat)
    ensures i == IndexOf(list, client)
  {
    i := 0;
    while i < |list| && list[i] != client
      invariant i <= |list| && forall k :: 0 <= k < i ==> list[k] != client
    {
      i := i + 1;
    }
  }

  ghost function ActiveOf(clients: set<Client>): set<Client>
    reads clients
  {
    set c | c in clients && c.isActive
  }

  ghost function UsersOf(clients: set<Client>): set<string> {
    set c | c in clients :: c.userID
  }

  /** The loop over a room's clients: how many are active, and whose they are. */
  method CountActive(clients: set<Client>) returns (active: nat, users: set<string>)
    ensures active == |ActiveOf(clients)| <= |clients|
    ensures users == UsersOf(ActiveOf(clients))
    ensures |users| <= active && (active > 0 ==> |users| > 0)
  {
    hide ActiveOf, UsersOf;
    active, users := 0, {};
    var pending := clients;
    ghost var seen: set<Client> := {};
    NoneSeen();
    while pending != {}
      invariant seen + pending == clients
      invariant active == |ActiveOf(seen)| <= |seen| && users == UsersOf(ActiveOf(seen))
      invariant |users| <= active && (active > 0 ==> |users| > 0)
      invariant seen !! pending
      decreases |pending|
    {
      ghost var some := Member(pending);
      var c: Client :| c in pending;
      ActiveMore(seen, c);
      pending, seen := pending - {c}, seen + {c};
      if c.isActive {
        active, users := active + 1, users + {c.userID};
      }
    }
    assert seen == clients;
  }

  lemma NoneSeen()
    ensures ActiveOf({}) == {} && UsersOf({}) == {}
  {
  }

  /** One more client adds itself if it is active, and its user. */
  lemma ActiveMore(seen: set<Client>, c: Client)
    requires c !in seen
    ensures c.isActive ==>
              && |ActiveOf(seen + {c})| == |ActiveOf(seen)| + 1
              && UsersOf(ActiveOf(seen + {c})) == UsersOf(ActiveOf(seen)) + {c.userID}
    ensures !c.isActive ==> ActiveOf(seen + {c}) == ActiveOf(seen)
  {
    assert ActiveOf(seen + {c}) == ActiveOf(seen) + if c.isActive then {c} else {};
  }
}
