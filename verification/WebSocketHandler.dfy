/**
 The websocket handler as an object: limiters per address, the connection check and the count kept beside the hub.
 Each method here runs undisturbed; ConnectionCounts has the interleavings.
 */
module WebSocketHandlers {
  import opened Common
  import opened HubRegistry
  import opened Hubs
  import opened ConnectionCounts

  class RateLimiter {
    var connections: map<string, int>

    constructor ()
      ensures connections == map[]
    {
      connections := map[];
    }
  }

  class WebSocketHandler {
    const hub: Hub
    const limits: ConnectionCounts.Config
    const maxConnections: int
    var rateLimiters: map<string, RateLimiter>

    /** Each address has a limiter of its own, which records positive counts for that address only. */
    ghost predicate Valid()
      reads this, rateLimiters.Values
    {
      && (forall ip :: ip in rateLimiters ==> rateLimiters[ip].connections.Keys <= {ip})
      && (forall ip :: ip in rateLimiters && ip in rateLimiters[ip].connections ==> rateLimiters[ip].connections[ip] > 0)
      && (forall a, b :: a in rateLimiters && b in rateLimiters && a != b ==> rateLimiters[a] != rateLimiters[b])
    }

    ghost function Count(ip: string): int
      reads this, rateLimiters.Values
    {
      if ip in rateLimiters && ip in rateLimiters[ip].connections then rateLimiters[ip].connections[ip] else 0
    }

    constructor (hub: Hub)
      ensures Valid() && this.hub == hub && rateLimiters == map[]
      ensures limits == ConnectionCounts.Config(true, 10) && maxConnections == 1000
    {
      this.hub := hub;
      limits, maxConnections, rateLimiters := ConnectionCounts.Config(true, 10), 1000, map[];
    }

    /** The limiter of the address, created empty if there is none. */
    method LimiterFor(ip: string) returns (limiter: RateLimiter)
      requires Valid()
      modifies this`rateLimiters
      ensures Valid() && ip in rateLimiters && limiter == rateLimiters[ip]
      ensures rateLimiters.Keys == old(rateLimiters.Keys) + {ip}
      ensures fresh(rateLimiters.Values - old(rateLimiters.Values))
      ensures forall a :: a in rateLimiters ==>
                if a in old(rateLimiters) then rateLimiters[a] == old(rateLimiters)[a] else rateLimiters[a].connections == map[]
    {
      if ip !in rateLimiters {
        limiter := new RateLimiter();
        rateLimiters := rateLimiters[ip := limiter];
      }
      limiter := rateLimiters[ip];
    }

    method CheckRateLimit(ip: string) returns (allowed: bool)
      requires Valid()
      modifies this`rateLimiters
      ensures Valid() && fresh(rateLimiters.Values - old(rateLimiters.Values))
      ensures rateLimiters.Keys == old(rateLimiters.Keys) + if limits.enabled then {ip} else {}
      ensures allowed <==> !limits.enabled || Count(ip) < limits.limit
      ensures forall a :: Count(a) == old(Count(a))
    {
      if !limits.enabled {
        return true;
      }
      var limiter := LimiterFor(ip);
      var connections := if ip in limiter.connections then limiter.connections[ip] else 0;
      allowed := connections < limits.limit;
    }

    method UpdateConnectionCount(ip: string, delta: int)
      requires Valid()
      modifies rateLimiters.Values
      ensures Valid()
      ensures forall a :: Count(a) == if a == ip && ip in rateLimiters then Bumped(old(Count(a)), delta) else old(Count(a))
    {
      if ip !in rateLimiters {
        return;
      }
      var limiter := rateLimiters[ip];
      var n := (if ip in limiter.connections then limiter.connections[ip] else 0) + delta;
      limiter.connections := limiter.connections[ip := n];
      if n <= 0 {
        limiter.connections := limiter.connections - {ip};
      }
    }

    /** The sweep's loop over the table. */
    method DropEmpty()
      modifies this`rateLimiters
      ensures forall ip :: ip in rateLimiters <==> ip in old(rateLimiters) && old(rateLimiters)[ip].connections != map[]
      ensures forall ip :: ip in rateLimiters ==> rateLimiters[ip] == old(rateLimiters)[ip]
    {
      var pending := rateLimiters.Keys;
      ghost var all := rateLimiters;
      while pending != {}
        invariant pending <= rateLimiters.Keys <= all.Keys
        invariant forall ip :: ip in rateLimiters ==> rateLimiters[ip] == all[ip]
        invariant forall ip :: ip in all && ip !in pending ==> (ip in rateLimiters <==> all[ip].connections != map[])
        decreases |pending|
      {
        ghost var some := Member(pending);
        var ip: string :| ip in pending;
        pending := pending - {ip};
        if rateLimiters[ip].connections == map[] {
          rateLimiters := rateLimiters - {ip};
        }
      }
    }

    /** Drops exactly the limiters that record no connection, so no count changes. */
    method CleanupRateLimiters()
      requires Valid()
      modifies this`rateLimiters
      ensures Valid() && rateLimiters.Values <= old(rateLimiters.Values)
      ensures forall ip :: ip in rateLimiters <==> ip in old(rateLimiters) && old(Count(ip)) > 0
      ensures forall a :: Count(a) == old(Count(a))
    {
      DropEmpty();
    }

    /** Registration of an upgraded connection, then its +1. */
    method Establish(ip: string, userID: string, roomID: string) returns (client: Client)
      requires Valid() && hub.Valid() && roomID != []
      modifies rateLimiters.Values, hub
      ensures Valid() && hub.Valid()
      ensures var e := Step.Connect(client, userID, roomID);
              HubRegistry.Enabled(old(hub.View()), e) && hub.View() == HubRegistry.Apply(old(hub.View()), e)
      ensures forall a :: Count(a) == old(Count(a)) + if a == ip && ip in rateLimiters then 1 else 0
    {
      hide HubRegistry.Apply, HubRegistry.Enabled;
      var connected := hub.Connect(userID, roomID);
      client := connected.value;
      UpdateConnectionCount(ip, 1);
    }

    /** Check, capacity, upgrade, registration and count of one connection, in that order. */
    method HandleWebSocket(ip: string, userID: string, roomID: string, authenticated: bool, upgradeOk: bool)
      returns (client: Option<Client>)
      requires Valid() && hub.Valid()
      modifies this`rateLimiters, rateLimiters.Values, hub
      ensures Valid() && hub.Valid()
      ensures client.Some? <==>
                && roomID != [] && authenticated && (limits.enabled ==> old(Count(ip)) < limits.limit)
                && old(TotalActive(hub.View())) < maxConnections && upgradeOk
      ensures client.None? ==> hub.View() == old(hub.View())
      ensures client.Some? ==>
                var e := Step.Connect(client.value, userID, roomID);
                HubRegistry.Enabled(old(hub.View()), e) && hub.View() == HubRegistry.Apply(old(hub.View()), e)
      ensures forall a :: Count(a) == old(Count(a)) + if client.Some? && a == ip && ip in rateLimiters then 1 else 0
      ensures client.Some? && limits.enabled ==> ip in rateLimiters && Count(ip) <= limits.limit
    {
      hide HubRegistry.Apply, HubRegistry.Enabled, TotalActive, RoomsOk;
      client := None;
      if roomID == [] || !authenticated {
        return;
      }
      var allowed := CheckRateLimit(ip);
      if !allowed {
        return;
      }
      var rooms, clients, connections := hub.GetHubStats();
      if clients >= maxConnections || !upgradeOk {
        return;
      }
      var c := Establish(ip, userID, roomID);
      client := Some(c);
    }

    /** The goroutine that waits for the connection's context to be cancelled. */
    method Disconnected(ip: string)
      requires Valid()
      modifies rateLimiters.Values
      ensures Valid()
      ensures forall a :: Count(a) == if a == ip then Max(0, old(Count(a)) - 1) else old(Count(a))
    {
      UpdateConnectionCount(ip, -1);
    }
  }
}
