/** The notification side: the `clients` map of open WebSocket connections,
    the `/ws` registration and the `/reload` broadcast that prunes every
    connection whose send fails. Handshakes and sends are oracles: the
    handler receives the connection the upgrade produced, if any, and the set
    of connections whose send fails. */
module Registry {
  import opened GoBytes

  /** An open WebSocket connection, identified by its handle. */
  datatype Conn = Conn(handle: nat)

  /** The elements of a sequence, each listed once. */
  predicate Distinct(s: seq<Conn>) {
    forall i, j | 0 <= i < j < |s| :: s[i] != s[j]
  }

  /** The `clients` map shared by the two notification handlers. */
  class ConnRegistry {
    var clients: map<Conn, bool>

    /** Every entry is stored as `true`: presence in the map is liveness. */
    predicate Valid()
      reads this
    {
      forall c | c in clients :: clients[c]
    }

    /** `make(map[*websocket.Conn]bool)`. */
    constructor ()
      ensures Valid() && clients == map[]
    {
      clients := map[];
    }

    /** `clients[conn] = true`: `conn` becomes a member, every other entry
        stays as it was. */
    method Register(conn: Conn)
      requires Valid()
      modifies this
      ensures Valid()
      ensures clients == old(clients)[conn := true]
      ensures clients.Keys == old(clients).Keys + {conn}
      ensures conn in old(clients) ==> clients == old(clients)
    {
      clients := clients[conn := true];
    }

    /** The `/ws` handler: a failed upgrade returns without touching the
        registry, a successful one registers the new connection. */
    method HandleWebsocket(upgraded: Option<Conn>)
      requires Valid()
      modifies this
      ensures Valid()
      ensures upgraded.None? ==> clients == old(clients)
      ensures upgraded.Some? ==> clients == old(clients)[upgraded.value := true]
    {
      match upgraded
      case None =>
      case Some(conn) => Register(conn);
    }

    /** The `/reload` handler: every connection registered when the loop
        starts is sent the `reload` frame exactly once, in whatever order the
        map yields them; a failed send closes and deletes that connection and
        the loop goes on. `attempted` lists the sends in the order made. */
    method Broadcast(broken: set<Conn>) returns (attempted: seq<Conn>)
      requires Valid()
      modifies this
      ensures Valid()
      ensures clients == old(clients) - broken
      ensures Distinct(attempted)
      ensures forall c :: c in attempted <==> c in old(clients)
    {
      attempted := [];
      var pending := clients.Keys;
      while pending != {}
        invariant pending <= old(clients).Keys
        invariant Distinct(attempted)
        invariant forall c :: c in attempted <==> c in old(clients) && c !in pending
        invariant clients == old(clients) - (broken - pending)
        decreases pending
      {
        var client :| client in pending;
        DistinctAppend(attempted, client);
        PruneStep(old(clients), broken, pending, client);
        attempted := attempted + [client];
        if client in broken {
          clients := clients - {client};
        }
        pending := pending - {client};
      }
    }
  }

  lemma DistinctAppend(s: seq<Conn>, c: Conn)
    requires Distinct(s) && c !in s
    ensures Distinct(s + [c])
  {
  }

  /** A sequence listing each member of `keys` exactly once has as many
      elements as `keys`. */
  lemma {:induction false} DistinctCount(s: seq<Conn>, keys: set<Conn>)
    requires Distinct(s)
    requires forall c :: c in s <==> c in keys
    ensures |s| == |keys|
  {
    if s == [] {
      assert keys == {};
    } else {
      var last, init := s[|s| - 1], s[..|s| - 1];
      forall c
        ensures c in init <==> c in keys - {last}
      {
        if c in init {
          var j :| 0 <= j < |init| && init[j] == c;
          assert s[j] == c && s[|s| - 1] == last;
        }
        if c in keys - {last} {
          assert c in s;
          var j :| 0 <= j < |s| && s[j] == c;
          assert j != |s| - 1;
          assert init[j] == c;
        }
      }
      DistinctCount(init, keys - {last});
    }
  }

  /** One step of the broadcast loop: visiting `c` and deleting it when its
      send fails extends the deleted set to the broken connections visited so
      far. */
  lemma PruneStep(m: map<Conn, bool>, broken: set<Conn>, pending: set<Conn>, c: Conn)
    requires c in pending
    ensures (if c in broken then (m - (broken - pending)) - {c} else m - (broken - pending))
      == m - (broken - (pending - {c}))
  {
  }

  /** Three tabs register and one of them has gone away: the broadcast
      reaches the other two and leaves exactly them registered. */
  method BroadcastWithOneBroken() returns (reached: set<Conn>, remaining: set<Conn>)
    ensures reached == {Conn(0), Conn(2)}
    ensures remaining == {Conn(0), Conn(2)}
  {
    var registry := new ConnRegistry();
    registry.Register(Conn(0));
    registry.Register(Conn(1));
    registry.Register(Conn(2));
    var broken := {Conn(1)};
    var attempted := registry.Broadcast(broken);
    reached := (set c | c in attempted) - broken;
    remaining := registry.clients.Keys;
    assert Conn(0) in attempted && Conn(2) in attempted;
  }

  /** A broadcast to an empty registry attempts nothing and leaves it
      empty. */
  method BroadcastToNobody() returns (attempted: seq<Conn>, remaining: set<Conn>)
    ensures attempted == [] && remaining == {}
  {
    var registry := new ConnRegistry();
    attempted := registry.Broadcast({Conn(0)});
    remaining := registry.clients.Keys;
    DistinctCount(attempted, {});
  }
}
