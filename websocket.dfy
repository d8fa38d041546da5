/** The WebSocket registry (app/core/websocket.py): for hospitals and for
    vendors, the open connections of each user id. Accepting the handshake
    and sending messages are I/O and are not modelled. */
module WebSocket {

  /** A WebSocket connection, known only by its identity. */
  datatype Socket = Socket(handle: nat)

  type Registry = map<nat, set<Socket>>

  /** No id is registered with an empty set of connections. */
  predicate NoEmptySets(m: Registry)
  {
    forall id :: id in m ==> m[id] != {}
  }

  /** The connections of one id; none for an id not registered. */
  function Connections(m: Registry, id: nat): set<Socket>
  {
    if id in m then m[id] else {}
  }

  /** The registry after `connect_*`: the socket joins the id's set, which is
      created when the id is new; every other id keeps its set. */
  function Connect(m: Registry, id: nat, ws: Socket): (r: Registry)
    ensures r.Keys == m.Keys + {id}
    ensures forall j :: Connections(r, j) == Connections(m, j) + (if j == id then {ws} else {})
    ensures NoEmptySets(m) ==> NoEmptySets(r)
  {
    m[id := Connections(m, id) + {ws}]
  }

  /** The registry after `disconnect_*`: the socket leaves the id's set, and
      the id is dropped once its set is empty; every other id keeps its set. */
  function Disconnect(m: Registry, id: nat, ws: Socket): (r: Registry)
    ensures forall j :: Connections(r, j) == Connections(m, j) - (if j == id then {ws} else {})
    ensures r.Keys <= m.Keys
    ensures NoEmptySets(m) ==> NoEmptySets(r)
  {
    if id !in m then m
    else
      var rest := m[id] - {ws};
      if rest == {} then m - {id} else m[id := rest]
  }

  /** Connecting the same socket twice is the same as connecting it once. */
  lemma ConnectIdempotent(m: Registry, id: nat, ws: Socket)
    ensures Connect(Connect(m, id, ws), id, ws) == Connect(m, id, ws)
  {
    var once := Connect(m, id, ws);
    assert Connections(once, id) + {ws} == Connections(once, id);
  }

  /** Disconnecting an id that is not registered, or a socket that is not
      among its connections, changes nothing. */
  lemma DisconnectAbsent(m: Registry, id: nat, ws: Socket)
    requires NoEmptySets(m)
    requires ws !in Connections(m, id)
    ensures Disconnect(m, id, ws) == m
  {
    if id in m {
      assert m[id] - {ws} == m[id];
    }
  }

  /** Disconnecting a socket that was just connected for the first time
      restores the registry. */
  lemma DisconnectUndoesConnect(m: Registry, id: nat, ws: Socket)
    requires NoEmptySets(m)
    requires ws !in Connections(m, id)
    ensures Disconnect(Connect(m, id, ws), id, ws) == m
  {
    var r := Disconnect(Connect(m, id, ws), id, ws);
    assert r.Keys == m.Keys by {
      if id in m {
        assert Connections(m, id) + {ws} - {ws} == m[id] != {};
      }
    }
    forall j | j in m
      ensures r[j] == m[j]
    {
      assert Connections(r, j) == Connections(m, j);
    }
  }

  /** Replaying connects and disconnects, in order, from a registry. */
  datatype Action =
    | ConnectAction(id: nat, ws: Socket)
    | DisconnectAction(id: nat, ws: Socket)

  function Apply(m: Registry, a: Action): Registry
  {
    match a
    case ConnectAction(id, ws) => Connect(m, id, ws)
    case DisconnectAction(id, ws) => Disconnect(m, id, ws)
  }

  function Replay(m: Registry, actions: seq<Action>): Registry
    decreases |actions|
  {
    if actions == [] then m else Replay(Apply(m, actions[0]), actions[1..])
  }

  /** After any sequence of connects and disconnects from a registry with no
      empty set (the empty registry included), no id maps to an empty set. */
  lemma {:induction false} ReplayKeepsSetsNonEmpty(m: Registry, actions: seq<Action>)
    requires NoEmptySets(m)
    ensures NoEmptySets(Replay(m, actions))
    decreases |actions|
  {
    if actions != [] {
      ReplayKeepsSetsNonEmpty(Apply(m, actions[0]), actions[1..]);
    }
  }

  /** `ConnectionManager`: the two registries, updated in place. */
  class ConnectionManager {
    var hospitalConnections: Registry
    var vendorConnections: Registry

    ghost predicate Valid()
      reads this
    {
      NoEmptySets(hospitalConnections) && NoEmptySets(vendorConnections)
    }

    constructor ()
      ensures Valid()
      ensures hospitalConnections == map[] && vendorConnections == map[]
    {
      hospitalConnections := map[];
      vendorConnections := map[];
    }

    /** `connect_hospital`. */
    method ConnectHospital(ws: Socket, hospitalId: nat)
      requires Valid()
      modifies this
      ensures Valid()
      ensures hospitalConnections == Connect(old(hospitalConnections), hospitalId, ws)
      ensures vendorConnections == old(vendorConnections)
    {
      if hospitalId !in hospitalConnections {
        hospitalConnections := hospitalConnections[hospitalId := {}];
      }
      hospitalConnections := hospitalConnections[hospitalId := hospitalConnections[hospitalId] + {ws}];
    }

    /** `connect_vendor`. */
    method ConnectVendor(ws: Socket, vendorId: nat)
      requires Valid()
      modifies this
      ensures Valid()
      ensures vendorConnections == Connect(old(vendorConnections), vendorId, ws)
      ensures hospitalConnections == old(hospitalConnections)
    {
      if vendorId !in vendorConnections {
        vendorConnections := vendorConnections[vendorId := {}];
      }
      vendorConnections := vendorConnections[vendorId := vendorConnections[vendorId] + {ws}];
    }

    /** `disconnect_hospital`. */
    method DisconnectHospital(ws: Socket, hospitalId: nat)
      requires Valid()
      modifies this
      ensures Valid()
      ensures hospitalConnections == Disconnect(old(hospitalConnections), hospitalId, ws)
      ensures vendorConnections == old(vendorConnections)
    {
      if hospitalId in hospitalConnections {
        hospitalConnections := hospitalConnections[hospitalId := hospitalConnections[hospitalId] - {ws}];
        if hospitalConnections[hospitalId] == {} {
          hospitalConnections := hospitalConnections - {hospitalId};
        }
      }
    }

    /** `disconnect_vendor`. */
    method DisconnectVendor(ws: Socket, vendorId: nat)
      requires Valid()
      modifies this
      ensures Valid()
      ensures vendorConnections == Disconnect(old(vendorConnections), vendorId, ws)
      ensures hospitalConnections == old(hospitalConnections)
    {
      if vendorId in vendorConnections {
        vendorConnections := vendorConnections[vendorId := vendorConnections[vendorId] - {ws}];
        if vendorConnections[vendorId] == {} {
          vendorConnections := vendorConnections - {vendorId};
        }
      }
    }
  }
}
