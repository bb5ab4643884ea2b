/** The registry of authenticated sessions, `DeviceRegistry` in `devices.py`. */
module Devices {
  import opened Common

  /**
    `deviceOf` is the `device_id` of every session object ever built, named by its connection;
    `replaced` collects the sessions whose flag of that name is set.
   */
  datatype Registry = Registry(
    deviceOf: map<Conn, DeviceId>,
    byId: map<DeviceId, Conn>,
    byConnection: set<Conn>,
    replaced: set<Conn>)

  const NOBODY := Registry(map[], map[], {}, {})

  function Get(r: Registry, id: DeviceId): Option<Conn> {
    if id in r.byId then Some(r.byId[id]) else None
  }

  predicate IsRegistered(r: Registry, c: Conn) {
    c in r.deviceOf && Get(r, r.deviceOf[c]) == Some(c)
  }

  /** The check the server makes before it acts on a session's message. */
  predicate IsCurrent(r: Registry, c: Conn) {
    c !in r.replaced && IsRegistered(r, c)
  }

  function AfterRegister(r: Registry, c: Conn, id: DeviceId): Registry {
    var previous := Get(r, id);
    var known := r.(deviceOf := r.deviceOf[c := id]);
    var alone := if previous.Some? && previous.value != c
                 then known.(replaced := r.replaced + {previous.value},
                             byConnection := r.byConnection - {previous.value})
                 else known;
    alone.(byId := r.byId[id := c], byConnection := alone.byConnection + {c})
  }

  function AfterRemove(r: Registry, c: Conn): Registry {
    var gone := r.(byConnection := r.byConnection - {c});
    if IsRegistered(r, c) then gone.(byId := r.byId - {r.deviceOf[c]}) else gone
  }

  function AfterClear(r: Registry): Registry {
    r.(byId := map[], byConnection := {})
  }

  ghost predicate Inv(r: Registry) {
    && (forall id :: id in r.byId ==> r.byId[id] in r.deviceOf && r.deviceOf[r.byId[id]] == id)
    && (forall c :: c in r.byConnection <==> IsRegistered(r, c))
    && (forall c :: c in r.replaced ==> c in r.deviceOf && !IsRegistered(r, c))
  }

  /** A replaced session never comes back, so the flag and the lookup always agree. */
  lemma CurrentIsRegistered(r: Registry, c: Conn)
    requires Inv(r)
    ensures IsCurrent(r, c) <==> IsRegistered(r, c)
    ensures c in r.byConnection <==> IsCurrent(r, c)
  {
  }

  lemma RegisterKeepsInv(r: Registry, c: Conn, id: DeviceId)
    requires Inv(r) && c !in r.deviceOf
    ensures Inv(AfterRegister(r, c, id))
    ensures forall s :: IsRegistered(AfterRegister(r, c, id), s)
                        <==> s == c || (IsRegistered(r, s) && r.deviceOf[s] != id)
    ensures forall s :: s in AfterRegister(r, c, id).replaced
                        <==> s in r.replaced || (IsRegistered(r, s) && r.deviceOf[s] == id)
  {
  }

  lemma RemoveKeepsInv(r: Registry, c: Conn)
    requires Inv(r)
    ensures Inv(AfterRemove(r, c))
    ensures forall s :: IsRegistered(AfterRemove(r, c), s) <==> s != c && IsRegistered(r, s)
  {
  }

  class DeviceRegistry {
    var deviceOf: map<Conn, DeviceId>
    var byId: map<DeviceId, Conn>
    var byConnection: set<Conn>
    var replaced: set<Conn>

    function State(): Registry
      reads this
    {
      Registry(deviceOf, byId, byConnection, replaced)
    }

    constructor ()
      ensures State() == NOBODY
    {
      deviceOf, byId, byConnection, replaced := map[], map[], {}, {};
    }

    method Register(c: Conn, id: DeviceId) returns (previous: Option<Conn>)
      modifies this
      ensures State() == AfterRegister(old(State()), c, id)
      ensures previous == Get(old(State()), id)
    {
      previous := Get(State(), id);
      deviceOf := deviceOf[c := id];
      if previous.Some? && previous.value != c {
        replaced := replaced + {previous.value};
        byConnection := byConnection - {previous.value};
      }
      byId := byId[id := c];
      byConnection := byConnection + {c};
    }

    method Remove(c: Conn) returns (removed: bool)
      modifies this
      ensures State() == AfterRemove(old(State()), c)
      ensures removed == IsRegistered(old(State()), c)
    {
      byConnection := byConnection - {c};
      removed := IsRegistered(State(), c);
      if removed {
        byId := byId - {deviceOf[c]};
      }
    }

    /** The sessions that were registered; every one of them is to be cleaned up. */
    method Clear() returns (sessions: set<Conn>)
      modifies this
      ensures State() == AfterClear(old(State()))
      ensures sessions == old(byId.Values)
    {
      sessions := byId.Values;
      byId := map[];
      byConnection := {};
    }
  }
}
