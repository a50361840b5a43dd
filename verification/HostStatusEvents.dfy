/**
 Applying DHCP events to HostStatus objects (pkg/agent/hoststatus/dhcp.go). Every API call may
 fail; a failing call leaves the store as it was.
 */
module HostStatusEvents {
  import opened GoStrings
  import opened LeaseFile
  import opened LeaseDiff
  import opened HostNames
  import opened Api

  // The errors of the calls one handler makes, None where the call is served
  datatype Faults = Faults(
    get: Option<ApiError>, create: Option<ApiError>, update: Option<ApiError>, delete: Option<ApiError>)

  const NO_FAULTS := Faults(None, None, None, None)

  predicate ShouldRetry(e: ApiError) {
    e == Conflict || e == ServerTimeout || e == TooManyRequests
  }

  // ---- One object -----------------------------------------------------------------

  type Slot = Option<HostStatus>

  function Find(store: Store, name: string): Slot {
    if name in store then Some(store[name]) else None
  }

  function Put(store: Store, name: string, slot: Slot): Store {
    if slot.Some? then store[name := slot.value] else store - {name}
  }

  predicate DiscoveryOff(cfg: AgentConfig) {
    cfg.dhcp.Some? && !cfg.dhcp.value.enableDhcpDiscovery
  }

  function NewLabels(ip: string): map<string, string> {
    map[LABEL_IP_ADDR := ip, LABEL_CLIENT_MODE := HOST_TYPE_DHCP, LABEL_CLIENT_ACTIVE := "true"]
  }

  function NewStatus(cfg: AgentConfig, c: ClientInfo, now: string): Status {
    Status(false, cfg.clusterAgentName, now,
           BasicInfo(HOST_TYPE_DHCP, c.ip, cfg.endpoint.secretName, cfg.endpoint.secretNamespace,
                     cfg.endpoint.https, cfg.endpoint.port, c.mac, true),
           map[], EMPTY_LOG)
  }

  // What handleDHCPAdd makes of the object with the client's name, and the error it returns
  function AddSlot(cfg: AgentConfig, slot: Slot, c: ClientInfo, f: Faults, now: string): (Slot, Option<ApiError>) {
    if DiscoveryOff(cfg) then (slot, None)
    else if f.get.Some? then (slot, f.get)
    else match slot
      case Some(h) =>
        if h.status.basic.mac == c.mac then (slot, None)
        else if f.update.Some? then (slot, f.update)
        else (Some(h.(status := h.status.(lastUpdateTime := now, basic := h.status.basic.(mac := c.mac)))), None)
      case None =>
        if f.create.Some? then (None, f.create)
        else if f.update.Some? then (Some(HostStatus(NewLabels(c.ip), EMPTY_STATUS)), f.update)
        else (Some(HostStatus(NewLabels(c.ip), NewStatus(cfg, c, now))), None)
  }

  // The same for handleDHCPDelete; an update of the object itself does not touch its status.
  function DeleteSlot(cfg: AgentConfig, slot: Slot, f: Faults): (Slot, Option<ApiError>)
    requires cfg.dhcp.Some?
  {
    if DiscoveryOff(cfg) then (slot, None)
    else if cfg.dhcp.value.enableBindDhcpIP then
      if f.get.Some? then (slot, f.get)
      else if slot.None? then (None, None)
      else if f.update.Some? then (slot, f.update)
      else (Some(slot.value.(labels := slot.value.labels[LABEL_CLIENT_ACTIVE := "false"])), None)
    else if f.delete.Some? then (slot, f.delete)
    else (None, None)
  }

  function EventSlot(cfg: AgentConfig, slot: Slot, e: Event, f: Faults, now: string): (Slot, Option<ApiError>)
    requires cfg.dhcp.Some?
  {
    match e
    case Add(c) => AddSlot(cfg, slot, c, f, now)
    case Delete(_) => DeleteSlot(cfg, slot, f)
  }

  // ---- The controller ----------------------------------------------------------------

  class HostStatusController {
    const config: AgentConfig
    var store: Store

    constructor (config: AgentConfig, store: Store)
      ensures this.config == config && this.store == store
    {
      this.config := config;
      this.store := store;
    }

    // handleDHCPAdd
    method HandleDHCPAdd(client: ClientInfo, f: Faults, now: string) returns (err: Option<ApiError>)
      modifies this
      ensures var name := FormatName(config.clusterAgentName, client.ip);
        var r := AddSlot(config, Find(old(store), name), client, f, now);
        store == Put(old(store), name, r.0) && err == r.1
    {
      var name := FormatName(config.clusterAgentName, client.ip);
      assert name in store ==> store[name := store[name]] == store;
      assert name !in store ==> store - {name} == store;
      if config.dhcp.Some? && !config.dhcp.value.enableDhcpDiscovery {
        return None;
      }
      if f.get.Some? {
        return f.get;
      }
      if name in store {
        var existing := store[name];
        if existing.status.basic.mac == client.mac {
          return None;
        }
        var basic := existing.status.basic.(mac := client.mac);
        var updated := existing.(status := existing.status.(lastUpdateTime := now, basic := basic));
        if f.update.Some? {
          return f.update;
        }
        store := store[name := updated];
        return None;
      }
      var labels := map[LABEL_IP_ADDR := client.ip, LABEL_CLIENT_MODE := HOST_TYPE_DHCP, LABEL_CLIENT_ACTIVE := "true"];
      if f.create.Some? {
        return f.create;
      }
      store := store[name := HostStatus(labels, EMPTY_STATUS)];
      var endpoint := config.endpoint;
      var basic := BasicInfo(HOST_TYPE_DHCP, client.ip, "", "", endpoint.https, endpoint.port, client.mac, true);
      if endpoint.secretName != "" {
        basic := basic.(secretName := endpoint.secretName);
      }
      if endpoint.secretNamespace != "" {
        basic := basic.(secretNamespace := endpoint.secretNamespace);
      }
      if f.update.Some? {
        return f.update;
      }
      store := store[name := HostStatus(labels, Status(false, config.clusterAgentName, now, basic, map[], EMPTY_LOG))];
      return None;
    }

    // handleDHCPDelete; without a DHCP configuration the source dereferences nil
    method HandleDHCPDelete(client: ClientInfo, f: Faults) returns (err: Option<ApiError>)
      requires config.dhcp.Some?
      modifies this
      ensures var name := FormatName(config.clusterAgentName, client.ip);
        var r := DeleteSlot(config, Find(old(store), name), f);
        store == Put(old(store), name, r.0) && err == r.1
    {
      var name := FormatName(config.clusterAgentName, client.ip);
      assert name in store ==> store[name := store[name]] == store;
      assert name !in store ==> store - {name} == store;
      if !config.dhcp.value.enableDhcpDiscovery {
        return None;
      }
      if config.dhcp.value.enableBindDhcpIP {
        if f.get.Some? {
          return f.get;
        }
        if name !in store {
          return None;
        }
        var existing := store[name];
        if f.update.Some? {
          return f.update;
        }
        store := store[name := existing.(labels := existing.labels[LABEL_CLIENT_ACTIVE := "false"])];
      } else {
        if f.delete.Some? {
          return f.delete;
        }
        store := store - {name};
      }
      return None;
    }

    // One turn of processDHCPEvents; `retry` tells whether the event is sent again later
    method ProcessEvent(e: Event, f: Faults, now: string) returns (retry: bool)
      requires config.dhcp.Some?
      modifies this
      ensures var name := FormatName(config.clusterAgentName, e.client.ip);
        var r := EventSlot(config, Find(old(store), name), e, f, now);
        && store == Put(old(store), name, r.0)
        && (retry <==> r.1 == Some(Conflict) || r.1 == Some(ServerTimeout) || r.1 == Some(TooManyRequests))
    {
      var err: Option<ApiError>;
      match e {
        case Add(client) => err := HandleDHCPAdd(client, f, now);
        case Delete(client) => err := HandleDHCPDelete(client, f);
      }
      retry := err.Some? && ShouldRetry(err.value);
    }
  }

  // ---- What handling an event comes to ---------------------------------------------------

  // The object is as the event asks.
  predicate Done(cfg: AgentConfig, slot: Slot, e: Event)
    requires cfg.dhcp.Some?
  {
    match e
    case Add(c) => slot.Some? && slot.value.status.basic.mac == c.mac
    case Delete(_) =>
      if !cfg.dhcp.value.enableBindDhcpIP then slot.None?
      else slot.Some? ==> LABEL_CLIENT_ACTIVE in slot.value.labels && slot.value.labels[LABEL_CLIENT_ACTIVE] == "false"
  }

  // With discovery on, an event handled without an error is done; an error is that of a call, and leaves the object as
  // it was or, if only the second call of a creation failed, bare; without failing calls there is no error.
  lemma HandledIsDone(cfg: AgentConfig, slot: Slot, e: Event, f: Faults, now: string)
    requires cfg.dhcp.Some? && cfg.dhcp.value.enableDhcpDiscovery
    ensures var r := EventSlot(cfg, slot, e, f, now);
      && (r.1.None? ==> Done(cfg, r.0, e))
      && (r.1.Some? ==> r.1 == f.get || r.1 == f.create || r.1 == f.update || r.1 == f.delete)
      && (r.1.Some? ==> r.0 == slot || (e.Add? && slot.None? && f.create.None? && r.1 == f.update
                                        && r.0.Some? && r.0.value.status == EMPTY_STATUS))
      && (f == Faults(None, None, None, None) ==> r.1.None?)
  {
  }

  // With discovery off every event is ignored.
  lemma {:induction false} IgnoredEvents(cfg: AgentConfig, store: Store, events: seq<Event>, now: string)
    requires cfg.dhcp.Some? && !cfg.dhcp.value.enableDhcpDiscovery
    ensures ApplyAll(cfg, store, events, now) == store
  {
    if events != [] {
      IgnoredEvents(cfg, store, events[..|events| - 1], now);
      var name := FormatName(cfg.clusterAgentName, events[|events| - 1].client.ip);
      assert name !in store ==> store - {name} == store;
    }
  }

  // Without a DHCP configuration an add is handled as with discovery on.
  lemma NoConfigDiscovers(cfg: AgentConfig, d: DhcpConfig, slot: Slot, c: ClientInfo, f: Faults, now: string)
    requires cfg.dhcp.None? && d.enableDhcpDiscovery
    ensures AddSlot(cfg, slot, c, f, now) == AddSlot(cfg.(dhcp := Some(d)), slot, c, f, now)
  {
  }

  // ---- Sequences of served events ------------------------------------------------------

  function Apply(cfg: AgentConfig, store: Store, e: Event, now: string): Store
    requires cfg.dhcp.Some?
  {
    var name := FormatName(cfg.clusterAgentName, e.client.ip);
    Put(store, name, EventSlot(cfg, Find(store, name), e, NO_FAULTS, now).0)
  }

  function ApplyAll(cfg: AgentConfig, store: Store, events: seq<Event>, now: string): Store
    requires cfg.dhcp.Some?
  {
    if events == [] then store
    else Apply(cfg, ApplyAll(cfg, store, events[..|events| - 1], now), events[|events| - 1], now)
  }

  ghost predicate DashFreeEvents(events: seq<Event>) {
    forall k :: 0 <= k < |events| ==> DashFree(events[k].client.ip)
  }

  // Objects of other names are left alone.
  lemma {:induction false} OthersUntouched(cfg: AgentConfig, store: Store, events: seq<Event>, now: string,
                                           name: string)
    requires cfg.dhcp.Some?
    requires forall k :: 0 <= k < |events| ==> FormatName(cfg.clusterAgentName, events[k].client.ip) != name
    ensures Find(ApplyAll(cfg, store, events, now), name) == Find(store, name)
  {
    if events != [] {
      OthersUntouched(cfg, store, events[..|events| - 1], now, name);
    }
  }

  // The only event for an address decides its object, in whatever place it is delivered.
  lemma {:induction false} EventDecides(cfg: AgentConfig, store: Store, events: seq<Event>, now: string, k: nat)
    requires cfg.dhcp.Some? && OnePerIp(events) && DashFreeEvents(events) && k < |events|
    ensures var name := FormatName(cfg.clusterAgentName, events[k].client.ip);
      Find(ApplyAll(cfg, store, events, now), name) == EventSlot(cfg, Find(store, name), events[k], NO_FAULTS, now).0
  {
    var n := |events| - 1;
    var name := FormatName(cfg.clusterAgentName, events[k].client.ip);
    if k < n {
      EventDecides(cfg, store, events[..n], now, k);
      NameDeterminesIp(cfg.clusterAgentName, events[k].client.ip, events[n].client.ip);
    } else {
      forall j | 0 <= j < n ensures FormatName(cfg.clusterAgentName, events[..n][j].client.ip) != name {
        NameDeterminesIp(cfg.clusterAgentName, events[k].client.ip, events[j].client.ip);
      }
      OthersUntouched(cfg, store, events[..n], now, name);
    }
  }

  // The store after a tick does not depend on the order in which its events are delivered.
  lemma OrderIrrelevant(cfg: AgentConfig, store: Store, events: seq<Event>, perm: seq<Event>, now: string)
    requires cfg.dhcp.Some? && OnePerIp(events) && OnePerIp(perm) && DashFreeEvents(events)
    requires forall e :: e in events <==> e in perm
    ensures ApplyAll(cfg, store, events, now) == ApplyAll(cfg, store, perm, now)
  {
    var a, b := ApplyAll(cfg, store, events, now), ApplyAll(cfg, store, perm, now);
    assert DashFreeEvents(perm) by {
      forall k | 0 <= k < |perm| ensures DashFree(perm[k].client.ip) { assert perm[k] in events; }
    }
    forall name ensures Find(a, name) == Find(b, name) {
      if k :| 0 <= k < |events| && FormatName(cfg.clusterAgentName, events[k].client.ip) == name {
        assert events[k] in perm;
        var j :| 0 <= j < |perm| && perm[j] == events[k];
        EventDecides(cfg, store, events, now, k);
        EventDecides(cfg, store, perm, now, j);
      } else {
        assert forall j :: 0 <= j < |perm| ==> perm[j] in events;
        OthersUntouched(cfg, store, events, now, name);
        OthersUntouched(cfg, store, perm, now, name);
      }
    }
    assert forall name :: name in a <==> Find(a, name).Some?;
    assert forall name :: name in b <==> Find(b, name).Some?;
    assert forall name :: name in a ==> a[name] == Find(a, name).value == Find(b, name).value == b[name];
    assert a.Keys == b.Keys;
  }
}
