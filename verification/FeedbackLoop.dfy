/**
 The whole feedback loop: leases become HostStatus objects, reconciling the objects fills the host cache, and
 the cache gives the bindings that generateConfig records and writes into the dhcpd configuration.
 */
module FeedbackLoop {
  import opened GoStrings
  import opened LeaseFile
  import opened LeaseDiff
  import opened HostNames
  import opened Api
  import opened HostStatusEvents
  import opened SyncRuns
  import opened HostCache
  import opened FixedIps
  import opened DhcpServer
  import SyncLoop
  import Ipv4
  import Credentials

  // ---- Reconciling the objects into the cache ------------------------------------------------

  // A HostStatus of this agent with an address and credentials that can be found
  predicate Ready(agent: string, own: Credentials.Key, secrets: Credentials.Secrets, h: HostStatus) {
    var b := h.status.basic;
    var k := Credentials.Key(b.secretName, b.secretNamespace);
    h.status.clusterAgent != "" && h.status.clusterAgent == agent && b.ipAddr != "" && (k == own || k in secrets)
  }

  // The cache entry of a host: its basic data, whether it is a DHCP host, and the credentials of its secret
  ghost predicate EntryOf(entry: HostConnectCon, h: HostStatus, own: Credentials.Key, username: string,
                          password: string, secrets: Credentials.Secrets)
  {
    var b := h.status.basic;
    var k := Credentials.Key(b.secretName, b.secretNamespace);
    && entry.info == b && (entry.dhcpHost <==> b.kind == "dhcp")
    && (k == own ==> entry.username == username && entry.password == password)
    && (k != own && k in secrets ==> Credentials.Creds(entry.username, entry.password) == secrets[k])
  }

  ghost predicate SameEntry(hosts: Hosts, hosts': Hosts, k: string) {
    (k in hosts <==> k in hosts') && (k in hosts ==> hosts[k] == hosts'[k])
  }

  // Every stored and every cached name is reconciled once, in any order.
  method ReconcileAll(keeper: Credentials.SecretKeeper, store: Store, secrets: Credentials.Secrets)
    modifies keeper.cache
    ensures forall k :: k in store && Ready(keeper.agent, keeper.own, secrets, store[k]) ==>
      k in keeper.cache.data
      && EntryOf(keeper.cache.data[k], store[k], keeper.own, keeper.username, keeper.password, secrets)
    ensures forall k :: k in store && !Ready(keeper.agent, keeper.own, secrets, store[k]) ==>
      SameEntry(keeper.cache.data, old(keeper.cache.data), k)
    ensures forall k :: k in keeper.cache.data ==> k in store
  {
    var all := store.Keys + keeper.cache.data.Keys;
    var rest := all;
    while rest != {}
      invariant rest <= all
      invariant forall k :: k in keeper.cache.data ==> k in all && (k in rest || k in store)
      invariant forall k :: k in rest ==> SameEntry(keeper.cache.data, old(keeper.cache.data), k)
      invariant forall k :: k in store && k !in rest && Ready(keeper.agent, keeper.own, secrets, store[k]) ==>
        k in keeper.cache.data
        && EntryOf(keeper.cache.data[k], store[k], keeper.own, keeper.username, keeper.password, secrets)
      invariant forall k :: k in store && k !in rest && !Ready(keeper.agent, keeper.own, secrets, store[k]) ==>
        SameEntry(keeper.cache.data, old(keeper.cache.data), k)
    {
      var k :| k in rest;
      var ok, polls := keeper.Reconcile(k, false, Find(store, k), secrets);
      rest := rest - {k};
    }
  }

  // The cache has the basic data of every ready object, and nothing else.
  ghost predicate Mirrors(hosts: Hosts, store: Store, agent: string, own: Credentials.Key,
                          secrets: Credentials.Secrets)
  {
    && (forall k :: k in hosts <==> k in store && Ready(agent, own, secrets, store[k]))
    && (forall k :: k in hosts ==>
          hosts[k].info == store[k].status.basic && (hosts[k].dhcpHost <==> store[k].status.basic.kind == "dhcp"))
  }

  // From an empty cache, reconciling all names mirrors any store.
  method ReconcileFromEmpty(keeper: Credentials.SecretKeeper, store: Store,
                            secrets: Credentials.Secrets)
    requires keeper.cache.data == map[]
    modifies keeper.cache
    ensures Mirrors(keeper.cache.data, store, keeper.agent, keeper.own, secrets)
  {
    ReconcileAll(keeper, store, secrets);
  }

  // ---- Objects of a run ------------------------------------------------------------------------

  predicate Discovers(cfg: AgentConfig) { FollowsLeases(cfg) || KeepsLeases(cfg) }

  // The MAC the agent should know for an address: that of the last snapshot, or with DHCP binding that of the last
  // snapshot that had the address
  function LeasedMac(cfg: AgentConfig, ticks: seq<Tick>, ip: string): Option<string>
    requires cfg.dhcp.Some?
  {
    if cfg.dhcp.value.enableBindDhcpIP then LastMac(ticks, ip)
    else if ip in Snapshot(ticks) then Some(Snapshot(ticks)[ip].mac) else None
  }

  // Objects that are there besides those of the leases: hosts of other agents, and this agent's hosts from host
  // endpoints, under names that no leased address has
  ghost predicate Besides(cfg: AgentConfig, init: Store, ticks: seq<Tick>) {
    forall k :: k in init ==>
      && (init[k].status.clusterAgent == cfg.clusterAgentName ==> init[k].status.basic.kind != "dhcp")
      && (forall ip :: Seen(ticks, ip) ==> FormatName(cfg.clusterAgentName, ip) != k)
  }

  lemma RunHost(cfg: AgentConfig, init: Store, ticks: seq<Tick>, ip: string)
    requires Discovers(cfg) && ValidRun(ticks) && DashFree(ip) && Host(cfg, init, ip).None?
    ensures var slot, mac := Host(cfg, Run(cfg, init, ticks), ip), LeasedMac(cfg, ticks, ip);
      && (slot.Some? <==> mac.Some?)
      && (slot.Some? ==> MadeFor(cfg, ip, slot.value) && slot.value.status.basic.mac == mac.value)
  {
    if FollowsLeases(cfg) {
      StoreFollowsLeases(cfg, init, ticks, ip);
    } else {
      StoreKeepsLeases(cfg, init, ticks, ip);
    }
  }

  // Leased addresses were seen, and only addresses without dashes are.
  lemma LeasedIsSeen(cfg: AgentConfig, ticks: seq<Tick>, ip: string)
    requires Discovers(cfg) && ValidRun(ticks) && LeasedMac(cfg, ticks, ip).Some?
    ensures Seen(ticks, ip) && DashFree(ip)
  {
    LastMacSeen(ticks, ip);
    if ip in Snapshot(ticks) {
      SeenStep(ticks, ip);
    }
    SeenIsDashFree(ticks, ip);
  }

  // ---- Bindings of a run --------------------------------------------------------------------------

  ghost predicate BoundTo(r: map<string, string>, ip: string, mac: Option<string>) {
    (ip in r <==> mac.Some?) && (ip in r ==> r[ip] == mac.value)
  }

  // A host endpoint of this agent stands at the address.
  ghost predicate EndpointAt(cfg: AgentConfig, init: Store, secrets: Credentials.Secrets, ip: string) {
    exists k :: k in init && init[k].status.basic.ipAddr == ip
                && Ready(cfg.clusterAgentName, OwnKey(cfg), secrets, init[k])
  }

  function OwnKey(cfg: AgentConfig): Credentials.Key {
    Credentials.Key(cfg.endpoint.secretName, cfg.endpoint.secretNamespace)
  }

  // What the code records for an address, if the static flag is on: the virtual MAC for a host endpoint, leased or not,
  // and the MAC as leased for any other
  ghost function RecordedMac(cfg: AgentConfig, init: Store, secrets: Credentials.Secrets,
                             mac: Option<string>, ip: string): Option<string>
    requires cfg.dhcp.Some?
  {
    if !cfg.dhcp.value.enableBindStaticIP then None
    else if EndpointAt(cfg, init, secrets, ip) then Some("00:00:00:00:00:00")
    else if ip != "" then mac
    else None
  }

  // Objects from the start are as they were.
  lemma BesidesStay(cfg: AgentConfig, init: Store, ticks: seq<Tick>, k: string)
    requires Discovers(cfg) && ValidRun(ticks) && Besides(cfg, init, ticks) && k in init
    ensures k in Run(cfg, init, ticks) && Run(cfg, init, ticks)[k] == init[k]
  {
    ForeignUntouched(cfg, init, ticks, k);
  }

  // Any other object is that of a leased address.
  lemma OthersAreLeased(cfg: AgentConfig, init: Store, ticks: seq<Tick>, k: string) returns (ip: string)
    requires Discovers(cfg) && ValidRun(ticks) && Besides(cfg, init, ticks)
    requires k in Run(cfg, init, ticks) && k !in init
    ensures k == FormatName(cfg.clusterAgentName, ip) && MadeFor(cfg, ip, Run(cfg, init, ticks)[k])
    ensures LeasedMac(cfg, ticks, ip) == Some(Run(cfg, init, ticks)[k].status.basic.mac)
  {
    ip := RunObject(cfg, init, ticks, k);
    RunHost(cfg, init, ticks, ip);
  }

  // The static hosts of the cache are the host endpoints.
  lemma StaticAreEndpoints(cfg: AgentConfig, init: Store, ticks: seq<Tick>,
                           secrets: Credentials.Secrets, hosts: Hosts, ip: string)
    requires Discovers(cfg) && ValidRun(ticks) && Besides(cfg, init, ticks)
    requires Mirrors(hosts, Run(cfg, init, ticks), cfg.clusterAgentName, OwnKey(cfg), secrets)
    ensures HasStatic(hosts, ip) <==> EndpointAt(cfg, init, secrets, ip)
  {
    forall k | k in hosts ensures !hosts[k].dhcpHost <==> k in init {
      if k in init {
        BesidesStay(cfg, init, ticks, k);
      } else {
        var ip' := OthersAreLeased(cfg, init, ticks, k);
      }
    }
    forall k | k in init ensures k in Run(cfg, init, ticks) && Run(cfg, init, ticks)[k] == init[k] {
      BesidesStay(cfg, init, ticks, k);
    }
    if k :| k in StaticKeys(hosts) && hosts[k].info.ipAddr == ip {
      assert EndpointAt(cfg, init, secrets, ip);
    }
    if k :| k in init && init[k].status.basic.ipAddr == ip
            && Ready(cfg.clusterAgentName, OwnKey(cfg), secrets, init[k])
    {
      assert k in StaticKeys(hosts);
    }
  }

  lemma DhcpAreLeased(cfg: AgentConfig, init: Store, ticks: seq<Tick>,
                      secrets: Credentials.Secrets, hosts: Hosts, ip: string, k: string)
    requires Discovers(cfg) && ValidRun(ticks) && Besides(cfg, init, ticks)
    requires Mirrors(hosts, Run(cfg, init, ticks), cfg.clusterAgentName, OwnKey(cfg), secrets) && IsDhcpAt(hosts, k, ip)
    ensures ip != "" && LeasedMac(cfg, ticks, ip) == Some(hosts[k].info.mac)
  {
    if k in init {
      BesidesStay(cfg, init, ticks, k);
    } else {
      var ip' := OthersAreLeased(cfg, init, ticks, k);
    }
  }

  lemma LeasedAreCached(cfg: AgentConfig, init: Store, ticks: seq<Tick>,
                        secrets: Credentials.Secrets, hosts: Hosts, ip: string)
    requires Discovers(cfg) && ValidRun(ticks) && Besides(cfg, init, ticks) && cfg.clusterAgentName != ""
    requires Mirrors(hosts, Run(cfg, init, ticks), cfg.clusterAgentName, OwnKey(cfg), secrets)
    requires ip != "" && LeasedMac(cfg, ticks, ip).Some?
    ensures IsDhcpAt(hosts, FormatName(cfg.clusterAgentName, ip), ip)
  {
    LeasedIsSeen(cfg, ticks, ip);
    RunHost(cfg, init, ticks, ip);
  }

  // A cache that mirrors the store of a run gives exactly these bindings, whatever the iteration orders.
  lemma BindingsOfRun(cfg: AgentConfig, init: Store, ticks: seq<Tick>,
                      secrets: Credentials.Secrets, hosts: Hosts, d: seq<string>, s: seq<string>,
                      ip: string)
    requires Discovers(cfg) && ValidRun(ticks) && Besides(cfg, init, ticks) && cfg.clusterAgentName != ""
    requires Mirrors(hosts, Run(cfg, init, ticks), cfg.clusterAgentName, OwnKey(cfg), secrets)
    requires IsOrderOf(d, DhcpKeys(hosts)) && IsOrderOf(s, StaticKeys(hosts))
    ensures BoundTo(WrittenBindings(cfg.dhcp.value.enableBindStaticIP, hosts, d, s), ip,
                    RecordedMac(cfg, init, secrets, LeasedMac(cfg, ticks, ip), ip))
  {
    StaticAreEndpoints(cfg, init, ticks, secrets, hosts, ip);
    forall k | IsDhcpAt(hosts, k, ip) ensures ip != "" && LeasedMac(cfg, ticks, ip) == Some(hosts[k].info.mac) {
      DhcpAreLeased(cfg, init, ticks, secrets, hosts, ip, k);
    }
    if ip != "" && LeasedMac(cfg, ticks, ip).Some? {
      LeasedAreCached(cfg, init, ticks, secrets, hosts, ip);
    }
    BindingAt(hosts, d, s, ip);
  }

  // ---- The closed loop --------------------------------------------------------------------------

  // Server, event handler and credentials belong to one agent with a name.
  ghost predicate OneAgent(cfg: AgentConfig, config: ServerConfig, agent: string, own: Credentials.Key) {
    && Discovers(cfg) && agent == cfg.clusterAgentName != "" && own == OwnKey(cfg)
    && config.enableBindDhcpIP == cfg.dhcp.value.enableBindDhcpIP
    && config.enableBindStaticIP == cfg.dhcp.value.enableBindStaticIP
  }

  predicate Records(env: Environment) { env.subnet.Some? && env.template && env.create }

  // The objects there at the start, before any of these files was read
  ghost predicate BesidesFiles(cfg: AgentConfig, init: Store, files: seq<FileRead>) {
    forall k :: k in init ==>
      && (init[k].status.clusterAgent == cfg.clusterAgentName ==> init[k].status.basic.kind != "dhcp")
      && (forall i, c :: 0 <= i < |files| && c in SyncLoop.Parsed(files[i]) ==>
            FormatName(cfg.clusterAgentName, c.ip) != k)
  }

  lemma {:induction false} SnapshotOfFile(files: seq<FileRead>, clients: seq<ClientInfo>)
    requires clients in SyncLoop.Snapshots(files)
    ensures exists i :: 0 <= i < |files| && clients == SyncLoop.Parsed(files[i])
  {
    var n := |files| - 1;
    if clients in SyncLoop.Snapshots(files[..n]) {
      SnapshotOfFile(files[..n], clients);
      var i :| 0 <= i < n && clients == SyncLoop.Parsed(files[..n][i]);
      assert files[..n][i] == files[i];
    }
  }

  lemma BesidesRun(cfg: AgentConfig, init: Store, files: seq<FileRead>, ticks: seq<Tick>)
    requires BesidesFiles(cfg, init, files) && SyncLoop.ClientsOf(ticks) == SyncLoop.Snapshots(files)
    ensures Besides(cfg, init, ticks)
  {
    forall k, ip | k in init && Seen(ticks, ip) ensures FormatName(cfg.clusterAgentName, ip) != k {
      var n :| 0 <= n < |ticks| && ip in Latest(ticks[n].clients);
      assert SyncLoop.ClientsOf(ticks)[n] == ticks[n].clients;
      SnapshotOfFile(files, ticks[n].clients);
      var c := Latest(ticks[n].clients)[ip];
      assert c in ticks[n].clients && c.ip == ip;
    }
  }

  // The MAC of an address in a snapshot
  function MacIn(last: ClientMap, ip: string): Option<string> { if ip in last then Some(last[ip].mac) else None }

  // The next configuration after any files were read, their events handled and the objects reconciled, host endpoints
  // and hosts of other agents besides: without DHCP binding it records, provided the static flag is on, every host
  // endpoint with the virtual MAC and exactly the other leases of the last file read, each address with the MAC of its
  // last lease; otherwise it records nothing.
  method LeasesAreBound(server: Server, controller: HostStatusController, keeper: Credentials.SecretKeeper,
                        files: seq<FileRead>, secrets: Credentials.Secrets, now: string,
                        env: Environment, other: string -> Ipv4.Parsed)
    requires server.previousClients == [] && keeper.cache.data == map[]
    requires OneAgent(controller.config, server.config, keeper.agent, keeper.own) && FollowsLeases(controller.config)
    requires forall i :: 0 <= i < |files| ==> SyncLoop.DashFreeFile(files[i])
    requires BesidesFiles(controller.config, controller.store, files)
    modifies server, controller, keeper.cache
    ensures Records(env) ==> forall ip ::
      BoundTo(server.lastBoundIPList, ip,
              RecordedMac(controller.config, old(controller.store), secrets,
                          MacIn(Latest(ParseLines(SyncLoop.LastLines(files))), ip), ip))
  {
    ghost var init := controller.store;
    ghost var ticks := CloseLoop(server, controller, keeper, files, secrets, now, env, other);
    SyncLoop.SnapshotOf(ticks, files);
    ghost var last := Latest(ParseLines(SyncLoop.LastLines(files)));
    if Records(env) {
      forall ip ensures BoundTo(server.lastBoundIPList, ip,
                                RecordedMac(controller.config, init, secrets, MacIn(last, ip), ip))
      {
        assert MacIn(last, ip) == LeasedMac(controller.config, ticks, ip);
      }
    }
  }

  // With DHCP binding it records, provided the static flag is on, every host endpoint with the virtual MAC and every
  // other address ever leased with the MAC it was last leased to; so the documented promise that all leased addresses
  // are bound is kept exactly when that flag is on or no address was ever leased.
  method EveryLeaseStaysBound(server: Server, controller: HostStatusController, keeper: Credentials.SecretKeeper,
                              files: seq<FileRead>, secrets: Credentials.Secrets, now: string,
                              env: Environment, other: string -> Ipv4.Parsed)
    returns (ghost ticks: seq<Tick>)
    requires server.previousClients == [] && keeper.cache.data == map[]
    requires OneAgent(controller.config, server.config, keeper.agent, keeper.own) && KeepsLeases(controller.config)
    requires forall i :: 0 <= i < |files| ==> SyncLoop.DashFreeFile(files[i])
    requires BesidesFiles(controller.config, controller.store, files)
    modifies server, controller, keeper.cache
    ensures SyncLoop.ClientsOf(ticks) == SyncLoop.Snapshots(files)
    ensures Records(env) ==> forall ip ::
      BoundTo(server.lastBoundIPList, ip,
              RecordedMac(controller.config, old(controller.store), secrets, LastMac(ticks, ip), ip))
    ensures Records(env) ==>
      ((forall ip :: ip != "" && Seen(ticks, ip) ==> ip in server.lastBoundIPList)
       <==> server.config.enableBindStaticIP || forall ip :: ip != "" ==> !Seen(ticks, ip))
  {
    ghost var init := controller.store;
    ticks := CloseLoop(server, controller, keeper, files, secrets, now, env, other);
    if Records(env) {
      forall ip ensures BoundTo(server.lastBoundIPList, ip,
                                RecordedMac(controller.config, init, secrets, LastMac(ticks, ip), ip))
      {
        assert LastMac(ticks, ip) == LeasedMac(controller.config, ticks, ip);
      }
      PromiseKeptIff(controller.config, init, secrets, ticks, server.lastBoundIPList);
    }
  }

  lemma PromiseKeptIff(cfg: AgentConfig, init: Store, secrets: Credentials.Secrets,
                       ticks: seq<Tick>, bound: map<string, string>)
    requires cfg.dhcp.Some?
    requires forall ip :: BoundTo(bound, ip, RecordedMac(cfg, init, secrets, LastMac(ticks, ip), ip))
    ensures (forall ip :: ip != "" && Seen(ticks, ip) ==> ip in bound)
            <==> cfg.dhcp.value.enableBindStaticIP || forall ip :: ip != "" ==> !Seen(ticks, ip)
  {
    forall ip
      ensures !cfg.dhcp.value.enableBindStaticIP ==> ip !in bound
      ensures cfg.dhcp.value.enableBindStaticIP && ip != "" && Seen(ticks, ip) ==> ip in bound
    {
      assert BoundTo(bound, ip, RecordedMac(cfg, init, secrets, LastMac(ticks, ip), ip));
      LastMacSeen(ticks, ip);
    }
  }

  method CloseLoop(server: Server, controller: HostStatusController, keeper: Credentials.SecretKeeper,
                   files: seq<FileRead>, secrets: Credentials.Secrets, now: string,
                   env: Environment, other: string -> Ipv4.Parsed)
    returns (ghost ticks: seq<Tick>)
    requires server.previousClients == [] && keeper.cache.data == map[]
    requires OneAgent(controller.config, server.config, keeper.agent, keeper.own)
    requires forall i :: 0 <= i < |files| ==> SyncLoop.DashFreeFile(files[i])
    requires BesidesFiles(controller.config, controller.store, files)
    modifies server, controller, keeper.cache
    ensures SyncLoop.ClientsOf(ticks) == SyncLoop.Snapshots(files)
    ensures Records(env) ==> forall ip ::
      BoundTo(server.lastBoundIPList, ip,
              RecordedMac(controller.config, old(controller.store), secrets,
                          LeasedMac(controller.config, ticks, ip), ip))
  {
    ghost var init := controller.store;
    ticks := SyncLoop.Synchronise(server, controller, files, now);
    BesidesRun(controller.config, init, files, ticks);
    ReconcileFromEmpty(keeper, controller.store, secrets);
    ghost var listed, d, s;
    var ok, stanzas;
    ok, stanzas, listed, d, s := server.GenerateConfig(keeper.cache, env, other);
    if Records(env) {
      forall ip ensures BoundTo(server.lastBoundIPList, ip,
                                RecordedMac(controller.config, init, secrets,
                                            LeasedMac(controller.config, ticks, ip), ip))
      {
        BindingsOfRun(controller.config, init, ticks, secrets, keeper.cache.data, d, s, ip);
      }
    }
  }
}
