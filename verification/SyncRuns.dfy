/**
 Whole runs of the lease-to-HostStatus synchronisation: any number of monitor ticks over any lease
 snapshots, any map iteration orders and any delivery order of a tick's events, API calls served.
 */
module SyncRuns {
  import opened GoStrings
  import opened LeaseFile
  import opened LeaseDiff
  import opened HostNames
  import opened Api
  import opened HostStatusEvents

  // A snapshot, the iteration orders over both maps, the events as they arrive, and the clock
  datatype Tick = Tick(
    clients: seq<ClientInfo>, newOrder: seq<string>, oldOrder: seq<string>, delivered: seq<Event>, now: string)

  function Snapshot(ticks: seq<Tick>): ClientMap {
    if ticks == [] then map[] else Latest(ticks[|ticks| - 1].clients)
  }

  ghost predicate ValidTick(was: ClientMap, t: Tick) {
    && IsOrderOf(t.newOrder, Latest(t.clients).Keys) && IsOrderOf(t.oldOrder, was.Keys)
    && multiset(t.delivered) == multiset(Events(was, Latest(t.clients), t.newOrder, t.oldOrder))
    && forall i :: 0 <= i < |t.clients| ==> DashFree(t.clients[i].ip)
  }

  ghost predicate ValidRun(ticks: seq<Tick>) {
    ticks != [] ==> ValidRun(ticks[..|ticks| - 1]) && ValidTick(Snapshot(ticks[..|ticks| - 1]), ticks[|ticks| - 1])
  }

  function Run(cfg: AgentConfig, init: Store, ticks: seq<Tick>): Store
    requires cfg.dhcp.Some?
  {
    if ticks == [] then init
    else
      var t := ticks[|ticks| - 1];
      ApplyAll(cfg, Run(cfg, init, ticks[..|ticks| - 1]), t.delivered, t.now)
  }

  ghost predicate Seen(ticks: seq<Tick>, ip: string) {
    exists i :: 0 <= i < |ticks| && ip in Latest(ticks[i].clients)
  }

  function Host(cfg: AgentConfig, store: Store, ip: string): Slot {
    Find(store, FormatName(cfg.clusterAgentName, ip))
  }

  // ---- One tick, one address ---------------------------------------------------------

  lemma {:induction false} SnapshotIsKeyed(ticks: seq<Tick>)
    requires ValidRun(ticks)
    ensures Keyed(Snapshot(ticks)) && forall ip :: ip in Snapshot(ticks) ==> DashFree(ip)
  {
  }

  lemma DeliveredExactly(was: ClientMap, t: Tick)
    requires Keyed(was) && (forall ip :: ip in was ==> DashFree(ip)) && ValidTick(was, t)
    ensures ChangesExactly(was, Latest(t.clients), t.delivered) && DashFreeEvents(t.delivered)
  {
    var now := Latest(t.clients);
    EventsExact(was, now, t.newOrder, t.oldOrder);
    PermutedChanges(was, now, Events(was, now, t.newOrder, t.oldOrder), t.delivered);
    forall k | 0 <= k < |t.delivered| ensures DashFree(t.delivered[k].client.ip) {
      assert t.delivered[k] in t.delivered;
      assert IsChange(was, now, t.delivered[k]);
    }
  }

  function Client(m: ClientMap, ip: string): Option<ClientInfo> {
    if ip in m then Some(m[ip]) else None
  }

  // What a tick does to the object of an address, given the address's clients before and now
  function TickSlot(cfg: AgentConfig, was: Option<ClientInfo>, now: Option<ClientInfo>, slot: Slot, time: string): Slot
    requires cfg.dhcp.Some?
  {
    if now.Some? && (was.None? || was.value.mac != now.value.mac) then AddSlot(cfg, slot, now.value, NO_FAULTS, time).0
    else if was.Some? && now.None? then DeleteSlot(cfg, slot, NO_FAULTS).0
    else slot
  }

  lemma {:induction false} TickAt(cfg: AgentConfig, store: Store, was: ClientMap, t: Tick, ip: string)
    requires cfg.dhcp.Some? && DashFree(ip)
    requires Keyed(was) && (forall k :: k in was ==> DashFree(k)) && ValidTick(was, t)
    ensures Host(cfg, ApplyAll(cfg, store, t.delivered, t.now), ip)
         == TickSlot(cfg, Client(was, ip), Client(Latest(t.clients), ip), Host(cfg, store, ip), t.now)
  {
    DeliveredExactly(was, t);
    ChangesAt(cfg, store, was, Latest(t.clients), t.delivered, t.now, ip);
  }

  lemma {:induction false} ChangesAt(cfg: AgentConfig, store: Store, was: ClientMap, now: ClientMap, ev: seq<Event>,
                                     time: string, ip: string)
    requires cfg.dhcp.Some? && DashFree(ip) && Keyed(was) && Keyed(now)
    requires ChangesExactly(was, now, ev) && DashFreeEvents(ev)
    ensures Host(cfg, ApplyAll(cfg, store, ev, time), ip)
         == TickSlot(cfg, Client(was, ip), Client(now, ip), Host(cfg, store, ip), time)
  {
    if ip in now && (ip !in was || was[ip].mac != now[ip].mac) {
      assert Add(now[ip]) in ev by { assert IsChange(was, now, Add(now[ip])); }
      var k :| 0 <= k < |ev| && ev[k] == Add(now[ip]);
      EventDecides(cfg, store, ev, time, k);
    } else if ip in was && ip !in now {
      assert Delete(was[ip]) in ev by { assert IsChange(was, now, Delete(was[ip])); }
      var k :| 0 <= k < |ev| && ev[k] == Delete(was[ip]);
      EventDecides(cfg, store, ev, time, k);
    } else {
      NoEventFor(cfg, was, now, ev, ip);
      OthersUntouched(cfg, store, ev, time, FormatName(cfg.clusterAgentName, ip));
    }
  }

  lemma NoEventFor(cfg: AgentConfig, was: ClientMap, now: ClientMap, ev: seq<Event>, ip: string)
    requires ChangesExactly(was, now, ev) && DashFreeEvents(ev) && DashFree(ip)
    requires !(ip in now && (ip !in was || was[ip].mac != now[ip].mac)) && !(ip in was && ip !in now)
    ensures var agent := cfg.clusterAgentName;
      forall k :: 0 <= k < |ev| ==> FormatName(agent, ev[k].client.ip) != FormatName(agent, ip)
  {
    var agent := cfg.clusterAgentName;
    forall k | 0 <= k < |ev| ensures FormatName(agent, ev[k].client.ip) != FormatName(agent, ip) {
      assert ev[k] in ev && IsChange(was, now, ev[k]);
      NameDeterminesIp(cfg.clusterAgentName, ev[k].client.ip, ip);
    }
  }

  lemma SeenStep(ticks: seq<Tick>, ip: string)
    requires ticks != []
    ensures Seen(ticks, ip) <==> Seen(ticks[..|ticks| - 1], ip) || ip in Snapshot(ticks)
    ensures ip in Snapshot(ticks[..|ticks| - 1]) ==> Seen(ticks[..|ticks| - 1], ip)
  {
    var n := |ticks| - 1;
    assert forall i :: 0 <= i < n ==> ticks[..n][i] == ticks[i];
    if ip in Snapshot(ticks) { assert ip in Latest(ticks[n].clients); }
    if ip in Snapshot(ticks[..n]) { assert ip in Latest(ticks[..n][n - 1].clients); }
  }

  // An object for a DHCP client with this address, created by this agent with its connection settings
  ghost predicate MadeFor(cfg: AgentConfig, ip: string, h: HostStatus) {
    var b := h.status.basic;
    && "bmc.spidernet.io/ipAddr" in h.labels && h.labels["bmc.spidernet.io/ipAddr"] == ip
    && "bmc.spidernet.io/mode" in h.labels && h.labels["bmc.spidernet.io/mode"] == "dhcp"
    && "bmc.spidernet.io/dhcp-ip-active" in h.labels
    && h.status.clusterAgent == cfg.clusterAgentName && b.kind == "dhcp" && b.ipAddr == ip
    && b.secretName == cfg.endpoint.secretName && b.secretNamespace == cfg.endpoint.secretNamespace
    && b.https == cfg.endpoint.https && b.port == cfg.endpoint.port
  }

  // ---- Discovery on, binding off -------------------------------------------------------

  predicate FollowsLeases(cfg: AgentConfig) {
    cfg.dhcp.Some? && cfg.dhcp.value.enableDhcpDiscovery && !cfg.dhcp.value.enableBindDhcpIP
  }

  // The object of an address, given its client in the last snapshot and whether it was ever leased
  ghost predicate Follows(cfg: AgentConfig, init: Slot, last: Option<ClientInfo>, seen: bool, slot: Slot, ip: string) {
    && (last.Some? ==> slot.Some? && slot.value.status.basic.mac == last.value.mac)
    && (last.None? && seen ==> slot.None?)
    && (!seen ==> slot == init)
    && (slot.Some? && init.None? ==> MadeFor(cfg, ip, slot.value))
  }

  lemma FollowsStep(cfg: AgentConfig, init: Slot, was: Option<ClientInfo>, now: Option<ClientInfo>, seen: bool,
                    slot: Slot, ip: string, time: string)
    requires FollowsLeases(cfg) && Follows(cfg, init, was, seen, slot, ip)
    requires (was.Some? ==> seen) && (now.Some? ==> now.value.ip == ip)
    ensures Follows(cfg, init, now, seen || now.Some?, TickSlot(cfg, was, now, slot, time), ip)
  {
  }

  // After every run the object of each address is what the last snapshot says; an address never leased
  // keeps the object it had at the start.
  lemma {:induction false} StoreFollowsLeases(cfg: AgentConfig, init: Store, ticks: seq<Tick>, ip: string)
    requires FollowsLeases(cfg) && ValidRun(ticks) && DashFree(ip)
    ensures Follows(cfg, Host(cfg, init, ip), Client(Snapshot(ticks), ip), Seen(ticks, ip),
                    Host(cfg, Run(cfg, init, ticks), ip), ip)
  {
    if ticks != [] {
      var n := |ticks| - 1;
      var before := Run(cfg, init, ticks[..n]);
      StoreFollowsLeases(cfg, init, ticks[..n], ip);
      SnapshotIsKeyed(ticks[..n]);
      TickAt(cfg, before, Snapshot(ticks[..n]), ticks[n], ip);
      SeenStep(ticks, ip);
      FollowsStep(cfg, Host(cfg, init, ip), Client(Snapshot(ticks[..n]), ip), Client(Snapshot(ticks), ip),
                  Seen(ticks[..n], ip), Host(cfg, before, ip), ip, ticks[n].now);
    }
  }

  // Names of no leased address are never touched.
  lemma {:induction false} ForeignUntouched(cfg: AgentConfig, init: Store, ticks: seq<Tick>, name: string)
    requires cfg.dhcp.Some? && ValidRun(ticks)
    requires forall ip :: Seen(ticks, ip) ==> FormatName(cfg.clusterAgentName, ip) != name
    ensures Find(Run(cfg, init, ticks), name) == Find(init, name)
  {
    if ticks != [] {
      var n := |ticks| - 1;
      forall ip ensures Seen(ticks[..n], ip) ==> Seen(ticks, ip) { SeenStep(ticks, ip); }
      ForeignUntouched(cfg, init, ticks[..n], name);
      SnapshotIsKeyed(ticks[..n]);
      DeliveredExactly(Snapshot(ticks[..n]), ticks[n]);
      var ev := ticks[n].delivered;
      forall k | 0 <= k < |ev| ensures FormatName(cfg.clusterAgentName, ev[k].client.ip) != name {
        assert ev[k] in ev && IsChange(Snapshot(ticks[..n]), Latest(ticks[n].clients), ev[k]);
        SeenStep(ticks, ev[k].client.ip);
      }
      OthersUntouched(cfg, Run(cfg, init, ticks[..n]), ev, ticks[n].now, name);
    }
  }

  // From an empty store: exactly one object per leased address, made for it, with the last MAC listed for it.
  lemma StoreIsExactlyTheLeases(cfg: AgentConfig, ticks: seq<Tick>)
    requires FollowsLeases(cfg) && ValidRun(ticks)
    ensures var store, last := Run(cfg, map[], ticks), Snapshot(ticks);
      && (forall name :: name in store <==> exists ip :: ip in last && FormatName(cfg.clusterAgentName, ip) == name)
      && (forall ip :: ip in last ==>
            var h := store[FormatName(cfg.clusterAgentName, ip)];
            MadeFor(cfg, ip, h) && h.status.basic.mac == last[ip].mac)
  {
    var store, last := Run(cfg, map[], ticks), Snapshot(ticks);
    SnapshotIsKeyed(ticks);
    forall ip | ip in last
      ensures FormatName(cfg.clusterAgentName, ip) in store
      ensures var h := store[FormatName(cfg.clusterAgentName, ip)];
        MadeFor(cfg, ip, h) && h.status.basic.mac == last[ip].mac
    {
      StoreFollowsLeases(cfg, map[], ticks, ip);
    }
    forall name | name in store ensures exists ip :: ip in last && FormatName(cfg.clusterAgentName, ip) == name {
      ObjectIsLeased(cfg, ticks, name);
    }
  }

  lemma ObjectIsLeased(cfg: AgentConfig, ticks: seq<Tick>, name: string)
    requires FollowsLeases(cfg) && ValidRun(ticks) && name in Run(cfg, map[], ticks)
    ensures exists ip :: ip in Snapshot(ticks) && FormatName(cfg.clusterAgentName, ip) == name
  {
    if forall ip :: Seen(ticks, ip) ==> FormatName(cfg.clusterAgentName, ip) != name {
      ForeignUntouched(cfg, map[], ticks, name);
    } else {
      var ip :| Seen(ticks, ip) && FormatName(cfg.clusterAgentName, ip) == name;
      SeenIsDashFree(ticks, ip);
      StoreFollowsLeases(cfg, map[], ticks, ip);
    }
  }

  lemma {:induction false} SeenIsDashFree(ticks: seq<Tick>, ip: string)
    requires ValidRun(ticks) && Seen(ticks, ip)
    ensures DashFree(ip)
  {
    SeenStep(ticks, ip);
    if ip in Snapshot(ticks) {
      SnapshotIsKeyed(ticks);
    } else {
      SeenIsDashFree(ticks[..|ticks| - 1], ip);
    }
  }

  // The object of the address with the last block at i: made for it, with the MAC that block gives
  ghost predicate HoldsBlock(cfg: AgentConfig, store: Store, lines: seq<string>, i: int)
    requires LastOfAddress(lines, i)
  {
    var ip := Address(lines[i]).value;
    var slot := Host(cfg, store, ip);
    slot.Some? && MadeFor(cfg, ip, slot.value) && slot.value.status.basic.mac == BlockAt(lines, i).mac
  }

  // The store in terms of the lines of a lease file: one object per leased address, for its last block
  ghost predicate StoreIs(cfg: AgentConfig, store: Store, lines: seq<string>) {
    && (forall i :: LastOfAddress(lines, i) ==> HoldsBlock(cfg, store, lines, i))
    && (forall name :: name in store ==>
          exists i :: LastOfAddress(lines, i) && FormatName(cfg.clusterAgentName, Address(lines[i]).value) == name)
  }

  lemma StoreHoldsBlock(cfg: AgentConfig, ticks: seq<Tick>, lines: seq<string>, i: int)
    requires FollowsLeases(cfg) && ValidRun(ticks) && Snapshot(ticks) == Latest(Meaning(lines))
    requires LastOfAddress(lines, i)
    ensures HoldsBlock(cfg, Run(cfg, map[], ticks), lines, i)
  {
    var ip := Address(lines[i]).value;
    LatestIsBlock(lines, i, ip);
    SnapshotIsKeyed(ticks);
    StoreFollowsLeases(cfg, map[], ticks, ip);
  }

  // The same in terms of the text of the last lease file read.
  lemma StoreMatchesFile(cfg: AgentConfig, ticks: seq<Tick>, lines: seq<string>)
    requires FollowsLeases(cfg) && ValidRun(ticks) && Snapshot(ticks) == Latest(ParseLines(lines))
    ensures StoreIs(cfg, Run(cfg, map[], ticks), lines)
  {
    ParserIsMeaning(lines);
    forall i | LastOfAddress(lines, i) ensures HoldsBlock(cfg, Run(cfg, map[], ticks), lines, i) {
      StoreHoldsBlock(cfg, ticks, lines, i);
    }
    forall name | name in Run(cfg, map[], ticks)
      ensures exists i :: LastOfAddress(lines, i) && FormatName(cfg.clusterAgentName, Address(lines[i]).value) == name
    {
      ObjectIsLeased(cfg, ticks, name);
      var ip :| ip in Snapshot(ticks) && FormatName(cfg.clusterAgentName, ip) == name;
      var i := LatestHasBlock(lines, ip);
    }
  }

  // ---- Discovery on, binding on ----------------------------------------------------------

  predicate KeepsLeases(cfg: AgentConfig) {
    cfg.dhcp.Some? && cfg.dhcp.value.enableDhcpDiscovery && cfg.dhcp.value.enableBindDhcpIP
  }

  // The MAC in the latest snapshot that has the address
  function LastMac(ticks: seq<Tick>, ip: string): Option<string> {
    if ticks == [] then None
    else if ip in Latest(ticks[|ticks| - 1].clients) then Some(Latest(ticks[|ticks| - 1].clients)[ip].mac)
    else LastMac(ticks[..|ticks| - 1], ip)
  }

  // The address was leased and later was not
  ghost predicate Released(ticks: seq<Tick>, ip: string) {
    exists i, j :: 0 <= i < j < |ticks| && ip in Latest(ticks[i].clients) && ip !in Latest(ticks[j].clients)
  }

  // The object of an address, given the MAC it was last leased to and whether it was released since
  ghost predicate Kept(cfg: AgentConfig, init: Slot, last: Option<string>, released: bool, slot: Slot, ip: string) {
    && (last.Some? ==> slot.Some? && slot.value.status.basic.mac == last.value)
    && (last.None? ==> slot == init)
    && (slot.Some? && init.None? ==>
          && MadeFor(cfg, ip, slot.value)
          && slot.value.labels["bmc.spidernet.io/dhcp-ip-active"] == (if released then "false" else "true")
          && slot.value.status.basic.activeDhcpClient)
  }

  lemma KeptStep(cfg: AgentConfig, init: Slot, was: Option<ClientInfo>, now: Option<ClientInfo>, last: Option<string>,
                 released: bool, slot: Slot, ip: string, time: string)
    requires KeepsLeases(cfg) && Kept(cfg, init, last, released, slot, ip)
    requires (was.Some? ==> last == Some(was.value.mac)) && (now.Some? ==> now.value.ip == ip)
    requires (last.None? ==> !released) && (last.Some? && was.None? ==> released)
    ensures Kept(cfg, init, if now.Some? then Some(now.value.mac) else last, released || (last.Some? && now.None?),
                 TickSlot(cfg, was, now, slot, time), ip)
  {
  }

  lemma ReleasedStep(ticks: seq<Tick>, ip: string)
    requires ticks != []
    ensures var before := ticks[..|ticks| - 1];
      Released(ticks, ip) <==> Released(before, ip) || (Seen(before, ip) && ip !in Snapshot(ticks))
  {
    var n := |ticks| - 1;
    assert forall i :: 0 <= i < n ==> ticks[..n][i] == ticks[i];
    if Seen(ticks[..n], ip) && ip !in Snapshot(ticks) {
      var i :| 0 <= i < n && ip in Latest(ticks[..n][i].clients);
      assert ip in Latest(ticks[i].clients) && ip !in Latest(ticks[n].clients);
    }
  }

  lemma {:induction false} LastMacSeen(ticks: seq<Tick>, ip: string)
    ensures LastMac(ticks, ip).Some? <==> Seen(ticks, ip)
  {
    if ticks != [] {
      SeenStep(ticks, ip);
      LastMacSeen(ticks[..|ticks| - 1], ip);
    }
  }

  lemma {:induction false} ReleasedFacts(ticks: seq<Tick>, ip: string)
    ensures Released(ticks, ip) ==> Seen(ticks, ip)
    ensures Seen(ticks, ip) && ip !in Snapshot(ticks) ==> Released(ticks, ip)
    ensures ip in Snapshot(ticks) ==> LastMac(ticks, ip) == Some(Snapshot(ticks)[ip].mac)
  {
    if ticks != [] {
      ReleasedFacts(ticks[..|ticks| - 1], ip);
      ReleasedStep(ticks, ip);
      SeenStep(ticks, ip);
    }
  }

  // After every run each address ever leased has an object with the MAC of the latest snapshot that had it;
  // its active label is "false" just when the address was released once, even if it is leased again, and
  // the status flag is never cleared.
  lemma {:induction false} StoreKeepsLeases(cfg: AgentConfig, init: Store, ticks: seq<Tick>, ip: string)
    requires KeepsLeases(cfg) && ValidRun(ticks) && DashFree(ip)
    ensures Kept(cfg, Host(cfg, init, ip), LastMac(ticks, ip), Released(ticks, ip),
                 Host(cfg, Run(cfg, init, ticks), ip), ip)
  {
    if ticks != [] {
      var n := |ticks| - 1;
      var before := Run(cfg, init, ticks[..n]);
      StoreKeepsLeases(cfg, init, ticks[..n], ip);
      SnapshotIsKeyed(ticks[..n]);
      TickAt(cfg, before, Snapshot(ticks[..n]), ticks[n], ip);
      ReleasedStep(ticks, ip);
      ReleasedFacts(ticks[..n], ip);
      LastMacSeen(ticks[..n], ip);
      KeptStep(cfg, Host(cfg, init, ip), Client(Snapshot(ticks[..n]), ip), Client(Snapshot(ticks), ip),
               LastMac(ticks[..n], ip), Released(ticks[..n], ip), Host(cfg, before, ip), ip, ticks[n].now);
    }
  }

  // No run of events ever removes an object.
  lemma {:induction false} NamesNeverShrink(cfg: AgentConfig, init: Store, ticks: seq<Tick>)
    requires KeepsLeases(cfg) && ticks != []
    ensures Run(cfg, init, ticks[..|ticks| - 1]).Keys <= Run(cfg, init, ticks).Keys
  {
    var t := ticks[|ticks| - 1];
    EventsKeepNames(cfg, Run(cfg, init, ticks[..|ticks| - 1]), t.delivered, t.now);
  }

  lemma {:induction false} EventsKeepNames(cfg: AgentConfig, store: Store, events: seq<Event>, now: string)
    requires KeepsLeases(cfg)
    ensures store.Keys <= ApplyAll(cfg, store, events, now).Keys
  {
    if events != [] {
      EventsKeepNames(cfg, store, events[..|events| - 1], now);
    }
  }

  // ---- The whole object over a run ----------------------------------------------------------

  // The MAC the agent knows for an address after these ticks, from `mac` at the start: that of the last snapshot; with
  // binding the last one known, without binding none once the address was released.
  function KnownMac(bind: bool, mac: Option<string>, ticks: seq<Tick>, ip: string): Option<string> {
    if ticks == [] then mac
    else if ip in Snapshot(ticks) then Some(Snapshot(ticks)[ip].mac)
    else if bind || ip !in Snapshot(ticks[..|ticks| - 1]) then KnownMac(bind, mac, ticks[..|ticks| - 1], ip)
    else None
  }

  // The clock of the last tick that changed the known MAC, `time` if none did
  function ChangeTime(bind: bool, mac: Option<string>, time: string, ticks: seq<Tick>, ip: string): string {
    if ticks == [] then time
    else
      var before := ticks[..|ticks| - 1];
      if KnownMac(bind, mac, ticks, ip) != KnownMac(bind, mac, before, ip) then ticks[|ticks| - 1].now
      else ChangeTime(bind, mac, time, before, ip)
  }

  // Nobody has polled the host.
  predicate Unpolled(h: HostStatus) {
    !h.status.healthy && h.status.info == map[] && h.status.log == LogStruct(0, 0, None, None)
  }

  // Only MAC, time and labels may differ.
  predicate KeepsRest(h: HostStatus, was: HostStatus) {
    && h.status.healthy == was.status.healthy && h.status.info == was.status.info && h.status.log == was.status.log
    && h.status.clusterAgent == was.status.clusterAgent
    && h.status.basic.(mac := was.status.basic.mac) == was.status.basic
  }

  function MacOf(slot: Slot): Option<string> { if slot.Some? then Some(slot.value.status.basic.mac) else None }
  function TimeOf(slot: Slot): string { if slot.Some? then slot.value.status.lastUpdateTime else "" }

  // The object of an address, given the one at the start, the MAC known and when it changed, and whether the address
  // was released
  ghost predicate HasHistory(cfg: AgentConfig, init: Slot, mac: Option<string>, time: string, released: bool,
                             slot: Slot, ip: string)
    requires cfg.dhcp.Some?
  {
    var survives := init.Some? && (cfg.dhcp.value.enableBindDhcpIP || !released);
    && MacOf(slot) == mac && (slot.Some? ==> TimeOf(slot) == time)
    && (survives ==> slot.Some? && KeepsRest(slot.value, init.value))
    && (survives && !released ==> slot.value.labels == init.value.labels)
    && (survives && released ==> slot.value.labels == init.value.labels[LABEL_CLIENT_ACTIVE := "false"])
    && (slot.Some? && !survives ==> Unpolled(slot.value) && MadeFor(cfg, ip, slot.value))
  }

  lemma HistoryStep(cfg: AgentConfig, init: Slot, was: Option<ClientInfo>, now: Option<ClientInfo>, mac: Option<string>,
                    time: string, seen: bool, released: bool, slot: Slot, ip: string, clock: string)
    requires FollowsLeases(cfg) || KeepsLeases(cfg)
    requires HasHistory(cfg, init, mac, time, released, slot, ip)
    requires (was.Some? ==> mac == Some(was.value.mac) && seen) && (now.Some? ==> now.value.ip == ip)
    requires (released ==> seen) && (seen && was.None? ==> released)
    requires !cfg.dhcp.value.enableBindDhcpIP && released && was.None? ==> mac.None?
    ensures var bind := cfg.dhcp.value.enableBindDhcpIP;
      var mac' := if now.Some? then Some(now.value.mac) else if bind || was.None? then mac else None;
      HasHistory(cfg, init, mac', if mac' != mac then clock else time, released || (seen && now.None?),
                 TickSlot(cfg, was, now, slot, clock), ip)
  {
  }

  lemma {:induction false} KnownMacFacts(bind: bool, mac: Option<string>, ticks: seq<Tick>, ip: string)
    ensures ip in Snapshot(ticks) ==> KnownMac(bind, mac, ticks, ip) == Some(Snapshot(ticks)[ip].mac)
    ensures !bind && Released(ticks, ip) && ip !in Snapshot(ticks) ==> KnownMac(bind, mac, ticks, ip).None?
  {
    if ticks != [] {
      KnownMacFacts(bind, mac, ticks[..|ticks| - 1], ip);
      ReleasedStep(ticks, ip);
      ReleasedFacts(ticks[..|ticks| - 1], ip);
    }
  }

  // From any store, in either mode: the object of an address has the MAC known for it and the clock of its last change.
  // An object from the start that was not deleted keeps everything else but its active label; any other was made for
  // the address and claims nothing that only a poll can find.
  lemma {:induction false} ObjectHistory(cfg: AgentConfig, init: Store, ticks: seq<Tick>, ip: string)
    requires (FollowsLeases(cfg) || KeepsLeases(cfg)) && ValidRun(ticks) && DashFree(ip)
    ensures var bind, slot := cfg.dhcp.value.enableBindDhcpIP, Host(cfg, init, ip);
      var mac, time := MacOf(slot), TimeOf(slot);
      HasHistory(cfg, slot, KnownMac(bind, mac, ticks, ip), ChangeTime(bind, mac, time, ticks, ip), Released(ticks, ip),
                 Host(cfg, Run(cfg, init, ticks), ip), ip)
  {
    if ticks != [] {
      var n, bind, slot := |ticks| - 1, cfg.dhcp.value.enableBindDhcpIP, Host(cfg, init, ip);
      var before := Run(cfg, init, ticks[..n]);
      ObjectHistory(cfg, init, ticks[..n], ip);
      SnapshotIsKeyed(ticks[..n]);
      TickAt(cfg, before, Snapshot(ticks[..n]), ticks[n], ip);
      SeenStep(ticks, ip);
      ReleasedStep(ticks, ip);
      ReleasedFacts(ticks[..n], ip);
      var mac, time := MacOf(slot), TimeOf(slot);
      KnownMacFacts(bind, mac, ticks[..n], ip);
      HistoryStep(cfg, slot, Client(Snapshot(ticks[..n]), ip), Client(Snapshot(ticks), ip),
                  KnownMac(bind, mac, ticks[..n], ip), ChangeTime(bind, mac, time, ticks[..n], ip),
                  Seen(ticks[..n], ip), Released(ticks[..n], ip), Host(cfg, before, ip), ip, ticks[n].now);
    }
  }

  // An object in the store of a run from nothing belongs to an address seen.
  lemma RunObject(cfg: AgentConfig, init: Store, ticks: seq<Tick>, name: string) returns (ip: string)
    requires (FollowsLeases(cfg) || KeepsLeases(cfg)) && ValidRun(ticks)
    requires name in Run(cfg, init, ticks) && name !in init
    ensures Seen(ticks, ip) && DashFree(ip) && name == FormatName(cfg.clusterAgentName, ip)
  {
    if forall ip :: Seen(ticks, ip) ==> FormatName(cfg.clusterAgentName, ip) != name {
      ForeignUntouched(cfg, init, ticks, name);
    } else {
      ip :| Seen(ticks, ip) && FormatName(cfg.clusterAgentName, ip) == name;
      SeenIsDashFree(ticks, ip);
    }
  }

  // So every object that a run from nothing has made is complete, claims no health, no info and no log, and carries the
  // clock of the tick that made it or last changed its MAC.
  lemma NewObjectsAreUnpolled(cfg: AgentConfig, ticks: seq<Tick>, name: string)
    requires (FollowsLeases(cfg) || KeepsLeases(cfg)) && ValidRun(ticks) && name in Run(cfg, map[], ticks)
    ensures var h := Run(cfg, map[], ticks)[name];
      var ip := h.status.basic.ipAddr;
      && name == FormatName(cfg.clusterAgentName, ip) && Seen(ticks, ip) && MadeFor(cfg, ip, h)
      && !h.status.healthy && h.status.info == map[] && h.status.log == LogStruct(0, 0, None, None)
      && h.status.lastUpdateTime == ChangeTime(cfg.dhcp.value.enableBindDhcpIP, None, "", ticks, ip)
  {
    var ip := RunObject(cfg, map[], ticks, name);
    ObjectHistory(cfg, map[], ticks, ip);
  }

  // With discovery off no run touches anything.
  lemma {:induction false} DiscoveryOffUntouched(cfg: AgentConfig, init: Store, ticks: seq<Tick>)
    requires cfg.dhcp.Some? && !cfg.dhcp.value.enableDhcpDiscovery
    ensures Run(cfg, init, ticks) == init
  {
    if ticks != [] {
      DiscoveryOffUntouched(cfg, init, ticks[..|ticks| - 1]);
      IgnoredEvents(cfg, init, ticks[|ticks| - 1].delivered, ticks[|ticks| - 1].now);
    }
  }
}
