/**
 The state the DHCP server keeps between monitor ticks and the operations on it
 (pkg/dhcpserver/monitor.go and pkg/dhcpserver/tools.go). Iteration over a Go map picks keys in any
 order; the order picked is a ghost result.
 */
module DhcpServer {
  import opened GoStrings
  import opened LeaseFile
  import opened LeaseDiff
  import opened HostCache
  import opened FixedIps
  import opened Ipv4

  datatype ServerConfig = ServerConfig(ipRange: string, enableBindDhcpIP: bool, enableBindStaticIP: bool)

  datatype FixedIP = FixedIP(ipAddr: string, mac: string)

  // What the calls of generateConfig outside this model give: the parsed subnet, and whether reading and parsing
  // the template, creating the file, rendering it and reading it back succeed
  datatype Environment = Environment(subnet: Option<Subnet>, template: bool, create: bool, render: bool, readBack: bool)

  // ---- Host stanza names --------------------------------------------------------------

  function HostName(i: nat): string { "host" + Decimal(i) }

  lemma HostNamesAre()
    ensures HostName(1) == "host1" && HostName(2) == "host2" && HostName(10) == "host10"
  {
    assert Decimal(1) == "1" && Decimal(2) == "2" && Decimal(0) == "0";
    assert Decimal(10) == Decimal(1) + "0";
  }

  lemma HostNamesDiffer(i: nat, j: nat)
    ensures HostName(i) == HostName(j) <==> i == j
  {
    assert HostName(i)[4..] == Decimal(i) && HostName(j)[4..] == Decimal(j);
  }

  // An address that becomes a stanza: it parses and lies in the subnet
  predicate Eligible(ip: string, subnet: Subnet, other: string -> Parsed) {
    InSubnet(subnet, ParseIP(ip, other))
  }

  // A printed address becomes one exactly when it lies in the run of addresses of the subnet, and text that is no
  // address never does.
  lemma EligibleIff(x: Addr, s: string, subnet: Subnet, other: string -> Parsed)
    requires subnet.ones <= 32
    ensures var size := Pow2(32 - subnet.ones);
      var lo := Num(subnet.net) / size * size;
      Eligible(Text(x), subnet, other) <==> lo <= Num(x) < lo + size
    ensures other(s).Bad? && (forall y :: s != Text(y)) ==> !Eligible(s, subnet, other)
  {
    ParsePrinted(x, other);
    SubnetIsRun(subnet, x);
    ParsedIsPrinted(s, x, other);
  }

  ghost function EligibleIps(bound: map<string, string>, subnet: Subnet, other: string -> Parsed): set<string> {
    set ip | ip in bound && Eligible(ip, subnet, other)
  }

  // The i-th stanza, counted from 1 and named by `name`, is the i-th listed binding, and there are no others.
  ghost predicate NumberedBy(name: nat -> string, out: map<string, FixedIP>, listed: seq<string>,
                             bound: map<string, string>)
  {
    && (forall ip :: ip in listed ==> ip in bound)
    && (forall h :: h in out ==> exists i :: 1 <= i <= |listed| && h == name(i))
    && (forall i :: 1 <= i <= |listed| ==>
          name(i) in out && out[name(i)] == FixedIP(listed[i - 1], bound[listed[i - 1]]))
  }

  // host1 to hostN are the listed bindings in turn.
  ghost predicate Numbered(out: map<string, FixedIP>, listed: seq<string>, bound: map<string, string>) {
    NumberedBy(HostName, out, listed, bound)
  }

  lemma {:induction false} NumberedSnoc(name: nat -> string, out: map<string, FixedIP>, listed: seq<string>,
                                        bound: map<string, string>, ip: string)
    requires forall i, j :: name(i) == name(j) ==> i == j
    requires NumberedBy(name, out, listed, bound) && ip in bound
    ensures NumberedBy(name, out[name(|listed| + 1) := FixedIP(ip, bound[ip])], listed + [ip], bound)
  {
    var n := |listed| + 1;
    var out' := out[name(n) := FixedIP(ip, bound[ip])];
    forall h | h in out' ensures exists i :: 1 <= i <= n && h == name(i) {
      if h != name(n) {
        var i :| 1 <= i <= |listed| && h == name(i);
        assert 1 <= i <= n && h == name(i);
      }
    }
  }

  lemma HostNamesInjective()
    ensures forall i, j :: HostName(i) == HostName(j) ==> i == j
  {
    forall i, j ensures HostName(i) == HostName(j) ==> i == j { HostNamesDiffer(i, j); }
  }

  class Server {
    const config: ServerConfig
    var previousClients: seq<ClientInfo>
    var usedIPs: int
    var availableIPs: int
    var totalIPs: int
    var lastBoundIPList: map<string, string>

    constructor (config: ServerConfig)
      ensures this.config == config && previousClients == [] && lastBoundIPList == map[] && totalIPs == 0
    {
      this.config := config;
      previousClients, lastBoundIPList := [], map[];
      usedIPs, availableIPs, totalIPs := 0, 0, 0;
    }

    // calculateTotalIPs; the range is "start-end"
    method CalculateTotalIPs(other: string -> Parsed) returns (ok: bool)
      modifies this`totalIPs
      ensures var p := Split(config.ipRange, "-");
        && (ok <==> |p| == 2 && !ParseIP(TrimSpace(p[0]), other).Bad? && !ParseIP(TrimSpace(p[1]), other).Bad?)
        && totalIPs == if ok then IpRange(ParseIP(TrimSpace(p[0]), other), ParseIP(TrimSpace(p[1]), other))
                       else old(totalIPs)
    {
      var parts := Split(config.ipRange, "-");
      if |parts| != 2 {
        return false;
      }
      var start := ParseIP(TrimSpace(parts[0]), other);
      var end := ParseIP(TrimSpace(parts[1]), other);
      if start.Bad? || end.Bad? {
        return false;
      }
      totalIPs := IpRange(start, end);
      return true;
    }

    // The map filled by ranging over a list of clients
    method Index(clients: seq<ClientInfo>) returns (m: ClientMap)
      ensures m == Latest(clients)
    {
      m := map[];
      for i := 0 to |clients|
        invariant m == Latest(clients[..i])
      {
        assert clients[..i + 1][..i] == clients[..i];
        m := m[clients[i].ip := clients[i]];
      }
      assert clients[..|clients|] == clients;
    }

    // New addresses and changed MACs
    method SendAdds(oldClients: ClientMap, newClients: ClientMap)
      returns (events: seq<Event>, ghost order: seq<string>)
      ensures IsOrderOf(order, newClients.Keys) && events == AddsOf(oldClients, newClients, order)
    {
      events, order := [], [];
      var rest := newClients.Keys;
      while rest != {}
        invariant rest <= newClients.Keys && IsOrderOf(order, newClients.Keys - rest)
        invariant events == AddsOf(oldClients, newClients, order)
      {
        var ip :| ip in rest;
        DistinctSnoc(order, ip);
        assert (order + [ip])[..|order|] == order;
        if ip !in oldClients {
          events := events + [Add(newClients[ip])];
        } else if oldClients[ip].mac != newClients[ip].mac {
          events := events + [Add(newClients[ip])];
        }
        order := order + [ip];
        rest := rest - {ip};
      }
    }

    // Addresses no longer leased
    method SendDeletes(oldClients: ClientMap, newClients: ClientMap)
      returns (events: seq<Event>, ghost order: seq<string>)
      ensures IsOrderOf(order, oldClients.Keys) && events == DeletesOf(oldClients, newClients, order)
    {
      events, order := [], [];
      var rest := oldClients.Keys;
      while rest != {}
        invariant rest <= oldClients.Keys && IsOrderOf(order, oldClients.Keys - rest)
        invariant events == DeletesOf(oldClients, newClients, order)
      {
        var ip :| ip in rest;
        DistinctSnoc(order, ip);
        assert (order + [ip])[..|order|] == order;
        if ip !in newClients {
          events := events + [Delete(oldClients[ip])];
        }
        order := order + [ip];
        rest := rest - {ip};
      }
    }

    // updateStats: emits the difference to the previous snapshot and counts every lease as used
    method UpdateStats(file: FileRead)
      returns (ok: bool, events: seq<Event>, ghost newOrder: seq<string>, ghost oldOrder: seq<string>)
      modifies this`previousClients, this`usedIPs, this`availableIPs
      ensures ok <==> !file.Unreadable?
      ensures !ok ==> events == [] && previousClients == old(previousClients)
                      && usedIPs == old(usedIPs) && availableIPs == old(availableIPs)
      ensures ok ==> previousClients == if file.Missing? then [] else ParseLines(Split(file.text, "\n"))
      ensures ok ==> var was, now := Latest(old(previousClients)), Latest(previousClients);
        IsOrderOf(newOrder, now.Keys) && IsOrderOf(oldOrder, was.Keys) && events == Events(was, now, newOrder, oldOrder)
      ensures ok ==> usedIPs == |previousClients| && usedIPs + availableIPs == totalIPs
    {
      events, newOrder, oldOrder := [], [], [];
      var read := GetDhcpClients(file);
      if read.Err? {
        return false, [], [], [];
      }
      var clients := read.value;
      var newClients := Index(clients);
      var oldClients := Index(previousClients);
      var adds, deletes;
      adds, newOrder := SendAdds(oldClients, newClients);
      deletes, oldOrder := SendDeletes(oldClients, newClients);
      events := adds + deletes;
      previousClients := clients;
      usedIPs := |clients|;
      availableIPs := totalIPs - usedIPs;
      ok := true;
    }

    // The bindings both generateConfig and checkHostStatusForFixedIPs build: the static flag guards the DHCP hosts too.
    method BuildFixedIPs(cache: HostCache) returns (m: map<string, string>, ghost d: seq<string>, ghost s: seq<string>)
      ensures IsOrderOf(d, DhcpKeys(cache.data)) && IsOrderOf(s, StaticKeys(cache.data))
      ensures m == WrittenBindings(config.enableBindStaticIP, cache.data, d, s)
    {
      m, d, s := map[], [], [];
      if !config.enableBindStaticIP {
        d, s := AnyOrder(DhcpKeys(cache.data)), AnyOrder(StaticKeys(cache.data));
        return;
      }
      var dhcp := cache.GetDhcpClientInfo();
      var rest := dhcp.Keys;
      while rest != {}
        invariant rest <= dhcp.Keys && IsOrderOf(d, dhcp.Keys - rest)
        invariant m == BindDhcp(cache.data, d)
      {
        var k :| k in rest;
        DistinctSnoc(d, k);
        assert (d + [k])[..|d|] == d;
        m := m[dhcp[k].info.ipAddr := dhcp[k].info.mac];
        d := d + [k];
        rest := rest - {k};
      }
      ghost var bound := m;
      var staticHosts := cache.GetStaticClientInfo();
      rest := staticHosts.Keys;
      while rest != {}
        invariant rest <= staticHosts.Keys && IsOrderOf(s, staticHosts.Keys - rest)
        invariant m == BindStatic(bound, cache.data, s)
      {
        var k :| k in rest;
        DistinctSnoc(s, k);
        assert (s + [k])[..|s|] == s;
        m := m[staticHosts[k].info.ipAddr := VIRTUAL_MAC];
        s := s + [k];
        rest := rest - {k};
      }
    }

    // checkHostStatusForFixedIPs: true exactly when a flag is on and the rebuilt bindings differ from the recorded ones
    method CheckHostStatusForFixedIPs(cache: HostCache)
      returns (hasChanges: bool, ghost m: map<string, string>, ghost d: seq<string>, ghost s: seq<string>)
      ensures IsOrderOf(d, DhcpKeys(cache.data)) && IsOrderOf(s, StaticKeys(cache.data))
      ensures m == WrittenBindings(config.enableBindStaticIP, cache.data, d, s)
      ensures hasChanges <==> (config.enableBindDhcpIP || config.enableBindStaticIP) && m != lastBoundIPList
    {
      var fixedIPs;
      fixedIPs, d, s := BuildFixedIPs(cache);
      m := fixedIPs;
      if !config.enableBindDhcpIP && !config.enableBindStaticIP {
        return false, m, d, s;
      }
      hasChanges := false;
      var rest := fixedIPs.Keys;
      while rest != {}
        invariant rest <= fixedIPs.Keys
        invariant hasChanges <==> exists ip :: ip in fixedIPs && ip !in rest
                                               && !(ip in lastBoundIPList && lastBoundIPList[ip] == fixedIPs[ip])
      {
        var ip :| ip in rest;
        if ip !in lastBoundIPList {
          hasChanges := true;
        } else if lastBoundIPList[ip] != fixedIPs[ip] {
          hasChanges := true;
        }
        rest := rest - {ip};
      }
      ghost var changedOrNew := hasChanges;
      rest := lastBoundIPList.Keys;
      while rest != {}
        invariant rest <= lastBoundIPList.Keys
        invariant hasChanges <==> changedOrNew || exists ip :: ip in lastBoundIPList && ip !in rest && ip !in fixedIPs
      {
        var ip :| ip in rest;
        if ip !in fixedIPs {
          hasChanges := true;
        }
        rest := rest - {ip};
      }
      SameMap(fixedIPs, lastBoundIPList);
    }

    // The numbered stanzas: exactly the bindings that parse and lie in the subnet, each once
    method NumberStanzas(bound: map<string, string>, subnet: Subnet, other: string -> Parsed)
      returns (out: map<string, FixedIP>, ghost listed: seq<string>)
      ensures IsOrderOf(listed, EligibleIps(bound, subnet, other)) && Numbered(out, listed, bound)
    {
      out, listed := map[], [];
      var count := 0;
      var rest := bound.Keys;
      while rest != {}
        invariant rest <= bound.Keys && count == |listed|
        invariant IsOrderOf(listed, EligibleIps(bound, subnet, other) - rest)
        invariant Numbered(out, listed, bound)
      {
        var ip :| ip in rest;
        rest := rest - {ip};
        var ipAddr := ParseIP(ip, other);
        if ipAddr.Bad? {
          continue;
        }
        if !InSubnet(subnet, ipAddr) {
          continue;
        }
        DistinctSnoc(listed, ip);
        HostNamesInjective();
        NumberedSnoc(HostName, out, listed, bound, ip);
        count := count + 1;
        out := out[HostName(count) := FixedIP(ip, bound[ip])];
        listed := listed + [ip];
      }
    }

    // generateConfig: records the bindings before rendering them, so a failed rendering still leaves them recorded
    method GenerateConfig(cache: HostCache, env: Environment, other: string -> Parsed)
      returns (ok: bool, stanzas: map<string, FixedIP>, ghost listed: seq<string>, ghost d: seq<string>,
               ghost s: seq<string>)
      modifies this`lastBoundIPList
      ensures ok <==> env.subnet.Some? && env.template && env.create && env.render && env.readBack
      ensures !(env.subnet.Some? && env.template && env.create) ==> lastBoundIPList == old(lastBoundIPList)
      ensures IsOrderOf(d, DhcpKeys(cache.data)) && IsOrderOf(s, StaticKeys(cache.data))
      ensures env.subnet.Some? && env.template && env.create ==>
        lastBoundIPList == WrittenBindings(config.enableBindStaticIP, cache.data, d, s)
      ensures ok ==> IsOrderOf(listed, EligibleIps(lastBoundIPList, env.subnet.value, other))
      ensures ok ==> Numbered(stanzas, listed, lastBoundIPList)
    {
      stanzas, listed, d, s := map[], [], AnyOrder(DhcpKeys(cache.data)), AnyOrder(StaticKeys(cache.data));
      if env.subnet.None? || !env.template || !env.create {
        ok := false;
        return;
      }
      var fixedIPs;
      fixedIPs, d, s := BuildFixedIPs(cache);
      lastBoundIPList := fixedIPs;
      if |fixedIPs| > 0 {
        stanzas, listed := NumberStanzas(fixedIPs, env.subnet.value, other);
      }
      ok := env.render && env.readBack;
    }
  }

  lemma SameMap(a: map<string, string>, b: map<string, string>)
    ensures a == b <==> (forall k :: k in a ==> k in b && b[k] == a[k]) && (forall k :: k in b ==> k in a)
  {
    if (forall k :: k in a ==> k in b && b[k] == a[k]) && (forall k :: k in b ==> k in a) {
      assert a.Keys == b.Keys;
    }
  }

  // The configuration is written and the cache is checked again, unchanged: the check compares the bindings rebuilt for
  // the orders d', s' with those recorded for the orders d, s, and finds no change if the cache is unambiguous, even
  // if the configuration was recorded and then could not be rendered.
  method NoRestartWhenUnchanged(server: Server, cache: HostCache, env: Environment, other: string -> Parsed)
    returns (written: bool, changed: bool, ghost d: seq<string>, ghost s: seq<string>, ghost d': seq<string>,
             ghost s': seq<string>)
    modifies server`lastBoundIPList
    ensures written <==> env.subnet.Some? && env.template && env.create && env.render && env.readBack
    ensures IsOrderOf(d, DhcpKeys(cache.data)) && IsOrderOf(s, StaticKeys(cache.data))
    ensures IsOrderOf(d', DhcpKeys(cache.data)) && IsOrderOf(s', StaticKeys(cache.data))
    ensures env.subnet.Some? && env.template && env.create ==>
      server.lastBoundIPList == WrittenBindings(server.config.enableBindStaticIP, cache.data, d, s)
    ensures !(env.subnet.Some? && env.template && env.create) ==> server.lastBoundIPList == old(server.lastBoundIPList)
    ensures changed <==>
      && (server.config.enableBindDhcpIP || server.config.enableBindStaticIP)
      && server.lastBoundIPList != WrittenBindings(server.config.enableBindStaticIP, cache.data, d', s')
    ensures env.subnet.Some? && env.template && env.create && Unambiguous(cache.data) ==> !changed
  {
    ghost var m, listed;
    var stanzas;
    written, stanzas, listed, d, s := server.GenerateConfig(cache, env, other);
    changed, m, d', s' := server.CheckHostStatusForFixedIPs(cache);
    if Unambiguous(cache.data) {
      BindingDetermined(cache.data, d, s, d', s');
    }
  }
}
