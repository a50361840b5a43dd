/**
 The address-to-MAC bindings that the DHCP server takes from the host cache
 (pkg/dhcpserver/tools.go and pkg/dhcpserver/monitor.go), as a function of the map iteration orders.
 */
module FixedIps {
  import opened LeaseDiff
  import opened HostCache

  const VIRTUAL_MAC := "00:00:00:00:00:00"

  ghost function DhcpKeys(hosts: Hosts): set<string> { set k | k in hosts && hosts[k].dhcpHost }
  ghost function StaticKeys(hosts: Hosts): set<string> { set k | k in hosts && !hosts[k].dhcpHost }

  function BindDhcp(hosts: Hosts, order: seq<string>): map<string, string>
    requires forall k :: k in order ==> k in hosts
  {
    if order == [] then map[]
    else
      var h := hosts[order[|order| - 1]];
      BindDhcp(hosts, order[..|order| - 1])[h.info.ipAddr := h.info.mac]
  }

  function BindStatic(m: map<string, string>, hosts: Hosts, order: seq<string>): map<string, string>
    requires forall k :: k in order ==> k in hosts
  {
    if order == [] then m
    else BindStatic(m, hosts, order[..|order| - 1])[hosts[order[|order| - 1]].info.ipAddr := VIRTUAL_MAC]
  }

  // The bindings for one iteration order over the DHCP hosts and one over the static hosts
  ghost function Bindings(hosts: Hosts, dhcpOrder: seq<string>, staticOrder: seq<string>): map<string, string>
    requires IsOrderOf(dhcpOrder, DhcpKeys(hosts)) && IsOrderOf(staticOrder, StaticKeys(hosts))
  {
    BindStatic(BindDhcp(hosts, dhcpOrder), hosts, staticOrder)
  }

  // What the code writes: both loops stand under the static flag
  ghost function WrittenBindings(bindStatic: bool, hosts: Hosts, dhcpOrder: seq<string>, staticOrder: seq<string>)
    : map<string, string>
    requires IsOrderOf(dhcpOrder, DhcpKeys(hosts)) && IsOrderOf(staticOrder, StaticKeys(hosts))
  {
    if bindStatic then Bindings(hosts, dhcpOrder, staticOrder) else map[]
  }

  // What the documentation promises: DHCP hosts under the DHCP flag, static hosts under the static flag
  ghost function DocumentedBindings(bindDhcp: bool, bindStatic: bool, hosts: Hosts, dhcpOrder: seq<string>,
                                    staticOrder: seq<string>): map<string, string>
    requires IsOrderOf(dhcpOrder, DhcpKeys(hosts)) && IsOrderOf(staticOrder, StaticKeys(hosts))
  {
    BindStatic(if bindDhcp then BindDhcp(hosts, dhcpOrder) else map[], hosts, if bindStatic then staticOrder else [])
  }

  lemma {:induction false} DhcpAt(hosts: Hosts, order: seq<string>, ip: string)
    requires forall k :: k in order ==> k in hosts
    ensures ip in BindDhcp(hosts, order) <==> exists k :: k in order && hosts[k].info.ipAddr == ip
    ensures ip in BindDhcp(hosts, order) ==>
              exists k :: k in order && hosts[k].info.ipAddr == ip && hosts[k].info.mac == BindDhcp(hosts, order)[ip]
  {
    if order != [] {
      var n := |order| - 1;
      DhcpAt(hosts, order[..n], ip);
      assert order == order[..n] + [order[n]];
      assert order[n] in order && forall k :: k in order[..n] ==> k in order;
    }
  }

  lemma {:induction false} StaticAt(m: map<string, string>, hosts: Hosts, order: seq<string>, ip: string)
    requires forall k :: k in order ==> k in hosts
    ensures var r := BindStatic(m, hosts, order);
      if exists k :: k in order && hosts[k].info.ipAddr == ip then ip in r && r[ip] == VIRTUAL_MAC
      else (ip in r <==> ip in m) && (ip in m ==> r[ip] == m[ip])
  {
    if order != [] {
      var n := |order| - 1;
      StaticAt(m, hosts, order[..n], ip);
      assert order == order[..n] + [order[n]];
      assert order[n] in order && forall k :: k in order[..n] ==> k in order;
    }
  }

  ghost predicate HasStatic(hosts: Hosts, ip: string) {
    exists k :: k in StaticKeys(hosts) && hosts[k].info.ipAddr == ip
  }

  ghost predicate IsDhcpAt(hosts: Hosts, k: string, ip: string) {
    k in DhcpKeys(hosts) && hosts[k].info.ipAddr == ip
  }

  // Every cached address is bound: a static host's to the virtual MAC, any other to the MAC of a DHCP host with it.
  lemma BindingAt(hosts: Hosts, dhcpOrder: seq<string>, staticOrder: seq<string>, ip: string)
    requires IsOrderOf(dhcpOrder, DhcpKeys(hosts)) && IsOrderOf(staticOrder, StaticKeys(hosts))
    ensures var r := Bindings(hosts, dhcpOrder, staticOrder);
      && (ip in r <==> HasStatic(hosts, ip) || exists k :: IsDhcpAt(hosts, k, ip))
      && (HasStatic(hosts, ip) ==> r[ip] == VIRTUAL_MAC)
      && (ip in r && !HasStatic(hosts, ip) ==> exists k :: IsDhcpAt(hosts, k, ip) && hosts[k].info.mac == r[ip])
  {
    DhcpAt(hosts, dhcpOrder, ip);
    StaticAt(BindDhcp(hosts, dhcpOrder), hosts, staticOrder, ip);
    assert forall k :: k in dhcpOrder && hosts[k].info.ipAddr == ip ==> IsDhcpAt(hosts, k, ip);
    assert forall k :: IsDhcpAt(hosts, k, ip) ==> k in dhcpOrder;
  }

  // ---- Code and documentation -----------------------------------------------------------

  // The static flag alone binds the DHCP hosts too.
  lemma StaticOnlyBindsTooMuchIff(hosts: Hosts, d: seq<string>, s: seq<string>)
    requires IsOrderOf(d, DhcpKeys(hosts)) && IsOrderOf(s, StaticKeys(hosts))
    ensures WrittenBindings(true, hosts, d, s) == DocumentedBindings(false, true, hosts, d, s)
            <==> forall k :: k in DhcpKeys(hosts) ==> HasStatic(hosts, hosts[k].info.ipAddr)
  {
    var r, r' := BindStatic(BindDhcp(hosts, d), hosts, s), BindStatic(map[], hosts, s);
    forall ip
      ensures HasStatic(hosts, ip) ==> ip in r && ip in r' && r[ip] == r'[ip]
      ensures !HasStatic(hosts, ip) ==> ip !in r' && (ip in r <==> exists k :: IsDhcpAt(hosts, k, ip))
    {
      BindingAt(hosts, d, s, ip);
      StaticAt(map[], hosts, s, ip);
      assert forall k :: k in s && hosts[k].info.ipAddr == ip ==> HasStatic(hosts, ip);
    }
    if forall k :: k in DhcpKeys(hosts) ==> HasStatic(hosts, hosts[k].info.ipAddr) {
      assert forall ip :: !HasStatic(hosts, ip) ==> ip !in r;
      assert r.Keys == r'.Keys;
      assert r == r';
    } else {
      var k :| k in DhcpKeys(hosts) && !HasStatic(hosts, hosts[k].info.ipAddr);
      assert IsDhcpAt(hosts, k, hosts[k].info.ipAddr);
      assert hosts[k].info.ipAddr in r && hosts[k].info.ipAddr !in r';
    }
  }

  // The DHCP flag alone binds nothing.
  lemma DhcpOnlyBindsNothingIff(hosts: Hosts, d: seq<string>, s: seq<string>)
    requires IsOrderOf(d, DhcpKeys(hosts)) && IsOrderOf(s, StaticKeys(hosts))
    ensures WrittenBindings(false, hosts, d, s) == DocumentedBindings(true, false, hosts, d, s)
            <==> DhcpKeys(hosts) == {}
  {
    var r := BindDhcp(hosts, d);
    if DhcpKeys(hosts) == {} {
      assert d == [];
    } else {
      var k :| k in DhcpKeys(hosts);
      DhcpAt(hosts, d, hosts[k].info.ipAddr);
      assert hosts[k].info.ipAddr in r;
    }
  }

  // The code binds what is documented exactly when the flags are equal, or the static flag alone is on and every DHCP
  // host shares its address with a static one, or the DHCP flag alone is on and no DHCP host is cached.
  lemma MeetsDocumentIff(bindDhcp: bool, bindStatic: bool, hosts: Hosts, d: seq<string>, s: seq<string>)
    requires IsOrderOf(d, DhcpKeys(hosts)) && IsOrderOf(s, StaticKeys(hosts))
    ensures WrittenBindings(bindStatic, hosts, d, s) == DocumentedBindings(bindDhcp, bindStatic, hosts, d, s)
            <==> || bindDhcp == bindStatic
                 || (bindStatic && forall k :: k in DhcpKeys(hosts) ==> HasStatic(hosts, hosts[k].info.ipAddr))
                 || (bindDhcp && DhcpKeys(hosts) == {})
  {
    if bindStatic && !bindDhcp {
      StaticOnlyBindsTooMuchIff(hosts, d, s);
    } else if bindDhcp && !bindStatic {
      DhcpOnlyBindsNothingIff(hosts, d, s);
    }
  }

  // One DHCP host, one flag: with the DHCP flag it should be bound and is not, with the static flag it is bound and
  // should not be.
  lemma OneFlagMisleads(name: string, host: HostConnectCon)
    requires host.dhcpHost
    ensures var hosts := map[name := host];
      var bound := map[host.info.ipAddr := host.info.mac];
      && IsOrderOf([name], DhcpKeys(hosts)) && IsOrderOf([], StaticKeys(hosts))
      && DocumentedBindings(true, false, hosts, [name], []) == bound
      && WrittenBindings(false, hosts, [name], []) == map[]
      && DocumentedBindings(false, true, hosts, [name], []) == map[]
      && WrittenBindings(true, hosts, [name], []) == bound
  {
    var hosts := map[name := host];
    assert [name][..0] == [] && DhcpKeys(hosts) == {name} && StaticKeys(hosts) == {};
    assert BindDhcp(hosts, []) == map[];
    assert BindDhcp(hosts, [name]) == map[host.info.ipAddr := host.info.mac];
  }

  // ---- Iteration orders -------------------------------------------------------------------

  // DHCP hosts that share an address not taken by a static host agree on its MAC.
  ghost predicate Unambiguous(hosts: Hosts) {
    forall ip, k, k' :: IsDhcpAt(hosts, k, ip) && IsDhcpAt(hosts, k', ip) && !HasStatic(hosts, ip)
                        ==> hosts[k].info.mac == hosts[k'].info.mac
  }

  lemma BindingDetermined(hosts: Hosts, d: seq<string>, s: seq<string>, d': seq<string>, s': seq<string>)
    requires Unambiguous(hosts)
    requires IsOrderOf(d, DhcpKeys(hosts)) && IsOrderOf(s, StaticKeys(hosts))
    requires IsOrderOf(d', DhcpKeys(hosts)) && IsOrderOf(s', StaticKeys(hosts))
    ensures Bindings(hosts, d, s) == Bindings(hosts, d', s')
  {
    var r, r' := Bindings(hosts, d, s), Bindings(hosts, d', s');
    forall ip ensures (ip in r <==> ip in r') && (ip in r ==> r[ip] == r'[ip]) {
      BindingAt(hosts, d, s, ip);
      BindingAt(hosts, d', s', ip);
    }
    assert r.Keys == r'.Keys;
  }

  // ---- Orders exist -------------------------------------------------------------------

  ghost function AnyOrder(keys: set<string>): (order: seq<string>)
    ensures IsOrderOf(order, keys)
  {
    if keys == {} then []
    else
      var k :| k in keys;
      var rest := AnyOrder(keys - {k});
      DistinctSnoc(rest, k);
      rest + [k]
  }

  ghost function OrderEndingWith(keys: set<string>, k: string): (order: seq<string>)
    requires k in keys
    ensures IsOrderOf(order, keys) && order != [] && order[|order| - 1] == k
  {
    DistinctSnoc(AnyOrder(keys - {k}), k);
    AnyOrder(keys - {k}) + [k]
  }

  lemma LastHostWins(hosts: Hosts, k: string, ip: string)
    requires IsDhcpAt(hosts, k, ip) && !HasStatic(hosts, ip)
    ensures var r := Bindings(hosts, OrderEndingWith(DhcpKeys(hosts), k), AnyOrder(StaticKeys(hosts)));
      ip in r && r[ip] == hosts[k].info.mac
  {
    var d, s := OrderEndingWith(DhcpKeys(hosts), k), AnyOrder(StaticKeys(hosts));
    StaticAt(BindDhcp(hosts, d), hosts, s, ip);
    assert forall j :: j in s && hosts[j].info.ipAddr == ip ==> HasStatic(hosts, ip);
  }

  ghost predicate AllOrdersAgree(hosts: Hosts) {
    forall d, s, d', s' ::
      IsOrderOf(d, DhcpKeys(hosts)) && IsOrderOf(s, StaticKeys(hosts))
      && IsOrderOf(d', DhcpKeys(hosts)) && IsOrderOf(s', StaticKeys(hosts))
      ==> Bindings(hosts, d, s) == Bindings(hosts, d', s')
  }

  // The bindings are the same for all iteration orders exactly when the cache is unambiguous; otherwise the
  // server can restart again and again over an unchanged cache.
  lemma StableIffUnambiguous(hosts: Hosts)
    ensures AllOrdersAgree(hosts) <==> Unambiguous(hosts)
  {
    if Unambiguous(hosts) {
      forall d, s, d', s' |
        IsOrderOf(d, DhcpKeys(hosts)) && IsOrderOf(s, StaticKeys(hosts))
        && IsOrderOf(d', DhcpKeys(hosts)) && IsOrderOf(s', StaticKeys(hosts))
        ensures Bindings(hosts, d, s) == Bindings(hosts, d', s')
      {
        BindingDetermined(hosts, d, s, d', s');
      }
    }
    if AllOrdersAgree(hosts) {
      forall ip, k, k' | IsDhcpAt(hosts, k, ip) && IsDhcpAt(hosts, k', ip) && !HasStatic(hosts, ip)
        ensures hosts[k].info.mac == hosts[k'].info.mac
      {
        LastHostWins(hosts, k, ip);
        LastHostWins(hosts, k', ip);
      }
    }
  }

  // Hosts with distinct addresses are unambiguous.
  lemma DistinctAddressesSuffice(hosts: Hosts)
    requires forall k, k' :: k in DhcpKeys(hosts) && k' in DhcpKeys(hosts) && k != k' ==>
               hosts[k].info.ipAddr != hosts[k'].info.ipAddr
    ensures Unambiguous(hosts)
  {
  }
}
