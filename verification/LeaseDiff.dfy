/**
 One monitor tick as a function: the difference of two lease snapshots as add and delete events
 (updateStats in pkg/dhcpserver/monitor.go). The order in which Go ranges over a map is a parameter.
 */
module LeaseDiff {
  import opened GoStrings
  import opened LeaseFile

  datatype Event = Add(client: ClientInfo) | Delete(client: ClientInfo)

  type ClientMap = map<string, ClientInfo>

  // The map filled by `m[client.IP] = client`
  function Latest(clients: seq<ClientInfo>): (m: ClientMap)
    ensures forall ip :: ip in m ==> m[ip].ip == ip && m[ip] in clients
  {
    if clients == [] then map[]
    else var c := clients[|clients| - 1]; Latest(clients[..|clients| - 1])[c.ip := c]
  }

  function Macs(m: ClientMap): map<string, string> {
    map ip | ip in m :: m[ip].mac
  }

  ghost predicate Distinct<T>(s: seq<T>) {
    forall i, j :: 0 <= i < j < |s| ==> s[i] != s[j]
  }

  // A possible iteration order over a map with these keys
  ghost predicate IsOrderOf(order: seq<string>, keys: set<string>) {
    Distinct(order) && forall ip :: ip in order <==> ip in keys
  }

  function AddsOf(was: ClientMap, now: ClientMap, order: seq<string>): seq<Event>
    requires forall ip :: ip in order ==> ip in now
  {
    if order == [] then []
    else
      var ip := order[|order| - 1];
      AddsOf(was, now, order[..|order| - 1])
      + if ip !in was || was[ip].mac != now[ip].mac then [Add(now[ip])] else []
  }

  function DeletesOf(was: ClientMap, now: ClientMap, order: seq<string>): seq<Event>
    requires forall ip :: ip in order ==> ip in was
  {
    if order == [] then []
    else
      var ip := order[|order| - 1];
      DeletesOf(was, now, order[..|order| - 1]) + if ip !in now then [Delete(was[ip])] else []
  }

  function Events(was: ClientMap, now: ClientMap, newOrder: seq<string>, oldOrder: seq<string>): seq<Event>
    requires IsOrderOf(newOrder, now.Keys) && IsOrderOf(oldOrder, was.Keys)
  {
    AddsOf(was, now, newOrder) + DeletesOf(was, now, oldOrder)
  }

  // ---- Snapshots ------------------------------------------------------------------

  // Of several leases for an address the last one counts.
  lemma {:induction false} LatestIsLast(clients: seq<ClientInfo>, i: nat)
    requires i < |clients| && forall j :: i < j < |clients| ==> clients[j].ip != clients[i].ip
    ensures clients[i].ip in Latest(clients) && Latest(clients)[clients[i].ip] == clients[i]
  {
    if i < |clients| - 1 {
      LatestIsLast(clients[..|clients| - 1], i);
    }
  }

  lemma {:induction false} LatestKeys(clients: seq<ClientInfo>, ip: string)
    ensures ip in Latest(clients) <==> exists i :: 0 <= i < |clients| && clients[i].ip == ip
  {
    if clients != [] {
      var n := |clients| - 1;
      LatestKeys(clients[..n], ip);
      assert clients[n].ip == ip ==> exists i :: 0 <= i < |clients| && clients[i].ip == ip;
      assert forall i :: 0 <= i < n ==> clients[..n][i] == clients[i];
    }
  }

  lemma LatestSnoc(clients: seq<ClientInfo>, c: ClientInfo)
    ensures Latest(clients + [c]) == Latest(clients)[c.ip := c]
  {
    assert (clients + [c])[..|clients|] == clients;
  }

  lemma LatestGrowsByBlock(lines: seq<string>, ip: string)
    requires LastLease(lines) >= 0
    ensures var l, m := LastLease(lines), Latest(Meaning(lines));
      var m' := Latest(Meaning(lines[..l]));
      if Address(lines[l]) == Some(ip) then ip in m && m[ip] == BlockAt(lines, l)
      else (ip in m <==> ip in m') && (ip in m ==> m[ip] == m'[ip])
  {
    var l := LastLease(lines);
    MeaningLast(lines);
    LatestSnoc(Meaning(lines[..l]), BlockAt(lines, l));
  }

  lemma LastLeaseIsLast(lines: seq<string>, i: nat)
    requires i < |lines| && Address(lines[i]).Some?
    ensures i <= LastLease(lines) && Address(lines[LastLease(lines)]).Some?
  {
  }

  // In terms of the file: the last block of an address gives its client ...
  lemma {:induction false} LatestIsBlock(lines: seq<string>, i: nat, ip: string)
    requires LastOfAddress(lines, i) && Address(lines[i]) == Some(ip)
    ensures ip in Latest(Meaning(lines)) && Latest(Meaning(lines))[ip] == BlockAt(lines, i)
    decreases |lines|
  {
    var l := LastLease(lines);
    LastLeaseIsLast(lines, i);
    if i == l {
      LatestGrowsByBlock(lines, ip);
    } else {
      var cut := lines[..l];
      KeptBlock(lines, cut, l, i, ip);
      LatestIsBlock(cut, i, ip);
      LatestGrowsByBlock(lines, ip);
    }
  }

  lemma KeptBlock(lines: seq<string>, cut: seq<string>, l: nat, i: nat, ip: string)
    requires LastOfAddress(lines, i) && Address(lines[i]) == Some(ip) && i < l < |lines| && cut == lines[..l]
    requires IsLeaseLine(lines[l])
    ensures LastOfAddress(cut, i) && Address(cut[i]) == Some(ip) && Address(lines[l]) != Some(ip)
    ensures BlockAt(cut, i) == BlockAt(lines, i)
  {
    LastKeyCut(lines, Address, l, i);
    BlockAtCut(lines, l, i);
    assert cut[i] == lines[i];
  }

  lemma LastKeyCut<A>(xs: seq<A>, key: A -> Option<string>, l: nat, i: nat)
    requires i < l < |xs|
    ensures LastWithKey(xs, key, i) ==> LastWithKey(xs[..l], key, i) && key(xs[l]) != key(xs[i])
    ensures LastWithKey(xs[..l], key, i) && key(xs[l]) != key(xs[i]) && (forall k :: l < k < |xs| ==> key(xs[k]).None?)
            ==> LastWithKey(xs, key, i)
  {
  }

  // ... and every address in the map has one.
  lemma {:induction false} LatestHasBlock(lines: seq<string>, ip: string) returns (i: nat)
    requires ip in Latest(Meaning(lines))
    ensures LastOfAddress(lines, i) && Address(lines[i]) == Some(ip)
    decreases |lines|
  {
    var l := LastLease(lines);
    LatestGrowsByBlock(lines, ip);
    if Address(lines[l]) == Some(ip) {
      i := l;
    } else {
      i := LatestHasBlock(lines[..l], ip);
      LastKeyCut(lines, Address, l, i);
    }
  }

  // Leases counted one by one are at least the leased addresses, and as many just when no address repeats.
  lemma {:induction false} UsedCoversDistinct(clients: seq<ClientInfo>)
    ensures |clients| >= |Latest(clients)|
    ensures |clients| == |Latest(clients)| <==> Distinct(Ips(clients))
  {
    if clients != [] {
      var n := |clients| - 1;
      assert clients == clients[..n] + [clients[n]];
      UsedCoversDistinct(clients[..n]);
      UsedStep(clients[..n], clients[n]);
    }
  }

  lemma {:induction false} UsedStep(clients: seq<ClientInfo>, c: ClientInfo)
    ensures |Latest(clients + [c])| <= |Latest(clients)| + 1
    ensures |Latest(clients + [c])| == |Latest(clients)| + 1 <==> c.ip !in Ips(clients)
    ensures Distinct(Ips(clients + [c])) <==> Distinct(Ips(clients)) && c.ip !in Ips(clients)
  {
    LatestGrows(clients, c);
    IpsSnoc(clients, c);
    DistinctSnoc(Ips(clients), c.ip);
  }

  lemma LatestGrows(clients: seq<ClientInfo>, c: ClientInfo)
    ensures |Latest(clients + [c])| == |Latest(clients)| + if c.ip in Ips(clients) then 0 else 1
  {
    var m, m' := Latest(clients), Latest(clients + [c]);
    assert (clients + [c])[..|clients|] == clients;
    assert m'.Keys == m.Keys + {c.ip};
    assert |m'| == |m'.Keys| && |m| == |m.Keys|;
    LatestKeys(clients, c.ip);
    assert forall i :: 0 <= i < |clients| ==> Ips(clients)[i] == clients[i].ip;
  }

  lemma DistinctSnoc<T>(s: seq<T>, x: T)
    ensures Distinct(s + [x]) <==> Distinct(s) && x !in s
  {
    var t := s + [x];
    assert forall i :: 0 <= i < |s| ==> t[i] == s[i];
    assert t[|s|] == x;
  }

  // ---- The events of a tick ----------------------------------------------------------

  // The changes from `was` to `now`
  ghost predicate IsChange(was: ClientMap, now: ClientMap, e: Event) {
    var ip := e.client.ip;
    match e
    case Add(c) => ip in now && now[ip] == c && (ip !in was || was[ip].mac != c.mac)
    case Delete(c) => ip in was && was[ip] == c && ip !in now
  }

  ghost predicate OnePerIp(events: seq<Event>) {
    forall i, j :: 0 <= i < j < |events| ==> events[i].client.ip != events[j].client.ip
  }

  ghost predicate Keyed(m: ClientMap) {
    forall ip :: ip in m ==> m[ip].ip == ip
  }

  // Exactly the changes, each once
  ghost predicate ChangesExactly(was: ClientMap, now: ClientMap, events: seq<Event>) {
    OnePerIp(events) && forall e :: e in events <==> IsChange(was, now, e)
  }

  lemma {:induction false} AddsExact(was: ClientMap, now: ClientMap, order: seq<string>)
    requires Keyed(now) && Distinct(order) && forall ip :: ip in order ==> ip in now
    ensures OnePerIp(AddsOf(was, now, order))
    ensures forall e :: e in AddsOf(was, now, order) <==> e.Add? && e.client.ip in order && IsChange(was, now, e)
  {
    if order != [] {
      var n := |order| - 1;
      var ip := order[n];
      AddsExact(was, now, order[..n]);
      assert order == order[..n] + [ip];
      DistinctSnoc(order[..n], ip);
      var before := AddsOf(was, now, order[..n]);
      assert forall i :: 0 <= i < |before| ==> before[i] in before && before[i].client.ip in order[..n];
    }
  }

  lemma {:induction false} DeletesExact(was: ClientMap, now: ClientMap, order: seq<string>)
    requires Keyed(was) && Distinct(order) && forall ip :: ip in order ==> ip in was
    ensures OnePerIp(DeletesOf(was, now, order))
    ensures forall e :: e in DeletesOf(was, now, order) <==> e.Delete? && e.client.ip in order && IsChange(was, now, e)
  {
    if order != [] {
      var n := |order| - 1;
      var ip := order[n];
      DeletesExact(was, now, order[..n]);
      assert order == order[..n] + [ip];
      DistinctSnoc(order[..n], ip);
      var before := DeletesOf(was, now, order[..n]);
      assert forall i :: 0 <= i < |before| ==> before[i] in before && before[i].client.ip in order[..n];
    }
  }

  // A tick emits the changes and nothing else, at most one event per address.
  lemma EventsExact(was: ClientMap, now: ClientMap, newOrder: seq<string>, oldOrder: seq<string>)
    requires Keyed(was) && Keyed(now) && IsOrderOf(newOrder, now.Keys) && IsOrderOf(oldOrder, was.Keys)
    ensures ChangesExactly(was, now, Events(was, now, newOrder, oldOrder))
  {
    AddsExact(was, now, newOrder);
    DeletesExact(was, now, oldOrder);
    var a, d := AddsOf(was, now, newOrder), DeletesOf(was, now, oldOrder);
    assert forall i :: 0 <= i < |a| ==> a[i] in a && a[i].client.ip in now;
    assert forall i :: 0 <= i < |d| ==> d[i] in d && d[i].client.ip !in now;
  }

  // A tick is silent just when the address-MAC pairs are the same as before.
  lemma UnchangedIsSilent(was: ClientMap, now: ClientMap, newOrder: seq<string>, oldOrder: seq<string>)
    requires Keyed(was) && Keyed(now) && IsOrderOf(newOrder, now.Keys) && IsOrderOf(oldOrder, was.Keys)
    ensures Events(was, now, newOrder, oldOrder) == [] <==> Macs(was) == Macs(now)
  {
    var ev := Events(was, now, newOrder, oldOrder);
    EventsExact(was, now, newOrder, oldOrder);
    assert ev != [] ==> ev[|ev| - 1] in ev;
    if Macs(was) == Macs(now) {
      SameMacsNoChange(was, now);
    }
    if ev == [] {
      NoChangeSameMacs(was, now);
    }
  }

  lemma SameMacsNoChange(was: ClientMap, now: ClientMap)
    requires Macs(was) == Macs(now)
    ensures forall e :: !IsChange(was, now, e)
  {
    assert was.Keys == Macs(was).Keys == Macs(now).Keys == now.Keys;
    assert forall ip :: ip in now ==> was[ip].mac == Macs(was)[ip] == Macs(now)[ip] == now[ip].mac;
  }

  lemma NoChangeSameMacs(was: ClientMap, now: ClientMap)
    requires Keyed(was) && Keyed(now) && forall e :: !IsChange(was, now, e)
    ensures Macs(was) == Macs(now)
  {
    forall ip | ip in now ensures ip in was && was[ip].mac == now[ip].mac { assert !IsChange(was, now, Add(now[ip])); }
    forall ip | ip in was ensures ip in now { assert !IsChange(was, now, Delete(was[ip])); }
    assert Macs(was).Keys == Macs(now).Keys;
  }

  // ---- Every order of the events gives the new map --------------------------------------

  function MapApply(m: map<string, string>, e: Event): map<string, string> {
    match e
    case Add(c) => m[c.ip := c.mac]
    case Delete(c) => m - {c.ip}
  }

  function MapApplyAll(m: map<string, string>, events: seq<Event>): map<string, string> {
    if events == [] then m else MapApply(MapApplyAll(m, events[..|events| - 1]), events[|events| - 1])
  }

  // An address without an event keeps its value.
  lemma {:induction false} MapUntouched(m: map<string, string>, events: seq<Event>, ip: string)
    requires forall k :: 0 <= k < |events| ==> events[k].client.ip != ip
    ensures ip in MapApplyAll(m, events) <==> ip in m
    ensures ip in m ==> MapApplyAll(m, events)[ip] == m[ip]
  {
    if events != [] {
      MapUntouched(m, events[..|events| - 1], ip);
    }
  }

  // An address with one event has the value this event gives.
  lemma {:induction false} MapTouched(m: map<string, string>, events: seq<Event>, k: nat)
    requires OnePerIp(events) && k < |events|
    ensures var r, ip := MapApplyAll(m, events), events[k].client.ip;
      (ip in r <==> events[k].Add?) && (ip in r ==> r[ip] == events[k].client.mac)
  {
    if k < |events| - 1 {
      MapTouched(m, events[..|events| - 1], k);
    }
  }

  // Any arrangement of exactly the changes turns the old address-to-MAC map into the new one.
  lemma ChangesGiveNewMap(was: ClientMap, now: ClientMap, events: seq<Event>)
    requires Keyed(was) && Keyed(now) && ChangesExactly(was, now, events)
    ensures MapApplyAll(Macs(was), events) == Macs(now)
  {
    var r := MapApplyAll(Macs(was), events);
    forall ip ensures ip in r <==> ip in now {
      AtIp(was, now, events, ip);
    }
    forall ip | ip in now ensures r[ip] == now[ip].mac {
      AtIp(was, now, events, ip);
    }
    assert r.Keys == Macs(now).Keys;
  }

  lemma AtIp(was: ClientMap, now: ClientMap, events: seq<Event>, ip: string)
    requires Keyed(was) && Keyed(now) && ChangesExactly(was, now, events)
    ensures ip in MapApplyAll(Macs(was), events) <==> ip in now
    ensures ip in now ==> MapApplyAll(Macs(was), events)[ip] == now[ip].mac
  {
    if ip in now && (ip !in was || was[ip].mac != now[ip].mac) {
      assert Add(now[ip]) in events by { assert IsChange(was, now, Add(now[ip])); }
      var k :| 0 <= k < |events| && events[k] == Add(now[ip]);
      MapTouched(Macs(was), events, k);
    } else if ip in was && ip !in now {
      assert Delete(was[ip]) in events by { assert IsChange(was, now, Delete(was[ip])); }
      var k :| 0 <= k < |events| && events[k] == Delete(was[ip]);
      MapTouched(Macs(was), events, k);
    } else {
      assert forall k :: 0 <= k < |events| ==> events[k] in events && IsChange(was, now, events[k]);
      MapUntouched(Macs(was), events, ip);
    }
  }

  lemma TwoCopies<T>(s: seq<T>, i: nat, j: nat)
    requires i < j < |s| && s[i] == s[j]
    ensures multiset(s)[s[i]] >= 2
  {
    assert s == s[..j] + s[j..];
    assert s[..j][i] == s[i] && s[j..][0] == s[i];
    assert s[i] in multiset(s[..j]) && s[i] in multiset(s[j..]);
  }

  lemma {:induction false} OnePerIpIsSimple(s: seq<Event>, e: Event)
    requires OnePerIp(s)
    ensures multiset(s)[e] <= 1
  {
    if s != [] {
      var n := |s| - 1;
      OnePerIpIsSimple(s[..n], e);
      assert s == s[..n] + [s[n]];
      assert multiset(s) == multiset(s[..n]) + multiset{s[n]};
      assert s[n] !in s[..n];
    }
  }

  lemma OnePerIpPermuted(events: seq<Event>, perm: seq<Event>)
    requires OnePerIp(events) && multiset(perm) == multiset(events)
    ensures OnePerIp(perm) && forall e :: e in perm <==> e in events
  {
    assert forall e :: e in perm <==> e in multiset(perm);
    assert forall e :: e in events <==> e in multiset(events);
    forall i, j | 0 <= i < j < |perm| ensures perm[i].client.ip != perm[j].client.ip {
      assert perm[i] in events && perm[j] in events;
      OnePerIpIsSimple(events, perm[i]);
      assert perm[i] == perm[j] ==> multiset(perm)[perm[i]] >= 2 by {
        if perm[i] == perm[j] { TwoCopies(perm, i, j); }
      }
      var a :| 0 <= a < |events| && events[a] == perm[i];
      var b :| 0 <= b < |events| && events[b] == perm[j];
      assert a != b;
    }
  }

  // Reordering the events of a tick keeps them exactly the changes.
  lemma PermutedChanges(was: ClientMap, now: ClientMap, events: seq<Event>, perm: seq<Event>)
    requires ChangesExactly(was, now, events) && multiset(perm) == multiset(events)
    ensures ChangesExactly(was, now, perm)
  {
    OnePerIpPermuted(events, perm);
  }

  // One tick, whatever the map iteration orders and whatever the order of delivery.
  lemma TickTurnsOldIntoNew(previous: seq<ClientInfo>, clients: seq<ClientInfo>, newOrder: seq<string>,
                            oldOrder: seq<string>, delivered: seq<Event>)
    requires IsOrderOf(newOrder, Latest(clients).Keys) && IsOrderOf(oldOrder, Latest(previous).Keys)
    requires multiset(delivered) == multiset(Events(Latest(previous), Latest(clients), newOrder, oldOrder))
    ensures MapApplyAll(Macs(Latest(previous)), delivered) == Macs(Latest(clients))
  {
    var was, now := Latest(previous), Latest(clients);
    EventsExact(was, now, newOrder, oldOrder);
    PermutedChanges(was, now, Events(was, now, newOrder, oldOrder), delivered);
    ChangesGiveNewMap(was, now, delivered);
  }
}
