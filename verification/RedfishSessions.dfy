/**
 The cache of Redfish clients, one per address (NewClient and buildEndpoint in pkg/redfish/interface.go).
 Calls are serialised; connecting, probing a session and deleting it on the server are answered from outside.
 */
module RedfishSessions {
  import opened GoStrings
  import opened Api
  import opened HostCache
  import opened Ipv4

  datatype ClientConfig = ClientConfig(
    endpoint: string, username: string, password: string, insecure: bool, reuseConnections: bool)

  // A connected client, told apart from others by a number. With a user name it holds a session of that number; without
  // one no session is made.
  datatype Client = Client(config: ClientConfig, id: nat)

  predicate HoldsSession(c: Client) { c.config.username != "" }

  // ---- Endpoints ----------------------------------------------------------------------

  // %d
  function FormatInt(n: int): string {
    if n < 0 then "-" + Decimal(-n) else Decimal(n)
  }

  function Endpoint(https: bool, ip: string, port: int): string {
    (if https then "https" else "http") + ("://" + ip + (":" + FormatInt(port)))
  }

  function BuildEndpoint(h: HostConnectCon): string { Endpoint(h.info.https, h.info.ipAddr, h.info.port) }

  function ConfigOf(h: HostConnectCon): ClientConfig {
    ClientConfig(BuildEndpoint(h), h.username, h.password, true, true)
  }

  lemma FormatIntInjective(m: int, n: int)
    ensures FormatInt(m) == FormatInt(n) <==> m == n
  {
    if FormatInt(m) == FormatInt(n) {
      if m < 0 && n < 0 {
        assert FormatInt(m)[1..] == Decimal(-m) && FormatInt(n)[1..] == Decimal(-n);
      }
      assert FormatInt(m)[0] == '-' <==> m < 0;
      assert FormatInt(n)[0] == '-' <==> n < 0;
    }
  }

  // For one address, a cached configuration is the requested one exactly when protocol, port and credentials are.
  lemma SameConfigIff(h: HostConnectCon, h': HostConnectCon)
    requires h.info.ipAddr == h'.info.ipAddr
    ensures ConfigOf(h) == ConfigOf(h') <==>
            && h.info.https == h'.info.https && h.info.port == h'.info.port
            && h.username == h'.username && h.password == h'.password
  {
    if ConfigOf(h) == ConfigOf(h') {
      EndpointScheme(h.info.https, h.info.ipAddr, h.info.port);
      EndpointScheme(h'.info.https, h'.info.ipAddr, h'.info.port);
      EndpointPort(h.info.https, h.info.ipAddr, h.info.port);
      EndpointPort(h'.info.https, h'.info.ipAddr, h'.info.port);
      FormatIntInjective(h.info.port, h'.info.port);
    }
  }

  lemma EndpointScheme(https: bool, ip: string, port: int)
    ensures |Endpoint(https, ip, port)| > 4 && (Endpoint(https, ip, port)[4] == 's' <==> https)
  {
  }

  lemma EndpointPort(https: bool, ip: string, port: int)
    ensures var k := (if https then 5 else 4) + 4 + |ip|;
      k <= |Endpoint(https, ip, port)| && Endpoint(https, ip, port)[k..] == FormatInt(port)
  {
    var scheme, tail := if https then "https" else "http", FormatInt(port);
    var head := scheme + ("://" + ip + ":");
    assert Endpoint(https, ip, port) == head + tail && |head| == |scheme| + 4 + |ip|;
    DropHead(head, tail);
  }

  lemma DropHead(head: string, tail: string)
    ensures (head + tail)[|head|..] == tail
  {
  }

  // ---- Sessions -----------------------------------------------------------------------

  // The cached clients, the sessions made on the servers and not deleted there, with their addresses, and the numbers
  // of connects and of logouts
  datatype Sessions = Sessions(cache: map<string, Client>, open: map<nat, string>, connects: nat, logouts: nat)

  const NO_SESSIONS := Sessions(map[], map[], 0, 0)

  // A call: the host, whether a cached session still answers, whether the server deletes the session on logout, whether
  // connecting succeeds
  datatype Call = Call(host: HostConnectCon, alive: bool, deletes: bool, connects: bool)

  // The client goes out of the cache whether or not the server deleted its session: the error is dropped.
  function Logout(s: Sessions, ip: string, deletes: bool): Sessions
    requires ip in s.cache
  {
    var client := s.cache[ip];
    s.(cache := s.cache - {ip}, open := if deletes && HoldsSession(client) then s.open - {client.id} else s.open,
       logouts := s.logouts + 1)
  }

  function Connect(s: Sessions, h: HostConnectCon): Sessions {
    var ip, client := h.info.ipAddr, Client(ConfigOf(h), s.connects);
    s.(cache := s.cache[ip := client], open := if HoldsSession(client) then s.open[client.id := ip] else s.open,
       connects := s.connects + 1)
  }

  predicate Reuses(s: Sessions, c: Call) {
    var ip := c.host.info.ipAddr;
    ip in s.cache && s.cache[ip].config == ConfigOf(c.host) && c.alive
  }

  function LoggedOut(s: Sessions, c: Call): Sessions {
    if c.host.info.ipAddr in s.cache then Logout(s, c.host.info.ipAddr, c.deletes) else s
  }

  function NewClientStep(s: Sessions, c: Call): (Sessions, Option<Client>) {
    var ip := c.host.info.ipAddr;
    if Reuses(s, c) then (s, Some(s.cache[ip]))
    else
      var t := LoggedOut(s, c);
      if !c.connects then (t, None) else var u := Connect(t, c.host); (u, Some(u.cache[ip]))
  }

  class SessionCache {
    var s: Sessions

    constructor ()
      ensures s == NO_SESSIONS
    {
      s := NO_SESSIONS;
    }

    // NewClient
    method NewClient(c: Call) returns (r: Option<Client>)
      modifies this
      ensures (s, r) == NewClientStep(old(s), c)
    {
      var config := ConfigOf(c.host);
      var ip := c.host.info.ipAddr;
      if ip in s.cache {
        var cached := s.cache[ip];
        if config == cached.config {
          if c.alive {
            return Some(cached);
          }
        }
        if HoldsSession(cached) && c.deletes {
          s := s.(open := s.open - {cached.id});
        }
        s := s.(cache := s.cache - {ip}, logouts := s.logouts + 1);
      }
      if !c.connects {
        return None;
      }
      var client := Client(config, s.connects);
      if config.username != "" {
        s := s.(open := s.open[client.id := ip]);
      }
      s := s.(cache := s.cache[ip := client], connects := s.connects + 1);
      return Some(client);
    }
  }

  // Cached clients hold open sessions of their own address, and the books balance.
  ghost predicate Matched(s: Sessions) {
    && (forall n :: n in s.open ==> n < s.connects)
    && (forall ip :: ip in s.cache ==> s.cache[ip].id < s.connects)
    && (forall ip :: ip in s.cache && HoldsSession(s.cache[ip]) ==>
          s.cache[ip].id in s.open && s.open[s.cache[ip].id] == ip)
  }

  ghost predicate Inv(s: Sessions) {
    Matched(s) && s.connects == s.logouts + |s.cache|
  }

  lemma SizeWithout<V>(m: map<string, V>, ip: string)
    requires ip in m
    ensures |m - {ip}| == |m| - 1
  {
    assert (m - {ip}).Keys == m.Keys - {ip};
    assert |(m - {ip}).Keys| == |m - {ip}| && |m.Keys| == |m|;
  }

  lemma SizeWith<V>(m: map<string, V>, ip: string, v: V)
    requires ip !in m
    ensures |m[ip := v]| == |m| + 1
  {
    assert m[ip := v].Keys == m.Keys + {ip};
    assert |m[ip := v].Keys| == |m[ip := v]| && |m.Keys| == |m|;
  }

  lemma LogoutKeepsInv(s: Sessions, ip: string, deletes: bool)
    requires Inv(s) && ip in s.cache
    ensures Inv(Logout(s, ip, deletes))
  {
    SizeWithout(s.cache, ip);
  }

  lemma ConnectKeepsMatched(s: Sessions, h: HostConnectCon)
    requires Matched(s) && h.info.ipAddr !in s.cache
    ensures Matched(Connect(s, h))
  {
    assert s.connects !in s.open;
  }

  lemma ConnectKeepsInv(s: Sessions, h: HostConnectCon)
    requires Inv(s) && h.info.ipAddr !in s.cache
    ensures Inv(Connect(s, h))
  {
    ConnectKeepsMatched(s, h);
    SizeWith(s.cache, h.info.ipAddr, Connect(s, h).cache[h.info.ipAddr]);
  }

  lemma CallKeepsInv(s: Sessions, c: Call)
    requires Inv(s)
    ensures Inv(NewClientStep(s, c).0)
  {
    if c.host.info.ipAddr in s.cache {
      LogoutKeepsInv(s, c.host.info.ipAddr, c.deletes);
    }
    ConnectKeepsInv(LoggedOut(s, c), c.host);
  }

  lemma CallKeepsOthers(s: Sessions, c: Call)
    ensures NewClientStep(s, c).0.cache - {c.host.info.ipAddr} == s.cache - {c.host.info.ipAddr}
  {
  }

  // The configuration asked for
  ghost predicate Requested(config: ClientConfig, h: HostConnectCon) {
    var scheme := if h.info.https then "https" else "http";
    && config.endpoint == scheme + "://" + h.info.ipAddr + ":" + FormatInt(h.info.port)
    && config.username == h.username && config.password == h.password && config.insecure && config.reuseConnections
  }

  // A call returns a client of the requested configuration, cached, with an open session at the host's address if it
  // has a user name; or it fails to connect and leaves no client there. Other addresses keep their clients.
  lemma CallIsFaithful(s: Sessions, c: Call)
    requires Inv(s)
    ensures var (t, r) := NewClientStep(s, c);
      var ip := c.host.info.ipAddr;
      && Inv(t)
      && (r.Some? ==> Requested(r.value.config, c.host) && ip in t.cache && t.cache[ip] == r.value)
      && (r.Some? && c.host.username != "" ==> r.value.id in t.open && t.open[r.value.id] == ip)
      && (r.None? ==> !c.connects && ip !in t.cache)
      && t.cache - {ip} == s.cache - {ip}
  {
    CallKeepsInv(s, c);
    CallKeepsOthers(s, c);
    RequestedIsConfig(ConfigOf(c.host), c.host);
  }

  lemma RequestedIsConfig(config: ClientConfig, h: HostConnectCon)
    ensures Requested(config, h) <==> config == ConfigOf(h)
  {
    Reassociate(if h.info.https then "https" else "http", "://", h.info.ipAddr, ":", FormatInt(h.info.port));
  }

  lemma Reassociate(a: string, b: string, c: string, d: string, e: string)
    ensures a + b + c + d + e == a + (b + c + (d + e))
  {
  }

  // With an answering cached session of the requested configuration the cached client is returned and nothing is done.
  lemma AnsweringIsReused(s: Sessions, c: Call, t: Sessions, r: Option<Client>)
    requires (t, r) == NewClientStep(s, c)
    requires var ip := c.host.info.ipAddr; ip in s.cache && Requested(s.cache[ip].config, c.host) && c.alive
    ensures t == s && r == Some(s.cache[c.host.info.ipAddr])
  {
    RequestedIsConfig(s.cache[c.host.info.ipAddr].config, c.host);
  }

  // A cached client that does not answer, or has another configuration, is logged out and not returned: what is
  // returned, if connecting works, is a new client whose session was not open before. The sessions open are those
  // before without the deleted one and with the new one, if they have a user name.
  lemma DeadIsReplaced(s: Sessions, c: Call, t: Sessions, r: Option<Client>)
    requires Inv(s) && (t, r) == NewClientStep(s, c)
    requires var ip := c.host.info.ipAddr; ip in s.cache && !(Requested(s.cache[ip].config, c.host) && c.alive)
    ensures t.logouts == s.logouts + 1 && t.connects == s.connects + (if c.connects then 1 else 0)
    ensures r.Some? <==> c.connects
    ensures r.Some? ==> r.value.id !in s.open && forall ip :: ip in s.cache ==> r.value != s.cache[ip]
    ensures r.None? ==> c.host.info.ipAddr !in t.cache
    ensures var dead := s.cache[c.host.info.ipAddr];
      t.open.Keys == s.open.Keys - (if c.deletes && dead.config.username != "" then {dead.id} else {})
                     + (if c.connects && c.host.username != "" then {r.value.id} else {})
  {
    RequestedIsConfig(s.cache[c.host.info.ipAddr].config, c.host);
  }

  // Without a cached client nothing is logged out, and a new client is made if connecting works.
  lemma UnknownIsConnected(s: Sessions, c: Call, t: Sessions, r: Option<Client>)
    requires Inv(s) && (t, r) == NewClientStep(s, c) && c.host.info.ipAddr !in s.cache
    ensures t.logouts == s.logouts && t.connects == s.connects + (if c.connects then 1 else 0)
    ensures r.Some? <==> c.connects
    ensures r.Some? ==> r.value.id !in s.open && forall ip :: ip in s.cache ==> r.value != s.cache[ip]
    ensures r.None? ==> t == s
    ensures t.open.Keys == s.open.Keys + if c.connects && c.host.username != "" then {r.value.id} else {}
  {
  }

  function RunCalls(s: Sessions, calls: seq<Call>): Sessions
    decreases calls
  {
    if calls == [] then s else RunCalls(NewClientStep(s, calls[0]).0, calls[1..])
  }

  // ---- Sessions left behind -------------------------------------------------------------

  function OpenAt(s: Sessions, ip: string): set<nat> { set n | n in s.open && s.open[n] == ip }

  // The sessions of the address that the cache knows: at most one
  function Held(s: Sessions, ip: string): set<nat> {
    if ip in s.cache && HoldsSession(s.cache[ip]) then {s.cache[ip].id} else {}
  }

  // The call logs a session of the address out, because it does not answer or has another configuration, and the server
  // does not delete it.
  ghost predicate Abandons(s: Sessions, c: Call, ip: string) {
    && c.host.info.ipAddr == ip && Held(s, ip) != {} && !c.deletes
    && !(Requested(s.cache[ip].config, c.host) && c.alive)
  }

  ghost function Abandoned(s: Sessions, calls: seq<Call>, ip: string): nat
    decreases calls
  {
    if calls == [] then 0
    else (if Abandons(s, calls[0], ip) then 1 else 0) + Abandoned(NewClientStep(s, calls[0]).0, calls[1..], ip)
  }

  // Sessions at the address that the cache does not know
  function Left(s: Sessions, ip: string): set<nat> { OpenAt(s, ip) - Held(s, ip) }

  lemma OtherAddressLeft(s: Sessions, at: string, deletes: bool, ip: string)
    requires Matched(s) && at in s.cache && at != ip
    ensures Left(Logout(s, at, deletes), ip) == Left(s, ip)
  {
    var t := Logout(s, at, deletes);
    assert Held(t, ip) == Held(s, ip);
    assert OpenAt(t, ip) == OpenAt(s, ip);
  }

  lemma AddressLeft(s: Sessions, ip: string, deletes: bool)
    requires Matched(s) && ip in s.cache
    ensures Left(Logout(s, ip, deletes), ip) == OpenAt(s, ip) - if deletes then Held(s, ip) else {}
  {
    var t := Logout(s, ip, deletes);
    assert Held(t, ip) == {};
    assert OpenAt(t, ip) == OpenAt(s, ip) - if deletes then Held(s, ip) else {};
  }

  lemma AddressLeftCount(s: Sessions, ip: string, deletes: bool)
    requires Matched(s) && ip in s.cache
    ensures |Left(Logout(s, ip, deletes), ip)| == |Left(s, ip)| + if Held(s, ip) != {} && !deletes then 1 else 0
  {
    AddressLeft(s, ip, deletes);
    HeldIsOpen(s, ip);
    Parts(OpenAt(s, ip), Held(s, ip));
    assert |Held(s, ip)| == if Held(s, ip) != {} then 1 else 0;
  }

  lemma LogoutLeaves(s: Sessions, c: Call, ip: string)
    requires Matched(s) && !Reuses(s, c)
    ensures |Left(LoggedOut(s, c), ip)| == |Left(s, ip)| + if Abandons(s, c, ip) then 1 else 0
  {
    var at := c.host.info.ipAddr;
    if at in s.cache {
      RequestedIsConfig(s.cache[at].config, c.host);
      if at == ip {
        AddressLeftCount(s, ip, c.deletes);
      } else {
        OtherAddressLeft(s, at, c.deletes, ip);
      }
    }
  }

  lemma ConnectLeaves(s: Sessions, h: HostConnectCon, ip: string)
    requires Inv(s) && h.info.ipAddr !in s.cache
    ensures Left(Connect(s, h), ip) == Left(s, ip)
  {
    assert s.connects !in s.open;
  }

  lemma CallLeaves(s: Sessions, c: Call, ip: string)
    requires Inv(s)
    ensures |Left(NewClientStep(s, c).0, ip)| == |Left(s, ip)| + if Abandons(s, c, ip) then 1 else 0
  {
    var at := c.host.info.ipAddr;
    if Reuses(s, c) {
      RequestedIsConfig(s.cache[at].config, c.host);
    } else {
      LogoutLeaves(s, c, ip);
      if c.host.info.ipAddr in s.cache {
        LogoutKeepsInv(s, c.host.info.ipAddr, c.deletes);
      }
      ConnectLeaves(LoggedOut(s, c), c.host, ip);
    }
  }

  lemma {:induction false} RunLeaves(s: Sessions, calls: seq<Call>, ip: string)
    requires Inv(s)
    ensures Inv(RunCalls(s, calls)) && |Left(RunCalls(s, calls), ip)| == |Left(s, ip)| + Abandoned(s, calls, ip)
    decreases calls
  {
    if calls != [] {
      CallIsFaithful(s, calls[0]);
      CallLeaves(s, calls[0], ip);
      RunLeaves(NewClientStep(s, calls[0]).0, calls[1..], ip);
    }
  }

  // Over every sequence of calls: connects minus logouts is the cache size; the sessions open at an address are the
  // one its cached client holds and those whose logout the server did not carry out; so the cache knows every open
  // session of the address exactly when no such logout happened, and there is at most one then.
  lemma SessionsBalance(calls: seq<Call>, ip: string)
    ensures var t := RunCalls(NO_SESSIONS, calls);
      && t.connects - t.logouts == |t.cache|
      && |OpenAt(t, ip)| == |Held(t, ip)| + Abandoned(NO_SESSIONS, calls, ip)
      && (OpenAt(t, ip) == Held(t, ip) <==> Abandoned(NO_SESSIONS, calls, ip) == 0)
      && (|OpenAt(t, ip)| <= 1 <==> Abandoned(NO_SESSIONS, calls, ip) + |Held(t, ip)| <= 1)
  {
    var t := RunCalls(NO_SESSIONS, calls);
    RunLeaves(NO_SESSIONS, calls, ip);
    assert Left(NO_SESSIONS, ip) == {};
    HeldIsOpen(t, ip);
    Parts(OpenAt(t, ip), Held(t, ip));
  }

  lemma HeldIsOpen(s: Sessions, ip: string)
    requires Matched(s)
    ensures Held(s, ip) <= OpenAt(s, ip)
  {
  }

  lemma Parts(a: set<nat>, b: set<nat>)
    requires b <= a
    ensures |a| == |a - b| + |b| && (a == b <==> |a - b| == 0)
  {
    assert a == (a - b) + b && (a - b) * b == {};
  }
}
