/**
 Credentials of the cached hosts (pkg/agent/hoststatus/manager.go, getSecretData in tools.go, Reconcile and
 processHostStatus in HostStatusReconcile.go). A secret changes first and is delivered to the agent later;
 reconciling a HostStatus reads the credentials in one step and stores the cache entry in another.
 */
module Credentials {
  import opened GoStrings
  import opened Api
  import opened LeaseDiff
  import opened HostCache

  datatype Key = Key(name: string, namespace: string)
  datatype Creds = Creds(username: string, password: string)

  type Secrets = map<Key, Creds>

  function KeyOf(info: BasicInfo): Key { Key(info.secretName, info.secretNamespace) }
  function CredsOf(v: HostConnectCon): Creds { Creds(v.username, v.password) }

  function Entry(info: BasicInfo, c: Creds): HostConnectCon {
    HostConnectCon(info, c.username, c.password, info.kind == HOST_TYPE_DHCP)
  }

  function UpdateAll(hosts: Hosts, k: Key, c: Creds): Hosts {
    map h | h in hosts :: WithSecret(hosts[h], k.name, k.namespace, c.username, c.password)
  }

  // getSecretData: the agent's own secret is answered from the configuration, any other by the API server
  function Lookup(secrets: Secrets, own: Key, config: Creds, k: Key): Option<Creds> {
    if k == own then Some(config) else if k in secrets then Some(secrets[k]) else None
  }

  // ---- The controller's part ---------------------------------------------------------

  class SecretKeeper {
    const agent: string
    const own: Key
    var username: string
    var password: string
    const cache: HostCache

    constructor (agent: string, own: Key, username: string, password: string, cache: HostCache)
      ensures this.agent == agent && this.own == own && this.cache == cache
      ensures this.username == username && this.password == password
    {
      this.agent, this.own, this.username, this.password, this.cache := agent, own, username, password, cache;
    }

    // UpdateSecret; the hosts returned are polled again
    method UpdateSecret(k: Key, c: Creds) returns (changedHosts: seq<string>)
      modifies this`username, this`password, cache
      ensures Creds(username, password) == if k == own then c else old(Creds(username, password))
      ensures cache.data == UpdateAll(old(cache.data), k, c)
      ensures forall h :: h in changedHosts <==>
        h in cache.data && CredsOf(cache.data[h]) != CredsOf(old(cache.data)[h])
    {
      if k.name == own.name && k.namespace == own.namespace {
        username := c.username;
        password := c.password;
      }
      changedHosts := cache.UpdateSecret(k.name, k.namespace, c.username, c.password);
    }

    // getSecretData
    method GetSecretData(k: Key, secrets: Secrets) returns (r: Option<Creds>)
      ensures r == Lookup(secrets, own, Creds(username, password), k)
    {
      if k.name == own.name && k.namespace == own.namespace {
        return Some(Creds(username, password));
      }
      if k !in secrets {
        return None;
      }
      return Some(secrets[k]);
    }

    // Reconcile with processHostStatus up to the cache; `getFails` is an error of the API server, `found` the
    // HostStatus read, None when it is gone. `polls` tells whether the host is polled at once.
    method Reconcile(name: string, getFails: bool, found: Option<HostStatus>, secrets: Secrets)
      returns (ok: bool, polls: bool)
      modifies cache
      ensures getFails ==> !ok && !polls && cache.data == old(cache.data)
      ensures !getFails && found.None? ==> ok && !polls && cache.data == old(cache.data) - {name}
      ensures !getFails && found.Some? ==> var st := found.value.status;
        var mine := st.clusterAgent != "" && st.clusterAgent == agent && st.basic.ipAddr != "";
        var c := Lookup(secrets, own, Creds(username, password), KeyOf(st.basic));
        && (ok <==> !mine || c.Some?) && (polls <==> mine && c.Some? && st.info == map[])
        && (!(mine && c.Some?) ==> cache.data == old(cache.data))
        && (mine && c.Some? ==>
              var entry := HostConnectCon(st.basic, c.value.username, c.value.password, st.basic.kind == "dhcp");
              entry == Entry(st.basic, c.value) && cache.data == old(cache.data)[name := entry])
    {
      if getFails {
        return false, false;
      }
      if found.None? {
        cache.Delete(name);
        return true, false;
      }
      var st := found.value.status;
      if st.clusterAgent == "" {
        return true, false;
      }
      if st.clusterAgent != agent {
        return true, false;
      }
      if |st.basic.ipAddr| == 0 {
        return true, false;
      }
      var c := GetSecretData(KeyOf(st.basic), secrets);
      if c.None? {
        return false, false;
      }
      cache.Add(name, HostConnectCon(st.basic, c.value.username, c.value.password, st.basic.kind == HOST_TYPE_DHCP));
      assert |st.info| == 0 <==> st.info == map[];
      return true, |st.info| == 0;
    }
  }

  // ---- The system ------------------------------------------------------------------------

  // A reconcile that has read its credentials, and the version of the secret they are
  datatype Job = Job(host: string, info: BasicInfo, creds: Creds, version: nat)

  // The secrets in the API server, those changed but not delivered, the agent's configured credentials,
  // the cache and the reconciles between reading and storing. The rest records what happened: the credentials
  // each secret was given so far, whose number is its version, the version its last delivery brought, and the version
  // each cached host has.
  datatype World = World(
    secrets: Secrets, undelivered: set<Key>, config: Creds, hosts: Hosts, jobs: seq<Job>,
    issued: map<Key, seq<Creds>>, brought: map<Key, nat>, stored: map<string, nat>)

  function Issued(w: World, k: Key): seq<Creds> { if k in w.issued then w.issued[k] else [] }
  function Version(w: World, k: Key): nat { |Issued(w, k)| }
  function Brought(w: World, k: Key): nat { if k in w.brought then w.brought[k] else 0 }
  function Stored(w: World, host: string): nat { if host in w.stored then w.stored[host] else 0 }

  // An agent that has just read its own credentials, over any secrets
  function Start(secrets: Secrets, own: Key, config: Creds): World {
    var all := secrets[own := config];
    World(secrets, {}, config, map[], [], map k | k in all :: [all[k]], map k | k in all :: 1, map[])
  }

  datatype Move =
    | Change(k: Key, c: Creds)
    | Remove(k: Key)
    | Deliver(k: Key)
    | Read(host: string, info: BasicInfo)
    | Store(i: nat)
    | Forget(host: string)

  // A delivery of a removed secret, a read of a missing one and a store without a job change nothing but what is said.
  function Next(w: World, own: Key, m: Move): World {
    match m
    case Change(k, c) =>
      w.(secrets := w.secrets[k := c], undelivered := w.undelivered + {k}, issued := w.issued[k := Issued(w, k) + [c]])
    case Remove(k) => w.(secrets := w.secrets - {k}, undelivered := w.undelivered + {k})
    case Deliver(k) => Delivered(w, own, k)
    case Read(host, info) =>
      var k := KeyOf(info);
      var c := Lookup(w.secrets, own, w.config, k);
      if c.None? then w
      else w.(jobs := w.jobs + [Job(host, info, c.value, if k == own then Brought(w, k) else Version(w, k))])
    case Store(i) =>
      if i >= |w.jobs| then w
      else
        var j := w.jobs[i];
        w.(hosts := w.hosts[j.host := Entry(j.info, j.creds)], stored := w.stored[j.host := j.version],
           jobs := w.jobs[..i] + w.jobs[i + 1..])
    case Forget(host) => w.(hosts := w.hosts - {host}, stored := w.stored - {host})
  }

  function Delivered(w: World, own: Key, k: Key): World {
    var rest := w.undelivered - {k};
    if k !in w.secrets then w.(undelivered := rest)
    else
      var c := w.secrets[k];
      w.(undelivered := rest, config := if k == own then c else w.config, hosts := UpdateAll(w.hosts, k, c),
         brought := w.brought[k := Version(w, k)],
         stored := map h | h in w.hosts :: if KeyOf(w.hosts[h].info) == k then Version(w, k) else Stored(w, h))
  }

  function After(w: World, own: Key, moves: seq<Move>): World {
    if moves == [] then w else Next(After(w, own, moves[..|moves| - 1]), own, moves[|moves| - 1])
  }

  // ---- The books -------------------------------------------------------------------------

  // The secret exists and no delivery for it is to come.
  predicate Settled(w: World, k: Key) { k in w.secrets && k !in w.undelivered }

  ghost predicate IsVersion(w: World, k: Key, c: Creds, version: nat) {
    1 <= version <= Version(w, k) && c == Issued(w, k)[version - 1]
  }

  ghost predicate SecretBooks(w: World, k: Key) {
    && Brought(w, k) <= Version(w, k)
    && (k in w.secrets ==> IsVersion(w, k, w.secrets[k], Version(w, k)))
    && (k in w.secrets ==> (k in w.undelivered <==> Brought(w, k) < Version(w, k)))
  }

  ghost predicate Books(w: World, own: Key) {
    && IsVersion(w, own, w.config, Brought(w, own))
    && (forall k :: SecretBooks(w, k))
    && (forall h :: h in w.hosts ==> IsVersion(w, KeyOf(w.hosts[h].info), CredsOf(w.hosts[h]), Stored(w, h)))
    && (forall i :: 0 <= i < |w.jobs| ==> IsVersion(w, KeyOf(w.jobs[i].info), w.jobs[i].creds, w.jobs[i].version))
  }

  lemma StartBooks(secrets: Secrets, own: Key, config: Creds)
    requires own in secrets ==> config == secrets[own]
    ensures var w := Start(secrets, own, config); Books(w, own) && UpToDate(w) && AllNew(w)
  {
    var w := Start(secrets, own, config);
    forall k ensures SecretBooks(w, k) {
      assert k in secrets ==> Issued(w, k) == [secrets[k]];
    }
  }

  // Later versions leave the earlier ones in place.
  lemma VersionStays(w: World, own: Key, m: Move, k: Key, c: Creds, version: nat)
    requires IsVersion(w, k, c, version)
    ensures IsVersion(Next(w, own, m), k, c, version)
  {
  }

  lemma {:induction false} MoveKeepsSecretBooks(w: World, own: Key, m: Move, k: Key)
    requires SecretBooks(w, k)
    ensures SecretBooks(Next(w, own, m), k)
  {
  }

  lemma EntryBooks(w: World, own: Key, m: Move, h: string)
    requires Books(w, own) && h in Next(w, own, m).hosts
    ensures var w' := Next(w, own, m); IsVersion(w', KeyOf(w'.hosts[h].info), CredsOf(w'.hosts[h]), Stored(w', h))
  {
    if h in w.hosts {
      VersionStays(w, own, m, KeyOf(w.hosts[h].info), CredsOf(w.hosts[h]), Stored(w, h));
    }
    if m.Deliver? {
      assert SecretBooks(w, m.k);
    } else if m.Store? && m.i < |w.jobs| {
      var j := w.jobs[m.i];
      VersionStays(w, own, m, KeyOf(j.info), j.creds, j.version);
      assert CredsOf(Entry(j.info, j.creds)) == j.creds;
    }
  }

  lemma JobBooks(w: World, own: Key, m: Move, i: nat)
    requires Books(w, own) && i < |Next(w, own, m).jobs|
    ensures var w' := Next(w, own, m); IsVersion(w', KeyOf(w'.jobs[i].info), w'.jobs[i].creds, w'.jobs[i].version)
  {
    var j := Next(w, own, m).jobs[i];
    if m.Read? {
      assert SecretBooks(w, KeyOf(m.info));
    } else {
      assert m.Store? && m.i < |w.jobs| ==> j == if i < m.i then w.jobs[i] else w.jobs[i + 1];
      VersionStays(w, own, m, KeyOf(j.info), j.creds, j.version);
    }
  }

  lemma MoveKeepsBooks(w: World, own: Key, m: Move)
    requires Books(w, own)
    ensures Books(Next(w, own, m), own)
  {
    var w' := Next(w, own, m);
    VersionStays(w, own, m, own, w.config, Brought(w, own));
    assert SecretBooks(w, own);
    forall k ensures SecretBooks(w', k) {
      assert SecretBooks(w, k);
      MoveKeepsSecretBooks(w, own, m, k);
    }
    forall h | h in w'.hosts ensures IsVersion(w', KeyOf(w'.hosts[h].info), CredsOf(w'.hosts[h]), Stored(w', h)) {
      EntryBooks(w, own, m, h);
    }
    forall i | 0 <= i < |w'.jobs| ensures IsVersion(w', KeyOf(w'.jobs[i].info), w'.jobs[i].creds, w'.jobs[i].version) {
      JobBooks(w, own, m, i);
    }
  }

  lemma {:induction false} RunKeepsBooks(w: World, own: Key, moves: seq<Move>)
    requires Books(w, own)
    ensures Books(After(w, own, moves), own)
  {
    if moves != [] {
      RunKeepsBooks(w, own, moves[..|moves| - 1]);
      MoveKeepsBooks(After(w, own, moves[..|moves| - 1]), own, moves[|moves| - 1]);
    }
  }

  // ---- Up to date --------------------------------------------------------------------------

  // Every cached entry has its secret's current credentials, unless a delivery for the secret is still to come.
  ghost predicate UpToDate(w: World) {
    forall h :: h in w.hosts && Settled(w, KeyOf(w.hosts[h].info)) ==>
      CredsOf(w.hosts[h]) == w.secrets[KeyOf(w.hosts[h].info)]
  }

  // The same by versions
  ghost predicate Current(w: World) {
    forall h :: h in w.hosts && Settled(w, KeyOf(w.hosts[h].info)) ==>
      Stored(w, h) == Version(w, KeyOf(w.hosts[h].info))
  }

  // A delivery has brought a version later than the one the reconcile has read.
  predicate Overtaken(w: World, i: nat)
    requires i < |w.jobs|
  {
    w.jobs[i].version < Brought(w, KeyOf(w.jobs[i].info))
  }

  // No overtaken reconcile stores its entry while its secret is settled.
  predicate Timely(w: World, m: Move) {
    m.Store? && m.i < |w.jobs| && Settled(w, KeyOf(w.jobs[m.i].info)) ==> !Overtaken(w, m.i)
  }

  // No secret was ever given the same credentials twice.
  ghost predicate AllNew(w: World) {
    forall k :: Distinct(Issued(w, k))
  }

  predicate BringsNew(w: World, m: Move) {
    m.Change? ==> m.c !in Issued(w, m.k)
  }

  lemma MoveKeepsAllNew(w: World, own: Key, m: Move)
    requires AllNew(w) && BringsNew(w, m)
    ensures AllNew(Next(w, own, m))
  {
    forall k ensures Distinct(Issued(Next(w, own, m), k)) {
      assert Distinct(Issued(w, k));
      if m.Change? && m.k == k {
        DistinctSnoc(Issued(w, k), m.c);
      }
    }
  }

  lemma CurrentIsUpToDate(w: World, own: Key)
    requires Books(w, own)
    ensures Current(w) ==> UpToDate(w)
    ensures AllNew(w) && UpToDate(w) ==> Current(w)
  {
    forall h | h in w.hosts && Settled(w, KeyOf(w.hosts[h].info))
      ensures var k := KeyOf(w.hosts[h].info);
        && (Stored(w, h) == Version(w, k) ==> CredsOf(w.hosts[h]) == w.secrets[k])
        && (AllNew(w) && CredsOf(w.hosts[h]) == w.secrets[k] ==> Stored(w, h) == Version(w, k))
    {
      var k := KeyOf(w.hosts[h].info);
      assert SecretBooks(w, k);
      assert AllNew(w) ==> Distinct(Issued(w, k));
    }
  }

  // A move leaves the cache current exactly when it is timely.
  lemma CurrentIffTimely(w: World, own: Key, m: Move)
    requires Books(w, own) && Current(w)
    ensures Current(Next(w, own, m)) <==> Timely(w, m)
  {
    if m.Store? && m.i < |w.jobs| {
      StoreIsCurrentIff(w, own, m.i);
    } else if m.Deliver? {
      DeliveryIsCurrent(w, own, m.k);
    }
  }

  lemma DeliveryIsCurrent(w: World, own: Key, k: Key)
    requires Books(w, own) && Current(w)
    ensures Current(Delivered(w, own, k))
  {
    assert SecretBooks(w, k);
    var w' := Delivered(w, own, k);
    forall h | h in w'.hosts && Settled(w', KeyOf(w'.hosts[h].info))
      ensures Stored(w', h) == Version(w', KeyOf(w'.hosts[h].info))
    {
      assert KeyOf(w'.hosts[h].info) != k ==> Settled(w, KeyOf(w.hosts[h].info));
    }
  }

  lemma StoreIsCurrentIff(w: World, own: Key, i: nat)
    requires Books(w, own) && Current(w) && i < |w.jobs|
    ensures Current(Next(w, own, Store(i))) <==> Timely(w, Store(i))
  {
    var w', j := Next(w, own, Store(i)), w.jobs[i];
    var k := KeyOf(j.info);
    assert SecretBooks(w, k);
    assert IsVersion(w, k, j.creds, j.version);
    assert j.host in w'.hosts && w'.hosts[j.host] == Entry(j.info, j.creds) && Stored(w', j.host) == j.version;
    forall h | h in w'.hosts && h != j.host && Settled(w', KeyOf(w'.hosts[h].info))
      ensures Stored(w', h) == Version(w', KeyOf(w'.hosts[h].info))
    {
      assert w'.hosts[h] == w.hosts[h] && Stored(w', h) == Stored(w, h);
    }
  }

  // ---- Whole runs ------------------------------------------------------------------------------

  ghost predicate AlwaysUpToDate(w: World, own: Key, moves: seq<Move>) {
    UpToDate(After(w, own, moves)) && (moves != [] ==> AlwaysUpToDate(w, own, moves[..|moves| - 1]))
  }

  predicate AlwaysTimely(w: World, own: Key, moves: seq<Move>) {
    moves == [] || (AlwaysTimely(w, own, moves[..|moves| - 1])
                    && Timely(After(w, own, moves[..|moves| - 1]), moves[|moves| - 1]))
  }

  predicate AlwaysNew(w: World, own: Key, moves: seq<Move>) {
    moves == [] || (AlwaysNew(w, own, moves[..|moves| - 1])
                    && BringsNew(After(w, own, moves[..|moves| - 1]), moves[|moves| - 1]))
  }

  lemma {:induction false} TimelyIsCurrent(w: World, own: Key, moves: seq<Move>)
    requires Books(w, own) && Current(w) && AlwaysTimely(w, own, moves)
    ensures Current(After(w, own, moves)) && AlwaysUpToDate(w, own, moves)
  {
    RunKeepsBooks(w, own, moves);
    if moves != [] {
      var n := |moves| - 1;
      TimelyIsCurrent(w, own, moves[..n]);
      RunKeepsBooks(w, own, moves[..n]);
      CurrentIffTimely(After(w, own, moves[..n]), own, moves[n]);
    }
    CurrentIsUpToDate(After(w, own, moves), own);
  }

  lemma {:induction false} RunKeepsAllNew(w: World, own: Key, moves: seq<Move>)
    requires AllNew(w) && AlwaysNew(w, own, moves)
    ensures AllNew(After(w, own, moves))
  {
    if moves != [] {
      RunKeepsAllNew(w, own, moves[..|moves| - 1]);
      MoveKeepsAllNew(After(w, own, moves[..|moves| - 1]), own, moves[|moves| - 1]);
    }
  }

  lemma {:induction false} UpToDateIsTimely(w: World, own: Key, moves: seq<Move>)
    requires Books(w, own) && AllNew(w) && AlwaysNew(w, own, moves) && AlwaysUpToDate(w, own, moves)
    ensures AlwaysTimely(w, own, moves)
  {
    if moves != [] {
      var n := |moves| - 1;
      var before := After(w, own, moves[..n]);
      UpToDateIsTimely(w, own, moves[..n]);
      RunKeepsBooks(w, own, moves[..n]);
      RunKeepsBooks(w, own, moves);
      RunKeepsAllNew(w, own, moves[..n]);
      RunKeepsAllNew(w, own, moves);
      assert UpToDate(before);
      CurrentIsUpToDate(before, own);
      CurrentIsUpToDate(After(w, own, moves), own);
      CurrentIffTimely(before, own, moves[n]);
    }
  }

  // In every run from the start of the agent in which no overtaken reconcile stores its entry, the cache is up to date
  // at all times, entries served from the agent's own configuration included.
  lemma CacheIsUpToDate(secrets: Secrets, own: Key, config: Creds, moves: seq<Move>)
    requires own in secrets ==> config == secrets[own]
    requires AlwaysTimely(Start(secrets, own, config), own, moves)
    ensures AlwaysUpToDate(Start(secrets, own, config), own, moves)
  {
    StartBooks(secrets, own, config);
    TimelyIsCurrent(Start(secrets, own, config), own, moves);
  }

  // Of the runs whose changes bring new credentials it is these, and no others.
  lemma CacheIsUpToDateIff(secrets: Secrets, own: Key, config: Creds, moves: seq<Move>)
    requires own in secrets ==> config == secrets[own]
    requires AlwaysNew(Start(secrets, own, config), own, moves)
    ensures var w := Start(secrets, own, config); AlwaysUpToDate(w, own, moves) <==> AlwaysTimely(w, own, moves)
  {
    var w := Start(secrets, own, config);
    StartBooks(secrets, own, config);
    if AlwaysTimely(w, own, moves) {
      TimelyIsCurrent(w, own, moves);
    }
    if AlwaysUpToDate(w, own, moves) {
      UpToDateIsTimely(w, own, moves);
    }
  }

  // ---- What overtakes a reconcile ------------------------------------------------------------------

  // Between the read and now, a delivery found the secret, and a change it could bring came after the read, or was
  // on its way when the agent's own credentials were read from the configuration.
  ghost predicate DeliveredSince(w: World, own: Key, k: Key, read: Move, mid: seq<Move>) {
    exists d :: 0 <= d < |mid| && mid[d] == Deliver(k) && k in After(Next(w, own, read), own, mid[..d]).secrets
                && (ChangedIn(mid[..d], k) || (k == own && k in w.secrets && k in w.undelivered))
  }

  predicate ChangedIn(moves: seq<Move>, k: Key) {
    exists i :: 0 <= i < |moves| && moves[i].Change? && moves[i].k == k
  }

  lemma ChangedSnoc(moves: seq<Move>, m: Move, k: Key)
    ensures ChangedIn(moves + [m], k) <==> ChangedIn(moves, k) || (m.Change? && m.k == k)
  {
    var all := moves + [m];
    assert all[|moves|] == m;
    assert forall i :: 0 <= i < |moves| ==> all[i] == moves[i];
  }

  lemma VersionStep(w: World, own: Key, m: Move, k: Key)
    ensures Version(Next(w, own, m), k) == Version(w, k) + if m.Change? && m.k == k then 1 else 0
    ensures k in Next(w, own, m).secrets ==> k in w.secrets || (m.Change? && m.k == k)
  {
  }

  lemma {:induction false} VersionGrows(w: World, own: Key, moves: seq<Move>, k: Key)
    ensures Version(After(w, own, moves), k) >= Version(w, k)
    ensures Version(After(w, own, moves), k) > Version(w, k) <==> ChangedIn(moves, k)
    ensures k in After(w, own, moves).secrets ==> k in w.secrets || ChangedIn(moves, k)
  {
    if moves != [] {
      var n := |moves| - 1;
      VersionGrows(w, own, moves[..n], k);
      assert moves == moves[..n] + [moves[n]];
      ChangedSnoc(moves[..n], moves[n], k);
      VersionStep(After(w, own, moves[..n]), own, moves[n], k);
    }
  }

  lemma {:induction false} SinceSnoc(w: World, own: Key, k: Key, read: Move, mid: seq<Move>)
    requires mid != []
    ensures var n := |mid| - 1;
      DeliveredSince(w, own, k, read, mid) <==>
      || DeliveredSince(w, own, k, read, mid[..n])
      || (mid[n] == Deliver(k) && k in After(Next(w, own, read), own, mid[..n]).secrets
          && (ChangedIn(mid[..n], k) || (k == own && k in w.secrets && k in w.undelivered)))
  {
    var n := |mid| - 1;
    assert forall d :: 0 <= d <= n ==> mid[..n][..d] == mid[..d];
    assert forall d :: 0 <= d < n ==> mid[..n][d] == mid[d];
  }

  lemma BroughtStep(w: World, own: Key, m: Move, k: Key)
    ensures Brought(Next(w, own, m), k) == if m == Deliver(k) && k in w.secrets then Version(w, k) else Brought(w, k)
  {
  }

  // The version a read gives is older than a later one if the secret was changed since, or a change was on its way to
  // the agent's configuration.
  lemma ReadVersion(w: World, own: Key, read: Move, later: nat)
    requires read.Read? && |Next(w, own, read).jobs| > |w.jobs| && SecretBooks(w, KeyOf(read.info))
    requires Version(w, KeyOf(read.info)) <= later
    ensures var k, w1 := KeyOf(read.info), Next(w, own, read);
      && Version(w1, k) == Version(w, k) && Brought(w1, k) == Brought(w, k) && w1.secrets == w.secrets
      && w1.jobs[|w.jobs|].version >= Brought(w, k)
      && (k in w.secrets || Version(w, k) < later ==>
           (w1.jobs[|w.jobs|].version < later <==>
            Version(w, k) < later || (k == own && k in w.secrets && k in w.undelivered)))
  {
  }

  // A reconcile is overtaken exactly when that has happened since its read.
  lemma {:induction false} OvertakenIff(w: World, own: Key, read: Move, mid: seq<Move>)
    requires Books(w, own) && read.Read? && |Next(w, own, read).jobs| > |w.jobs|
    ensures var k := KeyOf(read.info);
      Next(w, own, read).jobs[|w.jobs|].version < Brought(After(Next(w, own, read), own, mid), k)
      <==> DeliveredSince(w, own, k, read, mid)
    decreases |mid|
  {
    var k, w1 := KeyOf(read.info), Next(w, own, read);
    assert SecretBooks(w, k);
    if mid == [] {
      ReadVersion(w, own, read, Version(w, k));
    } else {
      var n := |mid| - 1;
      var before := After(w1, own, mid[..n]);
      OvertakenIff(w, own, read, mid[..n]);
      SinceSnoc(w, own, k, read, mid);
      BroughtStep(before, own, mid[n], k);
      if mid[n] == Deliver(k) && k in before.secrets {
        ReadVersion(w, own, read, Version(w, k));
        VersionGrows(w1, own, mid[..n], k);
        ReadVersion(w, own, read, Version(before, k));
        SinceMonotone(w, own, k, read, mid[..n]);
      }
    }
  }

  lemma SinceMonotone(w: World, own: Key, k: Key, read: Move, mid: seq<Move>)
    ensures DeliveredSince(w, own, k, read, mid) ==>
              ChangedIn(mid, k) || (k == own && k in w.secrets && k in w.undelivered)
  {
  }

  // From every state with a settled secret an overtaken store can come about: the secret changes and is delivered
  // between the read and the store, and the old credentials stay in the cache with no delivery to come.
  lemma OvertakenReadStaysOld(w: World, own: Key, host: string, info: BasicInfo, c: Creds)
    requires Books(w, own) && Settled(w, KeyOf(info)) && c != w.secrets[KeyOf(info)]
    ensures var k := KeyOf(info);
      var w1 := Next(w, own, Read(host, info));
      var w2 := Next(w1, own, Change(k, c));
      var w3 := Next(w2, own, Deliver(k));
      var w4 := Next(w3, own, Store(|w.jobs|));
      Settled(w4, k) && host in w4.hosts && CredsOf(w4.hosts[host]) == w.secrets[k] != w4.secrets[k] && !UpToDate(w4)
  {
    assert SecretBooks(w, KeyOf(info));
    assert CredsOf(Entry(info, w.secrets[KeyOf(info)])) == w.secrets[KeyOf(info)];
  }
}
