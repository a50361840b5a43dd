/**
 The synchronisation when API calls fail: a failed event with a retriable error sleeps and is sent
 again later (processDHCPEvents in pkg/agent/hoststatus/dhcp.go), while the monitor goes on.
 */
module RetryRuns {
  import opened GoStrings
  import opened LeaseFile
  import opened LeaseDiff
  import opened HostNames
  import opened Api
  import opened HostStatusEvents
  import opened SyncRuns

  // The store, the last snapshot compared, the events of its tick still to be taken, the events asleep
  datatype World = World(store: Store, snapshot: ClientMap, queue: seq<Event>, sleeping: seq<Event>)

  datatype Move =
    | Compare(clients: seq<ClientInfo>, newOrder: seq<string>, oldOrder: seq<string>)
    | Take(f: Faults, now: string)
    | Wake(i: nat, f: Faults, now: string)

  // The monitor sends on unbuffered channels: the next tick comes after all events are taken.
  ghost predicate Enabled(w: World, m: Move) {
    match m
    case Compare(clients, newOrder, oldOrder) =>
      && w.queue == [] && IsOrderOf(newOrder, Latest(clients).Keys) && IsOrderOf(oldOrder, w.snapshot.Keys)
      && forall k :: 0 <= k < |clients| ==> DashFree(clients[k].ip)
    case Take(_, _) => w.queue != []
    case Wake(i, _, _) => i < |w.sleeping|
  }

  ghost function Emitted(w: World, m: Move): seq<Event>
    requires m.Compare? && Enabled(w, m)
  {
    Events(w.snapshot, Latest(m.clients), m.newOrder, m.oldOrder)
  }

  function Outcome(cfg: AgentConfig, store: Store, e: Event, f: Faults, now: string): (Slot, Option<ApiError>)
    requires cfg.dhcp.Some?
  {
    EventSlot(cfg, Host(cfg, store, e.client.ip), e, f, now)
  }

  function Stored(cfg: AgentConfig, store: Store, e: Event, slot: Slot): Store {
    Put(store, FormatName(cfg.clusterAgentName, e.client.ip), slot)
  }

  predicate GoesToSleep(err: Option<ApiError>) {
    err.Some? && ShouldRetry(err.value)
  }

  ghost function Next(cfg: AgentConfig, w: World, m: Move): World
    requires cfg.dhcp.Some? && Enabled(w, m)
  {
    match m
    case Compare(clients, _, _) => w.(snapshot := Latest(clients), queue := Emitted(w, m))
    case Take(f, now) =>
      var e := w.queue[0];
      var r := Outcome(cfg, w.store, e, f, now);
      World(Stored(cfg, w.store, e, r.0), w.snapshot, w.queue[1..],
            if GoesToSleep(r.1) then w.sleeping + [e] else w.sleeping)
    case Wake(i, f, now) =>
      var e := w.sleeping[i];
      var r := Outcome(cfg, w.store, e, f, now);
      var rest := w.sleeping[..i] + w.sleeping[i + 1..];
      World(Stored(cfg, w.store, e, r.0), w.snapshot, w.queue, if GoesToSleep(r.1) then rest + [e] else rest)
  }

  // The event a move handles
  function Handled(w: World, m: Move): Event
    requires !m.Compare? && (m.Take? ==> w.queue != []) && (m.Wake? ==> m.i < |w.sleeping|)
  {
    if m.Take? then w.queue[0] else w.sleeping[m.i]
  }

  // The object is already as the event wants it.
  predicate Needless(slot: Slot, e: Event) {
    match e
    case Add(c) => slot.Some? && slot.value.status.basic.mac == c.mac
    case Delete(_) => slot.None?
  }

  // Handling the event with these errors loses nothing: it is served or retried, or there was nothing to do, or the
  // object was created for a client without a MAC before its status could not be written.
  predicate Harmless(cfg: AgentConfig, slot: Slot, e: Event, f: Faults, now: string)
    requires cfg.dhcp.Some?
  {
    var err := EventSlot(cfg, slot, e, f, now).1;
    || err.None? || ShouldRetry(err.value) || Needless(slot, e)
    || (e.Add? && slot.None? && f.get.None? && f.create.None? && e.client.mac == "")
  }

  ghost predicate NothingLost(cfg: AgentConfig, w: World, m: Move)
    requires cfg.dhcp.Some? && Enabled(w, m)
  {
    !m.Compare? ==> var e := Handled(w, m); Harmless(cfg, Host(cfg, w.store, e.client.ip), e, m.f, m.now)
  }

  // A tick emits nothing for an address whose earlier event still sleeps.
  ghost predicate Calm(w: World, m: Move)
    requires Enabled(w, m)
  {
    m.Compare? ==> forall e, s :: e in Emitted(w, m) && s in w.sleeping ==> e.client.ip != s.client.ip
  }

  // ---- The invariant ------------------------------------------------------------------

  function Pending(w: World): seq<Event> { w.queue + w.sleeping }

  ghost predicate AgreesAt(cfg: AgentConfig, w: World, ip: string) {
    var slot := Host(cfg, w.store, ip);
    if ip in w.snapshot then slot.Some? && slot.value.status.basic.mac == w.snapshot[ip].mac else slot.None?
  }

  // An event that, when served, makes its address agree
  ghost predicate Wanted(w: World, e: Event) {
    match e
    case Add(c) => c.ip in w.snapshot && w.snapshot[c.ip].mac == c.mac
    case Delete(c) => c.ip !in w.snapshot
  }

  ghost predicate IsPending(w: World, ip: string) {
    exists e :: e in Pending(w) && e.client.ip == ip
  }

  ghost predicate Inv(cfg: AgentConfig, w: World) {
    && Keyed(w.snapshot) && (forall ip :: ip in w.snapshot ==> DashFree(ip))
    && OnePerIp(Pending(w)) && DashFreeEvents(Pending(w))
    && (forall e :: e in Pending(w) ==> Wanted(w, e))
    && (forall ip :: DashFree(ip) && !IsPending(w, ip) ==> AgreesAt(cfg, w, ip))
  }

  lemma OnePerIpJoin(a: seq<Event>, b: seq<Event>)
    requires OnePerIp(a) && OnePerIp(b)
    requires forall e, s :: e in a && s in b ==> e.client.ip != s.client.ip
    ensures OnePerIp(a + b)
  {
    var t := a + b;
    forall i, j | 0 <= i < j < |t| ensures t[i].client.ip != t[j].client.ip {
      if i < |a| <= j {
        assert t[i] in a && t[j] in b;
      }
    }
  }

  lemma CompareKeepsInv(cfg: AgentConfig, w: World, m: Move)
    requires cfg.dhcp.Some? && Inv(cfg, w) && m.Compare? && Enabled(w, m) && Calm(w, m)
    ensures Inv(cfg, Next(cfg, w, m))
  {
    var w' := Next(cfg, w, m);
    EventsExact(w.snapshot, Latest(m.clients), m.newOrder, m.oldOrder);
    assert Pending(w) == w.sleeping;
    OnePerIpJoin(Emitted(w, m), w.sleeping);
    forall e | e in Pending(w') ensures Wanted(w', e) && DashFree(e.client.ip) {
      EmittedIsWanted(cfg, w, m, e);
    }
    forall ip | DashFree(ip) && !IsPending(w', ip) ensures AgreesAt(cfg, w', ip) {
      CompareAgrees(cfg, w, m, ip);
    }
  }

  lemma EmittedIsWanted(cfg: AgentConfig, w: World, m: Move, e: Event)
    requires cfg.dhcp.Some? && Inv(cfg, w) && m.Compare? && Enabled(w, m) && Calm(w, m)
    requires e in Emitted(w, m) + w.sleeping
    ensures Wanted(Next(cfg, w, m), e) && DashFree(e.client.ip)
  {
    assert Pending(w) == w.sleeping;
    if e in w.sleeping {
      PendingIsDashFree(w, e);
      assert Wanted(w, e);
      UnchangedAt(w, m, e.client.ip);
    } else {
      EventsExact(w.snapshot, Latest(m.clients), m.newOrder, m.oldOrder);
      assert IsChange(w.snapshot, Latest(m.clients), e);
    }
  }

  lemma CompareAgrees(cfg: AgentConfig, w: World, m: Move, ip: string)
    requires cfg.dhcp.Some? && Inv(cfg, w) && m.Compare? && Enabled(w, m)
    requires DashFree(ip) && !IsPending(Next(cfg, w, m), ip)
    ensures AgreesAt(cfg, Next(cfg, w, m), ip)
  {
    var p' := Pending(Next(cfg, w, m));
    assert forall e :: e in Pending(w) || e in Emitted(w, m) ==> e in p';
    assert !IsPending(w, ip) && AgreesAt(cfg, w, ip);
    UnchangedAt(w, m, ip);
  }

  // An address without an event has the same MAC in both snapshots, or is in neither.
  lemma UnchangedAt(w: World, m: Move, ip: string)
    requires m.Compare? && Enabled(w, m) && Keyed(w.snapshot)
    requires forall e :: e in Emitted(w, m) ==> e.client.ip != ip
    ensures ip in w.snapshot <==> ip in Latest(m.clients)
    ensures ip in w.snapshot ==> w.snapshot[ip].mac == Latest(m.clients)[ip].mac
  {
    var now := Latest(m.clients);
    EventsExact(w.snapshot, now, m.newOrder, m.oldOrder);
    if ip in now {
      assert !IsChange(w.snapshot, now, Add(now[ip]));
    }
    if ip in w.snapshot {
      assert !IsChange(w.snapshot, now, Delete(w.snapshot[ip]));
    }
  }

  lemma OtherHosts(cfg: AgentConfig, store: Store, e: Event, slot: Slot, ip: string)
    requires DashFree(ip) && DashFree(e.client.ip)
    ensures Host(cfg, Stored(cfg, store, e, slot), ip) == if ip == e.client.ip then slot else Host(cfg, store, ip)
  {
    NameDeterminesIp(cfg.clusterAgentName, ip, e.client.ip);
  }

  // Taking an event out, or leaving it in, some place or other
  lemma Rearranged(p: seq<Event>, p': seq<Event>, e: Event, stays: bool)
    requires OnePerIp(p) && multiset(p) == multiset(p') + if stays then multiset{} else multiset{e}
    ensures OnePerIp(p') && (stays ==> forall s :: s in p' <==> s in p)
    ensures !stays ==> forall s :: s in p' <==> s in p && s != e
  {
    var back := if stays then p' else p' + [e];
    assert multiset(back) == multiset(p);
    OnePerIpPermuted(p, back);
    assert forall k :: 0 <= k < |p'| ==> back[k] == p'[k];
    if !stays {
      assert back[|p'|] == e;
    }
  }

  // Handling a wanted event keeps the invariant: served, its address agrees; otherwise it sleeps.
  lemma HandleKeepsInv(cfg: AgentConfig, w: World, w': World, e: Event, f: Faults, now: string)
    requires FollowsLeases(cfg) && Inv(cfg, w) && e in Pending(w) && w'.snapshot == w.snapshot
    requires w'.store == Stored(cfg, w.store, e, Outcome(cfg, w.store, e, f, now).0)
    requires var err := Outcome(cfg, w.store, e, f, now).1;
      && Harmless(cfg, Host(cfg, w.store, e.client.ip), e, f, now)
      && multiset(Pending(w)) == multiset(Pending(w')) + if GoesToSleep(err) then multiset{} else multiset{e}
    ensures Inv(cfg, w')
  {
    var r := Outcome(cfg, w.store, e, f, now);
    Rearranged(Pending(w), Pending(w'), e, GoesToSleep(r.1));
    assert forall s :: s in Pending(w') ==> s in Pending(w);
    forall k | 0 <= k < |Pending(w')| ensures DashFree(Pending(w')[k].client.ip) {
      PendingIsDashFree(w, Pending(w')[k]);
    }
    forall s | s in Pending(w') ensures Wanted(w', s) { assert Wanted(w, s); }
    forall ip | DashFree(ip) && !IsPending(w', ip) ensures AgreesAt(cfg, w', ip) {
      SettledAt(cfg, w, w', e, r, ip);
      if ip == e.client.ip {
        AgreesIffHarmless(cfg, w, e, f, now);
      }
    }
  }

  // An address nothing is pending for: either the handled event was its own and was served, or it was settled before.
  lemma SettledAt(cfg: AgentConfig, w: World, w': World, e: Event, r: (Slot, Option<ApiError>), ip: string)
    requires Inv(cfg, w) && e in Pending(w) && w'.store == Stored(cfg, w.store, e, r.0)
    requires forall s :: s in Pending(w) && (s != e || GoesToSleep(r.1)) ==> s in Pending(w')
    requires DashFree(ip) && !IsPending(w', ip)
    ensures ip == e.client.ip ==> !GoesToSleep(r.1) && Host(cfg, w'.store, ip) == r.0
    ensures ip != e.client.ip ==> AgreesAt(cfg, w, ip) && Host(cfg, w'.store, ip) == Host(cfg, w.store, ip)
  {
    PendingIsDashFree(w, e);
    OtherHosts(cfg, w.store, e, r.0, ip);
    if ip == e.client.ip {
      assert e in Pending(w') ==> IsPending(w', ip);
    } else {
      assert forall s :: s in Pending(w) && s.client.ip == ip ==> s in Pending(w') && IsPending(w', ip);
    }
  }

  // An event that does not sleep leaves its object as the snapshot wants it exactly when it was harmless.
  lemma AgreesIffHarmless(cfg: AgentConfig, w: World, e: Event, f: Faults, now: string)
    requires FollowsLeases(cfg) && Wanted(w, e) && !GoesToSleep(Outcome(cfg, w.store, e, f, now).1)
    ensures var slot, ip := Outcome(cfg, w.store, e, f, now).0, e.client.ip;
      (if ip in w.snapshot then slot.Some? && slot.value.status.basic.mac == w.snapshot[ip].mac else slot.None?)
      <==> Harmless(cfg, Host(cfg, w.store, ip), e, f, now)
  {
  }

  lemma PendingIsDashFree(w: World, e: Event)
    requires DashFreeEvents(Pending(w)) && e in Pending(w)
    ensures DashFree(e.client.ip)
  {
  }

  // The handled event is asleep afterwards or gone.
  lemma PendingAfter(cfg: AgentConfig, w: World, m: Move)
    requires cfg.dhcp.Some? && !m.Compare? && Enabled(w, m)
    ensures var e := Handled(w, m);
      multiset(Pending(w)) == multiset(Pending(Next(cfg, w, m)))
        + if GoesToSleep(Outcome(cfg, w.store, e, m.f, m.now).1) then multiset{} else multiset{e}
  {
    if m.Take? {
      TakeMultiset(w.queue, w.sleeping);
    } else {
      WakeMultiset(w.queue, w.sleeping, m.i);
    }
  }

  lemma HandledIsPending(w: World, m: Move)
    requires !m.Compare? && Enabled(w, m)
    ensures Handled(w, m) in Pending(w)
  {
    if m.Take? {
      assert Pending(w)[0] == w.queue[0];
    } else {
      assert Pending(w)[|w.queue| + m.i] == w.sleeping[m.i];
    }
  }

  lemma TakeMultiset(queue: seq<Event>, sleeping: seq<Event>)
    requires queue != []
    ensures multiset(queue + sleeping) == multiset(queue[1..] + sleeping) + multiset{queue[0]}
    ensures multiset(queue + sleeping) == multiset(queue[1..] + (sleeping + [queue[0]]))
  {
    assert queue == [queue[0]] + queue[1..];
  }

  lemma WakeMultiset(queue: seq<Event>, sleeping: seq<Event>, i: nat)
    requires i < |sleeping|
    ensures var rest := sleeping[..i] + sleeping[i + 1..];
      && multiset(queue + sleeping) == multiset(queue + rest) + multiset{sleeping[i]}
      && multiset(queue + sleeping) == multiset(queue + (rest + [sleeping[i]]))
  {
    assert sleeping == sleeping[..i] + [sleeping[i]] + sleeping[i + 1..];
  }

  lemma MoveKeepsInv(cfg: AgentConfig, w: World, m: Move)
    requires FollowsLeases(cfg) && Inv(cfg, w) && Enabled(w, m) && NothingLost(cfg, w, m) && Calm(w, m)
    ensures Inv(cfg, Next(cfg, w, m))
  {
    if m.Compare? {
      CompareKeepsInv(cfg, w, m);
    } else {
      HandledIsPending(w, m);
      PendingAfter(cfg, w, m);
      HandleKeepsInv(cfg, w, Next(cfg, w, m), Handled(w, m), m.f, m.now);
    }
  }

  // ---- Runs ------------------------------------------------------------------------------

  const START_WORLD := World(map[], map[], [], [])

  ghost predicate GoodRun(cfg: AgentConfig, w: World, moves: seq<Move>)
    requires cfg.dhcp.Some?
    decreases moves
  {
    moves == [] || (Enabled(w, moves[0]) && NothingLost(cfg, w, moves[0]) && Calm(w, moves[0])
                    && GoodRun(cfg, Next(cfg, w, moves[0]), moves[1..]))
  }

  ghost function RunMoves(cfg: AgentConfig, w: World, moves: seq<Move>): World
    requires cfg.dhcp.Some? && GoodRun(cfg, w, moves)
    decreases moves
  {
    if moves == [] then w else RunMoves(cfg, Next(cfg, w, moves[0]), moves[1..])
  }

  lemma {:induction false} RunKeepsInv(cfg: AgentConfig, w: World, moves: seq<Move>)
    requires FollowsLeases(cfg) && Inv(cfg, w) && GoodRun(cfg, w, moves)
    ensures Inv(cfg, RunMoves(cfg, w, moves))
    decreases moves
  {
    if moves != [] {
      MoveKeepsInv(cfg, w, moves[0]);
      RunKeepsInv(cfg, Next(cfg, w, moves[0]), moves[1..]);
    }
  }

  // However many calls fail in between: when nothing is pending any more, every address agrees with the last snapshot,
  // and its object is complete exactly when the status was written the last time the object was created.
  lemma RetriesConverge(cfg: AgentConfig, moves: seq<Move>, ip: string)
    requires FollowsLeases(cfg) && GoodRun(cfg, START_WORLD, moves) && DashFree(ip)
    ensures var w := RunMoves(cfg, START_WORLD, moves);
      Pending(w) == [] ==>
        && AgreesAt(cfg, w, ip)
        && (ip in w.snapshot ==>
              (MadeFor(cfg, ip, Host(cfg, w.store, ip).value) <==> Whole(cfg, START_WORLD, moves, ip, true)))
  {
    RunKeepsInv(cfg, START_WORLD, moves);
    WholeIffMadeFor(cfg, START_WORLD, moves, ip, true);
  }

  // ---- The errors that are retried --------------------------------------------------------

  predicate RetriedKind(err: Option<ApiError>) {
    err == None || err == Some(Conflict) || err == Some(ServerTimeout) || err == Some(TooManyRequests)
  }

  // Every call is served or answered by a conflict, a server timeout or too many requests.
  predicate OnlyRetried(m: Move) {
    m.Compare?
    || (RetriedKind(m.f.get) && RetriedKind(m.f.create) && RetriedKind(m.f.update) && RetriedKind(m.f.delete))
  }

  // Such errors lose nothing.
  lemma RetriedIsNotLost(cfg: AgentConfig, w: World, m: Move)
    requires cfg.dhcp.Some? && Enabled(w, m) && OnlyRetried(m)
    ensures NothingLost(cfg, w, m)
  {
  }

  ghost predicate RetriedRun(cfg: AgentConfig, w: World, moves: seq<Move>): (r: bool)
    requires cfg.dhcp.Some?
    ensures r ==> GoodRun(cfg, w, moves)
    decreases moves
  {
    moves == [] || (Enabled(w, moves[0]) && OnlyRetried(moves[0]) && Calm(w, moves[0])
                    && (RetriedIsNotLost(cfg, w, moves[0]); RetriedRun(cfg, Next(cfg, w, moves[0]), moves[1..])))
  }

  // So every calm run whose calls fail in these ways only, however often, converges once nothing is pending.
  lemma RetriedRunsConverge(cfg: AgentConfig, moves: seq<Move>, ip: string)
    requires FollowsLeases(cfg) && RetriedRun(cfg, START_WORLD, moves) && DashFree(ip)
    ensures var w := RunMoves(cfg, START_WORLD, moves); Pending(w) == [] ==> AgreesAt(cfg, w, ip)
  {
    RetriesConverge(cfg, moves, ip);
  }

  // A handled event sleeps exactly when its handler returned one of these errors; any other error loses it.
  lemma SleepsIff(cfg: AgentConfig, w: World, m: Move)
    requires cfg.dhcp.Some? && !m.Compare? && Enabled(w, m)
    ensures var e, w' := Handled(w, m), Next(cfg, w, m);
      var err := EventSlot(cfg, Host(cfg, w.store, e.client.ip), e, m.f, m.now).1;
      |w'.sleeping| + |w'.queue| == |w.sleeping| + |w.queue| - if err.Some? && RetriedKind(err) then 0 else 1
    ensures var e, w' := Handled(w, m), Next(cfg, w, m);
      var err := EventSlot(cfg, Host(cfg, w.store, e.client.ip), e, m.f, m.now).1;
      err.Some? && RetriedKind(err) ==> w'.sleeping != [] && w'.sleeping[|w'.sleeping| - 1] == e
  {
  }

  // ---- Complete objects ----------------------------------------------------------------------

  // The move creates the object of the address.
  ghost predicate Creates(cfg: AgentConfig, w: World, m: Move, ip: string)
    requires Enabled(w, m)
  {
    && !m.Compare? && Handled(w, m).Add? && Handled(w, m).client.ip == ip
    && Host(cfg, w.store, ip).None? && m.f.get.None? && m.f.create.None?
  }

  // Whether the status was written the last time the object of the address was created, `was` if it never was
  ghost predicate Whole(cfg: AgentConfig, w: World, moves: seq<Move>, ip: string, was: bool)
    requires cfg.dhcp.Some? && GoodRun(cfg, w, moves)
    decreases moves
  {
    if moves == [] then was
    else Whole(cfg, Next(cfg, w, moves[0]), moves[1..], ip,
               if Creates(cfg, w, moves[0], ip) then moves[0].f.update.None? else was)
  }

  ghost predicate MadeIff(cfg: AgentConfig, w: World, ip: string, whole: bool) {
    var slot := Host(cfg, w.store, ip);
    slot.Some? ==> (MadeFor(cfg, ip, slot.value) <==> whole)
  }

  // What handling an event makes of the object of its address
  lemma WholeSlot(cfg: AgentConfig, slot: Slot, e: Event, f: Faults, now: string, whole: bool)
    requires FollowsLeases(cfg) && (slot.Some? ==> (MadeFor(cfg, e.client.ip, slot.value) <==> whole))
    ensures var r := EventSlot(cfg, slot, e, f, now).0;
      var creates := e.Add? && slot.None? && f.get.None? && f.create.None?;
      r.Some? ==> (MadeFor(cfg, e.client.ip, r.value) <==> if creates then f.update.None? else whole)
  {
  }

  lemma WholeStep(cfg: AgentConfig, w: World, m: Move, ip: string, whole: bool)
    requires FollowsLeases(cfg) && Inv(cfg, w) && Enabled(w, m) && DashFree(ip) && MadeIff(cfg, w, ip, whole)
    ensures MadeIff(cfg, Next(cfg, w, m), ip, if Creates(cfg, w, m, ip) then m.f.update.None? else whole)
  {
    if !m.Compare? {
      var e := Handled(w, m);
      HandledIsPending(w, m);
      PendingIsDashFree(w, e);
      OtherHosts(cfg, w.store, e, Outcome(cfg, w.store, e, m.f, m.now).0, ip);
      if e.client.ip == ip {
        WholeSlot(cfg, Host(cfg, w.store, ip), e, m.f, m.now, whole);
      }
    }
  }

  lemma {:induction false} WholeIffMadeFor(cfg: AgentConfig, w: World, moves: seq<Move>, ip: string, whole: bool)
    requires FollowsLeases(cfg) && Inv(cfg, w) && GoodRun(cfg, w, moves) && DashFree(ip) && MadeIff(cfg, w, ip, whole)
    ensures MadeIff(cfg, RunMoves(cfg, w, moves), ip, Whole(cfg, w, moves, ip, whole))
    decreases moves
  {
    if moves != [] {
      MoveKeepsInv(cfg, w, moves[0]);
      WholeStep(cfg, w, moves[0], ip, whole);
      WholeIffMadeFor(cfg, Next(cfg, w, moves[0]), moves[1..], ip,
                      if Creates(cfg, w, moves[0], ip) then moves[0].f.update.None? else whole);
    }
  }

  // ---- Lost and overtaken events -----------------------------------------------------------

  // Every good continuation that leaves nothing pending makes every address agree.
  ghost predicate Safe(cfg: AgentConfig, w: World)
    requires cfg.dhcp.Some?
  {
    forall moves :: GoodRun(cfg, w, moves) ==> Settles(cfg, RunMoves(cfg, w, moves))
  }

  ghost predicate Settles(cfg: AgentConfig, w: World) {
    Pending(w) == [] ==> forall ip :: DashFree(ip) ==> AgreesAt(cfg, w, ip)
  }

  lemma InvIsSafe(cfg: AgentConfig, w: World)
    requires FollowsLeases(cfg) && Inv(cfg, w)
    ensures Safe(cfg, w)
  {
    forall moves | GoodRun(cfg, w, moves) ensures Settles(cfg, RunMoves(cfg, w, moves)) {
      RunKeepsInv(cfg, w, moves);
    }
  }

  lemma GoodCons(cfg: AgentConfig, w: World, m: Move, rest: seq<Move>)
    requires cfg.dhcp.Some? && Enabled(w, m) && NothingLost(cfg, w, m) && Calm(w, m)
    requires GoodRun(cfg, Next(cfg, w, m), rest)
    ensures GoodRun(cfg, w, [m] + rest) && RunMoves(cfg, w, [m] + rest) == RunMoves(cfg, Next(cfg, w, m), rest)
  {
    assert ([m] + rest)[1..] == rest;
  }

  lemma {:induction false} GoodSnoc(cfg: AgentConfig, w: World, moves: seq<Move>, m: Move)
    requires cfg.dhcp.Some? && GoodRun(cfg, w, moves)
    requires var t := RunMoves(cfg, w, moves); Enabled(t, m) && NothingLost(cfg, t, m) && Calm(t, m)
    ensures GoodRun(cfg, w, moves + [m])
    ensures RunMoves(cfg, w, moves + [m]) == Next(cfg, RunMoves(cfg, w, moves), m)
    decreases moves
  {
    if moves == [] {
      GoodCons(cfg, w, m, []);
      assert [] + [m] == [m] + [];
    } else {
      GoodSnoc(cfg, Next(cfg, w, moves[0]), moves[1..], m);
      GoodCons(cfg, w, moves[0], moves[1..] + [m]);
      assert [moves[0]] + (moves[1..] + [m]) == moves + [m];
    }
  }

  // A served event is harmless and leaves its object as it says.
  lemma ServedEvent(cfg: AgentConfig, slot: Slot, e: Event, now: string)
    requires FollowsLeases(cfg)
    ensures var r := EventSlot(cfg, slot, e, NO_FAULTS, now);
      && r.1.None?
      && match e
         case Add(c) => r.0.Some? && r.0.value.status.basic.mac == c.mac
         case Delete(_) => r.0.None?
  {
  }

  // One more event served, the one kept asleep apart
  ghost function ServeOne(w: World, keep: nat): (m: Move)
    requires keep <= |w.sleeping| && (w.queue != [] || |w.sleeping| > if keep < |w.sleeping| then 1 else 0)
    ensures Enabled(w, m) && !m.Compare? && m.f == NO_FAULTS
  {
    if w.queue != [] then Take(NO_FAULTS, "")
    else Wake(if keep == 0 && keep < |w.sleeping| then 1 else 0, NO_FAULTS, "")
  }

  // Where the kept event is then
  ghost function KeepAt(w: World, keep: nat): nat
    requires keep <= |w.sleeping|
  {
    if w.queue == [] && keep > 0 then keep - 1 else keep
  }

  lemma ServeOneStep(cfg: AgentConfig, w: World, keep: nat)
    requires FollowsLeases(cfg) && keep <= |w.sleeping| && DashFreeEvents(Pending(w))
    requires w.queue != [] || |w.sleeping| > if keep < |w.sleeping| then 1 else 0
    ensures var m := ServeOne(w, keep);
      var w' := Next(cfg, w, m);
      && NothingLost(cfg, w, m) && Calm(w, m) && w'.snapshot == w.snapshot
      && (forall e :: e in Pending(w') ==> e in Pending(w)) && DashFreeEvents(Pending(w'))
      && |Pending(w')| < |Pending(w)| && KeepAt(w, keep) <= |w'.sleeping|
      && (keep < |w.sleeping| ==> KeepAt(w, keep) < |w'.sleeping| && w'.sleeping[KeepAt(w, keep)] == w.sleeping[keep])
      && (keep == |w.sleeping| ==> KeepAt(w, keep) == |w'.sleeping|)
      && (forall ip :: DashFree(ip) && !IsPending(w, ip) ==> Host(cfg, w'.store, ip) == Host(cfg, w.store, ip))
  {
    var m := ServeOne(w, keep);
    var w' := Next(cfg, w, m);
    var e := Handled(w, m);
    ServedEvent(cfg, Host(cfg, w.store, e.client.ip), e, "");
    HandledIsPending(w, m);
    PendingIsDashFree(w, e);
    FewerPending(w, w', m);
    forall i | 0 <= i < |Pending(w')| ensures DashFree(Pending(w')[i].client.ip) {
      PendingIsDashFree(w, Pending(w')[i]);
    }
    forall ip | DashFree(ip) && !IsPending(w, ip) ensures Host(cfg, w'.store, ip) == Host(cfg, w.store, ip) {
      OtherHosts(cfg, w.store, e, Outcome(cfg, w.store, e, NO_FAULTS, "").0, ip);
    }
  }

  lemma FewerPending(w: World, w': World, m: Move)
    requires !m.Compare? && Enabled(w, m)
    requires m.Take? ==> w'.queue == w.queue[1..] && w'.sleeping == w.sleeping
    requires m.Wake? ==> w'.queue == w.queue && w'.sleeping == w.sleeping[..m.i] + w.sleeping[m.i + 1..]
    ensures |Pending(w')| < |Pending(w)| && forall e :: e in Pending(w') ==> e in Pending(w)
  {
    forall e | e in Pending(w') ensures e in Pending(w) {
      if e in w'.queue {
        assert e in w.queue;
      } else {
        assert e in w'.sleeping && e in w.sleeping;
      }
    }
  }

  // Every pending event can be served, one sleeping event last of all or not yet.
  lemma {:induction false} Drain(cfg: AgentConfig, w: World, keep: nat) returns (moves: seq<Move>)
    requires FollowsLeases(cfg) && keep <= |w.sleeping| && DashFreeEvents(Pending(w))
    ensures GoodRun(cfg, w, moves)
    ensures var t := RunMoves(cfg, w, moves);
      && t.queue == [] && t.snapshot == w.snapshot
      && t.sleeping == (if keep < |w.sleeping| then [w.sleeping[keep]] else [])
      && (forall ip :: DashFree(ip) && !IsPending(w, ip) ==> Host(cfg, t.store, ip) == Host(cfg, w.store, ip))
    decreases |Pending(w)|
  {
    if w.queue == [] && |w.sleeping| <= (if keep < |w.sleeping| then 1 else 0) {
      moves := [];
    } else {
      var m := ServeOne(w, keep);
      var w' := Next(cfg, w, m);
      ServeOneStep(cfg, w, keep);
      var rest := Drain(cfg, w', KeepAt(w, keep));
      GoodCons(cfg, w, m, rest);
      moves := [m] + rest;
      assert forall ip :: !IsPending(w, ip) ==> !IsPending(w', ip);
    }
  }

  // Serving the last pending event makes its address agree exactly if the snapshot wants the event.
  lemma LastServed(cfg: AgentConfig, w: World, s: Event)
    requires FollowsLeases(cfg) && w.queue == [] && w.sleeping == [s] && DashFree(s.client.ip)
    ensures var m := Wake(0, NO_FAULTS, "");
      && NothingLost(cfg, w, m) && Pending(Next(cfg, w, m)) == []
      && (AgreesAt(cfg, Next(cfg, w, m), s.client.ip) <==> Wanted(w, s))
  {
    ServedEvent(cfg, Host(cfg, w.store, s.client.ip), s, "");
    OtherHosts(cfg, w.store, s, Outcome(cfg, w.store, s, NO_FAULTS, "").0, s.client.ip);
  }

  // A sleeping event that the snapshot does not want any more can be served last, and leaves its address wrong.
  lemma UnwantedIsUnsafe(cfg: AgentConfig, w: World, i: nat)
    requires FollowsLeases(cfg) && i < |w.sleeping| && DashFreeEvents(Pending(w)) && !Wanted(w, w.sleeping[i])
    ensures !Safe(cfg, w)
  {
    var s, m := w.sleeping[i], Wake(0, NO_FAULTS, "");
    assert DashFree(s.client.ip) by { assert Pending(w)[|w.queue| + i] == s; }
    var moves := Drain(cfg, w, i);
    LastServed(cfg, RunMoves(cfg, w, moves), s);
    GoodSnoc(cfg, w, moves, m);
    assert !Settles(cfg, RunMoves(cfg, w, moves + [m]));
  }

  // An address that is wrong with nothing pending for it stays wrong.
  lemma WrongIsUnsafe(cfg: AgentConfig, w: World, ip: string)
    requires FollowsLeases(cfg) && DashFreeEvents(Pending(w)) && DashFree(ip)
    requires !IsPending(w, ip) && !AgreesAt(cfg, w, ip)
    ensures !Safe(cfg, w)
  {
    var moves := Drain(cfg, w, |w.sleeping|);
    var t := RunMoves(cfg, w, moves);
    assert Pending(t) == [] && !AgreesAt(cfg, t, ip);
    assert !Settles(cfg, t);
  }

  // A tick that emits for an address whose earlier event still sleeps makes the sleeping event unwanted.
  lemma OvertakenIsUnsafe(cfg: AgentConfig, w: World, m: Move)
    requires FollowsLeases(cfg) && Inv(cfg, w) && m.Compare? && Enabled(w, m) && !Calm(w, m)
    ensures !Safe(cfg, Next(cfg, w, m))
  {
    var e, s :| e in Emitted(w, m) && s in w.sleeping && e.client.ip == s.client.ip;
    var i :| 0 <= i < |w.sleeping| && w.sleeping[i] == s;
    var w' := Next(cfg, w, m);
    EventsExact(w.snapshot, Latest(m.clients), m.newOrder, m.oldOrder);
    assert s in Pending(w) && Wanted(w, s) && IsChange(w.snapshot, Latest(m.clients), e);
    EmittedIsDashFree(cfg, w, m);
    UnwantedIsUnsafe(cfg, w', i);
  }

  lemma EmittedIsDashFree(cfg: AgentConfig, w: World, m: Move)
    requires cfg.dhcp.Some? && Inv(cfg, w) && m.Compare? && Enabled(w, m)
    ensures DashFreeEvents(Pending(Next(cfg, w, m)))
  {
    var p := Pending(Next(cfg, w, m));
    EventsExact(w.snapshot, Latest(m.clients), m.newOrder, m.oldOrder);
    assert Pending(w) == w.sleeping;
    forall i | 0 <= i < |p| ensures DashFree(p[i].client.ip) {
      if i < |Emitted(w, m)| {
        assert p[i] in Emitted(w, m) && IsChange(w.snapshot, Latest(m.clients), p[i]);
      } else {
        assert p[i] in Pending(w);
        PendingIsDashFree(w, p[i]);
      }
    }
  }

  // An event lost with its object not as the snapshot wants it leaves the address wrong.
  lemma LostIsUnsafe(cfg: AgentConfig, w: World, m: Move)
    requires FollowsLeases(cfg) && Inv(cfg, w) && !m.Compare? && Enabled(w, m) && !NothingLost(cfg, w, m)
    ensures !Safe(cfg, Next(cfg, w, m))
  {
    var e := Handled(w, m);
    var w' := Next(cfg, w, m);
    var r := Outcome(cfg, w.store, e, m.f, m.now);
    HandledIsPending(w, m);
    PendingIsDashFree(w, e);
    PendingAfter(cfg, w, m);
    Rearranged(Pending(w), Pending(w'), e, false);
    forall i | 0 <= i < |Pending(w')| ensures DashFree(Pending(w')[i].client.ip) {
      PendingIsDashFree(w, Pending(w')[i]);
    }
    OnlyOne(Pending(w), e);
    AgreesIffHarmless(cfg, w, e, m.f, m.now);
    OtherHosts(cfg, w.store, e, r.0, e.client.ip);
    WrongIsUnsafe(cfg, w', e.client.ip);
  }

  lemma OnlyOne(p: seq<Event>, e: Event)
    requires OnePerIp(p) && e in p
    ensures forall s :: s in p && s.client.ip == e.client.ip ==> s == e
  {
  }

  // A move is safe exactly when the event it handles is not lost and the tick it makes emits nothing for an address
  // whose earlier event still sleeps.
  lemma MoveIsSafeIff(cfg: AgentConfig, w: World, m: Move)
    requires FollowsLeases(cfg) && Inv(cfg, w) && Enabled(w, m)
    ensures Safe(cfg, Next(cfg, w, m)) <==> NothingLost(cfg, w, m) && Calm(w, m)
  {
    if NothingLost(cfg, w, m) && Calm(w, m) {
      MoveKeepsInv(cfg, w, m);
      InvIsSafe(cfg, Next(cfg, w, m));
    } else if m.Compare? {
      OvertakenIsUnsafe(cfg, w, m);
    } else {
      LostIsUnsafe(cfg, w, m);
    }
  }

  // ---- A half-finished creation --------------------------------------------------------------

  // An object whose creation stopped before its status was written
  ghost predicate HalfMade(slot: Slot) {
    slot.Some? && slot.value.status.clusterAgent == "" && slot.value.status.basic.ipAddr == ""
  }

  function Adds(cfg: AgentConfig, slot: Slot, clients: seq<ClientInfo>, faults: seq<Faults>, now: string): Slot
    requires |faults| == |clients|
  {
    if clients == [] then slot
    else
      var n := |clients| - 1;
      AddSlot(cfg, Adds(cfg, slot, clients[..n], faults[..n], now), clients[n], faults[n], now).0
  }

  // No number of later add events, failing or not, ever completes it.
  lemma {:induction false} HalfMadeStays(cfg: AgentConfig, c: ClientInfo, err: ApiError, clients: seq<ClientInfo>,
                                         faults: seq<Faults>, now: string)
    requires !DiscoveryOff(cfg) && |faults| == |clients|
    ensures HalfMade(Adds(cfg, AddSlot(cfg, None, c, NO_FAULTS.(update := Some(err)), now).0, clients, faults, now))
  {
    if clients != [] {
      var n := |clients| - 1;
      HalfMadeStays(cfg, c, err, clients[..n], faults[..n], now);
    }
  }
}
