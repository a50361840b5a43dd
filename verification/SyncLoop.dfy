/**
 The monitor and the event handler put together: any number of lease files read in turn, each tick's events
 handled as they are sent, API calls served.
 */
module SyncLoop {
  import opened GoStrings
  import opened LeaseFile
  import opened LeaseDiff
  import opened HostNames
  import opened Api
  import opened HostStatusEvents
  import opened SyncRuns
  import opened DhcpServer

  function Parsed(file: FileRead): seq<ClientInfo> {
    if file.Content? then ParseLines(Split(file.text, "\n")) else []
  }

  // The snapshots read: a file that cannot be read is skipped, an absent one is empty
  function Snapshots(files: seq<FileRead>): seq<seq<ClientInfo>> {
    if files == [] then []
    else Snapshots(files[..|files| - 1]) + if files[|files| - 1].Unreadable? then [] else [Parsed(files[|files| - 1])]
  }

  function ClientsOf(ticks: seq<Tick>): seq<seq<ClientInfo>> {
    seq(|ticks|, i requires 0 <= i < |ticks| => ticks[i].clients)
  }

  ghost predicate DashFreeFile(file: FileRead) {
    forall i :: 0 <= i < |Parsed(file)| ==> DashFree(Parsed(file)[i].ip)
  }

  // The events of one tick, handled in the order sent
  method HandleAll(controller: HostStatusController, events: seq<Event>, now: string)
    requires controller.config.dhcp.Some?
    modifies controller
    ensures controller.store == ApplyAll(controller.config, old(controller.store), events, now)
  {
    for i := 0 to |events|
      invariant controller.store == ApplyAll(controller.config, old(controller.store), events[..i], now)
    {
      assert events[..i + 1][..i] == events[..i];
      var retry := controller.ProcessEvent(events[i], NO_FAULTS, now);
    }
    assert events[..|events|] == events;
  }

  // One tick of the monitor with its events handled
  method OneTick(server: Server, controller: HostStatusController, file: FileRead, now: string)
    returns (ok: bool, ghost t: Tick)
    requires controller.config.dhcp.Some? && DashFreeFile(file)
    modifies server, controller
    ensures ok <==> !file.Unreadable?
    ensures !ok ==> server.previousClients == old(server.previousClients) && controller.store == old(controller.store)
    ensures ok ==> ValidTick(Latest(old(server.previousClients)), t)
    ensures ok ==> t.clients == server.previousClients == Parsed(file)
    ensures ok ==> controller.store == ApplyAll(controller.config, old(controller.store), t.delivered, t.now)
  {
    var events;
    ghost var newOrder, oldOrder;
    ok, events, newOrder, oldOrder := server.UpdateStats(file);
    HandleAll(controller, events, now);
    t := Tick(server.previousClients, newOrder, oldOrder, events, now);
    if ok {
      assert t.clients == Parsed(file);
      assert forall i :: 0 <= i < |t.clients| ==> DashFree(t.clients[i].ip);
    }
  }

  lemma {:induction false} ValidSnoc(ticks: seq<Tick>, t: Tick)
    requires ValidRun(ticks) && ValidTick(Snapshot(ticks), t)
    ensures ValidRun(ticks + [t]) && ClientsOf(ticks + [t]) == ClientsOf(ticks) + [t.clients]
  {
    assert (ticks + [t])[..|ticks|] == ticks;
  }

  lemma {:induction false} RunSnoc(cfg: AgentConfig, init: Store, ticks: seq<Tick>, t: Tick)
    requires cfg.dhcp.Some?
    ensures Run(cfg, init, ticks + [t]) == ApplyAll(cfg, Run(cfg, init, ticks), t.delivered, t.now)
  {
    assert (ticks + [t])[..|ticks|] == ticks;
  }

  // Synchronising over these files is a run of ticks over their snapshots.
  method Synchronise(server: Server, controller: HostStatusController, files: seq<FileRead>, now: string)
    returns (ghost ticks: seq<Tick>)
    requires server.previousClients == [] && controller.config.dhcp.Some?
    requires forall i :: 0 <= i < |files| ==> DashFreeFile(files[i])
    modifies server, controller
    ensures ValidRun(ticks) && ClientsOf(ticks) == Snapshots(files)
    ensures controller.store == Run(controller.config, old(controller.store), ticks)
    ensures Latest(server.previousClients) == Snapshot(ticks)
  {
    ticks := [];
    for i := 0 to |files|
      invariant ValidRun(ticks) && ClientsOf(ticks) == Snapshots(files[..i])
      invariant controller.store == Run(controller.config, old(controller.store), ticks)
      invariant Latest(server.previousClients) == Snapshot(ticks)
    {
      assert files[..i + 1][..i] == files[..i];
      var ok;
      ghost var t;
      ok, t := OneTick(server, controller, files[i], now);
      if ok {
        ValidSnoc(ticks, t);
        RunSnoc(controller.config, old(controller.store), ticks, t);
        ticks := ticks + [t];
      }
    }
    assert files[..|files|] == files;
  }

  // The lines of the last file that could be read; an absent file has none
  function LastLines(files: seq<FileRead>): seq<string> {
    if files == [] then []
    else match files[|files| - 1]
      case Unreadable => LastLines(files[..|files| - 1])
      case Missing => []
      case Content(text) => Split(text, "\n")
  }

  lemma {:induction false} LastSnapshot(files: seq<FileRead>)
    ensures ParseLines(LastLines(files))
         == if Snapshots(files) == [] then [] else Snapshots(files)[|Snapshots(files)| - 1]
  {
    if files != [] {
      LastSnapshot(files[..|files| - 1]);
    }
  }

  lemma {:induction false} SnapshotOf(ticks: seq<Tick>, files: seq<FileRead>)
    requires ClientsOf(ticks) == Snapshots(files)
    ensures Snapshot(ticks) == Latest(ParseLines(LastLines(files)))
  {
    LastSnapshot(files);
    assert ticks != [] ==> ClientsOf(ticks)[|ticks| - 1] == ticks[|ticks| - 1].clients;
  }

  // From an empty store, with discovery on and binding off: after the last file the HostStatus objects are exactly one
  // per address leased in the last file read, each complete and with the MAC of the last block of its address.
  method SynchroniseFromEmpty(server: Server, controller: HostStatusController, files: seq<FileRead>, now: string)
    returns (ghost ticks: seq<Tick>)
    requires server.previousClients == [] && controller.store == map[] && FollowsLeases(controller.config)
    requires forall i :: 0 <= i < |files| ==> DashFreeFile(files[i])
    modifies server, controller
    ensures StoreIs(controller.config, controller.store, LastLines(files))
    ensures ValidRun(ticks) && ClientsOf(ticks) == Snapshots(files)
    ensures controller.store == Run(controller.config, map[], ticks)
  {
    ticks := Synchronise(server, controller, files, now);
    SnapshotOf(ticks, files);
    StoreMatchesFile(controller.config, ticks, LastLines(files));
  }
}
