# The BMC agent's DHCP-to-HostStatus synchronisation, modelled in Dafny

The agent runs an ISC dhcpd, reads its lease file every three seconds, turns lease changes into
HostStatus objects, keeps connection data and credentials of those hosts in a cache, writes fixed-IP
bindings from the cache back into the dhcpd configuration, polls each host over Redfish and executes
HostOperations. This project models that loop and the state machines around it, and proves what the
loop keeps over whole runs.

| file | what it holds |
|---|---|
| `GoStrings.dfy` | the parts of Go's `strings` the agent relies on |
| `LeaseFile.dfy`, `LeasePrinter.dfy` | the lease-file reader, its meaning block by block, and the round trip with a printer |
| `Ipv4.dfy`, `HostNames.dfy` | address arithmetic, subnets, names of HostStatus objects |
| `LeaseDiff.dfy` | the difference of two snapshots as events |
| `Api.dfy`, `HostStatusEvents.dfy` | the HostStatus resource and the handlers of DHCP events |
| `SyncRuns.dfy`, `SyncLoop.dfy`, `RetryRuns.dfy` | whole runs, the loop as code, runs with failing API calls |
| `HostCache.dfy`, `FixedIps.dfy`, `DhcpServer.dfy`, `FeedbackLoop.dfy` | the host cache, the fixed-IP bindings, the server's state, the closed loop |
| `DhcpLifecycle.dfy` | Start, Stop, monitor and launch goroutine as a concurrent system |
| `HostOperation.dfy` | power operations over a versioned object with stale reads |
| `Credentials.dfy`, `RedfishSessions.dfy`, `StatusPoll.dfy` | credentials in the cache, Redfish sessions, the status poll |

`dafny verify dfyconfig.toml` checks the whole project.

## How the world is modelled

- A Go map is ranged over in an arbitrary order: the order is a parameter, or a ghost result of a method that picks keys
  freely, and every theorem holds for all orders.
- API calls, Redfish, the file system, the clock and process signals are answers given from outside. An API call that
  returns an error had no effect, except in `HostOperation.dfy`, where a write may also take effect and still report an error.
- Reads of HostStatus objects by the DHCP event handlers are current. A plain update of an object with a status subresource
  leaves its status alone, as the creation comment at pkg/agent/hoststatus/dhcp.go:120-125 says of creation.
- Each method of the host cache is one atomic step, although `UpdateSecet` writes under a read lock
  (pkg/agent/hoststatus/data/cache.go:104). Delivering a secret is one step; reconciling a HostStatus is two, the read of
  the credentials and the store of the entry.
- In the dhcpd life cycle a signal fails only on a process that was waited for, and the launch part and the exit part of the
  goroutine are one step each. The monitor's three reads of the command field, made without the mutex, are steps of their own.

## Where code and intent part

- Both bindings, of DHCP hosts and of static hosts, are guarded by `EnableBindStaticIP` (pkg/dhcpserver/tools.go:136,
  pkg/dhcpserver/monitor.go:144), while doc/usage/dhcp.md:20-21 ties the DHCP ones to `EnableBindDhcpIP`. The model follows the
  code. `FixedIps.MeetsDocumentIff` says for which flags and caches the code binds what is documented,
  `FixedIps.OneFlagMisleads` shows the two failures, and `FeedbackLoop.EveryLeaseStaysBound` says when the documented promise
  holds of a whole run.
- `Active` is set by the last line with "binding state", so the rewind state decides (`LeasePrinter.DocumentedBlock`).
- The dhcpd life cycle is safe exactly as long as the launch goroutine of a Start has run before the monitor's next Stop, and no
  Stop of the shutdown path clears the command between the monitor's reads of it (`DhcpLifecycle.StepIsSafeIff`). Otherwise two
  dhcpd processes can live at once (`DhcpLifecycle.LateLaunchFromBoot`) or the monitor dereferences nil
  (`DhcpLifecycle.ShutdownBetweenReads`).
- A failed Start is retried by the monitor; main's first Start is not, the agent exits (`DhcpLifecycle.FailedStartIsRetried`).
- The code writes the status "failed", the schema knows "failure": a failed operation is never recorded, and it is executed
  again without bound (`HostOperation.FailureIsNeverRecorded`, `HostOperation.FailingOperationRepeats`).
- Credentials read before a delivery and stored after it stay old (`Credentials.OvertakenReadStaysOld`);
  `Credentials.CacheIsUpToDateIff` and `Credentials.OvertakenIff` give the exact condition on the schedule.
- A retry that is overtaken by a later event for its address, or an event lost to an error that is not retried, can leave the
  store wrong (`RetryRuns.MoveIsSafeIff`), and a half-finished creation is never completed by further add events
  (`RetryRuns.HalfMadeStays`).
- A logout drops the client from the cache even when the server did not delete its session, so sessions can pile up at an
  address (`RedfishSessions.SessionsBalance`).
- A released and re-leased address keeps the label "false", and the status flag `ActiveDhcpClient` is never cleared
  (`SyncRuns.StoreKeepsLeases`).
- A change of the log alone is never written, and its events are emitted again at every poll
  (`StatusPoll.LogAloneIsDropped`, `StatusPoll.UnrecordedLogRepeats`).
- Two DHCP hosts that share an address with different MACs can make the server restart over an unchanged cache
  (`FixedIps.StableIffUnambiguous`).

## Model

| member | source | states |
|---|---|---|
| LeaseFile.GetDhcpClients | pkg/dhcpserver/tools.go:277-376 | an absent file gives no clients, an unreadable one an error, any other the result of the line scanner, whose meaning the next rows give |
| LeaseFile.LearnLine | pkg/dhcpserver/tools.go:330-364 | a line inside a block sets exactly the fields whose keyword it holds with enough parts |
| LeaseFile.ParserIsMeaning | pkg/dhcpserver/tools.go:288-375 | for every file the scanner equals the declarative meaning: per lease line one client, each field that of the last line setting it before the first closing brace |
| LeaseFile.ParseConcat | pkg/dhcpserver/tools.go:293-372 | a file cut before a lease line parses to the concatenation of the parses |
| LeaseFile.SingleBlock | pkg/dhcpserver/tools.go:301-328 | a lease line with no further lease line is exactly one client, lines after its closing brace do not count |
| LeaseFile.FlagFollowsCurrent | pkg/dhcpserver/tools.go:290-331 | `inLeaseBlock` holds exactly when there is a current client |
| LeaseFile.OneClientPerLeaseLine | pkg/dhcpserver/tools.go:301-318 | the addresses parsed are those on the lease lines, in file order, one client each |
| LeasePrinter.LineSays | pkg/dhcpserver/tools.go:330-364 | a printed statement tells the reader what it says and nothing else |
| LeasePrinter.BareLease | pkg/dhcpserver/tools.go:311-316 | a lease line without an address opens a block with the empty address |
| LeasePrinter.RoundTrip | pkg/dhcpserver/tools.go:288-375 | printing any well-formed leases, statements in any order and number, lines the reader ignores among them, comments between, any indentation, the brace after the address with or without a space, and reading the text returns the same clients in order |
| LeasePrinter.DocumentedBlock | doc/design/agent.md:74-93 | of the text of a documented block, with other items before and after, address, MAC, start and end are read back; `Active` is the rewind state's |
| LeasePrinter.PlainTextIsWord | doc/design/agent.md:74-93 | addresses, MACs, dates and times meet the conditions of the round trip |
| Ipv4.ShiftOrIsBase256 | pkg/dhcpserver/tools.go:250-259 | the shift-and-or of the octets is their base-256 value |
| Ipv4.OrderPreserving | pkg/dhcpserver/tools.go:250-259 | the conversion orders addresses as their octets do and is injective |
| Ipv4.RangeSizeIsCount | pkg/dhcpserver/tools.go:235-242 | the range size is the number of addresses from start to end, at most 2^32, and positive exactly when start is not after end |
| Ipv4.OtherIsZero | pkg/dhcpserver/tools.go:250-256 | an address that is not IPv4 counts as 0.0.0.0 in a range |
| Ipv4.ParsePrinted | pkg/dhcpserver/tools.go:215-216 | a printed dotted quad parses to the same octets |
| Ipv4.ParsedIsPrinted | pkg/dhcpserver/tools.go:164-167 | a text is taken for an IPv4 address exactly when it is its printed form, without leading zeros |
| Ipv4.SubnetIsRun | pkg/dhcpserver/tools.go:169-172 | membership by prefix equality (section 3.1 of RFC 4632) is membership in one aligned run of addresses |
| HostNames.NameDeterminesBoth | pkg/agent/hoststatus/tools.go:41-43 | agent name and dotted quad are both determined by the HostStatus name, dashes and digits in agent names included |
| HostNames.NameOfAddress | pkg/agent/hoststatus/tools.go:41-43 | the name is the agent, then the four octets, each led by a dash |
| HostNames.NameDeterminesIp | pkg/agent/hoststatus/dhcp.go:60 | for one agent, addresses without dashes never share a name |
| HostNames.SharedNameWithoutShape | pkg/agent/hoststatus/tools.go:41-43 | without those conditions two hosts can share a name |
| LeaseDiff.EventsExact | pkg/dhcpserver/monitor.go:99-119 | a tick emits exactly the changes, at most one event per address, for every iteration order |
| LeaseDiff.UnchangedIsSilent | pkg/dhcpserver/monitor.go:99-119 | a tick is silent exactly when the address-MAC pairs are unchanged |
| LeaseDiff.TickTurnsOldIntoNew | pkg/dhcpserver/monitor.go:86-121 | every permutation of a tick's events turns the old address-to-MAC map into the new one |
| LeaseDiff.LatestIsLast | pkg/dhcpserver/monitor.go:86-91 | of several leases of an address the last one counts |
| LeaseDiff.UsedCoversDistinct | pkg/dhcpserver/monitor.go:121-123 | the leases counted as used are at least the distinct addresses, with equality exactly when none repeats |
| DhcpServer.Server.UpdateStats | pkg/dhcpserver/monitor.go:70-132 | the events are the difference to the previous snapshot, the snapshot is replaced, used is the number of leases and used plus available the range total; an unreadable file changes nothing |
| DhcpServer.Server.CalculateTotalIPs | pkg/dhcpserver/tools.go:206-226 | the total is the range size exactly when the text has two parts that parse, and is kept otherwise |
| DhcpServer.Server.BuildFixedIPs | pkg/dhcpserver/tools.go:135-147 | the bindings of the cache for some iteration orders when the static flag is on, none otherwise |
| DhcpServer.Server.CheckHostStatusForFixedIPs | pkg/dhcpserver/monitor.go:134-186 | true exactly when a flag is on and the rebuilt bindings differ from the recorded ones |
| DhcpServer.Server.NumberStanzas | pkg/dhcpserver/tools.go:160-178 | host1 to hostN hold exactly the bindings that parse and lie in the subnet, each once |
| DhcpServer.Server.GenerateConfig | pkg/dhcpserver/tools.go:86-197 | which failures leave the record alone, that the bindings are recorded before rendering, and the stanzas written |
| DhcpServer.NoRestartWhenUnchanged | pkg/dhcpserver/monitor.go:43-47 | what is recorded and what the check rebuilds and compares it with; over an unchanged unambiguous cache no restart is asked for, whatever the orders, even after a failed rendering |
| DhcpServer.EligibleIff | pkg/dhcpserver/tools.go:164-172 | an address becomes a stanza exactly when it lies in the run of addresses of the subnet; text that is no address never does |
| DhcpServer.HostNamesDiffer | pkg/dhcpserver/tools.go:175 | stanza names are distinct, so none is overwritten |
| DhcpServer.HostNamesAre | pkg/dhcpserver/tools.go:174-175 | the stanzas are named host1, host2 and so on |
| FixedIps.BindingAt | pkg/dhcpserver/tools.go:135-147 | every cached address is bound, a static host's to the virtual MAC, any other to the MAC of a DHCP host with it |
| FixedIps.StableIffUnambiguous | pkg/dhcpserver/monitor.go:143-185 | all iteration orders give the same bindings exactly when DHCP hosts sharing an address not taken by a static host agree on the MAC |
| FixedIps.DistinctAddressesSuffice | pkg/dhcpserver/monitor.go:143-149 | distinct DHCP addresses are enough for that |
| FixedIps.MeetsDocumentIff | doc/usage/dhcp.md:20-33 | the code binds what is documented exactly when the flags are equal, or only the static one is on and every DHCP host shares its address with a static one, or only the DHCP one is on and no DHCP host is cached |
| FixedIps.OneFlagMisleads | pkg/dhcpserver/tools.go:135-147 | with one DHCP host and only the DHCP flag nothing is bound though it should be; with only the static flag it is bound though it should not be |
| FeedbackLoop.ReconcileAll | pkg/agent/hoststatus/HostStatusReconcile.go:247-335 | reconciling all stored and cached names in any order caches every host of the agent with an address and credentials, as a DHCP host exactly when its type is "dhcp", drops what is gone and leaves the rest |
| FeedbackLoop.ReconcileFromEmpty | pkg/agent/hoststatus/HostStatusReconcile.go:247-335 | from an empty cache the cache then mirrors the store, whatever it holds |
| FeedbackLoop.BindingsOfRun | pkg/dhcpserver/tools.go:135-150 | over a cache that mirrors a run with host endpoints and hosts of other agents besides: if the static flag is on, an endpoint's address is bound to the virtual MAC, leased or not, and any other to the MAC the run knows for it; otherwise nothing is bound |
| FeedbackLoop.LeasesAreBound | pkg/dhcpserver/tools.go:135-150 | from any files to `lastBoundIPList`: without DHCP binding exactly the host endpoints with the virtual MAC and the other addresses of the last file read with their last MACs, if the static flag is on, nothing otherwise |
| FeedbackLoop.EveryLeaseStaysBound | pkg/dhcpserver/tools.go:135-150 | with DHCP binding the host endpoints with the virtual MAC and every other address ever leased with the MAC it was last leased to, if the static flag is on, nothing otherwise; so all leased addresses are bound exactly when that flag is on or none was leased |
| HostStatusEvents.HostStatusController.HandleDHCPAdd | pkg/agent/hoststatus/dhcp.go:58-174 | the one object of the client's name changes as the branches and API errors say, all others stay |
| HostStatusEvents.HostStatusController.HandleDHCPDelete | pkg/agent/hoststatus/dhcp.go:176-237 | the one object of the client's name is deleted, or labelled inactive when binding is on |
| HostStatusEvents.HostStatusController.ProcessEvent | pkg/agent/hoststatus/dhcp.go:25-55 | the handler's effect, and a retry exactly for conflict, server timeout and too many requests |
| HostStatusEvents.HandledIsDone | pkg/agent/hoststatus/dhcp.go:58-237 | with discovery on, an event handled without an error is done: the object has the MAC, is gone, or is labelled inactive; an error is that of a call and leaves the object as it was, or bare if only the second call of a creation failed |
| HostStatusEvents.NoConfigDiscovers | pkg/agent/hoststatus/dhcp.go:64-68 | without a DHCP configuration an add is handled as with discovery on |
| HostStatusEvents.EventDecides | pkg/agent/hoststatus/dhcp.go:58-237 | the only event for an address decides its object wherever it is delivered |
| HostStatusEvents.OrderIrrelevant | pkg/agent/hoststatus/dhcp.go:25-55 | the store after a tick does not depend on the order of its events |
| SyncRuns.StoreFollowsLeases | pkg/agent/hoststatus/dhcp.go:58-237 | binding off: after every run from any store an address leased last has an object with its last MAC, one released has none, one never leased keeps what it had |
| SyncRuns.StoreIsExactlyTheLeases | pkg/dhcpserver/monitor.go:82-121 | from an empty store: exactly one object per leased address, complete, with the last MAC listed |
| SyncRuns.StoreMatchesFile | pkg/dhcpserver/tools.go:277-376 | the same in terms of the lines of the last lease file: one complete object per leased address, with the MAC that the last block of the address gives |
| SyncRuns.ForeignUntouched | pkg/agent/hoststatus/dhcp.go:58-237 | objects of other names are never touched |
| SyncRuns.StoreKeepsLeases | pkg/agent/hoststatus/dhcp.go:71-100 | binding on: each address ever leased has an object with the MAC of the latest snapshot that had it; the active label is "false" exactly when it was released once |
| SyncRuns.NamesNeverShrink | pkg/agent/hoststatus/dhcp.go:186-215 | binding on: no tick removes an object |
| SyncRuns.ObjectHistory | pkg/agent/hoststatus/dhcp.go:58-237 | from any store, in either mode: an object has the MAC known for its address and the clock of the tick that made it or last changed its MAC; one from the start that was not deleted keeps health, info, log, agent and every basic field but the MAC; any other was made for the address and claims no health, info or log |
| SyncRuns.NewObjectsAreUnpolled | pkg/agent/hoststatus/dhcp.go:137-157 | every object made by a run from nothing is complete, unhealthy, without info and log, and carries that clock |
| SyncRuns.DiscoveryOffUntouched | pkg/agent/hoststatus/dhcp.go:64-68 | with discovery off no run changes anything |
| SyncLoop.OneTick | pkg/dhcpserver/monitor.go:23-30 | one tick of the server with its events handled is one tick of the run model |
| SyncLoop.Synchronise | pkg/dhcpserver/monitor.go:19-63 | reading any files in turn is a run over their snapshots |
| SyncLoop.SynchroniseFromEmpty | pkg/dhcpserver/monitor.go:19-63 | from an empty store the objects end up exactly those of the lines of the last file that could be read, complete and with the MACs of the last blocks |
| RetryRuns.RetriesConverge | pkg/agent/hoststatus/dhcp.go:25-55 | however many calls fail, if no event is lost and no tick emits for an address whose earlier event still sleeps: once nothing is pending every address agrees with the last snapshot, and its object is complete exactly when the status was written the last time the object was created |
| RetryRuns.RetriedRunsConverge | pkg/agent/hoststatus/dhcp.go:20-40 | every calm run whose failing calls answer conflict, server timeout or too many requests converges once nothing is pending |
| RetryRuns.SleepsIff | pkg/agent/hoststatus/dhcp.go:32-40 | a handled event sleeps exactly when its handler returned one of these three errors; any other error loses it |
| RetryRuns.MoveIsSafeIff | pkg/agent/hoststatus/dhcp.go:25-55 | from any state a run keeps, a move keeps all continuations converging exactly when the event it handles is served, retried or had nothing to do, and the tick it makes emits nothing for an address whose earlier event still sleeps |
| RetryRuns.AgreesIffHarmless | pkg/agent/hoststatus/dhcp.go:58-237 | an event that is not retried leaves its object as the snapshot wants it exactly when it was harmless, for every event, object and combination of errors |
| RetryRuns.HalfMadeStays | pkg/agent/hoststatus/dhcp.go:71-100 | an object whose creation stopped before its status is never completed by add events |
| DhcpLifecycle.StepKeepsInv | pkg/dhcpserver/server.go:175-346 | every prompt step keeps the invariant of the life cycle, and a Stop that returns nil leaves no process alive |
| DhcpLifecycle.RunKeepsInv | pkg/dhcpserver/server.go:175-346 | in every interleaving of prompt steps at most one process lives, nothing panics and Stop's nil is honest |
| DhcpLifecycle.BootIsSafe | pkg/dhcpserver/server.go:257-280 | the same from the start of the agent |
| DhcpLifecycle.StepIsSafeIff | pkg/dhcpserver/server.go:298-342 | a step leaves all prompt continuations sound exactly when it is not the monitor's Stop before a pending launch and does not clear the command between the monitor's reads |
| DhcpLifecycle.OverlookedLaunch | pkg/dhcpserver/server.go:257-271 | from any state with a pending launch, the run to two live processes after a Stop that overlooks it |
| DhcpLifecycle.OverlookedLaunchPanics | pkg/dhcpserver/server.go:257-271 | such a Stop can also end in a channel closed twice, or in a goroutine that starts a cleared command |
| DhcpLifecycle.LateLaunchFromBoot | pkg/dhcpserver/server.go:257-271 | such a run from the start of the agent |
| DhcpLifecycle.ShutdownBetweenReads | pkg/dhcpserver/monitor.go:34-37 | the run from the start of the agent in which a shutdown Stop between the monitor's reads makes it dereference nil |
| DhcpLifecycle.RestartIsDue | pkg/dhcpserver/monitor.go:34-49 | the monitor's reads, undisturbed, ask for a restart exactly when no process is running or unreaped |
| DhcpLifecycle.DownIsRestarted | pkg/dhcpserver/monitor.go:34-61 | while the server is down, in every interleaving up to the next Start: no process appears, and the monitor's steps are its reads finding the server down, a Stop that signals nothing, then Start, each always possible |
| DhcpLifecycle.FailedStartIsRetried | pkg/dhcpserver/monitor.go:50-61 | after the monitor's failed Start that holds with a whole test ahead; after main's failed Start the agent is gone |
| HostOperation.Reconcile | pkg/agent/hostoperation/controller.go:53-134 | whether the operation is skipped, requeued, failed or executed, and the status then written |
| HostOperation.OperationRunsSafely | pkg/agent/hostoperation/controller.go:61-134 | in every run with stale reads, conflicts and lost answers the status moves at most once, from open to a terminal value, by the write of a reconcile in the run whose agent is the one its HostStatus names and the one recorded, success exactly when its connection and power call succeeded; at most one write succeeds; power calls are exactly those of named agents' reconciles of the open operation, at most one plus failed writes plus reconciles in flight |
| HostOperation.ForeignAgentsAreIdle | pkg/agent/hostoperation/controller.go:61-75 | without the reconciles by agents the HostStatus does not name, any run makes the same power calls and writes |
| HostOperation.OperationIsNotForgotten | pkg/agent/hostoperation/controller.go:55-128 | in every run, while no status write took effect, an agent that the HostStatus named when it last looked, or that could not read the HostStatus, has a write in flight or is due to reconcile again; an agent that found the operation only foreign or finished is not |
| HostOperation.SettledIsNotDue | pkg/agent/hostoperation/controller.go:61-64 | a reconcile that finds the operation foreign or finished does nothing and is not repeated |
| HostOperation.LostAnswer | pkg/agent/hostoperation/controller.go:122-128 | a write that took effect but was answered by an error finishes the operation, and the agent comes back and leaves it so |
| HostOperation.FailureIsNeverRecorded | pkg/k8s/apis/bmc.spidernet.io/v1beta1/hostoperation_types.go:61 | with the shipped schema "success" is the only terminal status ever stored |
| HostOperation.FailingRoundRecordedIff | pkg/agent/hostoperation/controller.go:88-128 | an execution that fails, by connection, power call or invalid action, is recorded with its error exactly when the schema knows "failed" |
| HostOperation.FailingOperationRepeats | pkg/agent/hostoperation/controller.go:125-128 | for every n there is a run of n failing executions, each with its power call if it gets that far, and no status |
| HostCache.HostCache.GetDhcpClientInfo | pkg/agent/hoststatus/data/cache.go:72-85 | exactly the DHCP hosts |
| HostCache.HostCache.GetStaticClientInfo | pkg/agent/hoststatus/data/cache.go:88-101 | exactly the other hosts |
| HostCache.HostCache.UpdateSecret | pkg/agent/hoststatus/data/cache.go:103-128 | every entry of the secret gets the credentials; exactly the changed ones are listed, once each |
| Credentials.SecretKeeper.UpdateSecret | pkg/agent/hoststatus/manager.go:85-102 | the configured credentials change for the agent's own secret, all entries of the secret change, the changed hosts are polled |
| Credentials.SecretKeeper.Reconcile | pkg/agent/hoststatus/HostStatusReconcile.go:247-335 | when a host is cached, forgotten or skipped, with which credentials, and when it is polled at once |
| Credentials.CacheIsUpToDate | pkg/agent/hoststatus/manager.go:85-102 | in every run from the agent's start in which no overtaken reconcile stores its entry while its secret is settled, each entry has its secret's current credentials at all times unless a delivery is to come, the agent's default included |
| Credentials.CacheIsUpToDateIff | pkg/agent/hoststatus/data/cache.go:103-128 | of all runs whose changes bring new credentials it is exactly these |
| Credentials.OvertakenIff | pkg/agent/hoststatus/HostStatusReconcile.go:256-273 | a reconcile is overtaken exactly when, since its read, a delivery found the secret after a change made since, or, for the agent's own secret, a change was on its way when it was read |
| Credentials.OvertakenReadStaysOld | pkg/agent/hoststatus/HostStatusReconcile.go:256-273 | from every state with a delivered secret old credentials can end up in the cache for good |
| RedfishSessions.SessionCache.NewClient | pkg/redfish/interface.go:32-71 | the new cache, sessions and client of a call |
| RedfishSessions.CallIsFaithful | pkg/redfish/interface.go:32-71 | a returned client has the requested configuration and, with a user name, an open session at the address; a failed call leaves no client there; other addresses are untouched |
| RedfishSessions.AnsweringIsReused | pkg/redfish/interface.go:43-50 | with an answering cached session of the requested configuration the cached client is returned and nothing is done |
| RedfishSessions.DeadIsReplaced | pkg/redfish/interface.go:43-69 | after a failed probe or with another configuration the cached client is logged out and never returned; a new one, with a session not open before, is returned exactly if connecting works |
| RedfishSessions.UnknownIsConnected | pkg/redfish/interface.go:58-69 | without a cached client nothing is logged out and a new client is made if connecting works |
| RedfishSessions.SessionsBalance | pkg/redfish/interface.go:43-69 | over every sequence of calls connects minus logouts is the cache size, and the sessions open at an address are that of its cached client plus one per logout the server did not carry out; so they are the cached ones exactly when there was no such logout |
| RedfishSessions.SameConfigIff | pkg/redfish/interface.go:74-80 | a cached configuration is reused exactly for the same protocol, port and credentials |
| StatusPoll.CompareHostStatus | pkg/agent/hoststatus/tools.go:46-145 | true exactly when everything but the log is equal |
| StatusPoll.CompareInfo | pkg/agent/hoststatus/tools.go:117-143 | true exactly when the Info maps are equal |
| StatusPoll.RemovedKeyLoopIsIdle | pkg/agent/hoststatus/tools.go:135-143 | the removed-key loop never changes the answer |
| StatusPoll.SameIsEquivalence | pkg/agent/hoststatus/tools.go:46-145 | the comparison is an equivalence |
| StatusPoll.GenerateEvents | pkg/agent/hoststatus/HostStatusReconcile.go:32-87 | one event per entry with a time other than the recorded one, in order; the counts of new and warning entries; the first entry if new and the first warning |
| StatusPoll.FilterCounts | pkg/agent/hoststatus/HostStatusReconcile.go:46-85 | the new-log and warning counts are the numbers of entries with the property |
| StatusPoll.FilterFirst | pkg/agent/hoststatus/HostStatusReconcile.go:57-60 | the reported warning is the first warning entry |
| StatusPoll.EmittedIff | pkg/agent/hoststatus/HostStatusReconcile.go:65-84 | an entry is emitted exactly when its time is not the recorded one |
| StatusPoll.Poller.UpdateHostStatusInfo | pkg/agent/hoststatus/HostStatusReconcile.go:90-183 | what a poll writes and emits, and that it writes exactly when the comparison fails |
| StatusPoll.PollSettles | pkg/agent/hoststatus/HostStatusReconcile.go:125-182 | after a poll health and info are the host's, and the same answers write nothing again |
| StatusPoll.LogAloneIsDropped | pkg/agent/hoststatus/HostStatusReconcile.go:144-182 | a poll writes exactly when health or info changed; the log is recorded only then |
| StatusPoll.NewsIsRecorded | pkg/agent/hoststatus/HostStatusReconcile.go:144-170 | a written poll with a new first entry with a time records that entry, the number of entries, the number of those with a severity other than "" and "OK", and the first of these |
| StatusPoll.OldNewsIsNotRecorded | pkg/agent/hoststatus/HostStatusReconcile.go:144-182 | any other poll leaves the log as it was |
| StatusPoll.PollAnnounces | pkg/agent/hoststatus/HostStatusReconcile.go:64-84 | a poll of a host that answers in full emits exactly the entries whose time is not the recorded one, as warnings exactly the severe ones; any other poll emits nothing |
| StatusPoll.RecordedIsNotAnnounced | pkg/agent/hoststatus/HostStatusReconcile.go:64-84 | after such a written poll the same log emits only entries of another time |
| StatusPoll.UnrecordedLogRepeats | pkg/agent/hoststatus/HostStatusReconcile.go:64-84 | while health and info stay the same events come again at every poll |
| StatusPoll.UnhealthyHasNoInfo | pkg/agent/hoststatus/HostStatusReconcile.go:136-139 | whatever polls and DHCP events happen, an unhealthy status has empty Info |

## Left out

- Redfish data collection and power calls (pkg/redfish/getinfo.go, pkg/redfish/log.go, pkg/redfish/power.go): only their answers appear.
- Interface setup, template rendering, file and process system calls: only success or failure and the data passed.
- getNetworkAndMask and net.ParseCIDR: the parsed subnet is given; IPv6 notations are answered by a parameter of `ParseIP`.
- UpdateHostStatusInfoWrapper and UpdateHostStatusAtInterval: loops that call the modelled poll for one host or for all.
- The cluster controller, webhooks other than the refusal of HostOperation updates, HostEndpoint reconciliation, generated clients: little logic of their own.
- RetryRuns.RetriesConverge: is stated for DHCP binding off and an empty initial store.
- HostOperation.Reconcile: begins after the operation itself was read; that the object is gone or cannot be read does not appear, and no other requests to reconcile than those named are counted as due.
- HostCache.HostCache.UpdateSecret: the entries are values, so the in-place update of a shared entry object and the data race under the read lock do not appear.
- RedfishSessions.SessionsBalance: sessions that a server ends by itself are counted as open until they are logged out.
- Credentials.CacheIsUpToDate: the two writes of the configured user name and password and the update of the cache are one step.
- DhcpLifecycle.RunKeepsInv: a Wait that has returned while its channel is not closed yet does not appear, since the exit of the goroutine is one step; the ten seconds of Stop may pass at any time, and the shutdown Stop may come more than once.
- StatusPoll.GenerateEvents: the counts are unbounded, the source stores them as 32-bit numbers.
- UsagePercentage and log output.
