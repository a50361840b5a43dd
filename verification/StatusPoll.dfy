/**
 Polling a host's Redfish service and writing its HostStatus: compareHostStatus
 (pkg/agent/hoststatus/tools.go), GenerateEvents and UpdateHostStatusInfo
 (pkg/agent/hoststatus/HostStatusReconcile.go).
 */
module StatusPoll {
  import opened GoStrings
  import opened LeaseFile
  import opened Api
  import opened HostStatusEvents

  // ---- Comparison -------------------------------------------------------------------

  // Equal in everything that is compared: all but the log
  predicate Same(a: Status, b: Status) {
    a.(log := b.log) == b
  }

  method CompareHostStatus(a: Status, b: Status) returns (same: bool)
    ensures same <==> Same(a, b)
    ensures same <==>
      && a.healthy == b.healthy && a.clusterAgent == b.clusterAgent && a.lastUpdateTime == b.lastUpdateTime
      && a.basic == b.basic && a.info == b.info
  {
    if a.healthy != b.healthy || a.clusterAgent != b.clusterAgent || a.lastUpdateTime != b.lastUpdateTime {
      return false;
    }
    if a.basic.kind != b.basic.kind || a.basic.ipAddr != b.basic.ipAddr
       || a.basic.secretName != b.basic.secretName || a.basic.secretNamespace != b.basic.secretNamespace
       || a.basic.https != b.basic.https || a.basic.port != b.basic.port || a.basic.mac != b.basic.mac
       || a.basic.activeDhcpClient != b.basic.activeDhcpClient
    {
      return false;
    }
    same := CompareInfo(a.info, b.info);
  }

  // The comparison of the Info maps, entry by entry
  method CompareInfo(a: map<string, string>, b: map<string, string>) returns (same: bool)
    ensures same <==> a == b
  {
    if |a| != |b| {
      return false;
    }
    var rest := a.Keys;
    while rest != {}
      invariant rest <= a.Keys
      invariant forall k :: k in a && k !in rest ==> k in b && b[k] == a[k]
    {
      var k :| k in rest;
      if k !in b || a[k] != b[k] {
        return false;
      }
      rest := rest - {k};
    }
    rest := b.Keys;
    while rest != {}
      invariant rest <= b.Keys
      invariant forall k :: k in b && k !in rest ==> k in a
    {
      var k :| k in rest;
      if k !in a {
        return false;
      }
      rest := rest - {k};
    }
    assert a.Keys == b.Keys;
    return true;
  }

  // Once the lengths agree and every entry of one map is in the other, no key can have been removed.
  lemma RemovedKeyLoopIsIdle(a: map<string, string>, b: map<string, string>)
    requires |a| == |b| && forall k :: k in a ==> k in b && b[k] == a[k]
    ensures a == b
  {
    assert a.Keys <= b.Keys && |a| == |a.Keys| && |b| == |b.Keys|;
    SubsetOfSameSize(a.Keys, b.Keys);
  }

  lemma SubsetOfSameSize(s: set<string>, t: set<string>)
    requires s <= t && |s| == |t|
    ensures s == t
  {
    assert t == s + (t - s) && |t| == |s| + |t - s|;
  }

  // The comparison is an equivalence.
  lemma SameIsEquivalence(a: Status, b: Status, c: Status)
    ensures Same(a, a) && (Same(a, b) ==> Same(b, a)) && (Same(a, b) && Same(b, c) ==> Same(a, c))
  {
  }

  // ---- Log entries --------------------------------------------------------------------

  const OK_SEVERITY := "OK"

  datatype Entry = Entry(created: string, severity: string, sensor: string, message: string)

  datatype KubeEvent = KubeEvent(warning: bool, message: string)

  // What GenerateEvents returns
  datatype LogReport = LogReport(
    latest: LogEntry, latestWarning: LogEntry, total: int, warnings: int, newCount: int)

  const NO_ENTRY := LogEntry("", "")

  predicate IsWarning(e: Entry) { e.severity != OK_SEVERITY && e.severity != "" }

  function Message(e: Entry): (m: string)
    ensures m != ""
  {
    "[" + e.created + "][" + e.severity + "]: " + e.sensor + " " + e.message
  }

  function Noted(e: Entry): LogEntry { LogEntry(e.created, Message(e)) }

  // The entries with a property, in order
  function Filter(entries: seq<Entry>, p: Entry -> bool): seq<Entry> {
    if entries == [] then []
    else
      var e := entries[|entries| - 1];
      Filter(entries[..|entries| - 1], p) + if p(e) then [e] else []
  }

  // Those whose time is not the last one recorded
  function IsNew(last: string): Entry -> bool { (e: Entry) => e.created != last }

  function NewEntries(entries: seq<Entry>, last: string): seq<Entry> {
    Filter(entries, IsNew(last))
  }

  function Warnings(entries: seq<Entry>): seq<Entry> {
    Filter(entries, IsWarning)
  }

  function EventOf(e: Entry): KubeEvent { KubeEvent(IsWarning(e), Message(e)) }

  function EventsOf(entries: seq<Entry>): (r: seq<KubeEvent>)
    ensures |r| == |entries| && forall i :: 0 <= i < |r| ==> r[i] == EventOf(entries[i])
  {
    seq(|entries|, i requires 0 <= i < |entries| => EventOf(entries[i]))
  }

  function First(entries: seq<Entry>): LogEntry {
    if entries == [] then NO_ENTRY else Noted(entries[0])
  }

  function Report(entries: seq<Entry>, last: string): LogReport {
    LogReport(if entries != [] && entries[0].created != last then Noted(entries[0]) else NO_ENTRY,
              First(Warnings(entries)), |entries|, |Warnings(entries)|, |NewEntries(entries, last)|)
  }

  // GenerateEvents: one event per entry whose time differs from the last recorded one, in order; the counts are those
  // of the new and of the warning entries; the latest entry is the first one, if new, and the latest warning the first
  // warning.
  method GenerateEvents(entries: seq<Entry>, lastLogTime: string) returns (r: LogReport, events: seq<KubeEvent>)
    ensures r == Report(entries, lastLogTime)
    ensures events == EventsOf(NewEntries(entries, lastLogTime))
  {
    var latest, latestWarning := NO_ENTRY, NO_ENTRY;
    var warnings, newCount := 0, 0;
    events := [];
    for m := 0 to |entries|
      invariant warnings == |Warnings(entries[..m])| && newCount == |NewEntries(entries[..m], lastLogTime)|
      invariant latestWarning == First(Warnings(entries[..m]))
      invariant latest == if m > 0 && entries[0].created != lastLogTime then Noted(entries[0]) else NO_ENTRY
      invariant events == EventsOf(NewEntries(entries[..m], lastLogTime))
    {
      var entry := entries[m];
      assert entries[..m + 1][..m] == entries[..m];
      var msg := Message(entry);
      var warning := false;
      if entry.severity != OK_SEVERITY && entry.severity != "" {
        warning := true;
        if latestWarning.message == "" {
          latestWarning := LogEntry(entry.created, msg);
        }
        warnings := warnings + 1;
      }
      if entry.created != lastLogTime {
        newCount := newCount + 1;
        if m == 0 {
          latest := LogEntry(entry.created, msg);
        }
        events := events + [KubeEvent(warning, msg)];
      }
    }
    assert entries[..|entries|] == entries;
    r := LogReport(latest, latestWarning, |entries|, warnings, newCount);
  }

  ghost function Positions(entries: seq<Entry>, p: Entry -> bool): set<int> {
    set i | 0 <= i < |entries| && p(entries[i])
  }

  // The filtered entries are as many as the positions with the property.
  lemma {:induction false} FilterCounts(entries: seq<Entry>, p: Entry -> bool)
    ensures |Filter(entries, p)| == |Positions(entries, p)|
  {
    if entries != [] {
      var n := |entries| - 1;
      FilterCounts(entries[..n], p);
      assert Positions(entries, p) == Positions(entries[..n], p) + (if p(entries[n]) then {n} else {});
      assert n !in Positions(entries[..n], p);
    }
  }

  // The first of them is the first entry with the property.
  lemma {:induction false} FilterFirst(entries: seq<Entry>, p: Entry -> bool, i: nat)
    requires i < |entries| && p(entries[i]) && forall j :: 0 <= j < i ==> !p(entries[j])
    ensures Filter(entries, p) != [] && Filter(entries, p)[0] == entries[i]
  {
    var n := |entries| - 1;
    if i < n {
      FilterFirst(entries[..n], p, i);
    } else {
      FilterNone(entries[..n], p);
    }
  }

  lemma {:induction false} FilterNone(entries: seq<Entry>, p: Entry -> bool)
    ensures (forall i :: 0 <= i < |entries| ==> !p(entries[i])) ==> Filter(entries, p) == []
  {
    if entries != [] {
      FilterNone(entries[..|entries| - 1], p);
    }
  }

  // An entry is emitted exactly when its time is not the recorded one, older entries included.
  lemma {:induction false} EmittedIff(entries: seq<Entry>, last: string, e: Entry)
    ensures e in NewEntries(entries, last) <==> e in entries && e.created != last
  {
    if entries != [] {
      var n := |entries| - 1;
      EmittedIff(entries[..n], last, e);
      assert entries == entries[..n] + [entries[n]];
    }
  }

  // ---- The poll -------------------------------------------------------------------------

  // The answers of the host: whether connecting works, its info and its log (None on an error)
  datatype Redfish = Redfish(connects: bool, info: Option<map<string, string>>, log: Option<seq<Entry>>)

  function LastTime(log: LogStruct): string { if log.latest.Some? then log.latest.value.time else "" }

  // The log fields after a poll; nothing is recorded unless the first entry is new
  function NextLog(log: LogStruct, entries: seq<Entry>): LogStruct {
    var r := Report(entries, LastTime(log));
    if r.latest.time != "" then LogStruct(r.total, r.warnings, Some(r.latest), Some(r.latestWarning)) else log
  }

  // The info a poll finds; a host that does not answer has none
  function FoundInfo(r: Redfish): map<string, string> {
    if r.connects && r.info.Some? then r.info.value else map[]
  }

  function ReadsLog(r: Redfish): bool { r.connects && r.info.Some? && r.log.Some? }

  // The status a poll arrives at, before comparing
  function Polled(st: Status, r: Redfish): Status {
    st.(healthy := r.connects, info := FoundInfo(r),
        log := if ReadsLog(r) then NextLog(st.log, r.log.value) else st.log)
  }

  function PollEvents(st: Status, r: Redfish): seq<KubeEvent> {
    if ReadsLog(r) then EventsOf(NewEntries(r.log.value, LastTime(st.log))) else []
  }

  class Poller {
    var store: Store

    constructor (store: Store)
      ensures this.store == store
    {
      this.store := store;
    }

    // UpdateHostStatusInfo; getFails and updateFails are errors of the API server
    method UpdateHostStatusInfo(name: string, r: Redfish, getFails: bool, updateFails: bool, now: string)
      returns (updated: bool, ok: bool, events: seq<KubeEvent>)
      modifies this
      ensures getFails || name !in old(store) ==> !updated && !ok && events == [] && store == old(store)
      ensures !getFails && name in old(store) ==>
        var h := old(store)[name];
        var p := Polled(h.status, r);
        && events == PollEvents(h.status, r)
        && (updated <==> !Same(p, h.status)) && (ok <==> !updated || !updateFails)
        && store == if updated && ok then old(store)[name := h.(status := p.(lastUpdateTime := now))] else old(store)
    {
      events := [];
      var healthy := r.connects;
      if getFails || name !in store {
        return false, false, [];
      }
      var existing := store[name];
      var status := existing.status;
      status := status.(healthy := healthy);
      if healthy {
        if r.info.None? {
          healthy := false;
        } else {
          status := status.(info := r.info.value);
        }
      }
      if !healthy {
        status := status.(info := map[]);
      }
      if healthy && r.log.Some? {
        var lastLogTime := "";
        if status.log.latest.Some? {
          lastLogTime := status.log.latest.value.time;
        }
        var report;
        report, events := GenerateEvents(r.log.value, lastLogTime);
        if report.latest.time != "" {
          status := status.(log := LogStruct(report.total, report.warnings, Some(report.latest),
                                             Some(report.latestWarning)));
        }
      }
      var same := CompareHostStatus(status, existing.status);
      if !same {
        status := status.(lastUpdateTime := now);
        if updateFails {
          return true, false, events;
        }
        store := store[name := existing.(status := status)];
        return true, true, events;
      }
      return false, true, events;
    }
  }

  // The stored status after a served poll
  function Poll(st: Status, r: Redfish, now: string): Status {
    if Same(Polled(st, r), st) then st else Polled(st, r).(lastUpdateTime := now)
  }

  // After a served poll health and info are what the host answered, an unreachable one having none; a poll that finds
  // them so already writes nothing, and polling again with the same answers never does.
  lemma PollSettles(st: Status, r: Redfish, now: string, later: string)
    ensures var p := Poll(st, r, now);
      && p.healthy == r.connects && p.info == (if r.connects && r.info.Some? then r.info.value else map[])
      && p.basic == st.basic && p.clusterAgent == st.clusterAgent
      && (p == st || p.lastUpdateTime == now)
      && Same(Polled(p, r), p) && Poll(p, r, later) == p
  {
  }

  // A poll writes exactly when health or info changed. Then the log is recorded too; otherwise it is dropped, whatever
  // it says.
  lemma LogAloneIsDropped(st: Status, r: Redfish, now: string)
    ensures Poll(st, r, now) == st <==>
            st.healthy == r.connects && st.info == if r.connects && r.info.Some? then r.info.value else map[]
    ensures Poll(st, r, now) != st ==> Poll(st, r, now).log == Polled(st, r).log
  {
  }

  // ---- What is recorded of a log -----------------------------------------------------------

  predicate Severe(e: Entry) { !(e.severity == "" || e.severity == "OK") }

  // The i-th entry as it is recorded
  ghost predicate Records(entry: Option<LogEntry>, e: Entry) {
    entry == Some(LogEntry(e.created, "[" + e.created + "][" + e.severity + "]: " + e.sensor + " " + e.message))
  }

  // The time of the latest entry recorded
  ghost predicate RecordedTime(log: LogStruct, time: string) {
    if log.latest.Some? then time == log.latest.value.time else time == ""
  }

  // A new first entry with a time
  ghost predicate HasNews(log: LogStruct, entries: seq<Entry>) {
    entries != [] && entries[0].created != "" && !RecordedTime(log, entries[0].created)
  }

  // The log a host that answers in full has, and its poll is written
  ghost predicate WritesLog(st: Status, r: Redfish) {
    && r.connects && r.info.Some? && r.log.Some? && !(st.healthy && st.info == r.info.value)
    && HasNews(st.log, r.log.value)
  }

  // A written poll with news records the first entry, the number of entries and of severe ones, and the first severe
  // one.
  lemma NewsIsRecorded(st: Status, r: Redfish, now: string)
    requires WritesLog(st, r)
    ensures var log, entries := Poll(st, r, now).log, r.log.value;
      && Records(log.latest, entries[0]) && log.total == |entries|
      && log.warning == |set i | 0 <= i < |entries| && Severe(entries[i])|
      && (forall i :: 0 <= i < |entries| && Severe(entries[i]) && (forall j :: 0 <= j < i ==> !Severe(entries[j])) ==>
            Records(log.latestWarning, entries[i]))
      && ((forall i :: 0 <= i < |entries| ==> !Severe(entries[i])) ==> log.latestWarning == Some(LogEntry("", "")))
  {
    var entries := r.log.value;
    FilterCounts(entries, IsWarning);
    assert Positions(entries, IsWarning) == set i | 0 <= i < |entries| && Severe(entries[i]);
    forall i | 0 <= i < |entries| && Severe(entries[i]) && (forall j :: 0 <= j < i ==> !Severe(entries[j]))
      ensures Warnings(entries) != [] && Warnings(entries)[0] == entries[i]
    {
      FilterFirst(entries, IsWarning, i);
    }
    FilterNone(entries, IsWarning);
  }

  // Any other poll leaves the log as it was.
  lemma OldNewsIsNotRecorded(st: Status, r: Redfish, now: string)
    requires !WritesLog(st, r)
    ensures Poll(st, r, now).log == st.log
  {
  }

  // What a poll emits for an entry
  ghost predicate Announces(event: KubeEvent, e: Entry) {
    && (event.warning <==> Severe(e))
    && event.message == "[" + e.created + "][" + e.severity + "]: " + e.sensor + " " + e.message
  }

  // The events for the entries with another time than `last`
  ghost predicate AnnouncesNew(events: seq<KubeEvent>, entries: seq<Entry>, last: string) {
    && |events| == |set i | 0 <= i < |entries| && entries[i].created != last|
    && (forall k :: 0 <= k < |events| ==> exists e :: e in entries && e.created != last && Announces(events[k], e))
    && (forall e :: e in entries && e.created != last ==> exists k :: 0 <= k < |events| && Announces(events[k], e))
  }

  lemma NewAreAnnounced(entries: seq<Entry>, last: string)
    ensures AnnouncesNew(EventsOf(NewEntries(entries, last)), entries, last)
    ensures Report(entries, last).newCount == |EventsOf(NewEntries(entries, last))|
  {
    var emitted := NewEntries(entries, last);
    var events := EventsOf(emitted);
    FilterCounts(entries, IsNew(last));
    assert Positions(entries, IsNew(last)) == set i | 0 <= i < |entries| && entries[i].created != last;
    forall e ensures e in emitted <==> e in entries && e.created != last { EmittedIff(entries, last, e); }
    forall k | 0 <= k < |events| ensures Announces(events[k], emitted[k]) && emitted[k] in emitted {
      IsAnnounced(emitted[k]);
    }
  }

  lemma IsAnnounced(e: Entry)
    ensures Announces(EventOf(e), e)
  {
  }

  // A poll of a host that answers in full announces exactly the entries whose time is not the recorded one; any other
  // poll announces nothing.
  lemma PollAnnounces(st: Status, r: Redfish, last: string)
    requires RecordedTime(st.log, last)
    ensures !(r.connects && r.info.Some? && r.log.Some?) ==> PollEvents(st, r) == []
    ensures r.connects && r.info.Some? && r.log.Some? ==> AnnouncesNew(PollEvents(st, r), r.log.value, last)
  {
    if r.connects && r.info.Some? && r.log.Some? {
      NewAreAnnounced(r.log.value, last);
    }
  }

  // After a written poll with news the same log announces only entries of another time than the one recorded then.
  lemma RecordedIsNotAnnounced(st: Status, r: Redfish, now: string)
    requires WritesLog(st, r)
    ensures AnnouncesNew(PollEvents(Poll(st, r, now), r), r.log.value, r.log.value[0].created)
  {
    NewsIsRecorded(st, r, now);
    PollAnnounces(Poll(st, r, now), r, r.log.value[0].created);
  }

  function Polls(st: Status, answers: seq<Redfish>, now: string): Status {
    if answers == [] then st else Poll(Polls(st, answers[..|answers| - 1], now), answers[|answers| - 1], now)
  }

  // So while health and info stay, the events of a poll come again at every one of n further polls.
  lemma {:induction false} UnrecordedLogRepeats(st: Status, r: Redfish, n: nat, now: string)
    requires st.healthy == r.connects && st.info == if r.connects && r.info.Some? then r.info.value else map[]
    ensures PollEvents(Polls(st, seq(n, _ => r), now), r) == PollEvents(st, r)
    ensures Polls(st, seq(n, _ => r), now) == st
  {
    if n > 0 {
      UnrecordedLogRepeats(st, r, n - 1, now);
      assert seq(n, _ => r)[..n - 1] == seq(n - 1, _ => r);
      LogAloneIsDropped(st, r, now);
    }
  }

  // ---- Unhealthy hosts have no info ---------------------------------------------------------

  predicate Tidy(slot: Slot) {
    slot.Some? && !slot.value.status.healthy ==> slot.value.status.info == map[]
  }

  // What happens to a HostStatus: a poll, a DHCP add or a DHCP delete, each possibly failing
  datatype Happening =
    | PollDone(r: Redfish, served: bool, now: string)
    | Added(c: ClientInfo, f: Faults, now: string)
    | Deleted(f: Faults)

  function Happens(cfg: AgentConfig, slot: Slot, x: Happening): Slot
    requires cfg.dhcp.Some?
  {
    match x
    case PollDone(r, served, now) =>
      if slot.Some? && served then Some(slot.value.(status := Poll(slot.value.status, r, now))) else slot
    case Added(c, f, now) => AddSlot(cfg, slot, c, f, now).0
    case Deleted(f) => DeleteSlot(cfg, slot, f).0
  }

  function AllHappens(cfg: AgentConfig, slot: Slot, xs: seq<Happening>): Slot
    requires cfg.dhcp.Some?
  {
    if xs == [] then slot else Happens(cfg, AllHappens(cfg, slot, xs[..|xs| - 1]), xs[|xs| - 1])
  }

  // Whatever happens, an unhealthy host never carries info.
  lemma {:induction false} UnhealthyHasNoInfo(cfg: AgentConfig, slot: Slot, xs: seq<Happening>)
    requires cfg.dhcp.Some? && Tidy(slot)
    ensures Tidy(AllHappens(cfg, slot, xs))
  {
    if xs != [] {
      UnhealthyHasNoInfo(cfg, slot, xs[..|xs| - 1]);
    }
  }
}
