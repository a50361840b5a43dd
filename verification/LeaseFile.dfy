/**
 The dhcpd.leases(5) reader of pkg/dhcpserver/tools.go: a line-driven scanner and the
 block-by-block meaning it computes.
 */
module LeaseFile {
  import opened GoStrings

  datatype Result<+T> = Ok(value: T) | Err

  datatype ClientInfo = ClientInfo(ip: string, mac: string, active: bool, startTime: string, endTime: string)

  // What reading the lease file gave
  datatype FileRead = Missing | Unreadable | Content(text: string)

  const BLANK := ClientInfo("", "", false, "", "")

  // ---- What single lines say ----------------------------------------------------

  predicate IsLeaseLine(line: string) {
    HasPrefix(TrimSpace(line), "lease")
  }

  predicate IsCloseLine(line: string) {
    TrimSpace(line) == "}"
  }

  function LeaseIp(line: string): string {
    var parts := Split(TrimSpace(line), " ");
    if |parts| >= 2 then TrimSpace(TrimSuffix(parts[1], "{")) else ""
  }

  // The value after `key`, when the line has `key` exactly once
  function ValueAfter(line: string, key: string): Option<string>
    requires key != ""
  {
    var parts := Split(TrimSpace(line), key);
    if Contains(TrimSpace(line), key) && |parts| == 2
    then Some(TrimSpace(TrimSuffix(parts[1], ";"))) else None
  }

  // The third and fourth words of a line that mentions `key`
  function TimeOn(line: string, key: string): Option<string> {
    var parts := Fields(TrimSpace(line));
    if Contains(TrimSpace(line), key) && |parts| >= 4
    then Some(TrimSuffix(parts[2] + " " + parts[3], ";")) else None
  }

  function MacOn(line: string): Option<string> { ValueAfter(line, "hardware ethernet") }
  function StateOn(line: string): Option<string> { ValueAfter(line, "binding state") }
  function StartOn(line: string): Option<string> { TimeOn(line, "starts") }
  function EndOn(line: string): Option<string> { TimeOn(line, "ends") }

  function Or<T>(o: Option<T>, d: T): T {
    if o.Some? then o.value else d
  }

  // ---- The scanner ----------------------------------------------------------------

  datatype Scan = Scan(clients: seq<ClientInfo>, current: Option<ClientInfo>, inLeaseBlock: bool)

  const START := Scan([], None, false)

  function Learn(c: ClientInfo, line: string): ClientInfo {
    ClientInfo(c.ip, Or(MacOn(line), c.mac),
               if StateOn(line).Some? then StateOn(line).value == "active" else c.active,
               Or(StartOn(line), c.startTime), Or(EndOn(line), c.endTime))
  }

  function Finish(s: Scan): seq<ClientInfo> {
    if s.current.Some? then s.clients + [s.current.value] else s.clients
  }

  function Step(s: Scan, line: string): Scan {
    if TrimSpace(line) == "" then s
    else if IsLeaseLine(line) then Scan(Finish(s), Some(BLANK.(ip := LeaseIp(line))), true)
    else if IsCloseLine(line) then Scan(Finish(s), None, false)
    else if s.inLeaseBlock && s.current.Some? then s.(current := Some(Learn(s.current.value, line)))
    else s
  }

  function ScanLines(s: Scan, lines: seq<string>): Scan {
    if lines == [] then s else Step(ScanLines(s, lines[..|lines| - 1]), lines[|lines| - 1])
  }

  function ParseLines(lines: seq<string>): seq<ClientInfo> {
    Finish(ScanLines(START, lines))
  }

  // One line inside a lease block, already trimmed
  method LearnLine(c: ClientInfo, line: string, ghost raw: string) returns (r: ClientInfo)
    requires line == TrimSpace(raw)
    ensures r == Learn(c, raw)
  {
    r := c;
    if Contains(line, "hardware ethernet") {
      var parts := Split(line, "hardware ethernet");
      if |parts| == 2 {
        r := r.(mac := TrimSpace(TrimSuffix(parts[1], ";")));
      }
    }
    assert r == c.(mac := Or(MacOn(raw), c.mac));
    if Contains(line, "binding state") {
      var parts := Split(line, "binding state");
      if |parts| == 2 {
        r := r.(active := TrimSpace(TrimSuffix(parts[1], ";")) == "active");
      }
    }
    if Contains(line, "starts") {
      var parts := Fields(line);
      if |parts| >= 4 {
        r := r.(startTime := TrimSuffix(parts[2] + " " + parts[3], ";"));
      }
    }
    if Contains(line, "ends") {
      var parts := Fields(line);
      if |parts| >= 4 {
        r := r.(endTime := TrimSuffix(parts[2] + " " + parts[3], ";"));
      }
    }
  }

  // The line that opens a lease block, already trimmed
  method OpenBlock(line: string, ghost raw: string) returns (r: ClientInfo)
    requires line == TrimSpace(raw)
    ensures r == BLANK.(ip := LeaseIp(raw))
  {
    r := BLANK;
    var parts := Split(line, " ");
    if |parts| >= 2 {
      r := r.(ip := TrimSpace(TrimSuffix(parts[1], "{")));
    }
  }

  // GetDhcpClients: an absent file is an empty answer, an unreadable one an error.
  method GetDhcpClients(file: FileRead) returns (r: Result<seq<ClientInfo>>)
    ensures file.Missing? ==> r == Ok([])
    ensures file.Unreadable? ==> r == Err
    ensures file.Content? ==> r == Ok(ParseLines(Split(file.text, "\n")))
  {
    match file {
      case Missing => return Ok([]);
      case Unreadable => return Err;
      case Content(_) =>
    }
    var clients: seq<ClientInfo> := [];
    var lines := Split(file.text, "\n");
    var currentClient: Option<ClientInfo> := None;
    var inLeaseBlock := false;
    for i := 0 to |lines|
      invariant Scan(clients, currentClient, inLeaseBlock) == ScanLines(START, lines[..i])
    {
      ScanSnoc(START, lines[..i], lines[i]);
      assert lines[..i + 1] == lines[..i] + [lines[i]];
      var line := TrimSpace(lines[i]);
      if line == "" {
        continue;
      }
      if HasPrefix(line, "lease") {
        if currentClient.Some? {
          clients := clients + [currentClient.value];
        }
        var client := OpenBlock(line, lines[i]);
        currentClient := Some(client);
        inLeaseBlock := true;
        continue;
      }
      if line == "}" {
        if currentClient.Some? {
          clients := clients + [currentClient.value];
          currentClient := None;
        }
        inLeaseBlock := false;
        continue;
      }
      if inLeaseBlock && currentClient.Some? {
        var client := LearnLine(currentClient.value, line, lines[i]);
        currentClient := Some(client);
      }
    }
    assert lines[..|lines|] == lines;
    if currentClient.Some? {
      clients := clients + [currentClient.value];
    }
    r := Ok(clients);
  }

  // ---- The declarative meaning of a file -------------------------------------------

  // The answer of the last element that has one
  function LastValue<A, T>(xs: seq<A>, f: A -> Option<T>): Option<T> {
    if xs == [] then None
    else if f(xs[|xs| - 1]).Some? then f(xs[|xs| - 1])
    else LastValue(xs[..|xs| - 1], f)
  }

  // The lines before the first closing brace
  function BlockBody(lines: seq<string>): (r: seq<string>)
    ensures r <= lines
    ensures forall i :: 0 <= i < |r| ==> !IsCloseLine(r[i])
    ensures |r| < |lines| ==> IsCloseLine(lines[|r|])
  {
    if lines == [] || IsCloseLine(lines[0]) then [] else [lines[0]] + BlockBody(lines[1..])
  }

  // A block's client: the address on its first line, and for every other field the last line that sets it.
  function BlockClient(head: string, body: seq<string>): ClientInfo {
    ClientInfo(LeaseIp(head), Or(LastValue(body, MacOn), ""), LastValue(body, StateOn) == Some("active"),
               Or(LastValue(body, StartOn), ""), Or(LastValue(body, EndOn), ""))
  }

  function LastLease(lines: seq<string>): (i: int)
    ensures -1 <= i < |lines|
    ensures i >= 0 ==> IsLeaseLine(lines[i])
    ensures forall k :: i < k < |lines| ==> !IsLeaseLine(lines[k])
  {
    if lines == [] then -1
    else if IsLeaseLine(lines[|lines| - 1]) then |lines| - 1
    else LastLease(lines[..|lines| - 1])
  }

  // One client per lease line: its own line and the lines up to its closing brace decide it.
  function Meaning(lines: seq<string>): seq<ClientInfo>
    decreases |lines|
  {
    var i := LastLease(lines);
    if i < 0 then [] else Meaning(lines[..i]) + [BlockClient(lines[i], BlockBody(lines[i + 1..]))]
  }

  // The lines before the first lease line
  function UntilLease(lines: seq<string>): seq<string> {
    if lines == [] || IsLeaseLine(lines[0]) then [] else [lines[0]] + UntilLease(lines[1..])
  }

  // The client of the block that the lease line at i opens
  function BlockAt(lines: seq<string>, i: nat): ClientInfo
    requires i < |lines|
  {
    BlockClient(lines[i], BlockBody(UntilLease(lines[i + 1..])))
  }

  function Address(line: string): Option<string> {
    if IsLeaseLine(line) then Some(LeaseIp(line)) else None
  }

  // The element at i has a key, and is the last one with this key.
  ghost predicate LastWithKey<A>(xs: seq<A>, key: A -> Option<string>, i: int) {
    0 <= i < |xs| && key(xs[i]).Some? && forall k :: i < k < |xs| ==> key(xs[k]) != key(xs[i])
  }

  // The line at i is the last lease line of its address.
  ghost predicate LastOfAddress(lines: seq<string>, i: int) { LastWithKey(lines, Address, i) }

  // The addresses on the lease lines, in file order
  function LeaseIps(lines: seq<string>): seq<string> {
    if lines == [] then []
    else LeaseIps(lines[..|lines| - 1])
         + if IsLeaseLine(lines[|lines| - 1]) then [LeaseIp(lines[|lines| - 1])] else []
  }

  lemma ScanSnoc(s: Scan, lines: seq<string>, line: string)
    ensures ScanLines(s, lines + [line]) == Step(ScanLines(s, lines), line)
  {
    assert (lines + [line])[..|lines|] == lines;
  }

  lemma {:induction false} ScanAppend(s: Scan, a: seq<string>, b: seq<string>)
    ensures ScanLines(s, a + b) == ScanLines(ScanLines(s, a), b)
  {
    if b == [] {
      assert a + b == a;
    } else {
      assert (a + b)[..|a + b| - 1] == a + b[..|b| - 1];
      ScanAppend(s, a, b[..|b| - 1]);
    }
  }

  lemma ScanCons(s: Scan, line: string, lines: seq<string>)
    ensures ScanLines(s, [line] + lines) == ScanLines(Step(s, line), lines)
  {
    ScanAppend(s, [line], lines);
    ScanSnoc(s, [], line);
    assert [] + [line] == [line];
  }

  // The flag inLeaseBlock always says whether there is a current client.
  lemma {:induction false} FlagFollowsCurrent(lines: seq<string>)
    ensures ScanLines(START, lines).inLeaseBlock == ScanLines(START, lines).current.Some?
  {
    if lines != [] {
      FlagFollowsCurrent(lines[..|lines| - 1]);
    }
  }

  // What was finished earlier does not influence later lines.
  lemma {:induction false} EarlierClientsInert(p: seq<ClientInfo>, s: Scan, lines: seq<string>)
    ensures ScanLines(s.(clients := p + s.clients), lines)
         == ScanLines(s, lines).(clients := p + ScanLines(s, lines).clients)
  {
    if lines != [] {
      EarlierClientsInert(p, s, lines[..|lines| - 1]);
      var t := ScanLines(s, lines[..|lines| - 1]);
      assert Finish(t.(clients := p + t.clients)) == p + Finish(t);
    }
  }

  // A file cut just before a lease line is parsed piece by piece.
  lemma {:induction false} ParseConcat(a: seq<string>, b: seq<string>)
    requires b == [] || IsLeaseLine(b[0])
    ensures ParseLines(a + b) == ParseLines(a) + ParseLines(b)
  {
    ScanAppend(START, a, b);
    if b != [] {
      var s := ScanLines(START, a);
      assert b == [b[0]] + b[1..];
      ScanCons(START, b[0], b[1..]);
      ScanCons(s, b[0], b[1..]);
      var t := Step(START, b[0]);
      EarlierClientsInert(Finish(s), t, b[1..]);
      assert Step(s, b[0]) == t.(clients := Finish(s) + t.clients);
    }
  }

  // Text without a lease line yields no client, whatever else it holds.
  lemma {:induction false} NoLeaseNoClient(lines: seq<string>)
    requires forall i :: 0 <= i < |lines| ==> !IsLeaseLine(lines[i])
    ensures ScanLines(START, lines) == START
  {
    if lines != [] {
      NoLeaseNoClient(lines[..|lines| - 1]);
    }
  }

  // Inside a block the scanner keeps the last value of each field.
  lemma {:induction false} ScanBody(s: Scan, head: string, body: seq<string>)
    requires IsLeaseLine(head)
    requires forall i :: 0 <= i < |body| ==> !IsLeaseLine(body[i]) && !IsCloseLine(body[i])
    ensures ScanLines(Step(s, head), body) == Scan(Finish(s), Some(BlockClient(head, body)), true)
  {
    if body != [] {
      ScanBody(s, head, body[..|body| - 1]);
      var line := body[|body| - 1];
      BlankLineIsInert(line);
      LeaseLineIsNotBlank(head);
    } else {
      LeaseLineIsNotBlank(head);
    }
  }

  lemma LeaseLineIsNotBlank(line: string)
    requires IsLeaseLine(line)
    ensures TrimSpace(line) != ""
  {
  }

  lemma BlankLineIsInert(line: string)
    ensures TrimSpace(line) == "" ==>
              MacOn(line).None? && StateOn(line).None? && StartOn(line).None? && EndOn(line).None?
  {
    ContainedChars("", "hardware ethernet", 'h');
    ContainedChars("", "binding state", 'b');
    ContainedChars("", "starts", 's');
    ContainedChars("", "ends", 'e');
    assert "hardware ethernet"[0] == 'h' && "binding state"[0] == 'b' && "starts"[0] == 's' && "ends"[0] == 'e';
  }

  // After the closing brace the rest of a stretch without lease lines changes nothing.
  lemma {:induction false} ScanIdle(clients: seq<ClientInfo>, lines: seq<string>)
    requires forall i :: 0 <= i < |lines| ==> !IsLeaseLine(lines[i])
    ensures ScanLines(Scan(clients, None, false), lines) == Scan(clients, None, false)
  {
    if lines != [] {
      ScanIdle(clients, lines[..|lines| - 1]);
    }
  }

  // A lease line followed by no other lease line is exactly one client.
  lemma {:induction false} SingleBlock(head: string, rest: seq<string>)
    requires IsLeaseLine(head)
    requires forall i :: 0 <= i < |rest| ==> !IsLeaseLine(rest[i])
    ensures ParseLines([head] + rest) == [BlockClient(head, BlockBody(rest))]
  {
    var body := BlockBody(rest);
    assert rest == body + rest[|body|..];
    ScanBlock(head, body, rest[|body|..]);
  }

  lemma {:induction false} ScanBlock(head: string, body: seq<string>, tail: seq<string>)
    requires IsLeaseLine(head)
    requires forall i :: 0 <= i < |body| ==> !IsLeaseLine(body[i]) && !IsCloseLine(body[i])
    requires tail == [] || IsCloseLine(tail[0])
    requires forall i :: 0 <= i < |tail| ==> !IsLeaseLine(tail[i])
    ensures ParseLines([head] + (body + tail)) == [BlockClient(head, body)]
  {
    var c := BlockClient(head, body);
    calc {
      ScanLines(START, [head] + (body + tail));
      { ScanCons(START, head, body + tail); }
      ScanLines(Step(START, head), body + tail);
      { ScanAppend(Step(START, head), body, tail); }
      ScanLines(ScanLines(Step(START, head), body), tail);
      { ScanBody(START, head, body); }
      ScanLines(Scan([], Some(c), true), tail);
    }
    ScanTail(c, tail);
  }

  lemma {:induction false} ScanTail(c: ClientInfo, tail: seq<string>)
    requires tail == [] || IsCloseLine(tail[0])
    requires forall i :: 0 <= i < |tail| ==> !IsLeaseLine(tail[i])
    ensures Finish(ScanLines(Scan([], Some(c), true), tail)) == [c]
  {
    if tail != [] {
      assert tail == [tail[0]] + tail[1..];
      var s := Scan([], Some(c), true);
      ScanCons(s, tail[0], tail[1..]);
      assert Step(s, tail[0]) == Scan([c], None, false);
      ScanIdle([c], tail[1..]);
    }
  }

  // The scanner computes the declarative meaning of every file.
  lemma {:induction false} ParserIsMeaning(lines: seq<string>)
    ensures ParseLines(lines) == Meaning(lines)
    decreases |lines|
  {
    var i := LastLease(lines);
    if i < 0 {
      NoLeaseNoClient(lines);
    } else {
      var c := BlockClient(lines[i], BlockBody(lines[i + 1..]));
      assert lines[i..] == [lines[i]] + lines[i + 1..];
      calc {
        ParseLines(lines);
        { assert lines == lines[..i] + lines[i..]; ParseConcat(lines[..i], lines[i..]); }
        ParseLines(lines[..i]) + ParseLines(lines[i..]);
        { SingleBlock(lines[i], lines[i + 1..]); }
        ParseLines(lines[..i]) + [c];
        { ParserIsMeaning(lines[..i]); }
        Meaning(lines[..i]) + [c];
      }
    }
  }

  lemma {:induction false} UntilLeaseCut(a: seq<string>, b: seq<string>)
    requires b == [] || IsLeaseLine(b[0])
    ensures UntilLease(a + b) == UntilLease(a)
  {
    if a == [] {
      assert a + b == b;
    } else {
      assert (a + b)[0] == a[0] && (a + b)[1..] == a[1..] + b;
      UntilLeaseCut(a[1..], b);
    }
  }

  lemma {:induction false} UntilLeaseAll(a: seq<string>)
    requires forall i :: 0 <= i < |a| ==> !IsLeaseLine(a[i])
    ensures UntilLease(a) == a
  {
    if a != [] {
      UntilLeaseAll(a[1..]);
      assert a == [a[0]] + a[1..];
    }
  }

  lemma {:induction false} BlockAtCut(lines: seq<string>, l: nat, i: nat)
    requires i < l < |lines| && IsLeaseLine(lines[l])
    ensures BlockAt(lines, i) == BlockAt(lines[..l], i)
  {
    assert lines[i + 1..] == lines[..l][i + 1..] + lines[l..];
    UntilLeaseCut(lines[..l][i + 1..], lines[l..]);
  }

  // The meaning grows by the block of the last lease line, and earlier blocks do not depend on it.
  lemma {:induction false} MeaningLast(lines: seq<string>)
    ensures var l := LastLease(lines);
      if l < 0 then Meaning(lines) == []
      else && Meaning(lines) == Meaning(lines[..l]) + [BlockAt(lines, l)]
           && forall i :: 0 <= i < l ==> BlockAt(lines, i) == BlockAt(lines[..l], i)
  {
    var l := LastLease(lines);
    if l >= 0 {
      UntilLeaseAll(lines[l + 1..]);
      forall i | 0 <= i < l ensures BlockAt(lines, i) == BlockAt(lines[..l], i) {
        BlockAtCut(lines, l, i);
      }
    }
  }

  function Ips(clients: seq<ClientInfo>): seq<string> {
    seq(|clients|, i requires 0 <= i < |clients| => clients[i].ip)
  }

  lemma {:induction false} LeaseIpsSkip(lines: seq<string>, i: nat)
    requires i <= |lines| && forall k :: i <= k < |lines| ==> !IsLeaseLine(lines[k])
    ensures LeaseIps(lines) == LeaseIps(lines[..i])
    decreases |lines|
  {
    if i < |lines| {
      LeaseIpsSkip(lines[..|lines| - 1], i);
      assert lines[..|lines| - 1][..i] == lines[..i];
    } else {
      assert lines[..i] == lines;
    }
  }

  lemma IpsSnoc(clients: seq<ClientInfo>, c: ClientInfo)
    ensures Ips(clients + [c]) == Ips(clients) + [c.ip]
  {
  }

  lemma LeaseIpsAt(lines: seq<string>, i: nat)
    requires i < |lines| && IsLeaseLine(lines[i])
    ensures LeaseIps(lines[..i + 1]) == LeaseIps(lines[..i]) + [LeaseIp(lines[i])]
  {
    assert lines[..i + 1][..i] == lines[..i];
  }

  // Exactly one client per lease line, in file order.
  lemma OneClientPerLeaseLine(lines: seq<string>)
    ensures Ips(ParseLines(lines)) == LeaseIps(lines)
  {
    ParserIsMeaning(lines);
    MeaningIps(lines);
  }

  lemma {:induction false} MeaningIps(lines: seq<string>)
    ensures Ips(Meaning(lines)) == LeaseIps(lines)
    decreases |lines|
  {
    var i := LastLease(lines);
    if i < 0 {
      LeaseIpsSkip(lines, 0);
      assert lines[..0] == [];
    } else {
      var c := BlockClient(lines[i], BlockBody(lines[i + 1..]));
      calc {
        Ips(Meaning(lines));
        { assert Meaning(lines) == Meaning(lines[..i]) + [c]; }
        Ips(Meaning(lines[..i]) + [c]);
        { IpsSnoc(Meaning(lines[..i]), c); }
        Ips(Meaning(lines[..i])) + [c.ip];
        { MeaningIps(lines[..i]); }
        LeaseIps(lines[..i]) + [c.ip];
        { LeaseIpsAt(lines, i); }
        LeaseIps(lines[..i + 1]);
        { LeaseIpsSkip(lines, i + 1); }
        LeaseIps(lines);
      }
    }
  }
}
