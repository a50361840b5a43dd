/**
 Lease files in the layout of dhcpd.leases(5) (sample in doc/design/agent.md), and what the
 reader of LeaseFile gets back from them.
 */
module LeasePrinter {
  import opened GoStrings
  import opened LeaseFile

  datatype Kind = Current | Next | Rewind

  // A statement of a lease block; Other covers cltt, uid, client-hostname and the like
  datatype Stmt =
    | Starts(day: string, date: string, time: string)
    | Ends(day: string, date: string, time: string)
    | Binding(kind: Kind, state: string)
    | Hardware(mac: string)
    | Other(text: string)

  datatype Lease = Lease(ip: string, stmts: seq<Stmt>)

  // Comments and global statements stand between the blocks
  datatype Item = Block(lease: Lease) | Noise(text: string)

  // ---- Printing -----------------------------------------------------------------

  function Words3(a: string, b: string, c: string): string { a + " " + (b + " " + c) }
  function Words4(a: string, b: string, c: string, d: string): string { a + " " + Words3(b, c, d) }

  function Render(s: Stmt): string {
    match s
    case Starts(day, date, time) => Words4("starts", day, date, time + ";")
    case Ends(day, date, time) => Words4("ends", day, date, time + ";")
    case Binding(Current, state) => Words3("binding", "state", state + ";")
    case Binding(Next, state) => Words4("next", "binding", "state", state + ";")
    case Binding(Rewind, state) => Words4("rewind", "binding", "state", state + ";")
    case Hardware(mac) => Words3("hardware", "ethernet", mac + ";")
    case Other(text) => text
  }

  // White space before the outer lines of a block and before its statements, and whether the brace follows the address
  // at once
  datatype Layout = Layout(outer: string, indent: string, tight: bool)

  predicate GoodLayout(y: Layout) {
    AllSpace(y.outer) && AllSpace(y.indent) && '\n' !in y.outer && '\n' !in y.indent
  }

  function Header(ip: string, tight: bool): string {
    if tight then "lease" + " " + (ip + "{") else Words3("lease", ip, "{")
  }

  function BodyLines(stmts: seq<Stmt>, indent: string): (r: seq<string>)
    ensures |r| == |stmts|
    ensures forall i :: 0 <= i < |r| ==> r[i] == indent + Render(stmts[i])
  {
    seq(|stmts|, i requires 0 <= i < |stmts| => indent + Render(stmts[i]))
  }

  function ItemLines(item: Item, y: Layout): seq<string> {
    match item
    case Noise(text) => [text]
    case Block(lease) =>
      [y.outer + Header(lease.ip, y.tight)] + BodyLines(lease.stmts, y.indent) + [y.outer + "}"]
  }

  function Lines(items: seq<Item>, y: Layout): seq<string> {
    if items == [] then []
    else Lines(items[..|items| - 1], y) + ItemLines(items[|items| - 1], y)
  }

  // The whole file, every line ended by a newline
  function Print(items: seq<Item>, y: Layout): string {
    Join(Lines(items, y) + [""], "\n")
  }

  // ---- Well-formed files ---------------------------------------------------------

  // A word that cannot be taken for one of the keywords the reader looks for
  predicate Word(w: string) {
    && w != "" && NoSpace(w) && ';' !in w && '{' !in w
    && !Contains(w, "starts") && !Contains(w, "ends") && !Contains(w, "ethernet") && !Contains(w, "binding")
  }

  // Addresses, MACs, dates and times, made of digits, dots, slashes, colons and a to f, are such words.
  lemma PlainTextIsWord(w: string)
    requires w != "" && forall i :: 0 <= i < |w| ==> '.' <= w[i] <= ':' || 'a' <= w[i] <= 'f'
    ensures Word(w)
  {
    assert "starts"[0] == 's' && "ends"[3] == 's' && "ethernet"[2] == 'h' && "binding"[1] == 'i';
    AbsentChar(w, "starts", 's');
    AbsentChar(w, "ends", 's');
    AbsentChar(w, "ethernet", 'h');
    AbsentChar(w, "binding", 'i');
  }

  // Any other statement must not look like one of these: no time in four words or more, no key just once.
  predicate WellFormedStmt(s: Stmt) {
    match s
    case Starts(day, date, time) => Word(day) && Word(date) && Word(time)
    case Ends(day, date, time) => Word(day) && Word(date) && Word(time)
    case Binding(_, state) => Word(state)
    case Hardware(mac) => Word(mac)
    case Other(text) =>
      && Trimmed(text) && '\n' !in text && !HasPrefix(text, "lease") && text != "}"
      && (Contains(text, "starts") ==> |Fields(text)| < 4) && (Contains(text, "ends") ==> |Fields(text)| < 4)
      && (Contains(text, "hardware ethernet") ==> |Split(text, "hardware ethernet")| > 2)
      && (Contains(text, "binding state") ==> |Split(text, "binding state")| > 2)
  }

  predicate WellFormed(item: Item) {
    match item
    case Noise(text) => '\n' !in text && !IsLeaseLine(text)
    case Block(lease) => Word(lease.ip) && forall i :: 0 <= i < |lease.stmts| ==> WellFormedStmt(lease.stmts[i])
  }

  // ---- What the reader must find ---------------------------------------------------

  function StmtMac(s: Stmt): Option<string> { if s.Hardware? then Some(s.mac) else None }
  function StmtState(s: Stmt): Option<string> { if s.Binding? then Some(s.state) else None }
  function StmtStart(s: Stmt): Option<string> { if s.Starts? then Some(s.date + " " + s.time) else None }
  function StmtEnd(s: Stmt): Option<string> { if s.Ends? then Some(s.date + " " + s.time) else None }

  // Every field is that of the last statement giving it; a binding statement of any kind counts for `active`.
  function ClientOf(l: Lease): ClientInfo {
    ClientInfo(l.ip, Or(LastValue(l.stmts, StmtMac), ""), LastValue(l.stmts, StmtState) == Some("active"),
               Or(LastValue(l.stmts, StmtStart), ""), Or(LastValue(l.stmts, StmtEnd), ""))
  }

  function ClientsOf(items: seq<Item>): seq<ClientInfo> {
    if items == [] then []
    else ClientsOf(items[..|items| - 1])
         + match items[|items| - 1] { case Noise(_) => [] case Block(l) => [ClientOf(l)] }
  }

  // ---- Keywords in rendered lines ----------------------------------------------------

  // A keyword of one word is in a line only if it is in one of the line's words.
  lemma InWords3(a: string, b: string, c: string, kw: string)
    requires ' ' !in kw && ';' !in kw && kw != ""
    ensures Contains(Words3(a, b, c + ";"), kw) ==> Contains(a, kw) || Contains(b, kw) || Contains(c, kw)
  {
    assert c + [';'] + "" == c + ";";
    NoStraddle(c, ';', "", kw);
    ContainedChars("", kw, kw[0]);
    NoStraddle(b, ' ', c + ";", kw);
    NoStraddle(a, ' ', b + " " + (c + ";"), kw);
  }

  lemma InWords4(a: string, b: string, c: string, d: string, kw: string)
    requires ' ' !in kw && ';' !in kw && kw != ""
    ensures Contains(Words4(a, b, c, d + ";"), kw)
            ==> Contains(a, kw) || Contains(b, kw) || Contains(c, kw) || Contains(d, kw)
  {
    NoStraddle(a, ' ', Words3(b, c, d + ";"), kw);
    InWords3(b, c, d, kw);
  }

  lemma FixedWordsLackStarts()
    ensures !Contains("ends", "starts") && !Contains("binding", "starts") && !Contains("state", "starts")
    ensures !Contains("next", "starts")
    ensures !Contains("rewind", "starts") && !Contains("hardware", "starts") && !Contains("ethernet", "starts")
  {
    assert "starts"[3] == 'r' && "starts"[0] == 's' && "starts"[1] == 't';
    AbsentChar("ends", "starts", 't');
    AbsentChar("binding", "starts", 's');
    AbsentChar("state", "starts", 'r');
    AbsentChar("next", "starts", 's');
    AbsentChar("rewind", "starts", 's');
    AbsentChar("hardware", "starts", 's');
    AbsentChar("ethernet", "starts", 's');
  }

  lemma FixedWordsLackEnds()
    ensures !Contains("starts", "ends") && !Contains("binding", "ends") && !Contains("state", "ends")
    ensures !Contains("next", "ends")
    ensures !Contains("rewind", "ends") && !Contains("hardware", "ends") && !Contains("ethernet", "ends")
  {
    assert "ends"[2] == 'd' && "ends"[0] == 'e' && "ends"[1] == 'n' && "ends"[3] == 's';
    AbsentChar("starts", "ends", 'e');
    AbsentChar("binding", "ends", 'e');
    AbsentChar("state", "ends", 'n');
    AbsentChar("next", "ends", 'd');
    AbsentChar("rewind", "ends", 's');
    AbsentChar("hardware", "ends", 'n');
    AbsentChar("ethernet", "ends", 'd');
  }

  lemma FixedWordsLackEthernet()
    ensures !Contains("starts", "ethernet") && !Contains("ends", "ethernet") && !Contains("binding", "ethernet")
    ensures !Contains("state", "ethernet")
    ensures !Contains("next", "ethernet") && !Contains("rewind", "ethernet")
  {
    assert "ethernet"[2] == 'h';
    AbsentChar("starts", "ethernet", 'h');
    AbsentChar("ends", "ethernet", 'h');
    AbsentChar("binding", "ethernet", 'h');
    AbsentChar("state", "ethernet", 'h');
    AbsentChar("next", "ethernet", 'h');
    AbsentChar("rewind", "ethernet", 'h');
  }

  lemma FixedWordsLackBinding()
    ensures !Contains("starts", "binding") && !Contains("ends", "binding") && !Contains("hardware", "binding")
    ensures !Contains("ethernet", "binding")
  {
    assert "binding"[0] == 'b';
    AbsentChar("starts", "binding", 'b');
    AbsentChar("ends", "binding", 'b');
    AbsentChar("hardware", "binding", 'b');
    AbsentChar("ethernet", "binding", 'b');
  }

  // The two-word keywords need their distinctive word.
  lemma TwoWordKeys(s: string)
    ensures Contains(s, "hardware ethernet") ==> Contains(s, "ethernet")
    ensures Contains(s, "binding state") ==> Contains(s, "binding")
  {
    assert "hardware ethernet" == "hardware " + "ethernet" + "";
    assert "binding state" == "" + "binding" + " state";
    if Contains(s, "hardware ethernet") { ContainsPart(s, "hardware ", "ethernet", ""); }
    if Contains(s, "binding state") { ContainsPart(s, "", "binding", " state"); }
  }

  // Which keywords a rendered statement holds
  lemma {:induction false} KeywordsOf(s: Stmt)
    requires WellFormedStmt(s) && !s.Other?
    ensures Contains(Render(s), "starts") ==> s.Starts?
    ensures Contains(Render(s), "ends") ==> s.Ends?
    ensures Contains(Render(s), "hardware ethernet") ==> s.Hardware?
    ensures Contains(Render(s), "binding state") ==> s.Binding?
  {
    FixedWordsLackStarts();
    FixedWordsLackEnds();
    FixedWordsLackEthernet();
    FixedWordsLackBinding();
    TwoWordKeys(Render(s));
    KeywordInWords(s, "starts");
    KeywordInWords(s, "ends");
    KeywordInWords(s, "ethernet");
    KeywordInWords(s, "binding");
  }

  function StmtWords(s: Stmt): seq<string>
    requires !s.Other?
  {
    match s
    case Starts(day, date, time) => ["starts", day, date, time]
    case Ends(day, date, time) => ["ends", day, date, time]
    case Binding(Current, state) => ["binding", "state", state]
    case Binding(Next, state) => ["next", "binding", "state", state]
    case Binding(Rewind, state) => ["rewind", "binding", "state", state]
    case Hardware(mac) => ["hardware", "ethernet", mac]
  }

  lemma KeywordInWords(s: Stmt, kw: string)
    requires !s.Other? && ' ' !in kw && ';' !in kw && kw != ""
    ensures Contains(Render(s), kw) ==> exists i :: 0 <= i < |StmtWords(s)| && Contains(StmtWords(s)[i], kw)
  {
    var w := StmtWords(s);
    if |w| == 3 {
      InWords3(w[0], w[1], w[2], kw);
    } else {
      InWords4(w[0], w[1], w[2], w[3], kw);
    }
  }

  // ---- Values in rendered lines ---------------------------------------------------

  lemma Words3Trimmed(a: string, b: string, c: string)
    requires a != "" && NoSpace(a) && NoSpace(b) && NoSpace(c)
    ensures var s := Words3(a, b, c + ";"); Trimmed(s) && '\n' !in s && s[0] == a[0]
  {
    var s := Words3(a, b, c + ";");
    assert s[|s| - 1] == ';' && !IsSpace(a[0]);
    assert '\n' !in a && '\n' !in b && '\n' !in c;
  }

  lemma Words4Trimmed(a: string, b: string, c: string, d: string)
    requires a != "" && b != "" && NoSpace(a) && NoSpace(b) && NoSpace(c) && NoSpace(d)
    ensures var s := Words4(a, b, c, d + ";"); Trimmed(s) && '\n' !in s && s[0] == a[0]
  {
    var s := Words4(a, b, c, d + ";");
    Words3Trimmed(b, c, d);
    assert s[|s| - 1] == ';' && !IsSpace(a[0]);
    assert '\n' !in a;
  }

  lemma FixedWordsHaveNoSpace()
    ensures NoSpace("starts") && NoSpace("ends") && NoSpace("binding") && NoSpace("state")
    ensures NoSpace("next") && NoSpace("rewind") && NoSpace("hardware") && NoSpace("ethernet")
  {
  }

  lemma RenderIsTrimmed(s: Stmt)
    requires WellFormedStmt(s)
    ensures Trimmed(Render(s)) && '\n' !in Render(s)
    ensures !HasPrefix(Render(s), "lease") && Render(s) != "}"
  {
    FixedWordsHaveNoSpace();
    match s {
      case Starts(day, date, time) => Words4Trimmed("starts", day, date, time);
      case Ends(day, date, time) => Words4Trimmed("ends", day, date, time);
      case Binding(Current, state) => Words3Trimmed("binding", "state", state);
      case Binding(Next, state) => Words4Trimmed("next", "binding", "state", state);
      case Binding(Rewind, state) => Words4Trimmed("rewind", "binding", "state", state);
      case Hardware(mac) => Words3Trimmed("hardware", "ethernet", mac);
      case Other(_) =>
    }
  }

  // `key v;` after a prefix that cannot start the key
  lemma ValueOf(line: string, pre: string, key: string, v: string)
    requires TrimSpace(line) == pre + key + (" " + v + ";")
    requires key != "" && key[0] !in pre && !Contains(" " + v + ";", key)
    requires v != "" && NoSpace(v)
    ensures ValueAfter(line, key) == Some(v)
  {
    var tail := " " + v + ";";
    var s := pre + key + tail;
    assert s[|pre|..|pre| + |key|] == key;
    assert OccursAt(s, key, |pre|);
    SplitAfter(pre, key, tail);
    SplitWhole(tail, key);
    assert TrimSuffix(tail, ";") == " " + v;
    TrimDropsIndent(" ", v);
  }

  lemma TimeOf(line: string, kw: string, day: string, date: string, time: string)
    requires TrimSpace(line) == Words4(kw, day, date, time + ";")
    requires kw != "" && NoSpace(kw) && Word(day) && Word(date) && Word(time)
    ensures TimeOn(line, kw) == Some(date + " " + time)
  {
    var s := Words4(kw, day, date, time + ";");
    assert s[0..|kw|] == kw;
    assert OccursAt(s, kw, 0);
    FieldsFour(kw, day, date, time + ";");
    assert TrimSuffix(date + " " + (time + ";"), ";") == date + " " + time;
  }

  function KindPrefix(kind: Kind): string {
    match kind case Current => "" case Next => "next " case Rewind => "rewind "
  }

  lemma RenderBinding(kind: Kind, state: string)
    ensures Render(Binding(kind, state)) == KindPrefix(kind) + "binding state" + (" " + state + ";")
    ensures 'b' !in KindPrefix(kind)
  {
    assert "binding" + " " + ("state" + " " + (state + ";")) == "binding state" + (" " + state + ";");
    match kind {
      case Current => assert "" + "binding state" + (" " + state + ";") == "binding state" + (" " + state + ";");
      case Next =>
        var tail := " " + state + ";";
        assert "next" + " " + ("binding state" + tail) == "next " + "binding state" + tail;
      case Rewind =>
        var tail := " " + state + ";";
        assert "rewind" + " " + ("binding state" + tail) == "rewind " + "binding state" + tail;
    }
  }

  lemma StateOf(line: string, kind: Kind, state: string)
    requires Word(state) && TrimSpace(line) == Render(Binding(kind, state))
    ensures StateOn(line) == Some(state)
  {
    RenderBinding(kind, state);
    TailLacks(state, "binding");
    TwoWordKeys(" " + state + ";");
    ValueOf(line, KindPrefix(kind), "binding state", state);
  }

  lemma MacOf(line: string, mac: string)
    requires Word(mac) && TrimSpace(line) == Render(Hardware(mac))
    ensures MacOn(line) == Some(mac)
  {
    assert Render(Hardware(mac)) == "" + "hardware ethernet" + (" " + mac + ";");
    TailLacks(mac, "ethernet");
    TwoWordKeys(" " + mac + ";");
    ValueOf(line, "", "hardware ethernet", mac);
  }

  lemma TailLacks(v: string, kw: string)
    requires ' ' !in kw && ';' !in kw && kw != ""
    ensures Contains(" " + v + ";", kw) ==> Contains(v, kw)
  {
    ContainedChars("", kw, kw[0]);
    NoStraddle(v, ';', "", kw);
    assert v + [';'] + "" == v + ";";
    NoStraddle("", ' ', v + ";", kw);
    assert "" + [' '] + (v + ";") == " " + v + ";";
  }

  ghost predicate Says(line: string, s: Stmt) {
    && MacOn(line) == StmtMac(s) && StateOn(line) == StmtState(s)
    && StartOn(line) == StmtStart(s) && EndOn(line) == StmtEnd(s)
  }

  lemma KnownSays(s: Stmt, line: string)
    requires WellFormedStmt(s) && !s.Other? && TrimSpace(line) == Render(s)
    ensures Says(line, s)
  {
    KeywordsOf(s);
    match s {
      case Starts(day, date, time) => TimeOf(line, "starts", day, date, time);
      case Ends(day, date, time) => TimeOf(line, "ends", day, date, time);
      case Binding(kind, state) => StateOf(line, kind, state);
      case Hardware(mac) => MacOf(line, mac);
    }
  }

  // A printed statement line tells the reader exactly what the statement says.
  lemma LineSays(s: Stmt, indent: string)
    requires WellFormedStmt(s) && AllSpace(indent)
    ensures var line := indent + Render(s); !IsLeaseLine(line) && !IsCloseLine(line) && Says(line, s)
  {
    var line := indent + Render(s);
    RenderIsTrimmed(s);
    TrimDropsIndent(indent, Render(s));
    if !s.Other? {
      KnownSays(s, line);
    }
  }

  // ---- Round trip --------------------------------------------------------------------

  lemma {:induction false} BodySays<T>(stmts: seq<Stmt>, indent: string, f: string -> Option<T>, g: Stmt -> Option<T>)
    requires forall i :: 0 <= i < |stmts| ==> f(indent + Render(stmts[i])) == g(stmts[i])
    ensures LastValue(BodyLines(stmts, indent), f) == LastValue(stmts, g)
  {
    if stmts != [] {
      var n := |stmts| - 1;
      assert BodyLines(stmts, indent)[..n] == BodyLines(stmts[..n], indent);
      BodySays(stmts[..n], indent, f, g);
    }
  }

  lemma HeaderIsTrimmed(outer: string, ip: string, tight: bool)
    requires AllSpace(outer)
    ensures TrimSpace(outer + Header(ip, tight)) == Header(ip, tight) && IsLeaseLine(outer + Header(ip, tight))
  {
    var h := Header(ip, tight);
    assert h[0] == 'l' && h[|h| - 1] == '{';
    TrimDropsIndent(outer, h);
    assert h[..5] == "lease";
  }

  lemma HeaderSays(outer: string, ip: string, tight: bool)
    requires Word(ip) && AllSpace(outer)
    ensures IsLeaseLine(outer + Header(ip, tight)) && LeaseIp(outer + Header(ip, tight)) == ip
  {
    HeaderIsTrimmed(outer, ip, tight);
    HeaderParts(ip, tight);
    assert TrimSuffix(ip, "{") == ip && TrimSuffix(ip + "{", "{") == ip;
    TrimDropsIndent("", ip);
    assert "" + ip == ip;
  }

  lemma HeaderParts(ip: string, tight: bool)
    requires Word(ip)
    ensures Split(Header(ip, tight), " ") == if tight then ["lease", ip + "{"] else ["lease", ip, "{"]
  {
    assert ' ' !in ip;
    if tight {
      SplitAfter("lease", " ", ip + "{");
      AbsentChar(ip + "{", " ", ' ');
      SplitWhole(ip + "{", " ");
    } else {
      SplitAfter("lease", " ", ip + " " + "{");
      SplitAfter(ip, " ", "{");
      AbsentChar("{", " ", ' ');
      SplitWhole("{", " ");
    }
  }

  // A lease line that is nothing but the keyword opens a block without an address.
  lemma BareLease()
    ensures IsLeaseLine("lease") && LeaseIp("lease") == ""
  {
    TrimDropsIndent("", "lease");
    assert "" + "lease" == "lease";
    AbsentChar("lease", " ", ' ');
    SplitWhole("lease", " ");
  }

  lemma BlockSays(l: Lease, y: Layout)
    requires WellFormed(Block(l)) && GoodLayout(y)
    ensures BlockClient(y.outer + Header(l.ip, y.tight), BodyLines(l.stmts, y.indent)) == ClientOf(l)
    ensures forall line :: line in BodyLines(l.stmts, y.indent) ==> !IsLeaseLine(line) && !IsCloseLine(line)
  {
    forall i | 0 <= i < |l.stmts|
      ensures var line := y.indent + Render(l.stmts[i]);
        !IsLeaseLine(line) && !IsCloseLine(line) && Says(line, l.stmts[i])
    {
      LineSays(l.stmts[i], y.indent);
    }
    HeaderSays(y.outer, l.ip, y.tight);
    BodySays(l.stmts, y.indent, MacOn, StmtMac);
    BodySays(l.stmts, y.indent, StateOn, StmtState);
    BodySays(l.stmts, y.indent, StartOn, StmtStart);
    BodySays(l.stmts, y.indent, EndOn, StmtEnd);
  }

  // Between blocks the scanner is idle; a printed item adds exactly its client.
  lemma ScanItem(clients: seq<ClientInfo>, item: Item, y: Layout)
    requires WellFormed(item) && GoodLayout(y)
    ensures ScanLines(Scan(clients, None, false), ItemLines(item, y))
         == Scan(clients + match item { case Noise(_) => [] case Block(l) => [ClientOf(l)] }, None, false)
  {
    match item {
      case Noise(text) => ScanIdle(clients, [text]);
      case Block(l) => ScanPrintedBlock(clients, l, y);
    }
  }

  lemma ScanPrintedBlock(clients: seq<ClientInfo>, l: Lease, y: Layout)
    requires WellFormed(Block(l)) && GoodLayout(y)
    ensures ScanLines(Scan(clients, None, false), ItemLines(Block(l), y))
         == Scan(clients + [ClientOf(l)], None, false)
  {
    var s, body := Scan(clients, None, false), BodyLines(l.stmts, y.indent);
    var head, close := y.outer + Header(l.ip, y.tight), y.outer + "}";
    BlockSays(l, y);
    HeaderSays(y.outer, l.ip, y.tight);
    calc {
      ScanLines(s, ItemLines(Block(l), y));
      { assert ItemLines(Block(l), y) == [head] + (body + [close]); }
      ScanLines(s, [head] + (body + [close]));
      { ScanCons(s, head, body + [close]); }
      ScanLines(Step(s, head), body + [close]);
      { ScanSnoc(Step(s, head), body, close); }
      Step(ScanLines(Step(s, head), body), close);
      { ScanBody(s, head, body); }
      Step(Scan(clients, Some(ClientOf(l)), true), close);
      { CloseStep(clients, ClientOf(l), y.outer); }
      Scan(clients + [ClientOf(l)], None, false);
    }
  }

  lemma CloseStep(clients: seq<ClientInfo>, c: ClientInfo, outer: string)
    requires AllSpace(outer)
    ensures Step(Scan(clients, Some(c), true), outer + "}") == Scan(clients + [c], None, false)
  {
    TrimDropsIndent(outer, "}");
  }

  lemma {:induction false} ScanItems(items: seq<Item>, y: Layout)
    requires GoodLayout(y) && forall i :: 0 <= i < |items| ==> WellFormed(items[i])
    ensures ScanLines(START, Lines(items, y)) == Scan(ClientsOf(items), None, false)
  {
    if items != [] {
      var n := |items| - 1;
      var before, last := Lines(items[..n], y), ItemLines(items[n], y);
      calc {
        ScanLines(START, Lines(items, y));
        ScanLines(START, before + last);
        { ScanAppend(START, before, last); }
        ScanLines(ScanLines(START, before), last);
        { ScanItems(items[..n], y); }
        ScanLines(Scan(ClientsOf(items[..n]), None, false), last);
        { ScanItem(ClientsOf(items[..n]), items[n], y); }
        Scan(ClientsOf(items), None, false);
      }
    }
  }

  lemma HeaderHasNoNewline(ip: string, tight: bool)
    requires Word(ip)
    ensures '\n' !in Header(ip, tight)
  {
    assert '\n' !in ip;
  }

  lemma {:induction false} BodyHasNoNewline(stmts: seq<Stmt>, indent: string, line: string)
    requires '\n' !in indent && line in BodyLines(stmts, indent)
    requires forall i :: 0 <= i < |stmts| ==> WellFormedStmt(stmts[i])
    ensures '\n' !in line
  {
    var i :| 0 <= i < |stmts| && line == indent + Render(stmts[i]);
    RenderIsTrimmed(stmts[i]);
  }

  lemma {:induction false} ItemHasNoNewline(item: Item, y: Layout, line: string)
    requires GoodLayout(y) && WellFormed(item) && line in ItemLines(item, y)
    ensures '\n' !in line
  {
    if item.Block? {
      if line in BodyLines(item.lease.stmts, y.indent) {
        BodyHasNoNewline(item.lease.stmts, y.indent, line);
      } else {
        HeaderHasNoNewline(item.lease.ip, y.tight);
        assert line == y.outer + Header(item.lease.ip, y.tight) || line == y.outer + "}";
      }
    }
  }

  lemma {:induction false} LinesHaveNoNewline(items: seq<Item>, y: Layout)
    requires GoodLayout(y) && forall i :: 0 <= i < |items| ==> WellFormed(items[i])
    ensures forall line :: line in Lines(items, y) ==> '\n' !in line
  {
    if items != [] {
      var n := |items| - 1;
      LinesHaveNoNewline(items[..n], y);
      forall line | line in ItemLines(items[n], y) ensures '\n' !in line { ItemHasNoNewline(items[n], y, line); }
    }
  }

  // Reading a printed file returns every lease's client, in order.
  lemma {:induction false} RoundTrip(items: seq<Item>, y: Layout)
    requires GoodLayout(y)
    requires forall i :: 0 <= i < |items| ==> WellFormed(items[i])
    ensures ParseLines(Split(Print(items, y), "\n")) == ClientsOf(items)
  {
    var lines := Lines(items, y);
    var end := Scan(ClientsOf(items), None, false);
    calc {
      ScanLines(START, Split(Print(items, y), "\n"));
      { PrintedLines(items, y); }
      ScanLines(START, lines + [""]);
      { ScanSnoc(START, lines, ""); }
      Step(ScanLines(START, lines), "");
      { ScanItems(items, y); }
      Step(end, "");
      end;
    }
  }

  lemma {:induction false} PrintedLines(items: seq<Item>, y: Layout)
    requires GoodLayout(y) && forall i :: 0 <= i < |items| ==> WellFormed(items[i])
    ensures Split(Print(items, y), "\n") == Lines(items, y) + [""]
  {
    LinesHaveNoNewline(items, y);
    SplitJoin(Lines(items, y) + [""], '\n');
  }

  // The block layout of the design document
  function Documented(ip: string, start: Stmt, end: Stmt, cltt: string, state: string, next: string, rewind: string,
                      mac: string, hostname: string): Lease
  {
    Lease(ip, [start, end, Other(cltt), Binding(Current, state), Binding(Next, next), Binding(Rewind, rewind),
               Hardware(mac), Other(hostname)])
  }

  // Of a documented block the reader recovers address, MAC and times; `Active` is decided by the
  // rewind state, whatever the current state is.
  lemma DocumentedClient(ip: string, start: Stmt, end: Stmt, cltt: string, state: string, next: string, rewind: string,
                         mac: string, hostname: string)
    requires start.Starts? && end.Ends?
    ensures ClientOf(Documented(ip, start, end, cltt, state, next, rewind, mac, hostname))
         == ClientInfo(ip, mac, rewind == "active", start.date + " " + start.time, end.date + " " + end.time)
  {
    var l := Documented(ip, start, end, cltt, state, next, rewind, mac, hostname).stmts;
    LastAt(l, StmtStart, 0);
    LastAt(l, StmtEnd, 1);
    LastAt(l, StmtState, 5);
    LastAt(l, StmtMac, 6);
  }

  // So reading the text of a documented block, with whatever well-formed text before and after it, gives that client
  // between those of the rest.
  lemma {:induction false} DocumentedBlock(before: seq<Item>, after: seq<Item>, y: Layout, ip: string, start: Stmt,
                                           end: Stmt, cltt: string, state: string, next: string, rewind: string,
                                           mac: string, hostname: string)
    requires GoodLayout(y) && start.Starts? && end.Ends?
    requires forall i :: 0 <= i < |before| ==> WellFormed(before[i])
    requires forall i :: 0 <= i < |after| ==> WellFormed(after[i])
    requires WellFormed(Block(Documented(ip, start, end, cltt, state, next, rewind, mac, hostname)))
    ensures var block := Block(Documented(ip, start, end, cltt, state, next, rewind, mac, hostname));
      ParseLines(Split(Print(before + [block] + after, y), "\n"))
      == ClientsOf(before)
         + [ClientInfo(ip, mac, rewind == "active", start.date + " " + start.time, end.date + " " + end.time)]
         + ClientsOf(after)
  {
    DocumentedClient(ip, start, end, cltt, state, next, rewind, mac, hostname);
    BlockBetween(before, Documented(ip, start, end, cltt, state, next, rewind, mac, hostname), after, y);
  }

  lemma {:induction false} BlockBetween(before: seq<Item>, l: Lease, after: seq<Item>, y: Layout)
    requires GoodLayout(y) && WellFormed(Block(l))
    requires forall i :: 0 <= i < |before| ==> WellFormed(before[i])
    requires forall i :: 0 <= i < |after| ==> WellFormed(after[i])
    ensures ParseLines(Split(Print(before + [Block(l)] + after, y), "\n"))
         == ClientsOf(before) + [ClientOf(l)] + ClientsOf(after)
  {
    calc {
      ParseLines(Split(Print(before + [Block(l)] + after, y), "\n"));
      { RoundTrip(before + [Block(l)] + after, y); }
      ClientsOf(before + [Block(l)] + after);
      { ClientsAppend(before + [Block(l)], after); }
      ClientsOf(before + [Block(l)]) + ClientsOf(after);
      { ClientsSnoc(before, l); }
      ClientsOf(before) + [ClientOf(l)] + ClientsOf(after);
    }
  }

  lemma {:induction false} ClientsSnoc(items: seq<Item>, l: Lease)
    ensures ClientsOf(items + [Block(l)]) == ClientsOf(items) + [ClientOf(l)]
  {
    assert (items + [Block(l)])[..|items|] == items;
  }

  lemma {:induction false} ClientsAppend(a: seq<Item>, b: seq<Item>)
    ensures ClientsOf(a + b) == ClientsOf(a) + ClientsOf(b)
  {
    if b == [] {
      assert a + b == a;
    } else {
      assert (a + b)[..|a + b| - 1] == a + b[..|b| - 1];
      ClientsAppend(a, b[..|b| - 1]);
    }
  }

  lemma {:induction false} LastAt<A, T>(xs: seq<A>, f: A -> Option<T>, k: nat)
    requires k < |xs| && f(xs[k]).Some? && forall j :: k < j < |xs| ==> f(xs[j]).None?
    ensures LastValue(xs, f) == f(xs[k])
  {
    if k < |xs| - 1 {
      LastAt(xs[..|xs| - 1], f, k);
    }
  }
}
