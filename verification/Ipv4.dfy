/**
 IPv4 addresses as the DHCP server handles them: text to octets, octets to integer by
 shift-and-or, range size and subnet membership (pkg/dhcpserver/tools.go).
 */
module Ipv4 {
  import opened GoStrings

  type Byte = x: int | 0 <= x < 256

  datatype Addr = Addr(a: Byte, b: Byte, c: Byte, d: Byte)

  // What net.ParseIP gives; V6 is an address for which To4() is nil
  datatype Parsed = Bad | V4(addr: Addr) | V6

  // ---- Text ---------------------------------------------------------------------

  predicate Digits(s: string) {
    s != "" && forall i :: 0 <= i < |s| ==> '0' <= s[i] <= '9'
  }

  function Value(s: string): (n: nat)
    requires forall i :: 0 <= i < |s| ==> '0' <= s[i] <= '9'
  {
    if s == "" then 0 else Value(s[..|s| - 1]) * 10 + (s[|s| - 1] as int - '0' as int)
  }

  // strconv.Itoa for natural numbers
  function Decimal(n: nat): (s: string)
    ensures Digits(s) && Value(s) == n && (s[0] == '0' ==> n == 0) && (n < 10 ==> |s| == 1)
  {
    var d := [(n % 10) as char + '0'];
    if n < 10 then d
    else
      var s := Decimal(n / 10) + d;
      assert s[..|s| - 1] == Decimal(n / 10);
      s
  }

  predicate OctetText(s: string) {
    Digits(s) && |s| <= 3 && (s[0] == '0' ==> |s| == 1) && Value(s) < 256
  }

  predicate DottedQuad(s: string) {
    var p := Split(s, ".");
    |p| == 4 && OctetText(p[0]) && OctetText(p[1]) && OctetText(p[2]) && OctetText(p[3])
  }

  // net.ParseIP; `other` answers for text that is not a dotted quad (IPv6 notations)
  function ParseIP(s: string, other: string -> Parsed): Parsed {
    if DottedQuad(s) then
      var p := Split(s, ".");
      V4(Addr(Value(p[0]), Value(p[1]), Value(p[2]), Value(p[3])))
    else other(s)
  }

  function Text(x: Addr): string {
    Decimal(x.a) + "." + (Decimal(x.b) + "." + (Decimal(x.c) + "." + Decimal(x.d)))
  }

  lemma ByteText(b: Byte)
    ensures OctetText(Decimal(b)) && '.' !in Decimal(b)
  {
    var h := Decimal(b / 10);
    assert b >= 10 ==> |Decimal(b)| == |h| + 1;
    assert b >= 100 ==> |h| == |Decimal(b / 100)| + 1;
    assert forall i :: 0 <= i < |Decimal(b)| ==> '0' <= Decimal(b)[i] <= '9';
  }

  // Printing an address and parsing it gives it back.
  lemma {:induction false} ParsePrinted(x: Addr, other: string -> Parsed)
    ensures DottedQuad(Text(x)) && ParseIP(Text(x), other) == V4(x)
  {
    var p := [Decimal(x.a), Decimal(x.b), Decimal(x.c), Decimal(x.d)];
    ByteText(x.a);
    ByteText(x.b);
    ByteText(x.c);
    ByteText(x.d);
    SplitJoin(p, '.');
    JoinFour(p[0], p[1], p[2], p[3]);
  }

  lemma DecimalSnoc(n: nat, d: nat)
    requires n > 0 && d < 10
    ensures Decimal(10 * n + d) == Decimal(n) + [d as char + '0']
  {
    assert (10 * n + d) / 10 == n && (10 * n + d) % 10 == d;
  }

  lemma DigitChar(c: char)
    requires '0' <= c <= '9'
    ensures var d := c as int - '0' as int; 0 <= d < 10 && d as char + '0' == c
  {
  }

  lemma ValueSnoc(t: string, c: char)
    requires Digits(t) && '0' <= c <= '9'
    ensures Digits(t + [c]) && Value(t + [c]) == 10 * Value(t) + (c as int - '0' as int)
  {
    assert (t + [c])[..|t|] == t;
  }

  lemma DigitIsDecimal(c: char)
    requires '0' <= c <= '9'
    ensures Decimal(Value([c])) == [c] && (c != '0' ==> Value([c]) > 0)
  {
    DigitChar(c);
    assert [c][..0] == "" && Value("") == 0;
    assert Value([c]) == c as int - '0' as int;
  }

  lemma DecimalStep(t: string, c: char)
    requires Digits(t) && '0' <= c <= '9' && Decimal(Value(t)) == t && Value(t) > 0
    ensures Digits(t + [c]) && Decimal(Value(t + [c])) == t + [c] && Value(t + [c]) > 0
  {
    ValueSnoc(t, c);
    DigitChar(c);
    DecimalSnoc(Value(t), c as int - '0' as int);
  }

  // The text of an octet is its decimal without leading zeros.
  lemma OctetIsDecimal(s: string)
    requires OctetText(s)
    ensures Decimal(Value(s)) == s
  {
    DigitIsDecimal(s[0]);
    if |s| == 1 {
      assert s == [s[0]];
    } else {
      var t := [s[0]];
      DecimalStep(t, s[1]);
      if |s| == 2 {
        assert s == t + [s[1]];
      } else {
        DecimalStep(t + [s[1]], s[2]);
        assert s == t + [s[1]] + [s[2]];
      }
    }
  }

  lemma QuadIsText(s: string)
    requires DottedQuad(s)
    ensures var p := Split(s, "."); s == Text(Addr(Value(p[0]), Value(p[1]), Value(p[2]), Value(p[3])))
  {
    var p := Split(s, ".");
    JoinSplit(s, ".");
    assert p == [p[0], p[1], p[2], p[3]];
    JoinFour(p[0], p[1], p[2], p[3]);
    OctetIsDecimal(p[0]);
    OctetIsDecimal(p[1]);
    OctetIsDecimal(p[2]);
    OctetIsDecimal(p[3]);
  }

  // Only the printed form of an address is taken for it; any other text is left to `other`.
  lemma ParsedIsPrinted(s: string, x: Addr, other: string -> Parsed)
    ensures DottedQuad(s) && ParseIP(s, other) == V4(x) <==> s == Text(x)
    ensures (forall y :: s != Text(y)) ==> ParseIP(s, other) == other(s)
  {
    if DottedQuad(s) {
      QuadIsText(s);
    }
    if s == Text(x) {
      ParsePrinted(x, other);
    }
  }

  lemma JoinFour(a: string, b: string, c: string, d: string)
    ensures Join([a, b, c, d], ".") == a + "." + (b + "." + (c + "." + d))
  {
    var p := [a, b, c, d];
    assert p[1..] == [b, c, d] && p[1..][1..] == [c, d] && p[1..][1..][1..] == [d];
    assert Join(p[1..][1..][1..], ".") == d;
    assert Join(p[1..][1..], ".") == c + "." + d;
    assert Join(p[1..], ".") == b + "." + (c + "." + d);
  }

  // A dotted quad has exactly three dots and no dash.
  lemma DottedQuadShape(s: string)
    requires DottedQuad(s)
    ensures Count(s, '.') == 3 && '-' !in s
  {
    var p := Split(s, ".");
    JoinSplit(s, ".");
    assert p == [p[0], p[1], p[2], p[3]];
    JoinFour(p[0], p[1], p[2], p[3]);
    QuadShape(p[0], p[1], p[2], p[3]);
  }

  lemma QuadShape(a: string, b: string, c: string, d: string)
    requires Digits(a) && Digits(b) && Digits(c) && Digits(d)
    ensures var s := a + "." + (b + "." + (c + "." + d)); Count(s, '.') == 3 && '-' !in s
  {
    CountAbsent(a, '.');
    CountAbsent(b, '.');
    CountAbsent(c, '.');
    CountAbsent(d, '.');
    var t := c + "." + d;
    DotThen(c, d);
    assert '-' !in t;
    var u := b + "." + t;
    DotThen(b, t);
    assert '-' !in u;
    DotThen(a, u);
  }

  lemma DotThen(a: string, rest: string)
    ensures Count(a + "." + rest, '.') == Count(a, '.') + 1 + Count(rest, '.')
  {
    CountAppend(a + ".", rest, '.');
    CountAppend(a, ".", '.');
    assert Count(".", '.') == 1 by { assert "."[1..] == ""; }
  }

  // ---- Shift and or ---------------------------------------------------------------

  function Pow2(k: nat): (p: nat)
    ensures p > 0
  {
    if k == 0 then 1 else 2 * Pow2(k - 1)
  }

  // x << k
  function Shl(x: nat, k: nat): nat { x * Pow2(k) }

  // x | y, bit by bit
  function BitOr(x: nat, y: nat): nat
    decreases x + y
  {
    if x == 0 && y == 0 then 0
    else 2 * BitOr(x / 2, y / 2) + if x % 2 == 1 || y % 2 == 1 then 1 else 0
  }

  lemma {:induction false} OrZero(x: nat)
    ensures BitOr(x, 0) == x
  {
    if x > 0 {
      OrZero(x / 2);
    }
  }

  // Or-ing bits below position k onto a number with none there adds them.
  lemma {:induction false} OrDisjoint(x: nat, y: nat, k: nat)
    requires y < Pow2(k)
    ensures BitOr(Shl(x, k), y) == Shl(x, k) + y
  {
    if k == 0 {
      OrZero(x);
    } else {
      var h := Shl(x, k - 1);
      assert Shl(x, k) == 2 * h;
      OrDisjoint(x, y / 2, k - 1);
      assert (2 * h) / 2 == h && (2 * h) % 2 == 0;
    }
  }

  lemma Powers()
    ensures Pow2(8) == 0x100 && Pow2(16) == 0x1_0000 && Pow2(24) == 0x100_0000
  {
    PowAdd(4, 4);
    assert Pow2(4) == 16;
    PowAdd(8, 8);
    PowAdd(16, 8);
  }

  lemma {:induction false} PowAdd(i: nat, j: nat)
    ensures Pow2(i + j) == Pow2(i) * Pow2(j)
  {
    if i > 0 {
      PowAdd(i - 1, j);
    }
  }

  // ipToInt
  function IpToInt(ip: Parsed): int {
    match ip
    case V4(x) => BitOr(BitOr(BitOr(Shl(x.a, 24), Shl(x.b, 16)), Shl(x.c, 8)), x.d)
    case _ => 0
  }

  // ipRange
  function IpRange(start: Parsed, end: Parsed): int {
    IpToInt(end) - IpToInt(start) + 1
  }

  // The base-256 value of the octets
  function Num(x: Addr): (n: int)
    ensures 0 <= n < 0x1_0000_0000
  {
    ((x.a * 256 + x.b) * 256 + x.c) * 256 + x.d
  }

  function FromNum(n: int): (x: Addr)
    requires 0 <= n < 0x1_0000_0000
    ensures Num(x) == n
  {
    var h := n / 256;
    var g := h / 256;
    Addr(g / 256, g % 256, h % 256, n % 256)
  }

  lemma ShiftOrIsBase256(x: Addr)
    ensures IpToInt(V4(x)) == Num(x)
  {
    Powers();
    OrDisjoint(x.a, Shl(x.b, 16), 24);
    assert Shl(x.a, 24) + Shl(x.b, 16) == Shl(x.a * 256 + x.b, 16);
    OrDisjoint(x.a * 256 + x.b, Shl(x.c, 8), 16);
    assert Shl(x.a * 256 + x.b, 16) + Shl(x.c, 8) == Shl((x.a * 256 + x.b) * 256 + x.c, 8);
    OrDisjoint((x.a * 256 + x.b) * 256 + x.c, x.d, 8);
  }

  // Octet-by-octet order
  predicate Before(x: Addr, y: Addr) {
    || x.a < y.a
    || (x.a == y.a && (x.b < y.b || (x.b == y.b && (x.c < y.c || (x.c == y.c && x.d < y.d)))))
  }

  // The conversion is strictly monotone for the octet order, and so injective.
  lemma OrderPreserving(x: Addr, y: Addr)
    ensures IpToInt(V4(x)) < IpToInt(V4(y)) <==> Before(x, y)
    ensures IpToInt(V4(x)) == IpToInt(V4(y)) ==> x == y
  {
    ShiftOrIsBase256(x);
    ShiftOrIsBase256(y);
  }

  // ---- Range size -------------------------------------------------------------------

  predicate AtMost(x: Addr, y: Addr) { x == y || Before(x, y) }

  lemma FromNumInverts(x: Addr)
    ensures FromNum(Num(x)) == x
  {
    OrderPreserving(FromNum(Num(x)), x);
    ShiftOrIsBase256(FromNum(Num(x)));
    ShiftOrIsBase256(x);
  }

  // The addresses whose number is at least `lo` and below `hi`
  ghost function Run(lo: int, hi: int): (s: set<Addr>)
    requires 0 <= lo <= hi <= 0x1_0000_0000
    ensures forall x :: x in s <==> lo <= Num(x) < hi
  {
    var s := set n | lo <= n < hi :: FromNum(n);
    assert forall x :: x in s <==> lo <= Num(x) < hi by {
      forall x ensures x in s <==> lo <= Num(x) < hi { FromNumInverts(x); }
    }
    s
  }

  lemma {:induction false} RunLength(lo: int, hi: int)
    requires 0 <= lo <= hi <= 0x1_0000_0000
    ensures |Run(lo, hi)| == hi - lo
    decreases hi - lo
  {
    if lo < hi {
      RunLength(lo, hi - 1);
      var last := FromNum(hi - 1);
      RunStep(lo, hi, last);
    } else {
      assert Run(lo, hi) == {};
    }
  }

  lemma RunStep(lo: int, hi: int, last: Addr)
    requires 0 <= lo < hi <= 0x1_0000_0000 && Num(last) == hi - 1
    ensures |Run(lo, hi)| == |Run(lo, hi - 1)| + 1
  {
    forall x ensures x in Run(lo, hi) <==> x in Run(lo, hi - 1) || x == last { SameNum(x, last); }
    assert Run(lo, hi) == Run(lo, hi - 1) + {last};
  }

  lemma SameNum(x: Addr, y: Addr)
    ensures Num(x) == Num(y) <==> x == y
    ensures Num(x) <= Num(y) <==> AtMost(x, y)
  {
    OrderPreserving(x, y);
    ShiftOrIsBase256(x);
    ShiftOrIsBase256(y);
  }

  // The addresses from `start` to `end`, both included
  ghost predicate AreBetween(s: set<Addr>, start: Addr, end: Addr) {
    forall x :: x in s <==> AtMost(start, x) && AtMost(x, end)
  }

  lemma RunIsBetween(start: Addr, end: Addr)
    requires Num(start) <= Num(end)
    ensures AreBetween(Run(Num(start), Num(end) + 1), start, end)
  {
    forall x ensures x in Run(Num(start), Num(end) + 1) <==> AtMost(start, x) && AtMost(x, end) {
      SameNum(start, x);
      SameNum(x, end);
    }
  }

  // The reported range size counts the addresses between start and end exactly, and lies in 1..2^32; it is
  // positive just when start is not after end.
  lemma RangeSizeIsCount(start: Addr, end: Addr, s: set<Addr>)
    requires AreBetween(s, start, end)
    ensures AtMost(start, end) ==> IpRange(V4(start), V4(end)) == |s|
    ensures 1 <= IpRange(V4(start), V4(end)) <==> AtMost(start, end)
    ensures IpRange(V4(start), V4(end)) <= 0x1_0000_0000
  {
    ShiftOrIsBase256(start);
    ShiftOrIsBase256(end);
    SameNum(start, end);
    if AtMost(start, end) {
      RunIsBetween(start, end);
      RunLength(Num(start), Num(end) + 1);
      assert s == Run(Num(start), Num(end) + 1);
    }
  }

  // An address that is not an IPv4 address counts as 0.0.0.0.
  lemma OtherIsZero(end: Addr)
    ensures IpRange(V6, V4(end)) == Num(end) + 1 && IpRange(V4(end), V6) == 1 - Num(end)
  {
    ShiftOrIsBase256(end);
  }

  // ---- Subnets ----------------------------------------------------------------------

  // A CIDR block: an address and its prefix length (section 3.1 of RFC 4632)
  datatype Subnet = Subnet(net: Addr, ones: nat)

  // net.IPNet.Contains for an IPv4 block: equality of the first `ones` bits
  predicate InSubnet(s: Subnet, ip: Parsed) {
    ip.V4? && s.ones <= 32 && Num(ip.addr) / Pow2(32 - s.ones) == Num(s.net) / Pow2(32 - s.ones)
  }

  // The members of a block are the addresses of one run of numbers, as many as the free bits allow.
  lemma SubnetIsRun(s: Subnet, x: Addr)
    requires s.ones <= 32
    ensures var size := Pow2(32 - s.ones);
      var lo := Num(s.net) / size * size;
      InSubnet(s, V4(x)) <==> lo <= Num(x) < lo + size
  {
    SameQuotient(Num(x), Num(s.net), Pow2(32 - s.ones));
  }

  lemma SameQuotient(a: nat, b: nat, k: nat)
    requires k > 0
    ensures a / k == b / k <==> b / k * k <= a < b / k * k + k
  {
    var q := b / k;
    assert a == a / k * k + a % k;
    if a / k < q {
      assert (a / k + 1) * k <= q * k;
    } else if a / k > q {
      assert (q + 1) * k <= a / k * k;
    }
  }
}
