/**
 Names of HostStatus objects: agent name, dash, address with dots turned into dashes
 (formatHostStatusName in pkg/agent/hoststatus/tools.go).
 */
module HostNames {
  import opened GoStrings
  import Ipv4

  function FormatName(agent: string, ip: string): string {
    agent + "-" + ReplaceChar(ip, '.', '-')
  }

  // The name of an address: the agent, then the octets, each led by a dash
  lemma NameOfAddress(agent: string, x: Ipv4.Addr)
    ensures FormatName(agent, Ipv4.Text(x))
         == agent + "-" + (Ipv4.Decimal(x.a) + "-"
            + (Ipv4.Decimal(x.b) + "-" + (Ipv4.Decimal(x.c) + "-" + Ipv4.Decimal(x.d))))
  {
    ReplaceInFour(Ipv4.Decimal(x.a), Ipv4.Decimal(x.b), Ipv4.Decimal(x.c), Ipv4.Decimal(x.d));
  }

  lemma ReplaceInFour(a: string, b: string, c: string, d: string)
    requires Ipv4.Digits(a) && Ipv4.Digits(b) && Ipv4.Digits(c) && Ipv4.Digits(d)
    ensures ReplaceChar(a + "." + (b + "." + (c + "." + d)), '.', '-') == a + "-" + (b + "-" + (c + "-" + d))
  {
    ReplaceFirstDot(a, b + "." + (c + "." + d));
    ReplaceFirstDot(b, c + "." + d);
    ReplaceFirstDot(c, d);
    assert ReplaceChar(d, '.', '-') == d;
  }

  lemma ReplaceFirstDot(a: string, rest: string)
    requires Ipv4.Digits(a)
    ensures ReplaceChar(a + "." + rest, '.', '-') == a + "-" + ReplaceChar(rest, '.', '-')
  {
  }

  predicate DashFree(ip: string) { '-' !in ip }

  // One agent: addresses without dashes never share a name.
  lemma NameDeterminesIp(agent: string, ip: string, ip': string)
    requires DashFree(ip) && DashFree(ip')
    ensures FormatName(agent, ip) == FormatName(agent, ip') <==> ip == ip'
  {
    var n, n' := FormatName(agent, ip), FormatName(agent, ip');
    if n == n' {
      var k := |agent| + 1;
      assert n[k..] == ReplaceChar(ip, '.', '-') && n'[k..] == ReplaceChar(ip', '.', '-');
      ReplaceInjective(ip, ip');
    }
  }

  lemma ReplaceInjective(s: string, t: string)
    requires DashFree(s) && DashFree(t) && ReplaceChar(s, '.', '-') == ReplaceChar(t, '.', '-')
    ensures s == t
  {
    var r := ReplaceChar(s, '.', '-');
    assert |s| == |r| == |t|;
    forall i | 0 <= i < |s| ensures s[i] == t[i] {
      assert r[i] == (if s[i] == '.' then '-' else s[i]) == (if t[i] == '.' then '-' else t[i]);
      assert s[i] in s && t[i] in t;
    }
  }

  lemma {:induction false} ReplacedDashes(s: string)
    requires DashFree(s)
    ensures Count(ReplaceChar(s, '.', '-'), '-') == Count(s, '.')
  {
    if s != "" {
      assert ReplaceChar(s, '.', '-')[1..] == ReplaceChar(s[1..], '.', '-');
      ReplacedDashes(s[1..]);
    }
  }

  // The longer of two endings of a text, when led by a dash, has more dashes.
  lemma LongerEndingHasMore(p: string, t: string, p': string, t': string)
    requires p + t == p' + t' && |t| < |t'| && t'[0] == '-'
    ensures Count(t, '-') < Count(t', '-')
  {
    var s := p + t;
    var u := t'[..|t'| - |t|];
    assert t' == u + t by { assert t == s[|p|..] && t' == s[|p'|..]; }
    CountAppend(u, t, '-');
  }

  // Two endings with equally many dashes, each led by one, are the same.
  lemma DashEnding(p: string, t: string, p': string, t': string)
    requires p + t == p' + t' && t != "" && t' != "" && t[0] == t'[0] == '-'
    requires Count(t, '-') == Count(t', '-')
    ensures p == p' && t == t'
  {
    var s := p + t;
    if |t| < |t'| {
      LongerEndingHasMore(p, t, p', t');
    } else if |t'| < |t| {
      LongerEndingHasMore(p', t', p, t);
    } else {
      assert p == s[..|p|] && p' == s[..|p|] && t == s[|p|..] && t' == s[|p|..];
    }
  }

  // Any agents, dashes and digits in their names included: dotted quads never share a name.
  lemma NameDeterminesBoth(agent: string, ip: string, agent': string, ip': string)
    requires Ipv4.DottedQuad(ip) && Ipv4.DottedQuad(ip')
    ensures FormatName(agent, ip) == FormatName(agent', ip') <==> agent == agent' && ip == ip'
  {
    Ipv4.DottedQuadShape(ip);
    Ipv4.DottedQuadShape(ip');
    SameDotsNeverShare(agent, ip, agent', ip');
  }

  lemma SameDotsNeverShare(agent: string, ip: string, agent': string, ip': string)
    requires DashFree(ip) && DashFree(ip') && Count(ip, '.') == Count(ip', '.')
    ensures FormatName(agent, ip) == FormatName(agent', ip') <==> agent == agent' && ip == ip'
  {
    var t, t' := "-" + ReplaceChar(ip, '.', '-'), "-" + ReplaceChar(ip', '.', '-');
    assert FormatName(agent, ip) == agent + t && FormatName(agent', ip') == agent' + t';
    if agent + t == agent' + t' {
      TailDashes(ip);
      TailDashes(ip');
      DashEnding(agent, t, agent', t');
      NameDeterminesIp(agent, ip, ip');
    }
  }

  lemma TailDashes(ip: string)
    requires DashFree(ip)
    ensures Count("-" + ReplaceChar(ip, '.', '-'), '-') == 1 + Count(ip, '.')
  {
    ReplacedDashes(ip);
    assert ("-" + ReplaceChar(ip, '.', '-'))[1..] == ReplaceChar(ip, '.', '-');
  }

  // Without the dotted-quad shape two hosts can share a name.
  lemma SharedNameWithoutShape()
    ensures FormatName("a", "1.2.3.4.5") == FormatName("a-1", "2.3.4.5")
    ensures FormatName("a", "1.2") == FormatName("a", "1-2")
  {
    assert ReplaceChar("1.2.3.4.5", '.', '-') == "1-2-3-4-5";
    assert ReplaceChar("2.3.4.5", '.', '-') == "2-3-4-5";
    assert ReplaceChar("1.2", '.', '-') == "1-2" == ReplaceChar("1-2", '.', '-');
  }
}
