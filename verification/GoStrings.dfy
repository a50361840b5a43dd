/**
 The parts of Go's `strings` package that the agent relies on, over sequences of
 Unicode scalar values.
 */
module GoStrings {

  datatype Option<+T> = None | Some(value: T)

  // unicode.IsSpace
  predicate IsSpace(c: char) {
    || '\t' <= c <= '\r' || c == ' ' || c == '\U{0085}' || c == '\U{00A0}' || c == '\U{1680}'
    || '\U{2000}' <= c <= '\U{200A}' || c == '\U{2028}' || c == '\U{2029}'
    || c == '\U{202F}' || c == '\U{205F}' || c == '\U{3000}'
  }

  predicate NoSpace(s: string) {
    forall i :: 0 <= i < |s| ==> !IsSpace(s[i])
  }

  predicate AllSpace(s: string) {
    forall i :: 0 <= i < |s| ==> IsSpace(s[i])
  }

  function TrimLeft(s: string): string {
    if s != "" && IsSpace(s[0]) then TrimLeft(s[1..]) else s
  }

  function TrimRight(s: string): string {
    if s != "" && IsSpace(s[|s| - 1]) then TrimRight(s[..|s| - 1]) else s
  }

  // strings.TrimSpace
  function TrimSpace(s: string): string {
    TrimRight(TrimLeft(s))
  }

  // strings.HasPrefix
  predicate HasPrefix(s: string, p: string) {
    p <= s
  }

  // strings.TrimSuffix
  function TrimSuffix(s: string, t: string): string {
    if |t| <= |s| && s[|s| - |t|..] == t then s[..|s| - |t|] else s
  }

  predicate OccursAt(s: string, sub: string, i: int) {
    0 <= i <= |s| - |sub| && s[i..i + |sub|] == sub
  }

  // strings.Contains
  predicate Contains(s: string, sub: string) {
    exists i :: 0 <= i <= |s| && OccursAt(s, sub, i)
  }

  // The first occurrence of `sub` at or after `from`.
  function IndexFrom(s: string, sub: string, from: nat): (r: Option<nat>)
    ensures r.Some? ==> from <= r.value && OccursAt(s, sub, r.value)
    ensures r.Some? ==> forall i :: from <= i < r.value ==> !OccursAt(s, sub, i)
    ensures r.None? ==> forall i :: from <= i ==> !OccursAt(s, sub, i)
    decreases |s| - from
  {
    if from + |sub| > |s| then None
    else if OccursAt(s, sub, from) then Some(from)
    else IndexFrom(s, sub, from + 1)
  }

  // strings.Split for a non-empty separator
  function Split(s: string, sep: string): (r: seq<string>)
    requires sep != ""
    ensures |r| >= 1
    decreases |s|
  {
    match IndexFrom(s, sep, 0)
    case None => [s]
    case Some(i) => [s[..i]] + Split(s[i + |sep|..], sep)
  }

  // strings.Join
  function Join(parts: seq<string>, sep: string): string
    requires |parts| >= 1
  {
    if |parts| == 1 then parts[0] else parts[0] + sep + Join(parts[1..], sep)
  }

  // strings.Fields: the maximal runs of non-space characters
  function Fields(s: string): seq<string>
    decreases |s|
  {
    var t := TrimLeft(s);
    if t == "" then []
    else
      TrimLeftShrinks(s);
      var n := WordLength(t);
      [t[..n]] + Fields(t[n..])
  }

  function WordLength(s: string): (n: nat)
    ensures n <= |s| && NoSpace(s[..n])
    ensures n < |s| ==> IsSpace(s[n])
    ensures s != "" && !IsSpace(s[0]) ==> n > 0
  {
    if s == "" || IsSpace(s[0]) then 0 else 1 + WordLength(s[1..])
  }

  // strings.ReplaceAll for single characters
  function ReplaceChar(s: string, from: char, to: char): (r: string)
    ensures |r| == |s|
    ensures forall i :: 0 <= i < |s| ==> r[i] == if s[i] == from then to else s[i]
  {
    seq(|s|, i requires 0 <= i < |s| => if s[i] == from then to else s[i])
  }

  lemma TrimLeftShrinks(s: string)
    ensures |TrimLeft(s)| <= |s|
    ensures TrimLeft(s) != "" ==> !IsSpace(TrimLeft(s)[0])
  {
  }

  // ---- Trimming -------------------------------------------------------------

  // Text that neither starts nor ends with a space
  predicate Trimmed(s: string) {
    s != "" && !IsSpace(s[0]) && !IsSpace(s[|s| - 1])
  }

  lemma {:induction false} TrimLeftIs(s: string)
    ensures exists a :: AllSpace(a) && s == a + TrimLeft(s)
    ensures TrimLeft(s) == "" || !IsSpace(TrimLeft(s)[0])
  {
    if s != "" && IsSpace(s[0]) {
      TrimLeftIs(s[1..]);
      var a :| AllSpace(a) && s[1..] == a + TrimLeft(s[1..]);
      assert AllSpace([s[0]] + a) && s == [s[0]] + a + TrimLeft(s);
    } else {
      assert AllSpace("") && s == "" + s;
    }
  }

  lemma {:induction false} TrimRightIs(s: string)
    ensures exists b :: AllSpace(b) && s == TrimRight(s) + b
    ensures TrimRight(s) == "" || (!IsSpace(TrimRight(s)[|TrimRight(s)| - 1]) && TrimRight(s)[0] == s[0])
  {
    if s != "" && IsSpace(s[|s| - 1]) {
      TrimRightIs(s[..|s| - 1]);
      var b :| AllSpace(b) && s[..|s| - 1] == TrimRight(s[..|s| - 1]) + b;
      assert AllSpace(b + [s[|s| - 1]]) && s == TrimRight(s) + (b + [s[|s| - 1]]);
    } else {
      assert AllSpace("") && s == s + "";
    }
  }

  // Trimming takes off exactly the white space around the text.
  lemma TrimSpaceIs(s: string)
    ensures TrimSpace(s) == "" || Trimmed(TrimSpace(s))
    ensures exists a, b :: AllSpace(a) && AllSpace(b) && s == a + TrimSpace(s) + b
  {
    TrimLeftIs(s);
    TrimRightIs(TrimLeft(s));
    var a :| AllSpace(a) && s == a + TrimLeft(s);
    var b :| AllSpace(b) && TrimLeft(s) == TrimRight(TrimLeft(s)) + b;
    assert s == a + TrimSpace(s) + b;
  }

  lemma {:induction false} TrimLeftDropsIndent(indent: string, s: string)
    requires AllSpace(indent) && s != "" && !IsSpace(s[0])
    ensures TrimLeft(indent + s) == s
  {
    if indent == "" {
      assert indent + s == s;
    } else {
      assert (indent + s)[1..] == indent[1..] + s;
      TrimLeftDropsIndent(indent[1..], s);
    }
  }

  lemma TrimDropsIndent(indent: string, s: string)
    requires AllSpace(indent) && Trimmed(s)
    ensures TrimSpace(indent + s) == s
  {
    TrimLeftDropsIndent(indent, s);
  }

  // ---- Occurrences ------------------------------------------------------------

  // Every character of a contained text is in the text.
  lemma ContainedChars(s: string, sub: string, c: char)
    ensures Contains(s, sub) && c in sub ==> c in s
  {
    if Contains(s, sub) && c in sub {
      var i :| 0 <= i <= |s| && OccursAt(s, sub, i);
      var k :| 0 <= k < |sub| && sub[k] == c;
      assert s[i..i + |sub|][k] == s[i + k];
    }
  }

  // Text that lacks a character of `sub` does not contain `sub`.
  lemma AbsentChar(s: string, sub: string, c: char)
    requires c in sub && c !in s
    ensures !Contains(s, sub)
  {
    ContainedChars(s, sub, c);
  }

  // A part of a contained text is contained.
  lemma ContainsPart(s: string, left: string, mid: string, right: string)
    requires Contains(s, left + mid + right)
    ensures Contains(s, mid)
  {
    var i :| 0 <= i <= |s| && OccursAt(s, left + mid + right, i);
    var all := left + mid + right;
    forall k | 0 <= k < |mid| ensures s[i + |left| + k] == mid[k] {
      assert s[i..i + |all|][|left| + k] == s[i + |left| + k];
      assert all[|left| + k] == mid[k];
    }
    assert s[i + |left|..i + |left| + |mid|] == mid;
    assert OccursAt(s, mid, i + |left|);
  }

  // A keyword free of the character `c` never straddles an occurrence of `c`.
  lemma NoStraddle(a: string, c: char, b: string, kw: string)
    requires c !in kw
    ensures Contains(a + [c] + b, kw) ==> Contains(a, kw) || Contains(b, kw)
  {
    var s := a + [c] + b;
    forall i | 0 <= i <= |s| && OccursAt(s, kw, i)
      ensures OccursAt(a, kw, i) || OccursAt(b, kw, i - |a| - 1)
    {
      assert forall k :: 0 <= k < |kw| ==> kw[k] == s[i..i + |kw|][k] == s[i + k];
      assert s[|a|] == c && forall k :: 0 <= k < |kw| ==> kw[k] != c;
      if i + |kw| <= |a| {
        assert a[i..i + |kw|] == s[i..i + |kw|];
      } else {
        var j := i - |a| - 1;
        assert b[j..j + |kw|] == s[i..i + |kw|];
      }
    }
  }

  // ---- Splitting ----------------------------------------------------------------

  lemma SplitStep(a: string, sep: string, b: string)
    requires sep != ""
    requires forall i :: 0 <= i < |a| ==> !OccursAt(a + sep + b, sep, i)
    ensures Split(a + sep + b, sep) == [a] + Split(b, sep)
  {
    var s := a + sep + b;
    assert s[|a|..|a| + |sep|] == sep;
    assert OccursAt(s, sep, |a|);
    assert IndexFrom(s, sep, 0) == Some(|a|);
    assert s[..|a|] == a && s[|a| + |sep|..] == b;
  }

  lemma SplitWhole(s: string, sep: string)
    requires sep != "" && !Contains(s, sep)
    ensures Split(s, sep) == [s]
  {
    var r := IndexFrom(s, sep, 0);
    assert r.Some? ==> OccursAt(s, sep, r.value) && Contains(s, sep);
  }

  // The prefix lacks the separator's first character, so the separator is found after it.
  lemma SplitAfter(a: string, sep: string, b: string)
    requires sep != "" && sep[0] !in a
    ensures Split(a + sep + b, sep) == [a] + Split(b, sep)
  {
    var s := a + sep + b;
    forall i | 0 <= i < |a| ensures !OccursAt(s, sep, i) {
      assert i + |sep| <= |s| ==> s[i..i + |sep|][0] == s[i] == a[i];
    }
    SplitStep(a, sep, b);
  }

  // Joining and splitting again gives the pieces back.
  lemma {:induction false} SplitJoin(parts: seq<string>, c: char)
    requires |parts| >= 1
    requires forall i :: 0 <= i < |parts| ==> c !in parts[i]
    ensures Split(Join(parts, [c]), [c]) == parts
  {
    if |parts| == 1 {
      AbsentChar(parts[0], [c], c);
      SplitWhole(parts[0], [c]);
    } else {
      SplitAfter(parts[0], [c], Join(parts[1..], [c]));
      SplitJoin(parts[1..], c);
      assert parts == [parts[0]] + parts[1..];
    }
  }

  // Splitting loses nothing: joining the pieces restores the text.
  lemma {:induction false} JoinSplit(s: string, sep: string)
    requires sep != ""
    ensures Join(Split(s, sep), sep) == s
    decreases |s|
  {
    var r := IndexFrom(s, sep, 0);
    if r.Some? {
      var i := r.value;
      JoinSplit(s[i + |sep|..], sep);
      assert s == s[..i] + sep + s[i + |sep|..];
      assert Split(s, sep)[1..] == Split(s[i + |sep|..], sep);
    }
  }

  // How often a character occurs
  function Count(s: string, c: char): nat {
    if s == "" then 0 else Count(s[1..], c) + if s[0] == c then 1 else 0
  }

  lemma {:induction false} CountAppend(a: string, b: string, c: char)
    ensures Count(a + b, c) == Count(a, c) + Count(b, c)
  {
    if a == "" {
      assert a + b == b;
    } else {
      assert (a + b)[1..] == a[1..] + b;
      CountAppend(a[1..], b, c);
    }
  }

  lemma {:induction false} CountAbsent(s: string, c: char)
    requires c !in s
    ensures Count(s, c) == 0
  {
    if s != "" {
      CountAbsent(s[1..], c);
    }
  }

  // ---- Fields ---------------------------------------------------------------------

  lemma {:induction false} WordLengthIs(w: string, rest: string)
    requires NoSpace(w) && (rest == "" || IsSpace(rest[0]))
    ensures WordLength(w + rest) == |w|
  {
    if w == "" {
      assert w + rest == rest;
    } else {
      assert (w + rest)[1..] == w[1..] + rest;
      WordLengthIs(w[1..], rest);
    }
  }

  lemma FieldsCons(w: string, rest: string)
    requires w != "" && NoSpace(w)
    ensures Fields(w + " " + rest) == [w] + Fields(" " + rest)
  {
    var s := w + " " + rest;
    assert s == w + (" " + rest);
    WordLengthIs(w, " " + rest);
    assert s[..|w|] == w && s[|w|..] == " " + rest;
  }

  lemma FieldsSkip(rest: string)
    ensures Fields(" " + rest) == Fields(rest)
  {
    assert (" " + rest)[1..] == rest;
  }

  lemma FieldsLast(w: string)
    requires w != "" && NoSpace(w)
    ensures Fields(w) == [w]
  {
    WordLengthIs(w, "");
    assert w + "" == w && w[..|w|] == w && w[|w|..] == "";
  }

  lemma {:induction false} FieldsNext(w: string, rest: string)
    requires w != "" && NoSpace(w)
    ensures Fields(w + " " + rest) == [w] + Fields(rest)
  {
    FieldsCons(w, rest);
    FieldsSkip(rest);
  }

  lemma {:induction false} FieldsFour(a: string, b: string, c: string, d: string)
    requires a != "" && b != "" && c != "" && d != ""
    requires NoSpace(a) && NoSpace(b) && NoSpace(c) && NoSpace(d)
    ensures Fields(a + " " + (b + " " + (c + " " + d))) == [a, b, c, d]
  {
    calc {
      Fields(a + " " + (b + " " + (c + " " + d)));
      { FieldsNext(a, b + " " + (c + " " + d)); }
      [a] + Fields(b + " " + (c + " " + d));
      { FieldsNext(b, c + " " + d); }
      [a] + ([b] + Fields(c + " " + d));
      { FieldsNext(c, d); }
      [a] + ([b] + ([c] + Fields(d)));
      { FieldsLast(d); }
      [a, b, c, d];
    }
  }
}
