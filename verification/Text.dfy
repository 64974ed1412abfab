/** Substring search, lines, trimming and ASCII case folding. */
module Text {
  import opened Options

  // ---- Substrings ----------------------------------------------------------------------

  predicate At(s: string, p: string, i: nat) { i + |p| <= |s| && s[i..i + |p|] == p }

  predicate Contains(s: string, p: string) { exists i: nat :: i <= |s| && At(s, p, i) }

  /** The first occurrence at or after `i`. */
  function FindFrom(s: string, p: string, i: nat): (r: Option<nat>)
    requires i <= |s|
    ensures r.Some? ==> i <= r.value && At(s, p, r.value) && forall j :: i <= j < r.value ==> !At(s, p, j)
    ensures r.None? ==> forall j :: i <= j <= |s| ==> !At(s, p, j)
    decreases |s| - i
  {
    if At(s, p, i) then Some(i) else if i == |s| then None else FindFrom(s, p, i + 1)
  }

  function Find(s: string, p: string): (r: Option<nat>)
    ensures r.Some? <==> Contains(s, p)
    ensures r.Some? ==> At(s, p, r.value) && forall j :: 0 <= j < r.value ==> !At(s, p, j)
  {
    FindFrom(s, p, 0)
  }

  /** Cutting at a character that `p` does not have loses no occurrence of `p`. */
  lemma {:induction false} ContainsAcross(a: string, c: char, b: string, p: string)
    requires p != [] && c !in p
    ensures Contains(a + [c] + b, p) <==> Contains(a, p) || Contains(b, p)
  {
    var s := a + [c] + b;
    if Contains(s, p) {
      var i: nat :| i <= |s| && At(s, p, i);
      assert s[|a|] == c;
      assert forall j :: i <= j < i + |p| ==> s[j] == p[j - i] && s[j] in p;
      if i + |p| <= |a| {
        assert a[i..i + |p|] == s[i..i + |p|];
        assert At(a, p, i);
      } else {
        assert i > |a|;
        var k := i - |a| - 1;
        assert b[k..k + |p|] == s[i..i + |p|];
        assert At(b, p, k);
      }
    }
    if Contains(a, p) {
      var i: nat :| i <= |a| && At(a, p, i);
      assert s[i..i + |p|] == a[i..i + |p|];
      assert At(s, p, i);
    }
    if Contains(b, p) {
      var i: nat :| i <= |b| && At(b, p, i);
      var k := |a| + 1 + i;
      assert s[|a| + 1..] == b;
      assert s[k..k + |p|] == s[|a| + 1..][i..i + |p|];
      assert At(s, p, k);
    }
  }

  lemma {:induction false} NothingInEmpty(p: string)
    requires p != []
    ensures !Contains("", p)
  {
  }

  // ---- Lines -----------------------------------------------------------------------------

  /** Up to the first `c`, or the length. */
  function IndexOf(s: string, c: char): (i: nat)
    ensures i <= |s| && c !in s[..i] && (i < |s| ==> s[i] == c)
  {
    if s == [] || s[0] == c then 0
    else
      var i := 1 + IndexOf(s[1..], c);
      assert s[..i] == [s[0]] + s[1..][..i - 1];
      i
  }

  function StripCr(s: string): string { if s != [] && s[|s| - 1] == '\r' then s[..|s| - 1] else s }

  /** Lines end with LF or CR LF; what follows the last LF is a line if it is not empty. */
  function Lines(s: string): seq<string>
    decreases |s|
  {
    if s == [] then []
    else
      var i := IndexOf(s, '\n');
      if i == |s| then [s] else [StripCr(s[..i])] + Lines(s[i + 1..])
  }

  predicate OneLine(p: string) { p != [] && '\n' !in p && '\r' !in p }

  lemma {:induction false} ContainsStripped(s: string, p: string)
    requires OneLine(p)
    ensures Contains(StripCr(s), p) <==> Contains(s, p)
  {
    if s != [] && s[|s| - 1] == '\r' {
      var n := |s| - 1;
      assert s == s[..n] + ['\r'] + "";
      ContainsAcross(s[..n], '\r', "", p);
      NothingInEmpty(p);
    }
  }

  predicate InSome(ls: seq<string>, p: string) { exists i :: 0 <= i < |ls| && Contains(ls[i], p) }

  /** A marker without line ends occurs in a text exactly if it occurs in one of its lines. */
  lemma {:induction false} ContainsByLine(s: string, p: string)
    requires OneLine(p)
    ensures Contains(s, p) <==> InSome(Lines(s), p)
    decreases |s|
  {
    if s == [] {
      NothingInEmpty(p);
    } else {
      var i := IndexOf(s, '\n');
      if i == |s| {
        assert Lines(s)[0] == s;
      } else {
        var a, b := s[..i], s[i + 1..];
        assert s == a + ['\n'] + b;
        ContainsAcross(a, '\n', b, p);
        ContainsStripped(a, p);
        ContainsByLine(b, p);
        InSomeCons(StripCr(a), Lines(b), p);
      }
    }
  }

  lemma {:induction false} InSomeCons(l: string, ls: seq<string>, p: string)
    ensures InSome([l] + ls, p) <==> Contains(l, p) || InSome(ls, p)
  {
    var all := [l] + ls;
    if InSome(ls, p) { var i :| 0 <= i < |ls| && Contains(ls[i], p); assert Contains(all[i + 1], p); }
    if Contains(l, p) { assert Contains(all[0], p); }
    if InSome(all, p) { var i :| 0 <= i < |all| && Contains(all[i], p); assert i > 0 ==> Contains(ls[i - 1], p); }
  }

  // ---- Trimming ------------------------------------------------------------------------

  /** The White_Space property of Unicode. */
  predicate IsSpace(c: char) {
    || '\t' <= c <= '\r' || c == ' ' || c as int in {0x85, 0xA0, 0x1680, 0x2028, 0x2029, 0x202F, 0x205F, 0x3000}
    || 0x2000 <= c as int <= 0x200A
  }

  function TrimStart(s: string): (r: string)
    ensures |r| <= |s|
  {
    if s != [] && IsSpace(s[0]) then TrimStart(s[1..]) else s
  }

  function TrimEnd(s: string): (r: string)
    ensures |r| <= |s|
  {
    if s != [] && IsSpace(s[|s| - 1]) then TrimEnd(s[..|s| - 1]) else s
  }

  function Trim(s: string): (r: string)
    ensures |r| <= |s|
  {
    TrimEnd(TrimStart(s))
  }

  /** Drop trailing characters that are in `cs`. */
  function TrimEndOf(s: string, cs: set<char>): (r: string)
    ensures |r| <= |s|
  {
    if s != [] && s[|s| - 1] in cs then TrimEndOf(s[..|s| - 1], cs) else s
  }

  function Words(s: string): seq<string>
    decreases |s|
  {
    var t := TrimStart(s);
    if t == [] then []
    else
      var i := WordEnd(t);
      [t[..i]] + Words(t[i..])
  }

  function WordEnd(t: string): (i: nat)
    ensures i <= |t| && (t != [] && !IsSpace(t[0]) ==> i > 0)
  {
    if t == [] || IsSpace(t[0]) then 0 else 1 + WordEnd(t[1..])
  }

  // ---- Case, bytes, numbers ---------------------------------------------------------------

  function LowerChar(c: char): char { if 'A' <= c <= 'Z' then (c as int + 32) as char else c }

  function Lower(s: string): (r: string)
    ensures |r| == |s| && forall i :: 0 <= i < |s| ==> r[i] == LowerChar(s[i])
  {
    seq(|s|, i requires 0 <= i < |s| => LowerChar(s[i]))
  }

  /** Length of a character in UTF-8, section 3 of RFC 3629. */
  function Width(c: char): nat {
    if c as int < 0x80 then 1 else if c as int < 0x800 then 2 else if c as int < 0x10000 then 3 else 4
  }

  function ByteLen(s: string): nat { if s == [] then 0 else ByteLen(s[..|s| - 1]) + Width(s[|s| - 1]) }

  predicate IsDigit(c: char) { '0' <= c <= '9' }

  function Digit(c: char): nat
    requires IsDigit(c)
  {
    c as int - '0' as int
  }

  function Decimal(s: string): nat
    requires forall i :: 0 <= i < |s| ==> IsDigit(s[i])
  {
    if s == [] then 0 else Decimal(s[..|s| - 1]) * 10 + Digit(s[|s| - 1])
  }

  /** Decimal digits after an optional plus sign, below 2^32. */
  function ParseU32(s: string): Option<nat> {
    var d := if s != [] && s[0] == '+' then s[1..] else s;
    if d == [] || exists i :: 0 <= i < |d| && !IsDigit(d[i]) then None
    else if Decimal(d) < 0x1_0000_0000 then Some(Decimal(d)) else None
  }
}
