/** Text as the wire uses it. A byte is the character of the same code below 256, which is what
    decoding a header line as latin-1 makes of it. */
module WireText {
  import opened Wrappers

  const CRLF := "\r\n"

  // --- Whitespace and case -------------------------------------------------------------

  /** What `str.strip` removes among the characters below 256. */
  predicate IsSpace(c: char) {
    '\t' <= c <= '\r' || 0x1c as char <= c <= ' ' || c == 0x85 as char || c == 0xa0 as char
  }

  function StripLeft(s: string): string {
    if s != "" && IsSpace(s[0]) then StripLeft(s[1..]) else s
  }

  function StripRight(s: string): string {
    if s != "" && IsSpace(s[|s| - 1]) then StripRight(s[..|s| - 1]) else s
  }

  function Strip(s: string): string {
    StripRight(StripLeft(s))
  }

  /** Nothing to strip. */
  predicate Trimmed(s: string) {
    s != "" && !IsSpace(s[0]) && !IsSpace(s[|s| - 1])
  }

  lemma StripTrimmed(s: string)
    requires Trimmed(s)
    ensures Strip(s) == s && Strip(" " + s) == s
  {
    assert (" " + s)[1..] == s;
  }

  function LowerChar(c: char): char {
    if 'A' <= c <= 'Z' || (0xc0 as char <= c <= 0xde as char && c != 0xd7 as char) then (c as int + 32) as char else c
  }

  function Lower(s: string): (r: string)
    ensures |r| == |s|
  {
    seq(|s|, i requires 0 <= i < |s| => LowerChar(s[i]))
  }

  // --- Integers ------------------------------------------------------------------------

  predicate IsDigit(c: char) { '0' <= c <= '9' }

  function DigitOf(c: char): (d: nat)
    requires IsDigit(c)
    ensures d < 10
  {
    c as int - '0' as int
  }

  function CharOf(d: nat): (c: char)
    requires d < 10
    ensures IsDigit(c) && DigitOf(c) == d
  {
    (d + '0' as int) as char
  }

  function NatText(n: nat): (s: string)
    ensures s != "" && forall i :: 0 <= i < |s| ==> IsDigit(s[i])
  {
    if n < 10 then [CharOf(n)] else NatText(n / 10) + [CharOf(n % 10)]
  }

  /** `str(int)`. */
  function IntText(n: int): string {
    if n < 0 then "-" + NatText(-n) else NatText(n)
  }

  /** The digits of `int(str)`: at least one, single underscores allowed between two digits. */
  function ParseNat(s: string): Option<nat> {
    if s == "" || !IsDigit(s[|s| - 1]) then None
    else
      var d := DigitOf(s[|s| - 1]);
      var front := s[..|s| - 1];
      if front == "" then Some(d)
      else
        var body := if front[|front| - 1] == '_' then front[..|front| - 1] else front;
        match ParseNat(body)
        case None => None
        case Some(n) => Some(10 * n + d)
  }

  /** `int(str)`: surrounding whitespace and one sign allowed. */
  function ParseInt(raw: string): Option<int> {
    var s := Strip(raw);
    if s != "" && (s[0] == '-' || s[0] == '+') then
      match ParseNat(s[1..])
      case None => None
      case Some(n) => Some(if s[0] == '-' then 0 - n else n)
    else
      match ParseNat(s)
      case None => None
      case Some(n) => Some(n)
  }

  lemma {:induction false} ParseNatText(n: nat)
    ensures ParseNat(NatText(n)) == Some(n)
  {
    if n >= 10 {
      var s := NatText(n);
      ParseNatText(n / 10);
      assert s[..|s| - 1] == NatText(n / 10);
    }
  }

  lemma IntTextIsTrimmed(n: int)
    ensures Trimmed(IntText(n))
    ensures forall i :: 0 <= i < |IntText(n)| ==> IsDigit(IntText(n)[i]) || IntText(n)[i] == '-'
  {
  }

  /** `int(str(n)) == n`. */
  lemma ParseIntText(n: int)
    ensures ParseInt(IntText(n)) == Some(n)
  {
    IntTextIsTrimmed(n);
    StripTrimmed(IntText(n));
    ParseNatText(if n < 0 then -n else n);
    assert n < 0 ==> IntText(n)[1..] == NatText(-n);
  }

  // --- Finding and splitting -----------------------------------------------------------

  /** The first index of `c`, or the length. */
  function Find(s: string, c: char): (i: nat)
    ensures i <= |s|
    ensures i < |s| ==> s[i] == c
    ensures forall k :: 0 <= k < i ==> s[k] != c
  {
    if s == "" || s[0] == c then 0 else 1 + Find(s[1..], c)
  }

  lemma FindAt(a: string, c: char, b: string)
    requires c !in a
    ensures Find(a + [c] + b, c) == |a|
  {
    var s, i := a + [c] + b, Find(a + [c] + b, c);
    assert s[|a|] == c;
    assert forall k :: 0 <= k < |a| ==> s[k] == a[k];
  }

  lemma FindNone(a: string, c: char)
    requires c !in a
    ensures Find(a, c) == |a|
  {
  }

  /** The first index of CRLF, or the length. */
  function FindCrlf(s: string): (i: nat)
    ensures i <= |s|
    ensures i < |s| ==> i + 1 < |s| && s[i] == '\r' && s[i + 1] == '\n'
  {
    if s == "" || (|s| >= 2 && s[0] == '\r' && s[1] == '\n') then 0 else 1 + FindCrlf(s[1..])
  }

  /** `bytes.split(CRLF)`. */
  function Split(s: string): seq<string>
    decreases |s|
  {
    var i := FindCrlf(s);
    if i == |s| then [s] else [s[..i]] + Split(s[i + 2..])
  }

  /** A line without line-end characters. */
  predicate Clean(l: string) {
    '\r' !in l && '\n' !in l
  }

  lemma {:induction false} FindCrlfAfter(l: string, rest: string)
    requires Clean(l)
    ensures FindCrlf(l + CRLF + rest) == |l|
  {
    var s := l + CRLF + rest;
    if l != "" {
      assert s[0] == l[0] && s[1..] == l[1..] + CRLF + rest;
      assert l[0] in l && Clean(l[1..]);
      FindCrlfAfter(l[1..], rest);
    }
  }

  lemma SplitLine(l: string, rest: string)
    requires Clean(l)
    ensures Split(l + CRLF + rest) == [l] + Split(rest)
  {
    FindCrlfAfter(l, rest);
    var s := l + CRLF + rest;
    assert s[..|l|] == l && s[|l| + 2..] == rest;
  }

  /** A piece with no line feed is one line, a trailing carriage return included. */
  lemma {:induction false} SplitNone(t: string)
    requires '\n' !in t
    ensures Split(t) == [t]
  {
    NoCrlf(t);
  }

  lemma {:induction false} NoCrlf(t: string)
    requires '\n' !in t
    ensures FindCrlf(t) == |t|
  {
    if t != "" {
      if |t| >= 2 { assert t[1] in t; }
      NoCrlf(t[1..]);
    }
  }
}
