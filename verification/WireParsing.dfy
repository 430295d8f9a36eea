/** What the part header parser accepts, and what it makes of it, for any bytes and not only printed
    ones: which blocks are malformed, and that headers go by name, in any order and case. */
module WireParsing {
  import opened Wrappers
  import opened WireText
  import opened Wire

  // --- Integers ------------------------------------------------------------------------

  /** Digits, with single underscores between two of them. */
  predicate Grouped(s: string) {
    && s != "" && IsDigit(s[0]) && IsDigit(s[|s| - 1])
    && (forall i :: 0 <= i < |s| ==> IsDigit(s[i]) || s[i] == '_')
    && (forall i :: 0 <= i < |s| - 1 ==> s[i] != '_' || s[i + 1] != '_')
  }

  lemma {:induction false} ParseNatIff(s: string)
    ensures ParseNat(s).Some? <==> Grouped(s)
  {
    if s != "" && IsDigit(s[|s| - 1]) && |s| > 1 {
      var front := s[..|s| - 1];
      var body := if front[|front| - 1] == '_' then front[..|front| - 1] else front;
      ParseNatIff(body);
      if Grouped(s) {
        assert body != "" && IsDigit(body[|body| - 1]);
        assert forall i :: 0 <= i < |body| ==> body[i] == s[i];
      }
      if Grouped(body) {
        assert forall i :: 0 <= i < |body| ==> s[i] == body[i];
        assert |body| == |s| - 2 ==> s[|body|] == '_';
      }
    }
  }

  /** Exactly the texts that are integers: whitespace around, one sign, grouped digits. */
  lemma ParseIntIff(raw: string)
    ensures ParseInt(raw).Some? <==>
              var s := Strip(raw);
              Grouped(s) || (s != "" && (s[0] == '-' || s[0] == '+') && Grouped(s[1..]))
  {
    var s := Strip(raw);
    ParseNatIff(s);
    if s != "" {
      ParseNatIff(s[1..]);
    }
  }

  predicate AllSpace(s: string) {
    forall i :: 0 <= i < |s| ==> IsSpace(s[i])
  }

  /** Stripping takes whitespace off both ends and leaves none there. */
  lemma {:induction false} StripIs(s: string) returns (a: string, b: string)
    ensures AllSpace(a) && AllSpace(b) && s == a + Strip(s) + b
    ensures Strip(s) == "" || Trimmed(Strip(s))
  {
    a := StripLeftIs(s);
    b := StripRightIs(StripLeft(s));
  }

  lemma {:induction false} StripLeftIs(s: string) returns (a: string)
    ensures AllSpace(a) && s == a + StripLeft(s)
    ensures StripLeft(s) == "" || !IsSpace(StripLeft(s)[0])
  {
    a := "";
    if s != "" && IsSpace(s[0]) {
      a := StripLeftIs(s[1..]);
      a := [s[0]] + a;
    }
  }

  lemma {:induction false} StripRightIs(s: string) returns (b: string)
    ensures AllSpace(b) && s == StripRight(s) + b
    ensures StripRight(s) == "" || !IsSpace(StripRight(s)[|StripRight(s)| - 1])
  {
    b := "";
    if s != "" && IsSpace(s[|s| - 1]) {
      b := StripRightIs(s[..|s| - 1]);
      b := b + [s[|s| - 1]];
    }
  }

  // --- Splitting -----------------------------------------------------------------------

  /** The pieces of a comma-separated text, put together again. */
  function Rejoin(parts: seq<string>): string
    requires parts != []
  {
    if |parts| == 1 then parts[0] else parts[0] + "," + Rejoin(parts[1..])
  }

  lemma {:induction false} CommasRejoin(raw: string)
    ensures Commas(raw) != [] && Rejoin(Commas(raw)) == raw
    ensures forall i :: 0 <= i < |Commas(raw)| ==> ',' !in Commas(raw)[i]
    decreases |raw|
  {
    var i := Find(raw, ',');
    if i < |raw| {
      CommasRejoin(raw[i + 1..]);
      assert Commas(raw)[1..] == Commas(raw[i + 1..]);
      assert raw == raw[..i] + "," + raw[i + 1..];
    }
  }

  /** The pieces between line ends, put together again. */
  function Unsplit(parts: seq<string>): string
    requires parts != []
  {
    if |parts| == 1 then parts[0] else parts[0] + CRLF + Unsplit(parts[1..])
  }

  lemma UnsplitAfter(line: string, rest: seq<string>)
    requires rest != []
    ensures Unsplit([line] + rest) == line + CRLF + Unsplit(rest)
  {
    assert ([line] + rest)[1..] == rest;
  }

  lemma CutAt(s: string, i: nat)
    requires i + 1 < |s| && s[i] == '\r' && s[i + 1] == '\n'
    ensures s == s[..i] + CRLF + s[i + 2..]
  {
    assert s[i..i + 2] == CRLF;
    assert s == s[..i] + s[i..i + 2] + s[i + 2..];
  }

  /** Splitting loses nothing and leaves no line end inside a piece. */
  lemma {:induction false} SplitUnsplit(s: string)
    ensures Split(s) != [] && Unsplit(Split(s)) == s
    ensures forall i :: 0 <= i < |Split(s)| ==> NoLineEnd(Split(s)[i])
    decreases |s|
  {
    var i := FindCrlf(s);
    if i < |s| {
      var line, rest := s[..i], Split(s[i + 2..]);
      SplitUnsplit(s[i + 2..]);
      UnsplitAfter(line, rest);
      CutAt(s, i);
      BeforeCrlf(s);
      assert Split(s) == [line] + rest;
    }
  }

  predicate NoLineEnd(s: string) {
    FindCrlf(s) == |s|
  }

  lemma {:induction false} BeforeCrlf(s: string)
    ensures FindCrlf(s[..FindCrlf(s)]) == FindCrlf(s)
  {
    var i := FindCrlf(s);
    if i > 0 {
      BeforeCrlf(s[1..]);
      assert s[..i][1..] == s[1..][..i - 1];
    }
  }

  // --- The box -------------------------------------------------------------------------

  /** Four texts, none with a comma, each a number, separated by commas. */
  ghost predicate IsBox<F(!new)>(fl: Floats<F>, raw: string, x: string, y: string, w: string, h: string) {
    && raw == x + "," + (y + "," + (w + "," + h))
    && ',' !in x && ',' !in y && ',' !in w && ',' !in h
    && fl.parse(x).Some? && fl.parse(y).Some? && fl.parse(w).Some? && fl.parse(h).Some?
  }

  /** A box text is accepted exactly if it is four numbers, and then it is these. */
  lemma BoxIff<F(!new)>(fl: Floats<F>, raw: string)
    ensures ParseBox(fl, raw).Parsed? <==> exists x, y, w, h :: IsBox(fl, raw, x, y, w, h)
    ensures forall x, y, w, h :: IsBox(fl, raw, x, y, w, h) ==>
              ParseBox(fl, raw)
              == Parsed((fl.parse(x).value, fl.parse(y).value, fl.parse(w).value, fl.parse(h).value))
  {
    CommasRejoin(raw);
    var parts := Commas(raw);
    if ParseBox(fl, raw).Parsed? {
      RejoinFour(parts);
      assert IsBox(fl, raw, parts[0], parts[1], parts[2], parts[3]);
    }
    forall x, y, w, h | IsBox(fl, raw, x, y, w, h)
      ensures ParseBox(fl, raw)
              == Parsed((fl.parse(x).value, fl.parse(y).value, fl.parse(w).value, fl.parse(h).value))
    {
      CommasOfFour(x, y, w, h);
    }
  }

  lemma RejoinFour(parts: seq<string>)
    requires |parts| == 4
    ensures Rejoin(parts) == parts[0] + "," + (parts[1] + "," + (parts[2] + "," + parts[3]))
  {
    var b, c, d := parts[1..], parts[1..][1..], parts[1..][1..][1..];
    assert Rejoin(d) == parts[3];
    assert Rejoin(c) == parts[2] + "," + Rejoin(d);
    assert Rejoin(b) == parts[1] + "," + Rejoin(c);
  }

  // --- The whole block -----------------------------------------------------------------

  /** The header is there and an integer. */
  predicate IsInt(raw: Option<string>) {
    raw.Some? && ParseInt(raw.value).Some?
  }

  /** A block is malformed exactly if a required header is missing or no integer, the motion header
      is not one of the two texts, or a box or an area is there and garbage. */
  lemma AcceptsIff<F(!new)>(fl: Floats<F>, lines: seq<string>)
    ensures Interpret(fl, lines).Parsed? <==>
              && IsInt(Get(lines, FRAME_ID)) && IsInt(Get(lines, TIMESTAMP)) && IsInt(Get(lines, CONTENT_LENGTH))
              && (Get(lines, MOTION) == Some("0") || Get(lines, MOTION) == Some("1"))
              && (Get(lines, BBOX).Some? ==> exists x, y, w, h :: IsBox(fl, Get(lines, BBOX).value, x, y, w, h))
              && (Get(lines, AREA).Some? ==> fl.parse(Get(lines, AREA).value).Some?)
  {
    if Get(lines, BBOX).Some? {
      BoxIff(fl, Get(lines, BBOX).value);
    }
  }

  /** And an accepted one says what its headers say: no box exactly if it has no such header, and area
      zero if it has none, as from an edge that does not send it when idle. */
  lemma AcceptedMeans<F(!new)>(fl: Floats<F>, lines: seq<string>, m: Meta<F>, contentLength: int)
    requires Interpret(fl, lines) == Parsed((m, contentLength))
    ensures Some(m.frameId) == ParseInt(Get(lines, FRAME_ID).value)
    ensures Some(m.ts) == ParseInt(Get(lines, TIMESTAMP).value)
    ensures Some(contentLength) == ParseInt(Get(lines, CONTENT_LENGTH).value)
    ensures m.motion <==> Get(lines, MOTION) == Some("1")
    ensures m.bbox.Some? <==> Get(lines, BBOX).Some?
    ensures forall x, y, w, h :: m.bbox.Some? && IsBox(fl, Get(lines, BBOX).value, x, y, w, h) ==>
              m.bbox.value == (fl.parse(x).value, fl.parse(y).value, fl.parse(w).value, fl.parse(h).value)
    ensures if Get(lines, AREA).Some? then Some(m.area) == fl.parse(Get(lines, AREA).value) else m.area == fl.zero
  {
    if Get(lines, BBOX).Some? {
      BoxIff(fl, Get(lines, BBOX).value);
    }
  }

  // --- By name -------------------------------------------------------------------------

  /** The last header of a name wins. */
  lemma {:induction false} GetConcat(a: seq<string>, b: seq<string>, name: string)
    ensures Get(a + b, name) == if Get(b, name).Some? then Get(b, name) else Get(a, name)
  {
    if b == [] {
      assert a + b == a;
    } else {
      assert (a + b)[..|a + b| - 1] == a + b[..|b| - 1];
      GetConcat(a, b[..|b| - 1], name);
    }
  }

  /** The six names the parser asks for. */
  const KNOWN := [FRAME_ID, TIMESTAMP, CONTENT_LENGTH, MOTION, BBOX, AREA]

  /** The line is no header, or one of another name. */
  predicate Unknown(line: string) {
    Header(line).Some? ==> forall i :: 0 <= i < |KNOWN| ==> Header(line).value.0 != Lower(KNOWN[i])
  }

  /** Two lists of lines that answer alike for the known names are the same block. */
  lemma SameAnswers<F(!new)>(fl: Floats<F>, a: seq<string>, b: seq<string>)
    requires forall i :: 0 <= i < |KNOWN| ==> Get(a, KNOWN[i]) == Get(b, KNOWN[i])
    ensures Interpret(fl, a) == Interpret(fl, b)
  {
    assert Get(a, KNOWN[0]) == Get(b, KNOWN[0]) && Get(a, KNOWN[1]) == Get(b, KNOWN[1]);
    assert Get(a, KNOWN[2]) == Get(b, KNOWN[2]) && Get(a, KNOWN[3]) == Get(b, KNOWN[3]);
    assert Get(a, KNOWN[4]) == Get(b, KNOWN[4]) && Get(a, KNOWN[5]) == Get(b, KNOWN[5]);
  }

  lemma GetOfOne(line: string, name: string)
    ensures Get([line], name)
            == if Header(line).Some? && Header(line).value.0 == Lower(name) then Some(Header(line).value.1) else None
  {
    assert [line][..0] == [];
  }

  /** Unknown headers, the boundary and lines without a colon are ignored wherever they stand. */
  lemma UnknownIsIgnored<F(!new)>(fl: Floats<F>, a: seq<string>, line: string, b: seq<string>)
    requires Unknown(line)
    ensures Interpret(fl, a + [line] + b) == Interpret(fl, a + b)
  {
    forall i | 0 <= i < |KNOWN|
      ensures Get(a + [line] + b, KNOWN[i]) == Get(a + b, KNOWN[i])
    {
      GetOfOne(line, KNOWN[i]);
      GetConcat(a + [line], b, KNOWN[i]);
      GetConcat(a, [line], KNOWN[i]);
      GetConcat(a, b, KNOWN[i]);
    }
    SameAnswers(fl, a + [line] + b, a + b);
  }

  /** The order of two headers of different names does not matter. */
  lemma OrderIsIrrelevant<F(!new)>(fl: Floats<F>, a: seq<string>, x: string, y: string, b: seq<string>)
    requires Header(x).Some? && Header(y).Some? && Header(x).value.0 != Header(y).value.0
    ensures Interpret(fl, a + [x, y] + b) == Interpret(fl, a + [y, x] + b)
  {
    forall i | 0 <= i < |KNOWN|
      ensures Get(a + [x, y] + b, KNOWN[i]) == Get(a + [y, x] + b, KNOWN[i])
    {
      PairEitherWay(x, y, KNOWN[i]);
      GetConcat(a + [x, y], b, KNOWN[i]);
      GetConcat(a, [x, y], KNOWN[i]);
      GetConcat(a + [y, x], b, KNOWN[i]);
      GetConcat(a, [y, x], KNOWN[i]);
    }
    SameAnswers(fl, a + [x, y] + b, a + [y, x] + b);
  }

  lemma PairEitherWay(x: string, y: string, name: string)
    requires Header(x).Some? && Header(y).Some? && Header(x).value.0 != Header(y).value.0
    ensures Get([x, y], name) == Get([y, x], name)
  {
    GetConcat([x], [y], name);
    GetConcat([y], [x], name);
    GetOfOne(x, name);
    GetOfOne(y, name);
    assert [x] + [y] == [x, y] && [y] + [x] == [y, x];
  }

  predicate SameLetter(c: char, d: char) {
    || c == d
    || ('A' <= c <= 'Z' && d as int == c as int + 32)
    || ('A' <= d <= 'Z' && c as int == d as int + 32)
  }

  /** The two differ at most in the case of letters. */
  predicate SameButCase(n: string, m: string) {
    |n| == |m| && forall i :: 0 <= i < |n| ==> SameLetter(n[i], m[i])
  }

  lemma LoweredAlike(n: string, m: string)
    requires SameButCase(n, m)
    ensures Lower(n) == Lower(m)
  {
    forall i | 0 <= i < |n|
      ensures Lower(n)[i] == Lower(m)[i]
    {
      assert SameLetter(n[i], m[i]);
    }
  }

  /** Nor does the case of a name. */
  lemma CaseIsIrrelevant<F(!new)>(fl: Floats<F>, a: seq<string>, n: string, m: string, value: string, b: seq<string>)
    requires Trimmed(n) && ':' !in n && Trimmed(m) && ':' !in m && Trimmed(value)
    requires SameButCase(n, m)
    ensures Interpret(fl, a + [Field(n, value)] + b) == Interpret(fl, a + [Field(m, value)] + b)
  {
    LoweredAlike(n, m);
    HeaderOfField(n, value);
    HeaderOfField(m, value);
    forall i | 0 <= i < |KNOWN|
      ensures Get(a + [Field(n, value)] + b, KNOWN[i]) == Get(a + [Field(m, value)] + b, KNOWN[i])
    {
      GetOfOne(Field(n, value), KNOWN[i]);
      GetOfOne(Field(m, value), KNOWN[i]);
      GetConcat(a + [Field(n, value)], b, KNOWN[i]);
      GetConcat(a, [Field(n, value)], KNOWN[i]);
      GetConcat(a + [Field(m, value)], b, KNOWN[i]);
      GetConcat(a, [Field(m, value)], KNOWN[i]);
    }
    SameAnswers(fl, a + [Field(n, value)] + b, a + [Field(m, value)] + b);
  }

  /** A line without a colon, as the boundary and a blank line are, is no header. */
  lemma NoColonIsUnknown(line: string)
    requires ':' !in line
    ensures Unknown(line)
  {
    NoHeader(line);
  }
}
