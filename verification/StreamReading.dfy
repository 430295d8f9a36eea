/** Reading one part of the byte stream: the boundary, the header lines through the blank one, then
    as many body bytes as Content-Length says; and reading back what the edge prints. */
module StreamReading {
  import opened WireText
  import opened Wire
  import opened PartStream

  // --- Lines ---------------------------------------------------------------------------

  /** How much `readline` takes: through the line feed, or all there is. */
  function LineLength(s: string): (n: nat)
    ensures n <= |s| && (s != "" ==> n > 0)
  {
    var i := Find(s, '\n');
    if i == |s| then i else i + 1
  }

  predicate IsBlank(line: string) {
    line == CRLF || line == "\n"
  }

  /** `rstrip(b"\r\n")`. */
  function StripEol(line: string): string {
    if line != "" && (line[|line| - 1] == '\r' || line[|line| - 1] == '\n') then StripEol(line[..|line| - 1]) else line
  }

  datatype Block = NoMore | NotBoundary | Block(text: string, rest: string)

  /** The first loop of `_read_header_block`: skip blank lines, then demand the boundary. */
  function Separator(s: string): (b: Block)
    ensures b.Block? ==> |b.rest| < |s|
    decreases |s|
  {
    if s == "" then NoMore
    else
      var n := LineLength(s);
      if IsBlank(s[..n]) then Separator(s[n..])
      else if StripEol(s[..n]) != BOUNDARY_LINE then NotBoundary
      else Block(s[..n], s[n..])
  }

  /** How far the second loop reads: through the blank line, or to the end. */
  function HeaderLength(s: string): (n: nat)
    ensures n <= |s|
    decreases |s|
  {
    if s == "" then 0
    else
      var n := LineLength(s);
      if IsBlank(s[..n]) then n else n + HeaderLength(s[n..])
  }

  /** `_read_header_block`. */
  function ReadBlock(s: string): (b: Block)
    ensures b.Block? ==> |b.rest| < |s|
  {
    match Separator(s)
    case NoMore => NoMore
    case NotBoundary => NotBoundary
    case Block(line, rest) => Block(line + rest[..HeaderLength(rest)], rest[HeaderLength(rest)..])
  }

  // --- Parts ---------------------------------------------------------------------------

  /** `StreamFrame`. */
  datatype Frame<F> = Frame(meta: Meta<F>, body: string)

  function ReadPart<F>(fl: Floats<F>, s: string): (p: Part<Frame<F>>)
    ensures p.Part? ==> |p.rest| < |s|
  {
    match ReadBlock(s)
    case NoMore => End(Closed)
    case NotBoundary => End(Corrupt)
    case Block(text, rest) =>
      match Parse(fl, text)
      case Malformed(_) => End(Corrupt)
      case Parsed((m, length)) =>
        var n := if length < 0 then 0 else length;
        if n > |rest| then End(Short) else Part(Frame(m, rest[..n]), rest[n..])
  }

  // --- The stream the edge writes ------------------------------------------------------

  function Printed<F>(fl: Floats<F>, f: Frame<F>): string {
    Format(fl, f.meta, |f.body|) + f.body
  }

  function ClearedFrame<F>(f: Frame<F>): Frame<F> {
    Frame(Wire.Cleared(f.meta), f.body)
  }

  /** Parts as the edge prints them and the client reads them. */
  function WireCodec<F>(fl: Floats<F>): Codec<Frame<F>> {
    Codec((f: Frame<F>) => Printed(fl, f), (s: string) => ReadPart(fl, s), (f: Frame<F>) => ClearedFrame(f),
          (f: Frame<F>) => f.body != "")
  }

  // --- Reading printed lines -----------------------------------------------------------

  lemma LineOf(l: string, rest: string)
    requires Clean(l)
    ensures LineLength(l + CRLF + rest) == |l| + 2
    ensures (l + CRLF + rest)[..|l| + 2] == l + CRLF && (l + CRLF + rest)[|l| + 2..] == rest
    ensures IsBlank(l + CRLF) <==> l == ""
  {
    var s := l + CRLF + rest;
    assert s == (l + "\r") + ['\n'] + rest;
    FindAt(l + "\r", '\n', rest);
    assert s[..|l| + 2] == l + CRLF;
    if l != "" {
      assert |l + CRLF| > 2;
    }
  }

  lemma BlankIsSkipped(s: string)
    ensures Separator(CRLF + s) == Separator(s)
    ensures HeaderLength(CRLF + s) == 2
  {
    LineOf("", s);
    assert "" + CRLF + s == CRLF + s && "" + CRLF == CRLF;
  }

  lemma {:induction false} HeaderLines(lines: seq<string>, rest: string)
    requires CleanLines(lines)
    ensures HeaderLength(Join(lines) + CRLF + rest) == |Join(lines)| + 2
  {
    var s := Join(lines) + CRLF + rest;
    if lines == [] {
      assert s == CRLF + rest;
      BlankIsSkipped(rest);
    } else {
      var l, tail := lines[0], lines[1..];
      var after := Join(tail) + CRLF + rest;
      assert s == l + CRLF + after;
      LineOf(l, after);
      HeaderLines(tail, rest);
    }
  }

  lemma BoundaryLine(rest: string)
    ensures Separator(BOUNDARY_LINE + CRLF + rest) == Block(BOUNDARY_LINE + CRLF, rest)
  {
    LineOf(BOUNDARY_LINE, rest);
    var line := BOUNDARY_LINE + CRLF;
    assert line[..8] == BOUNDARY_LINE + "\r" && (BOUNDARY_LINE + "\r")[..7] == BOUNDARY_LINE;
    assert StripEol(BOUNDARY_LINE) == BOUNDARY_LINE;
    assert StripEol(BOUNDARY_LINE + "\r") == BOUNDARY_LINE;
    assert StripEol(line) == BOUNDARY_LINE;
  }

  /** The header reader stops exactly at the end of a block of clean lines. */
  lemma LinesAreRead(lines: seq<string>, rest: string)
    requires CleanLines(lines)
    ensures ReadBlock(BOUNDARY_LINE + CRLF + (Join(lines) + CRLF) + rest)
            == Block(BOUNDARY_LINE + CRLF + (Join(lines) + CRLF), rest)
  {
    var tail := Join(lines) + CRLF;
    var after := Join(lines) + CRLF + rest;
    assert BOUNDARY_LINE + CRLF + tail + rest == BOUNDARY_LINE + CRLF + after;
    BoundaryLine(after);
    HeaderLines(lines, rest);
    assert after[..|tail|] == tail && after[|tail|..] == rest;
  }

  /** The lines of a printed block after the boundary. */
  function Tail<F>(fl: Floats<F>, m: Meta<F>, n: int): seq<string> {
    Lines(Fields(fl, m, n))
  }

  lemma FormatIsBoundaryAndTail<F(!new)>(fl: Floats<F>, m: Meta<F>, n: int)
    requires RoundTrips(fl)
    ensures Format(fl, m, n) == BOUNDARY_LINE + CRLF + (Join(Tail(fl, m, n)) + CRLF)
    ensures CleanLines(Tail(fl, m, n))
  {
    var head, tail := Head(fl, m, n), Tail(fl, m, n);
    FormatIsLines(fl, m, n);
    HeadIsClean(fl, m, n);
    assert head[1..] == tail;
    forall i | 0 <= i < |tail| ensures Clean(tail[i]) && tail[i] != "" { assert tail[i] == head[i + 1]; }
    assert Join(head) == BOUNDARY_LINE + CRLF + Join(tail);
  }

  lemma BlockIsRead<F(!new)>(fl: Floats<F>, m: Meta<F>, n: int, rest: string)
    requires RoundTrips(fl)
    ensures ReadBlock(Format(fl, m, n) + rest) == Block(Format(fl, m, n), rest)
  {
    FormatIsBoundaryAndTail(fl, m, n);
    LinesAreRead(Tail(fl, m, n), rest);
  }

  lemma BodyIsRead<F>(fl: Floats<F>, s: string, text: string, m: Meta<F>, body: string, rest: string)
    requires ReadBlock(s) == Block(text, body + rest) && Parse(fl, text) == Parsed((m, |body|))
    ensures ReadPart(fl, s) == Part(Frame(m, body), rest)
  {
    assert (body + rest)[..|body|] == body && (body + rest)[|body|..] == rest;
  }

  lemma PartIsRead<F(!new)>(fl: Floats<F>, f: Frame<F>, rest: string)
    requires RoundTrips(fl)
    ensures ReadPart(fl, Printed(fl, f) + rest) == Part(ClearedFrame(f), rest)
  {
    var text := Format(fl, f.meta, |f.body|);
    BlockIsRead(fl, f.meta, |f.body|, f.body + rest);
    BlockRoundTrips(fl, f.meta, |f.body|);
    Regroup(text, f.body, rest);
    BodyIsRead(fl, text + (f.body + rest), text, Wire.Cleared(f.meta), f.body, rest);
  }

  lemma Regroup(a: string, b: string, c: string)
    ensures a + b + c == a + (b + c)
  {
  }

  lemma LineEndIsSkipped<F>(fl: Floats<F>, s: string)
    ensures ReadPart(fl, CRLF + s) == ReadPart(fl, s)
  {
    BlankIsSkipped(s);
  }

  lemma WireConsumes<F(!new)>(fl: Floats<F>)
    ensures Consuming(WireCodec(fl))
  {
    forall s: string
      ensures Consumes(WireCodec(fl), s)
    {
      assert WireCodec(fl).read(s) == ReadPart(fl, s);
    }
  }

  // --- Any stream ----------------------------------------------------------------------

  /** Blank lines and nothing else. */
  predicate AllBlank(s: string)
    decreases |s|
  {
    s == "" || (IsBlank(s[..LineLength(s)]) && AllBlank(s[LineLength(s)..]))
  }

  function FirstLine(s: string): string {
    s[..LineLength(s)]
  }

  /** A line that ends in a line feed stays the first line whatever follows. */
  lemma LineStays(line: string, s: string)
    requires line != "" && line[|line| - 1] == '\n' && '\n' !in line[..|line| - 1]
    ensures FirstLine(line + s) == line && (line + s)[LineLength(line + s)..] == s
  {
    var front := line[..|line| - 1];
    assert line + s == front + ['\n'] + s;
    FindAt(front, '\n', s);
  }

  lemma BlankIsALine(line: string)
    requires IsBlank(line)
    ensures line != "" && line[|line| - 1] == '\n' && '\n' !in line[..|line| - 1]
  {
  }

  lemma BlankInFront(line: string, s: string)
    requires IsBlank(line)
    ensures AllBlank(s) ==> AllBlank(line + s)
    ensures Separator(line + s) == Separator(s)
  {
    BlankIsALine(line);
    LineStays(line, s);
  }

  lemma LineThenRest(s: string)
    ensures s == FirstLine(s) + s[LineLength(s)..]
  {
  }

  lemma {:induction false} SkipsBlanks(blanks: string, s: string)
    requires AllBlank(blanks)
    ensures Separator(blanks + s) == Separator(s)
    decreases |blanks|
  {
    if blanks == "" {
      assert blanks + s == s;
    } else {
      var line, rest := FirstLine(blanks), blanks[LineLength(blanks)..];
      SkipsBlanks(rest, s);
      SkipsOneMore(blanks, line, rest, s);
    }
  }

  lemma SkipsOneMore(blanks: string, line: string, rest: string, s: string)
    requires blanks == line + rest && IsBlank(line) && Separator(rest + s) == Separator(s)
    ensures Separator(blanks + s) == Separator(s)
  {
    Regroup(line, rest, s);
    BlankInFront(line, rest + s);
  }

  lemma {:induction false} BlanksThenTail(s: string) returns (skipped: string, tail: string)
    ensures s == skipped + tail && AllBlank(skipped)
    ensures tail != "" ==> !IsBlank(FirstLine(tail))
    decreases |s|
  {
    if s != "" && IsBlank(FirstLine(s)) {
      var line, rest := FirstLine(s), s[LineLength(s)..];
      LineThenRest(s);
      skipped, tail := BlanksThenTail(rest);
      BlankInFront(line, skipped);
      Regroup(line, skipped, tail);
      skipped := line + skipped;
    } else {
      skipped, tail := "", s;
    }
  }

  lemma SeparatorAt(tail: string)
    requires tail != "" ==> !IsBlank(FirstLine(tail))
    ensures Separator(tail).NoMore? <==> tail == ""
    ensures Separator(tail).Block? <==> tail != "" && StripEol(FirstLine(tail)) == BOUNDARY_LINE
    ensures Separator(tail).Block? ==>
              Separator(tail).text == FirstLine(tail) && Separator(tail).text + Separator(tail).rest == tail
  {
  }

  /** Exactly what the first loop does with any stream: after the blank lines skipped there is nothing
      left, or a line that is the boundary, or one that is not. */
  lemma SeparatorIs(s: string) returns (skipped: string, tail: string)
    ensures s == skipped + tail && AllBlank(skipped)
    ensures tail != "" ==> !IsBlank(FirstLine(tail))
    ensures Separator(s).NoMore? <==> tail == ""
    ensures Separator(s).Block? <==> tail != "" && StripEol(FirstLine(tail)) == BOUNDARY_LINE
    ensures Separator(s).Block? ==>
              Separator(s).text == FirstLine(tail) && Separator(s).text + Separator(s).rest == tail
  {
    skipped, tail := BlanksThenTail(s);
    SkipsBlanks(skipped, tail);
    SeparatorAt(tail);
  }

  lemma FirstLineStays(line: string, rest: string, n: nat)
    requires n <= |rest| && line == FirstLine(line + rest)
    ensures FirstLine(line + rest[..n]) == line
  {
    var s := line + rest;
    var i := Find(s, '\n');
    if i < |s| {
      assert line == s[..i] + ['\n'];
      LineStays(line, rest[..n]);
    } else {
      assert rest == "";
    }
  }

  /** The pieces of a block that was read, in the stream. */
  lemma BlockIs(s: string) returns (skipped: string, block: string, rest: string)
    requires ReadBlock(s).Block?
    ensures AllBlank(skipped) && s == skipped + (block + rest)
    ensures ReadBlock(s) == Block(block, rest) && block != "" && StripEol(FirstLine(block)) == BOUNDARY_LINE
  {
    var tail;
    skipped, tail := SeparatorIs(s);
    var line, after := Separator(s).text, Separator(s).rest;
    var n := HeaderLength(after);
    block, rest := line + after[..n], after[n..];
    FirstLineStays(line, after, n);
    Regroup(line, after[..n], after[n..]);
    CutAt(after, n);
  }

  /** And of any stream a part is read exactly as framed: blank lines, a block that starts with the
      boundary and is well-formed, then as many bytes as it says, which are the body. */
  lemma PartIs<F(!new)>(fl: Floats<F>, s: string) returns (skipped: string, block: string, length: int)
    requires ReadPart(fl, s).Part?
    ensures var Part(frame, rest) := ReadPart(fl, s);
            && AllBlank(skipped) && s == skipped + (block + (frame.body + rest))
            && block != "" && StripEol(FirstLine(block)) == BOUNDARY_LINE
            && Parse(fl, block) == Parsed((frame.meta, length))
            && |frame.body| == if length < 0 then 0 else length
  {
    var rest;
    skipped, block, rest := BlockIs(s);
    length := Parse(fl, block).value.1;
    CutAt(rest, if length < 0 then 0 else length);
  }

  lemma CutAt(rest: string, n: nat)
    requires n <= |rest|
    ensures rest == rest[..n] + rest[n..] && |rest[..n]| == n
  {
  }

  /** Where a boundary is expected, anything else ends the stream as corrupt, and no frame comes of it. */
  lemma NoBoundaryNoPart<F(!new)>(fl: Floats<F>, blanks: string, s: string)
    requires AllBlank(blanks) && s != "" && !IsBlank(FirstLine(s)) && StripEol(FirstLine(s)) != BOUNDARY_LINE
    ensures ReadPart(fl, blanks + s) == End(Corrupt)
  {
    SkipsBlanks(blanks, s);
    SeparatorAt(s);
  }
}
