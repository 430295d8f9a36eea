/** A stream cut off anywhere: the connection drops at an arbitrary byte. */
module StreamTruncation {
  import opened Wrappers
  import opened WireText
  import opened Wire
  import opened PartStream
  import opened StreamReading

  // --- Cutting a block of lines --------------------------------------------------------

  /** What can be left of the line the cut falls in: part of it, perhaps with its carriage return. */
  function Line(lines: seq<string>, k: nat): string
    requires k <= |lines|
  {
    (if k < |lines| then lines[k] else "") + "\r"
  }

  lemma CutLine(l: string, rest: string, p: string)
    requires p <= l + CRLF + rest
    ensures |p| < |l| + 2 ==> p <= l + "\r"
    ensures |p| >= |l| + 2 ==> p == l + CRLF + p[|l| + 2..] && p[|l| + 2..] <= rest
  {
    var s := l + CRLF + rest;
    if |p| < |l| + 2 {
      assert s[..|p|] == (l + "\r")[..|p|];
    } else {
      assert s[..|l| + 2] == l + CRLF && s[|l| + 2..] == rest;
      assert p[..|l| + 2] == s[..|l| + 2];
      assert p[|l| + 2..] == rest[..|p| - |l| - 2];
    }
  }

  lemma NoLineFeed(l: string, p: string)
    requires Clean(l) && p <= l + "\r"
    ensures '\n' !in p
  {
  }

  lemma SplitAfterLine(l: string, tail: seq<string>, q: string, k: nat, partial: string)
    requires Clean(l) && k <= |tail| && Split(q) == tail[..k] + [partial]
    ensures Split(l + CRLF + q) == ([l] + tail)[..k + 1] + [partial]
  {
    SplitLine(l, q);
    assert ([l] + tail)[..k + 1] == [l] + tail[..k];
  }

  lemma CutInLine(l: string, p: string)
    requires Clean(l) && p <= l + "\r"
    ensures Split(p) == [p]
  {
    NoLineFeed(l, p);
    SplitNone(p);
  }

  lemma CutOfBlank(p: string)
    requires p <= CRLF && |p| < 2
    ensures p <= "" + "\r"
  {
    assert CRLF[..|p|] == ("" + "\r")[..|p|];
  }

  /** Some whole lines and part of one, as a cut block splits. */
  ghost predicate SplitsAt(lines: seq<string>, p: string, k: nat, partial: string) {
    k <= |lines| && Split(p) == lines[..k] + [partial] && partial <= Line(lines, k)
  }

  lemma SplitsInFirst(l: string, tail: seq<string>, p: string)
    requires Clean(l) && p <= l + "\r"
    ensures SplitsAt([l] + tail, p, 0, p)
  {
    CutInLine(l, p);
  }

  lemma SplitsLater(l: string, tail: seq<string>, q: string, k: nat, partial: string)
    requires Clean(l) && SplitsAt(tail, q, k, partial)
    ensures SplitsAt([l] + tail, l + CRLF + q, k + 1, partial)
  {
    SplitAfterLine(l, tail, q, k, partial);
  }

  lemma {:induction false} SplitCut(lines: seq<string>, p: string) returns (k: nat, partial: string)
    requires CleanLines(lines) && p <= Join(lines) + CRLF && |p| < |Join(lines)| + 2
    ensures SplitsAt(lines, p, k, partial)
  {
    k, partial := 0, p;
    if lines == [] {
      assert Join(lines) + CRLF == CRLF;
      CutOfBlank(p);
      CutInLine("", p);
    } else {
      var l, tail := lines[0], lines[1..];
      var rest := Join(tail) + CRLF;
      assert lines == [l] + tail;
      assert Join(lines) + CRLF == l + CRLF + rest;
      CutLine(l, rest, p);
      if |p| < |l| + 2 {
        SplitsInFirst(l, tail, p);
      } else {
        k, partial := SplitCut(tail, p[|l| + 2..]);
        SplitsLater(l, tail, p[|l| + 2..], k, partial);
        k := k + 1;
      }
    }
  }

  lemma UnfinishedLine(p: string)
    requires '\n' !in p && p != ""
    ensures LineLength(p) == |p| && !IsBlank(p[..|p|]) && p[..|p|] == p && p[|p|..] == ""
  {
    FindNone(p, '\n');
    assert CRLF[1] == '\n' && '\n' in CRLF && '\n' in "\n";
  }

  /** The header reader takes all of a cut block: there is no blank line in it. */
  lemma {:induction false} HeaderCut(lines: seq<string>, p: string)
    requires CleanLines(lines) && p <= Join(lines) + CRLF && |p| < |Join(lines)| + 2
    ensures HeaderLength(p) == |p|
  {
    if p != "" {
      if lines == [] {
        CutLine("", "", p);
        assert "" + CRLF + "" == Join(lines) + CRLF && "" + "\r" == "\r";
        NoLineFeed("", p);
        UnfinishedLine(p);
      } else {
        var l, tail := lines[0], lines[1..];
        assert Join(lines) + CRLF == l + CRLF + (Join(tail) + CRLF);
        CutLine(l, Join(tail) + CRLF, p);
        if |p| < |l| + 2 {
          NoLineFeed(l, p);
          UnfinishedLine(p);
        } else {
          LineOf(l, p[|l| + 2..]);
          HeaderCut(tail, p[|l| + 2..]);
        }
      }
    }
  }

  /** A cut block is read whole, with nothing behind it, or its boundary line is not recognised. */
  lemma BlockCut(lines: seq<string>, p: string)
    requires CleanLines(lines)
    requires p <= BOUNDARY_LINE + CRLF + (Join(lines) + CRLF) && |p| < |BOUNDARY_LINE| + 2 + |Join(lines)| + 2
    requires p != ""
    ensures ReadBlock(p) == NotBoundary || ReadBlock(p) == Block(p, "")
  {
    CutLine(BOUNDARY_LINE, Join(lines) + CRLF, p);
    if |p| < |BOUNDARY_LINE| + 2 {
      NoLineFeed(BOUNDARY_LINE, p);
      UnfinishedLine(p);
      assert ""[..0] == "";
    } else {
      var q := p[|BOUNDARY_LINE| + 2..];
      BoundaryLine(q);
      HeaderCut(lines, q);
      assert q[..|q|] == q && q[|q|..] == "";
    }
  }

  // --- What a cut block can still say --------------------------------------------------

  /** A partial field line has that field's name or is no header at all. */
  lemma PartialField(name: string, value: string, t: string)
    requires Trimmed(name) && ':' !in name && t <= Field(name, value) + "\r"
    ensures Header(t).Some? ==> Header(t).value.0 == Lower(name)
  {
    var i := Find(t, ':');
    if i < |t| {
      var line := Field(name, value) + "\r";
      forall k | 0 <= k < |name| && k < |t|
        ensures t[k] == name[k] && t[k] != ':'
      {
        assert line[k] == name[k] && name[k] in name;
      }
      assert i >= |name| && line[|name|] == ':';
      assert t[..i] == name;
      StripTrimmed(name);
    }
  }

  lemma FieldNames<F>(fl: Floats<F>, m: Meta<F>, n: int)
    ensures var f := Fields(fl, m, n);
            && |f| >= 6
            && (forall i :: 0 <= i < |f| && i != 1 ==> |f[i].0| != |CONTENT_LENGTH|)
            && (forall i :: 0 <= i < |f| && i != 2 ==> |f[i].0| != |FRAME_ID|)
            && f[1] == (CONTENT_LENGTH, IntText(n))
  {
    NamesDiffer();
  }

  /** A frame id among the first fields means the whole content length is there too. */
  lemma {:induction false} LookupFirst<F>(fl: Floats<F>, m: Meta<F>, n: int, j: nat)
    requires j <= |Fields(fl, m, n)|
    ensures j < 3 ==> Lookup(Fields(fl, m, n)[..j], FRAME_ID) == None
    ensures j >= 2 ==> Lookup(Fields(fl, m, n)[..j], CONTENT_LENGTH) == Some(IntText(n))
  {
    FieldNames(fl, m, n);
    if j > 0 {
      var f := Fields(fl, m, n);
      LookupFirst(fl, m, n, j - 1);
      assert f[..j] == f[..j - 1] + [f[j - 1]];
      LookupSnoc(f[..j - 1], f[j - 1], FRAME_ID);
      LookupSnoc(f[..j - 1], f[j - 1], CONTENT_LENGTH);
    }
  }

  /** The value a cut block has for a name: that of the whole fields in it, unless the cut falls in
      the field of that name. */
  lemma GetCut(fields: seq<(string, string)>, k: nat, partial: string, name: string)
    requires PlainFields(fields) && k <= |fields|
    requires partial <= (if k < |fields| then Field(fields[k].0, fields[k].1) else "") + "\r"
    ensures var at := Get([BOUNDARY_LINE] + Lines(fields[..k]) + [partial], name);
            at == Lookup(fields[..k], name) || (k < |fields| && Lower(fields[k].0) == Lower(name))
  {
    GetIsLookup(fields[..k], name);
    GetSnoc([BOUNDARY_LINE] + Lines(fields[..k]), partial, name);
    if k < |fields| {
      PartialField(fields[k].0, fields[k].1, partial);
    } else {
      NoHeader(partial);
    }
  }

  lemma LengthAtCut<F(!new)>(fl: Floats<F>, m: Meta<F>, n: int, k: nat, partial: string)
    requires RoundTrips(fl) && k <= |Fields(fl, m, n)|
    requires var f := Fields(fl, m, n); partial <= (if k < |f| then Field(f[k].0, f[k].1) else "") + "\r"
    ensures var lines := [BOUNDARY_LINE] + Lines(Fields(fl, m, n)[..k]) + [partial];
            Get(lines, FRAME_ID).Some? ==> Get(lines, CONTENT_LENGTH) == Some(IntText(n))
  {
    var f := Fields(fl, m, n);
    FieldsArePlain(fl, m, n);
    FieldNames(fl, m, n);
    GetCut(f, k, partial, FRAME_ID);
    GetCut(f, k, partial, CONTENT_LENGTH);
    LookupFirst(fl, m, n, k);
    if k < |f| {
      assert |Lower(f[k].0)| == |f[k].0| && |Lower(FRAME_ID)| == |FRAME_ID|
          && |Lower(CONTENT_LENGTH)| == |CONTENT_LENGTH|;
    }
  }

  lemma NothingAtBoundary(partial: string, name: string)
    requires partial <= BOUNDARY_LINE + "\r"
    ensures Get([partial], name) == None
  {
    var none: seq<string> := [];
    assert ':' !in BOUNDARY_LINE + "\r";
    NoHeader(partial);
    GetSnoc(none, partial, name);
    assert none + [partial] == [partial];
  }

  /** A cut block is part of the boundary line, or that line, `k` whole fields and part of one. */
  ghost predicate CutAt(fields: seq<(string, string)>, lines: seq<string>, k: nat, partial: string) {
    || (lines == [partial] && partial <= BOUNDARY_LINE + "\r")
    || (&& k <= |fields| && lines == [BOUNDARY_LINE] + Lines(fields[..k]) + [partial]
        && partial <= (if k < |fields| then Field(fields[k].0, fields[k].1) else "") + "\r")
  }

  lemma HeadLines(fields: seq<(string, string)>, k: nat)
    requires k <= |fields|
    ensures ([BOUNDARY_LINE] + Lines(fields))[..k + 1] == [BOUNDARY_LINE] + Lines(fields[..k])
    ensures Line([BOUNDARY_LINE] + Lines(fields), k + 1)
            == (if k < |fields| then Field(fields[k].0, fields[k].1) else "") + "\r"
  {
  }

  lemma CutFields(fields: seq<(string, string)>, p: string) returns (k: nat, partial: string)
    requires CleanLines([BOUNDARY_LINE] + Lines(fields))
    requires p <= Join([BOUNDARY_LINE] + Lines(fields)) + CRLF && |p| < |Join([BOUNDARY_LINE] + Lines(fields)) + CRLF|
    ensures CutAt(fields, Split(p), k, partial)
  {
    k, partial := SplitCut([BOUNDARY_LINE] + Lines(fields), p);
    if k > 0 {
      k := k - 1;
      HeadLines(fields, k);
    }
  }

  lemma LengthIfFrameId<F(!new)>(fl: Floats<F>, m: Meta<F>, n: int, lines: seq<string>, k: nat, partial: string)
    requires RoundTrips(fl) && CutAt(Fields(fl, m, n), lines, k, partial)
    ensures Get(lines, FRAME_ID).Some? ==> Get(lines, CONTENT_LENGTH) == Some(IntText(n))
  {
    if lines == [partial] && partial <= BOUNDARY_LINE + "\r" {
      NothingAtBoundary(partial, FRAME_ID);
    } else {
      LengthAtCut(fl, m, n, k, partial);
    }
  }

  lemma CutTextKeepsTheLength<F(!new)>(fl: Floats<F>, m: Meta<F>, n: int, text: string, p: string)
    requires RoundTrips(fl) && text == Join(Head(fl, m, n)) + CRLF && CleanLines(Head(fl, m, n))
    requires p <= text && |p| < |text|
    ensures Get(Split(p), FRAME_ID).Some? ==> Get(Split(p), CONTENT_LENGTH) == Some(IntText(n))
  {
    var k, partial := CutFields(Fields(fl, m, n), p);
    LengthIfFrameId(fl, m, n, Split(p), k, partial);
  }

  /** A cut block that still has a frame id has its content length unaltered. */
  lemma CutKeepsTheLength<F(!new)>(fl: Floats<F>, m: Meta<F>, n: int, p: string)
    requires RoundTrips(fl) && p <= Format(fl, m, n) && |p| < |Format(fl, m, n)|
    ensures Get(Split(p), FRAME_ID).Some? ==> Get(Split(p), CONTENT_LENGTH) == Some(IntText(n))
  {
    FormatIsLines(fl, m, n);
    HeadIsClean(fl, m, n);
    CutTextKeepsTheLength(fl, m, n, Format(fl, m, n), p);
  }

  lemma ParsedHasAFrameId<F>(fl: Floats<F>, lines: seq<string>)
    requires Interpret(fl, lines).Parsed?
    ensures Get(lines, FRAME_ID).Some?
    ensures Parsed(Interpret(fl, lines).value.1) == RequireInt(Get(lines, CONTENT_LENGTH))
  {
  }

  lemma EmptyHandedIf<F>(fl: Floats<F>, p: string, n: nat)
    requires n > 0 && (ReadBlock(p) == NotBoundary || ReadBlock(p) == Block(p, ""))
    requires Get(Split(p), FRAME_ID).Some? ==> Get(Split(p), CONTENT_LENGTH) == Some(IntText(n))
    ensures ReadPart(fl, p).End?
  {
    if ReadBlock(p).Block? && Parse(fl, p).Parsed? {
      ParsedHasAFrameId(fl, Split(p));
      ParseIntText(n);
      ShortBodyEnds(fl, p);
    }
  }

  lemma ShortBodyEnds<F>(fl: Floats<F>, p: string)
    requires ReadBlock(p) == Block(p, "") && Parse(fl, p).Parsed? && Parse(fl, p).value.1 > 0
    ensures ReadPart(fl, p) == End(Short)
  {
  }

  /** No frame comes out of a part whose header block is cut, if its body is not empty: whatever the
      cut block parses to, its body is missing. */
  lemma CutHeadYieldsNothing<F(!new)>(fl: Floats<F>, m: Meta<F>, n: nat, p: string)
    requires RoundTrips(fl) && n > 0 && p <= Format(fl, m, n) && |p| < |Format(fl, m, n)|
    ensures ReadPart(fl, p).End?
  {
    if p != "" {
      FormatIsBoundaryAndTail(fl, m, n);
      BlockCut(Tail(fl, m, n), p);
      CutKeepsTheLength(fl, m, n, p);
      EmptyHandedIf(fl, p, n);
    }
  }

  /** Nor out of a part whose body is cut. */
  lemma CutBodyYieldsNothing<F(!new)>(fl: Floats<F>, f: Frame<F>, p: string)
    requires RoundTrips(fl) && p <= Printed(fl, f) && |Format(fl, f.meta, |f.body|)| <= |p| < |Printed(fl, f)|
    ensures ReadPart(fl, p).End?
  {
    var text := Format(fl, f.meta, |f.body|);
    var body := p[|text|..];
    assert p == text + body by { assert p[..|text|] == Printed(fl, f)[..|text|] == text; }
    BlockIsRead(fl, f.meta, |f.body|, body);
    BlockRoundTrips(fl, f.meta, |f.body|);
  }

  // --- What the client makes of a stream -----------------------------------------------

  lemma CutPartYieldsNothing<F(!new)>(fl: Floats<F>, f: Frame<F>, p: string)
    requires RoundTrips(fl) && f.body != "" && p <= Printed(fl, f) && |p| < |Printed(fl, f)|
    ensures ReadPart(fl, p).End?
  {
    var text := Format(fl, f.meta, |f.body|);
    if |p| < |text| {
      assert p <= text by { assert p == Printed(fl, f)[..|p|] == text[..|p|]; }
      CutHeadYieldsNothing(fl, f.meta, |f.body|, p);
    } else {
      CutBodyYieldsNothing(fl, f, p);
    }
  }

  lemma LineEndRemains<F>(fl: Floats<F>)
    ensures ReadPart(fl, "") == End(Closed) && ReadPart(fl, "\r").End?
  {
    UnfinishedLine("\r");
    assert StripEol("\r") == "" by { assert "\r"[..0] == ""; }
  }

  /** The printer and the reader agree: a printed part is read back whatever follows it, a line end
      before a part is skipped, and a cut part with a body yields nothing. */
  lemma WireFrames<F(!new)>(fl: Floats<F>)
    requires RoundTrips(fl)
    ensures Framing(WireCodec(fl))
  {
    var c := WireCodec(fl);
    forall f: Frame<F>, rest: string
      ensures ReadsBack(c, f, rest)
    {
      PartIsRead(fl, f, rest);
      assert c.read(c.print_(f) + rest) == ReadPart(fl, Printed(fl, f) + rest);
    }
    forall s: string
      ensures SkipsLineEnd(c, s)
    {
      LineEndIsSkipped(fl, s);
      assert c.read(CRLF + s) == ReadPart(fl, CRLF + s) && c.read(s) == ReadPart(fl, s);
    }
    forall f: Frame<F>, p: string
      ensures CutYieldsNothing(c, f, p)
    {
      assert c.print_(f) == Printed(fl, f) && c.read(p) == ReadPart(fl, p) && (c.full(f) <==> f.body != "");
      if c.full(f) && p <= c.print_(f) && |p| < |c.print_(f)| {
        CutPartYieldsNothing(fl, f, p);
      }
    }
    LineEndRemains(fl);
    assert c.read("") == ReadPart(fl, "") && c.read("\r") == ReadPart(fl, "\r");
  }

  /** Reading what the edge wrote yields exactly its frames, each without its box if there is no
      motion, and then a clean end: for any frames and any bodies, boundary lines in a body included. */
  lemma WireStreamRoundTrips<F(!new)>(fl: Floats<F>, frames: seq<Frame<F>>)
    requires RoundTrips(fl)
    ensures Consuming(WireCodec(fl))
    ensures ReadAll(WireCodec(fl), Stream(WireCodec(fl), frames)) == (PartStream.Cleared(WireCodec(fl), frames), Closed)
  {
    WireConsumes(fl);
    WireFrames(fl);
    StreamRoundTrips(WireCodec(fl), frames);
  }

  ghost predicate NoEmptyBody<F>(frames: seq<Frame<F>>) {
    forall i :: 0 <= i < |frames| ==> frames[i].body != ""
  }

  lemma AllAreFull<F>(c: Codec<Frame<F>>, fl: Floats<F>, frames: seq<Frame<F>>)
    requires c == WireCodec(fl) && NoEmptyBody(frames)
    ensures forall i :: 0 <= i < |frames| ==> c.full(frames[i])
  {
    forall i | 0 <= i < |frames|
      ensures c.full(frames[i])
    {
      assert c.full(frames[i]) == (frames[i].body != "");
    }
  }

  /** Whatever byte the connection drops at, the client has yielded exactly the frames whose headers
      and body had arrived, unaltered and in order, and nothing else, if no body is empty. */
  lemma CutWireStream<F(!new)>(fl: Floats<F>, c: Codec<Frame<F>>, frames: seq<Frame<F>>, p: string)
    requires RoundTrips(fl) && c == WireCodec(fl) && NoEmptyBody(frames) && p <= Stream(c, frames)
    ensures Consuming(c) && YieldsWhole(c, frames, p)
  {
    WireConsumes(fl);
    WireFrames(fl);
    AllAreFull(c, fl, frames);
    CutStreamYieldsWholeFrames(c, frames, p);
  }

  // --- Empty bodies --------------------------------------------------------------------

  /** A part's headers without the area. */
  function FieldsBefore<F>(fl: Floats<F>, m: Meta<F>, n: int): seq<(string, string)> {
    Fields(fl, m, n)[..|Fields(fl, m, n)| - 1]
  }

  lemma LookupBefore<F>(fl: Floats<F>, m: Meta<F>, n: int, name: string)
    ensures Lookup(FieldsBefore(fl, m, n), name)
         == if Lower(name) == Lower(AREA) then None else Lookup(Fields(fl, m, n), name)
  {
    var f := Fields(fl, m, n);
    var before := FieldsBefore(fl, m, n);
    assert f == before + [(AREA, fl.print_(m.area))];
    LookupSnoc(before, (AREA, fl.print_(m.area)), name);
    if Lower(name) == Lower(AREA) {
      NamesDiffer();
      NotAmong(before, name);
    }
  }

  lemma {:induction false} NotAmong(fields: seq<(string, string)>, name: string)
    requires forall i :: 0 <= i < |fields| ==> Lower(fields[i].0) != Lower(name)
    ensures Lookup(fields, name) == None
  {
    if fields != [] {
      NotAmong(fields[..|fields| - 1], name);
    }
  }

  /** Headers that stop before the area are read as area zero. */
  lemma InterpretBefore<F(!new)>(fl: Floats<F>, m: Meta<F>, n: int, lines: seq<string>)
    requires RoundTrips(fl)
    requires forall name :: Get(lines, name) == Lookup(FieldsBefore(fl, m, n), name)
    ensures Interpret(fl, lines) == Parsed((Wire.Cleared(m).(area := fl.zero), n))
  {
    NamesDiffer();
    forall name | name in [FRAME_ID, TIMESTAMP, CONTENT_LENGTH, MOTION, BBOX, AREA]
      ensures Get(lines, name) == if Lower(name) == Lower(AREA) then None else Lookup(Fields(fl, m, n), name)
    {
      LookupBefore(fl, m, n, name);
    }
    LookupFields(fl, m, n, FRAME_ID);
    LookupFields(fl, m, n, TIMESTAMP);
    LookupFields(fl, m, n, CONTENT_LENGTH);
    LookupFields(fl, m, n, MOTION);
    LookupFields(fl, m, n, BBOX);
    ParseIntText(m.frameId);
    ParseIntText(m.ts);
    ParseIntText(n);
    if m.motion && m.bbox.Some? {
      BoxRoundTrips(fl, m.bbox.value);
    }
    assert Get(lines, FRAME_ID) == Some(IntText(m.frameId));
    assert Get(lines, TIMESTAMP) == Some(IntText(m.ts));
    assert Get(lines, CONTENT_LENGTH) == Some(IntText(n));
  }

  lemma BeforeIsRead(lines: seq<string>)
    requires CleanLines(lines)
    ensures ReadBlock(BOUNDARY_LINE + CRLF + Join(lines)) == Block(BOUNDARY_LINE + CRLF + Join(lines), "")
  {
    BoundaryLine(Join(lines));
    HeaderCut(lines, Join(lines));
    assert Join(lines)[..|Join(lines)|] == Join(lines) && Join(lines)[|Join(lines)|..] == "";
  }

  lemma ReadsEmptyBody<F>(fl: Floats<F>, p: string, m: Meta<F>)
    requires ReadBlock(p) == Block(p, "") && Parse(fl, p) == Parsed((m, 0))
    ensures ReadPart(fl, p) == Part(Frame(m, ""), "")
  {
  }

  lemma BeforeIsPrefix(before: seq<(string, string)>, last: (string, string), text: string)
    requires text == BOUNDARY_LINE + CRLF + (Join(Lines(before + [last])) + CRLF)
    ensures BOUNDARY_LINE + CRLF + Join(Lines(before)) <= text && |BOUNDARY_LINE + CRLF + Join(Lines(before))| < |text|
  {
    assert Lines(before + [last]) == Lines(before) + Lines([last]);
    JoinConcat(Lines(before), Lines([last]));
    assert text == BOUNDARY_LINE + CRLF + Join(Lines(before)) + (Join(Lines([last])) + CRLF);
  }

  lemma BeforeIsCut<F(!new)>(fl: Floats<F>, m: Meta<F>, n: int)
    requires RoundTrips(fl)
    ensures var lines := Lines(FieldsBefore(fl, m, n));
            && CleanLines(lines) && PlainFields(FieldsBefore(fl, m, n))
            && BOUNDARY_LINE + CRLF + Join(lines) <= Format(fl, m, n)
            && |BOUNDARY_LINE + CRLF + Join(lines)| < |Format(fl, m, n)|
  {
    var before := FieldsBefore(fl, m, n);
    FormatIsBoundaryAndTail(fl, m, n);
    FieldsArePlain(fl, m, n);
    assert Fields(fl, m, n) == before + [(AREA, fl.print_(m.area))];
    BeforeIsPrefix(before, (AREA, fl.print_(m.area)), Format(fl, m, n));
    assert forall i :: 0 <= i < |before| ==> Lines(before)[i] == Tail(fl, m, n)[i];
  }

  lemma BeforeIsSplit(fields: seq<(string, string)>)
    requires PlainFields(fields) && CleanLines(Lines(fields))
    ensures forall name :: Get(Split(BOUNDARY_LINE + CRLF + Join(Lines(fields))), name) == Lookup(fields, name)
  {
    var head := [BOUNDARY_LINE] + Lines(fields);
    var p := BOUNDARY_LINE + CRLF + Join(Lines(fields));
    assert head[1..] == Lines(fields) && Join(head) == p;
    assert CleanLines(head) by { NoBoundaryEnds(); }
    SplitLines(head, "");
    SplitNone("");
    assert p + "" == p;
    forall name
      ensures Get(Split(p), name) == Lookup(fields, name)
    {
      GetSkips(head, "", name);
      GetIsLookup(fields, name);
    }
  }

  lemma NoBoundaryEnds()
    ensures Clean(BOUNDARY_LINE) && BOUNDARY_LINE != ""
  {
  }

  /** With an empty body a stream that ends right before the area line of the part is read as that
      frame with area zero: a frame that had not arrived, and an altered one unless its area is
      zero. */
  lemma EmptyBodyIsAltered<F(!new)>(fl: Floats<F>, m: Meta<F>) returns (p: string)
    requires RoundTrips(fl)
    ensures p <= Printed(fl, Frame(m, "")) && |p| < |Printed(fl, Frame(m, ""))|
    ensures ReadPart(fl, p) == Part(Frame(Wire.Cleared(m).(area := fl.zero), ""), "")
    ensures ReadPart(fl, p).frame == ClearedFrame(Frame(m, "")) <==> m.area == fl.zero
  {
    var before := FieldsBefore(fl, m, 0);
    p := BOUNDARY_LINE + CRLF + Join(Lines(before));
    BeforeIsCut(fl, m, 0);
    BeforeIsRead(Lines(before));
    BeforeIsSplit(before);
    InterpretBefore(fl, m, 0, Split(p));
    ReadsEmptyBody(fl, p, Wire.Cleared(m).(area := fl.zero));
    assert Printed(fl, Frame(m, "")) == Format(fl, m, 0);
  }

  lemma EmptyBodyReads<F(!new)>(fl: Floats<F>, c: Codec<Frame<F>>, f: Frame<F>)
    requires RoundTrips(fl) && c == WireCodec(fl) && f.body == ""
    ensures CutReads(c, f)
  {
    var p := EmptyBodyIsAltered(fl, f.meta);
    assert f == Frame(f.meta, "");
    CodecReads(fl, c, f, p);
    CutReadsBy(c, f, p);
  }

  lemma CodecReads<F>(fl: Floats<F>, c: Codec<Frame<F>>, f: Frame<F>, p: string)
    requires c == WireCodec(fl)
    ensures c.print_(f) == Printed(fl, f) && c.read(p) == ReadPart(fl, p)
  {
  }

  lemma CutReadsBy<T>(c: Codec<T>, f: T, p: string)
    requires p <= c.print_(f) && |p| < |c.print_(f)| && c.read(p).Part?
    ensures CutReads(c, f)
  {
  }

  /** Every cut of a stream yields exactly the frames that had arrived whole, if and only if no body
      is empty. */
  lemma CutWireStreamIff<F(!new)>(fl: Floats<F>, c: Codec<Frame<F>>, frames: seq<Frame<F>>)
    requires RoundTrips(fl) && c == WireCodec(fl) && Consuming(c)
    ensures (forall p: string :: p <= Stream(c, frames) ==> YieldsWhole(c, frames, p)) <==> NoEmptyBody(frames)
  {
    if NoEmptyBody(frames) {
      forall p: string | p <= Stream(c, frames)
        ensures YieldsWhole(c, frames, p)
      {
        CutWireStream(fl, c, frames, p);
      }
    } else {
      var i :| 0 <= i < |frames| && frames[i].body == "";
      WireFrames(fl);
      EmptyBodyReads(fl, c, frames[i]);
      var p := SomeCutYieldsMore(c, frames, i);
    }
  }
}
