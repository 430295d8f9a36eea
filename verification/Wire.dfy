/** The stream part header block: the printer of the edge and the parser of the compute tier. Part
    syntax follows section 5.1 of RFC 2046, with bodies framed by Content-Length. */
module Wire {
  import opened Wrappers
  import opened WireText

  /** `StreamFrameMeta`. `F` is the type of floats. */
  datatype Meta<F> = Meta(frameId: int, ts: int, motion: bool, bbox: Option<(F, F, F, F)>, area: F)

  /** How floats are printed and parsed: `str` and `float`, with `0.0`. */
  datatype Floats<!F> = Floats(print_: F -> string, parse: string -> Option<F>, zero: F)

  /** The characters `str(float)` uses. No separator is among them. */
  predicate IsFloatChar(c: char) {
    IsDigit(c) || c == '.' || c == '+' || c == '-' || 'a' <= c <= 'z'
  }

  /** `float(str(x)) == x`, and printing makes a non-empty text of those characters. */
  ghost predicate RoundTrips<F(!new)>(fl: Floats<F>) {
    && (forall x: F :: fl.parse(fl.print_(x)) == Some(x))
    && (forall x: F :: fl.print_(x) != "")
    && (forall x: F, i: int :: 0 <= i < |fl.print_(x)| ==> IsFloatChar(fl.print_(x)[i]))
  }

  /** The contract can be met: integers in decimal do. */
  lemma IntegersRoundTrip()
    ensures RoundTrips(Floats(IntText, ParseInt, 0))
  {
    var fl := Floats(IntText, ParseInt, 0);
    forall x: int
      ensures fl.parse(fl.print_(x)) == Some(x) && fl.print_(x) != ""
      ensures forall i :: 0 <= i < |fl.print_(x)| ==> IsFloatChar(fl.print_(x)[i])
    {
      ParseIntText(x);
      IntTextIsTrimmed(x);
    }
  }

  datatype Fault = Missing | NotAnInteger | NotMotion | BadBox | NotANumber

  datatype Result<T> = Parsed(value: T) | Malformed(fault: Fault)

  const BOUNDARY_LINE := "--frame"
  const CONTENT_TYPE := "Content-Type"
  const CONTENT_LENGTH := "Content-Length"
  const FRAME_ID := "X-Frame-Id"
  const TIMESTAMP := "X-Timestamp"
  const MOTION := "X-Motion"
  const BBOX := "X-Bbox"
  const AREA := "X-Area"

  // --- Printing ------------------------------------------------------------------------

  function Field(name: string, value: string): string {
    name + ": " + value
  }

  function BoxText<F>(fl: Floats<F>, b: (F, F, F, F)): string {
    fl.print_(b.0) + "," + (fl.print_(b.1) + "," + (fl.print_(b.2) + "," + fl.print_(b.3)))
  }

  /** One header appended to the block. */
  function Put(block: string, name: string, value: string): string {
    block + name + ": " + value + CRLF
  }

  /** `format_part_headers`, in its own order: the box before the area, and only with motion. */
  function Format<F>(fl: Floats<F>, m: Meta<F>, contentLength: int): string {
    var framed := Put(Put(BOUNDARY_LINE + CRLF, CONTENT_TYPE, "image/jpeg"), CONTENT_LENGTH, IntText(contentLength));
    var identified := Put(Put(framed, FRAME_ID, IntText(m.frameId)), TIMESTAMP, IntText(m.ts));
    var moved := Put(identified, MOTION, if m.motion then "1" else "0");
    var boxed := if m.motion && m.bbox.Some? then Put(moved, BBOX, BoxText(fl, m.bbox.value)) else moved;
    Put(boxed, AREA, fl.print_(m.area)) + CRLF
  }

  /** What the wire carries of a frame: no box without motion. */
  function Cleared<F>(m: Meta<F>): Meta<F> {
    if m.motion then m else m.(bbox := None)
  }

  // --- Parsing -------------------------------------------------------------------------

  /** One line of a header block: its name, lowered and stripped, and its stripped value. Lines
      without a colon are no header. */
  function Header(line: string): Option<(string, string)> {
    var i := Find(line, ':');
    if i == |line| then None else Some((Lower(Strip(line[..i])), Strip(line[i + 1..])))
  }

  /** The value the filled dictionary has for a name: that of the last such header. */
  function Get(lines: seq<string>, name: string): Option<string> {
    if lines == [] then None
    else
      var h := Header(lines[|lines| - 1]);
      if h.Some? && h.value.0 == Lower(name) then Some(h.value.1) else Get(lines[..|lines| - 1], name)
  }

  function RequireInt(raw: Option<string>): Result<int> {
    if raw.None? then Malformed(Missing)
    else
      match ParseInt(raw.value)
      case None => Malformed(NotAnInteger)
      case Some(n) => Parsed(n)
  }

  function RequireMotion(raw: Option<string>): Result<bool> {
    if raw.None? then Malformed(Missing)
    else if raw.value == "1" then Parsed(true)
    else if raw.value == "0" then Parsed(false)
    else Malformed(NotMotion)
  }

  /** `raw.split(",")`. */
  function Commas(raw: string): seq<string>
    decreases |raw|
  {
    var i := Find(raw, ',');
    if i == |raw| then [raw] else [raw[..i]] + Commas(raw[i + 1..])
  }

  function ParseBox<F>(fl: Floats<F>, raw: string): Result<(F, F, F, F)> {
    var parts := Commas(raw);
    if |parts| != 4 then Malformed(BadBox)
    else
      var x, y, w, h := fl.parse(parts[0]), fl.parse(parts[1]), fl.parse(parts[2]), fl.parse(parts[3]);
      if x.None? || y.None? || w.None? || h.None? then Malformed(BadBox)
      else Parsed((x.value, y.value, w.value, h.value))
  }

  function BoxIfAny<T>(box: Result<T>): Result<Option<T>> {
    match box
    case Malformed(fault) => Malformed(fault)
    case Parsed(value) => Parsed(Some(value))
  }

  /** `parse_part_headers` once the dictionary is there. */
  function Interpret<F>(fl: Floats<F>, lines: seq<string>): Result<(Meta<F>, int)> {
    var frameId, ts := RequireInt(Get(lines, FRAME_ID)), RequireInt(Get(lines, TIMESTAMP));
    var length := RequireInt(Get(lines, CONTENT_LENGTH));
    if frameId.Malformed? then Malformed(frameId.fault)
    else if ts.Malformed? then Malformed(ts.fault)
    else if length.Malformed? then Malformed(length.fault)
    else
      var motion := RequireMotion(Get(lines, MOTION));
      if motion.Malformed? then Malformed(motion.fault)
      else
        var rawBox := Get(lines, BBOX);
        var box := if rawBox.None? then Parsed(None) else BoxIfAny(ParseBox(fl, rawBox.value));
        if box.Malformed? then Malformed(box.fault)
        else
          var rawArea := Get(lines, AREA);
          if rawArea.None? then Parsed((Meta(frameId.value, ts.value, motion.value, box.value, fl.zero), length.value))
          else
            match fl.parse(rawArea.value)
            case None => Malformed(NotANumber)
            case Some(area) => Parsed((Meta(frameId.value, ts.value, motion.value, box.value, area), length.value))
  }

  function Parse<F>(fl: Floats<F>, block: string): Result<(Meta<F>, int)> {
    Interpret(fl, Split(block))
  }

  // --- The block as lines of fields ----------------------------------------------------

  /** The headers of a part, in order. */
  function Fields<F>(fl: Floats<F>, m: Meta<F>, contentLength: int): seq<(string, string)> {
    Opening(m, contentLength)
    + (if m.motion && m.bbox.Some? then [(BBOX, BoxText(fl, m.bbox.value))] else [])
    + [(AREA, fl.print_(m.area))]
  }

  function Lines(fields: seq<(string, string)>): (r: seq<string>)
    ensures |r| == |fields|
  {
    seq(|fields|, i requires 0 <= i < |fields| => Field(fields[i].0, fields[i].1))
  }

  function Join(lines: seq<string>): string {
    if lines == [] then "" else lines[0] + CRLF + Join(lines[1..])
  }

  function Head<F>(fl: Floats<F>, m: Meta<F>, contentLength: int): seq<string> {
    [BOUNDARY_LINE] + Lines(Fields(fl, m, contentLength))
  }

  lemma {:induction false} JoinConcat(a: seq<string>, b: seq<string>)
    ensures Join(a + b) == Join(a) + Join(b)
  {
    if a == [] {
      assert a + b == b;
    } else {
      assert (a + b)[1..] == a[1..] + b;
      JoinConcat(a[1..], b);
    }
  }

  lemma PutLine(lines: seq<string>, name: string, value: string)
    ensures Put(Join(lines), name, value) == Join(lines + [Field(name, value)])
  {
    JoinConcat(lines, [Field(name, value)]);
    assert [Field(name, value)][1..] == [];
    assert Join([Field(name, value)]) == Field(name, value) + CRLF;
    assert Join(lines) + name + ": " + value + CRLF == Join(lines) + (name + ": " + value + CRLF);
  }

  lemma FieldSnoc(fields: seq<(string, string)>, name: string, value: string)
    ensures [BOUNDARY_LINE] + Lines(fields + [(name, value)]) == [BOUNDARY_LINE] + Lines(fields) + [Field(name, value)]
  {
  }

  lemma PutField(fields: seq<(string, string)>, name: string, value: string)
    ensures Put(Join([BOUNDARY_LINE] + Lines(fields)), name, value)
            == Join([BOUNDARY_LINE] + Lines(fields + [(name, value)]))
  {
    PutLine([BOUNDARY_LINE] + Lines(fields), name, value);
    FieldSnoc(fields, name, value);
  }

  /** Everything up to the motion header. */
  function Opening<F>(m: Meta<F>, contentLength: int): seq<(string, string)> {
    [(CONTENT_TYPE, "image/jpeg"), (CONTENT_LENGTH, IntText(contentLength)), (FRAME_ID, IntText(m.frameId)),
     (TIMESTAMP, IntText(m.ts)), (MOTION, if m.motion then "1" else "0")]
  }

  lemma OpeningIsLines<F>(m: Meta<F>, contentLength: int)
    ensures var typed := Put(BOUNDARY_LINE + CRLF, CONTENT_TYPE, "image/jpeg");
            var sized := Put(typed, CONTENT_LENGTH, IntText(contentLength));
            var named := Put(Put(sized, FRAME_ID, IntText(m.frameId)), TIMESTAMP, IntText(m.ts));
            Put(named, MOTION, if m.motion then "1" else "0")
            == Join([BOUNDARY_LINE] + Lines(Opening(m, contentLength)))
  {
    var f0: seq<(string, string)> := [];
    var f1 := f0 + [(CONTENT_TYPE, "image/jpeg")];
    var f2 := f1 + [(CONTENT_LENGTH, IntText(contentLength))];
    var f3 := f2 + [(FRAME_ID, IntText(m.frameId))];
    var f4 := f3 + [(TIMESTAMP, IntText(m.ts))];
    assert Join([BOUNDARY_LINE] + Lines(f0)) == BOUNDARY_LINE + CRLF by {
      assert [BOUNDARY_LINE] + Lines(f0) == [BOUNDARY_LINE];
      assert [BOUNDARY_LINE][1..] == [];
    }
    PutField(f0, CONTENT_TYPE, "image/jpeg");
    PutField(f1, CONTENT_LENGTH, IntText(contentLength));
    PutField(f2, FRAME_ID, IntText(m.frameId));
    PutField(f3, TIMESTAMP, IntText(m.ts));
    PutField(f4, MOTION, if m.motion then "1" else "0");
    assert f4 + [(MOTION, if m.motion then "1" else "0")] == Opening(m, contentLength);
  }

  /** The printed block is its boundary line, its fields one a line, and a blank line. */
  lemma FormatIsLines<F>(fl: Floats<F>, m: Meta<F>, contentLength: int)
    ensures Format(fl, m, contentLength) == Join(Head(fl, m, contentLength)) + CRLF
  {
    var f5 := Opening(m, contentLength);
    var f6 := if m.motion && m.bbox.Some? then f5 + [(BBOX, BoxText(fl, m.bbox.value))] else f5;
    OpeningIsLines(m, contentLength);
    if m.motion && m.bbox.Some? {
      PutField(f5, BBOX, BoxText(fl, m.bbox.value));
    }
    PutField(f6, AREA, fl.print_(m.area));
    assert f6 + [(AREA, fl.print_(m.area))] == Fields(fl, m, contentLength);
  }

  // --- Reading the lines back ----------------------------------------------------------

  /** A name or value that survives printing and stripping. */
  predicate Plain(v: string) {
    Trimmed(v) && Clean(v)
  }

  ghost predicate PlainFields(fields: seq<(string, string)>) {
    forall i :: 0 <= i < |fields| ==> Plain(fields[i].0) && ':' !in fields[i].0 && Plain(fields[i].1)
  }

  lemma HeaderOfField(name: string, value: string)
    requires Trimmed(name) && ':' !in name && Trimmed(value)
    ensures Header(Field(name, value)) == Some((Lower(name), value))
  {
    assert Field(name, value) == name + [':'] + (" " + value);
    FindAt(name, ':', " " + value);
    StripTrimmed(name);
    StripTrimmed(value);
    var line := Field(name, value);
    assert line[..|name|] == name && line[|name| + 1..] == " " + value;
  }

  /** The last value given for a name. */
  function Lookup(fields: seq<(string, string)>, name: string): Option<string> {
    if fields == [] then None
    else if Lower(fields[|fields| - 1].0) == Lower(name) then Some(fields[|fields| - 1].1)
    else Lookup(fields[..|fields| - 1], name)
  }

  lemma NoHeader(line: string)
    requires ':' !in line
    ensures Header(line) == None
  {
    FindNone(line, ':');
  }

  lemma GetSnoc(lines: seq<string>, line: string, name: string)
    ensures Get(lines + [line], name)
         == if Header(line).Some? && Header(line).value.0 == Lower(name) then Some(Header(line).value.1)
             else Get(lines, name)
  {
    assert (lines + [line])[..|lines|] == lines;
  }

  /** Reading the printed lines looks the name up among the fields. */
  lemma {:induction false} GetIsLookup(fields: seq<(string, string)>, name: string)
    requires PlainFields(fields)
    ensures Get([BOUNDARY_LINE] + Lines(fields), name) == Lookup(fields, name)
  {
    var none: seq<string> := [];
    if fields == [] {
      NoHeader(BOUNDARY_LINE);
      GetSnoc(none, BOUNDARY_LINE, name);
      assert [BOUNDARY_LINE] + Lines(fields) == none + [BOUNDARY_LINE];
    } else {
      var front, f := fields[..|fields| - 1], fields[|fields| - 1];
      GetIsLookup(front, name);
      HeaderOfField(f.0, f.1);
      FieldSnoc(front, f.0, f.1);
      assert fields == front + [(f.0, f.1)];
      GetSnoc([BOUNDARY_LINE] + Lines(front), Field(f.0, f.1), name);
    }
  }

  lemma GetSkips(lines: seq<string>, line: string, name: string)
    requires ':' !in line
    ensures Get(lines + [line], name) == Get(lines, name)
  {
    NoHeader(line);
    assert (lines + [line])[..|lines|] == lines;
  }

  ghost predicate CleanLines(lines: seq<string>) {
    forall i :: 0 <= i < |lines| ==> Clean(lines[i]) && lines[i] != ""
  }

  lemma {:induction false} SplitLines(lines: seq<string>, rest: string)
    requires CleanLines(lines)
    ensures Split(Join(lines) + rest) == lines + Split(rest)
  {
    if lines == [] {
      assert Join(lines) + rest == rest;
    } else {
      var l, tail := lines[0], lines[1..];
      var s := Join(tail) + rest;
      calc {
        Split(Join(lines) + rest);
        { assert Join(lines) + rest == l + CRLF + s; }
        Split(l + CRLF + s);
        { SplitLine(l, s); }
        [l] + Split(s);
        { SplitLines(tail, rest); }
        [l] + (tail + Split(rest));
        { assert lines == [l] + tail; }
        lines + Split(rest);
      }
    }
  }

  // --- The round trip of one block -----------------------------------------------------

  predicate IsValueChar(c: char) {
    IsFloatChar(c) || c == ','
  }

  lemma ValueCharsArePlain(v: string)
    requires v != "" && forall i :: 0 <= i < |v| ==> IsValueChar(v[i])
    ensures Plain(v)
  {
  }

  lemma FloatTextIsPlain<F(!new)>(fl: Floats<F>, x: F)
    requires RoundTrips(fl)
    ensures Plain(fl.print_(x)) && ',' !in fl.print_(x)
    ensures fl.print_(x) != "" && forall i :: 0 <= i < |fl.print_(x)| ==> IsFloatChar(fl.print_(x)[i])
  {
    ValueCharsArePlain(fl.print_(x));
  }

  lemma IntTextIsPlain(n: int)
    ensures Plain(IntText(n))
  {
    IntTextIsTrimmed(n);
    ValueCharsArePlain(IntText(n));
  }

  lemma CommasAfter(a: string, rest: string)
    requires ',' !in a
    ensures Commas(a + "," + rest) == [a] + Commas(rest)
  {
    assert a + "," + rest == a + [','] + rest;
    FindAt(a, ',', rest);
    var s := a + "," + rest;
    assert s[..|a|] == a && s[|a| + 1..] == rest;
  }

  lemma CommasNone(a: string)
    requires ',' !in a
    ensures Commas(a) == [a]
  {
    FindNone(a, ',');
  }

  lemma CommasOfTwo(a: string, b: string)
    requires ',' !in a && ',' !in b
    ensures Commas(a + "," + b) == [a, b]
  {
    CommasAfter(a, b);
    CommasNone(b);
  }

  lemma CommasOfThree(a: string, b: string, c: string)
    requires ',' !in a && ',' !in b && ',' !in c
    ensures Commas(a + "," + (b + "," + c)) == [a, b, c]
  {
    CommasAfter(a, b + "," + c);
    CommasOfTwo(b, c);
  }

  lemma CommasOfFour(a: string, b: string, c: string, d: string)
    requires ',' !in a && ',' !in b && ',' !in c && ',' !in d
    ensures Commas(a + "," + (b + "," + (c + "," + d))) == [a, b, c, d]
  {
    CommasAfter(a, b + "," + (c + "," + d));
    CommasOfThree(b, c, d);
  }

  lemma ValueConcat(a: string, b: string)
    requires (forall i :: 0 <= i < |a| ==> IsValueChar(a[i])) && (forall i :: 0 <= i < |b| ==> IsValueChar(b[i]))
    ensures forall i :: 0 <= i < |a + "," + b| ==> IsValueChar((a + "," + b)[i])
  {
  }

  lemma BoxRoundTrips<F(!new)>(fl: Floats<F>, b: (F, F, F, F))
    requires RoundTrips(fl)
    ensures ParseBox(fl, BoxText(fl, b)) == Parsed(b)
    ensures Plain(BoxText(fl, b))
  {
    var x, y, w, h := fl.print_(b.0), fl.print_(b.1), fl.print_(b.2), fl.print_(b.3);
    FloatTextIsPlain(fl, b.0);
    FloatTextIsPlain(fl, b.1);
    FloatTextIsPlain(fl, b.2);
    FloatTextIsPlain(fl, b.3);
    CommasOfFour(x, y, w, h);
    ValueConcat(w, h);
    ValueConcat(y, w + "," + h);
    ValueConcat(x, y + "," + (w + "," + h));
    ValueCharsArePlain(BoxText(fl, b));
  }

  /** The seven names stay apart when lowered. */
  lemma NamesDiffer()
    ensures Lower(AREA) != Lower(BBOX)
    ensures |CONTENT_TYPE| == 12 && |CONTENT_LENGTH| == 14 && |FRAME_ID| == 10 && |TIMESTAMP| == 11 && |MOTION| == 8
    ensures |BBOX| == 6 && |AREA| == 6
  {
    assert Lower(AREA)[2] == 'a' && Lower(BBOX)[2] == 'b';
  }

  predicate IsNameChar(c: char) {
    'A' <= c <= 'Z' || 'a' <= c <= 'z' || c == '-'
  }

  lemma NameIsPlain(name: string)
    requires name != "" && forall i :: 0 <= i < |name| ==> IsNameChar(name[i])
    ensures Plain(name) && ':' !in name
  {
  }

  lemma NamesArePlain()
    ensures forall name :: name in [CONTENT_TYPE, CONTENT_LENGTH, FRAME_ID, TIMESTAMP, MOTION, BBOX, AREA] ==>
            Plain(name) && ':' !in name
  {
    NameIsPlain(CONTENT_TYPE);
    NameIsPlain(CONTENT_LENGTH);
    NameIsPlain(FRAME_ID);
    NameIsPlain(TIMESTAMP);
    NameIsPlain(MOTION);
    NameIsPlain(BBOX);
    NameIsPlain(AREA);
  }

  lemma FixedValuesArePlain()
    ensures Plain("image/jpeg") && Plain("0") && Plain("1")
  {
  }

  lemma PlainConcat(a: seq<(string, string)>, b: seq<(string, string)>)
    requires PlainFields(a) && PlainFields(b)
    ensures PlainFields(a + b)
  {
  }

  lemma FieldsArePlain<F(!new)>(fl: Floats<F>, m: Meta<F>, contentLength: int)
    requires RoundTrips(fl)
    ensures PlainFields(Fields(fl, m, contentLength))
  {
    NamesArePlain();
    FixedValuesArePlain();
    var first := Opening(m, contentLength);
    var box := if m.motion && m.bbox.Some? then [(BBOX, BoxText(fl, m.bbox.value))] else [];
    var area := [(AREA, fl.print_(m.area))];
    assert PlainFields(first) by {
      IntTextIsPlain(contentLength);
      IntTextIsPlain(m.frameId);
      IntTextIsPlain(m.ts);
    }
    assert PlainFields(box) by {
      if m.motion && m.bbox.Some? { BoxRoundTrips(fl, m.bbox.value); }
    }
    assert PlainFields(area) by { FloatTextIsPlain(fl, m.area); }
    PlainConcat(first, box);
    PlainConcat(first + box, area);
  }

  lemma LookupSnoc(fields: seq<(string, string)>, f: (string, string), name: string)
    ensures Lookup(fields + [f], name) == if Lower(f.0) == Lower(name) then Some(f.1) else Lookup(fields, name)
  {
    assert (fields + [f])[..|fields|] == fields;
  }

  /** The values of a printed part by name, last field first. */
  lemma LookupFields<F>(fl: Floats<F>, m: Meta<F>, contentLength: int, name: string)
    ensures Lookup(Fields(fl, m, contentLength), name)
         == if Lower(AREA) == Lower(name) then Some(fl.print_(m.area))
            else if m.motion && m.bbox.Some? && Lower(BBOX) == Lower(name) then Some(BoxText(fl, m.bbox.value))
            else if Lower(MOTION) == Lower(name) then Some(if m.motion then "1" else "0")
            else if Lower(TIMESTAMP) == Lower(name) then Some(IntText(m.ts))
            else if Lower(FRAME_ID) == Lower(name) then Some(IntText(m.frameId))
            else if Lower(CONTENT_LENGTH) == Lower(name) then Some(IntText(contentLength))
            else if Lower(CONTENT_TYPE) == Lower(name) then Some("image/jpeg")
            else None
  {
    var f0: seq<(string, string)> := [];
    var f1 := f0 + [(CONTENT_TYPE, "image/jpeg")];
    var f2 := f1 + [(CONTENT_LENGTH, IntText(contentLength))];
    var f3 := f2 + [(FRAME_ID, IntText(m.frameId))];
    var f4 := f3 + [(TIMESTAMP, IntText(m.ts))];
    var f5 := f4 + [(MOTION, if m.motion then "1" else "0")];
    var f6 := if m.motion && m.bbox.Some? then f5 + [(BBOX, BoxText(fl, m.bbox.value))] else f5;
    LookupSnoc(f0, (CONTENT_TYPE, "image/jpeg"), name);
    LookupSnoc(f1, (CONTENT_LENGTH, IntText(contentLength)), name);
    LookupSnoc(f2, (FRAME_ID, IntText(m.frameId)), name);
    LookupSnoc(f3, (TIMESTAMP, IntText(m.ts)), name);
    LookupSnoc(f4, (MOTION, if m.motion then "1" else "0"), name);
    if m.motion && m.bbox.Some? {
      LookupSnoc(f5, (BBOX, BoxText(fl, m.bbox.value)), name);
    }
    LookupSnoc(f6, (AREA, fl.print_(m.area)), name);
    assert f6 + [(AREA, fl.print_(m.area))] == Fields(fl, m, contentLength);
  }

  lemma GetPrinted<F(!new)>(fl: Floats<F>, m: Meta<F>, contentLength: int, name: string)
    requires RoundTrips(fl)
    ensures Get(Head(fl, m, contentLength), name) == Lookup(Fields(fl, m, contentLength), name)
  {
    FieldsArePlain(fl, m, contentLength);
    GetIsLookup(Fields(fl, m, contentLength), name);
  }

  /** Lines that say what a printed part says are interpreted as that part. */
  lemma InterpretPrinted<F(!new)>(fl: Floats<F>, m: Meta<F>, contentLength: int, lines: seq<string>)
    requires RoundTrips(fl)
    requires forall name :: Get(lines, name) == Lookup(Fields(fl, m, contentLength), name)
    ensures Interpret(fl, lines) == Parsed((Cleared(m), contentLength))
  {
    NamesDiffer();
    LookupFields(fl, m, contentLength, FRAME_ID);
    LookupFields(fl, m, contentLength, TIMESTAMP);
    LookupFields(fl, m, contentLength, CONTENT_LENGTH);
    LookupFields(fl, m, contentLength, MOTION);
    LookupFields(fl, m, contentLength, BBOX);
    LookupFields(fl, m, contentLength, AREA);
    ParseIntText(m.frameId);
    ParseIntText(m.ts);
    ParseIntText(contentLength);
    if m.motion && m.bbox.Some? {
      BoxRoundTrips(fl, m.bbox.value);
    }
  }

  lemma FieldIsClean(name: string, value: string)
    requires Clean(name) && Clean(value)
    ensures Clean(Field(name, value))
  {
  }

  lemma HeadIsClean<F(!new)>(fl: Floats<F>, m: Meta<F>, contentLength: int)
    requires RoundTrips(fl)
    ensures CleanLines(Head(fl, m, contentLength))
  {
    FieldsArePlain(fl, m, contentLength);
    var f := Fields(fl, m, contentLength);
    forall i | 0 <= i < |f|
      ensures Clean(Field(f[i].0, f[i].1)) && Field(f[i].0, f[i].1) != ""
    {
      FieldIsClean(f[i].0, f[i].1);
    }
  }

  lemma SplitBlank()
    ensures Split(CRLF) == ["", ""]
  {
    assert CRLF == "" + CRLF + "";
    SplitLine("", "");
    SplitNone("");
  }

  lemma SplitFormat<F(!new)>(fl: Floats<F>, m: Meta<F>, contentLength: int)
    requires RoundTrips(fl)
    ensures Split(Format(fl, m, contentLength)) == Head(fl, m, contentLength) + [""] + [""]
  {
    var head := Head(fl, m, contentLength);
    FormatIsLines(fl, m, contentLength);
    HeadIsClean(fl, m, contentLength);
    SplitLines(head, CRLF);
    SplitBlank();
    assert head + ["", ""] == head + [""] + [""];
  }

  /** Parsing a printed block gives the frame back, without its box if there is no motion, and the
      content length. */
  lemma BlockRoundTrips<F(!new)>(fl: Floats<F>, m: Meta<F>, contentLength: int)
    requires RoundTrips(fl)
    ensures Parse(fl, Format(fl, m, contentLength)) == Parsed((Cleared(m), contentLength))
  {
    var head := Head(fl, m, contentLength);
    SplitFormat(fl, m, contentLength);
    forall name
      ensures Get(head + [""] + [""], name) == Lookup(Fields(fl, m, contentLength), name)
    {
      GetSkips(head + [""], "", name);
      GetSkips(head, "", name);
      GetPrinted(fl, m, contentLength, name);
    }
    InterpretPrinted(fl, m, contentLength, head + [""] + [""]);
  }
}
