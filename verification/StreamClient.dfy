/** The client's loops over a buffered reader, and the parser that fills a dictionary line by line:
    each proved to be the function of the same step. */
module StreamClient {
  import opened Wrappers
  import opened WireText
  import opened Wire
  import opened PartStream
  import opened StreamReading

  /** The raising outcomes of the block reader and the body reader. */
  datatype HeaderBlock = AtEnd | Misframed | Headers(text: string)

  /** `io.BufferedReader`: bytes and a position. `supply(pos)` is how much a single `read` at `pos` is
      given at most by the transport. */
  class Reader {
    const bytes: string
    const supply: nat -> nat
    var pos: nat

    constructor (bytes: string, supply: nat -> nat)
      ensures this.bytes == bytes && this.supply == supply && pos == 0
    {
      this.bytes, this.supply, pos := bytes, supply, 0;
    }

    ghost predicate Valid()
      reads this
    {
      pos <= |bytes|
    }

    /** What has not been read yet. */
    ghost function Rest(): string
      requires Valid()
      reads this
    {
      bytes[pos..]
    }

    method ReadLine() returns (line: string)
      requires Valid()
      modifies this`pos
      ensures Valid()
      ensures line == old(Rest())[..LineLength(old(Rest()))] && Rest() == old(Rest())[LineLength(old(Rest()))..]
    {
      ghost var before := Rest();
      var n := LineLength(bytes[pos..]);
      line := bytes[pos..pos + n];
      pos := pos + n;
      assert Rest() == before[n..];
    }

    /** `read(n)`: some bytes, up to `n`, and none only at the end. */
    method Read(n: nat) returns (chunk: string)
      requires Valid() && n > 0
      modifies this`pos
      ensures Valid() && |chunk| <= n
      ensures old(Rest()) == chunk + Rest()
      ensures chunk == "" <==> old(Rest()) == ""
    {
      ghost var before := Rest();
      var given := supply(pos);
      var want := if given == 0 then 1 else if given < n then given else n;
      var m := if want <= |bytes| - pos then want else |bytes| - pos;
      chunk := bytes[pos..pos + m];
      pos := pos + m;
      assert before == chunk + Rest();
    }

    /** `_read_header_block`. */
    method ReadHeaderBlock() returns (b: HeaderBlock)
      requires Valid()
      modifies this`pos
      ensures Valid()
      ensures match ReadBlock(old(Rest()))
              case NoMore => b == AtEnd
              case NotBoundary => b == Misframed
              case Block(text, rest) => b == Headers(text) && Rest() == rest
    {
      ghost var before := Rest();
      ghost var s := Rest();
      var line := ReadLine();
      while IsBlank(line)
        invariant Valid() && JustRead(s, line)
        invariant Separator(before) == Separator(s)
        decreases |s|
      {
        s := Rest();
        line := ReadLine();
      }
      if line == "" {
        b := AtEnd;
      } else if StripEol(line) != BOUNDARY_LINE {
        b := Misframed;
      } else {
        var text := ReadHeaderLines();
        b := Headers(line + text);
      }
    }

    /** `line` is what `readline` took off the front of `s`. */
    ghost predicate JustRead(s: string, line: string)
      requires Valid()
      reads this
    {
      line == s[..LineLength(s)] && Rest() == s[LineLength(s)..]
    }

    /** Its second loop: lines up to and including the blank one, or to the end. */
    method ReadHeaderLines() returns (text: string)
      requires Valid()
      modifies this`pos
      ensures Valid()
      ensures text == old(Rest())[..HeaderLength(old(Rest()))] && Rest() == old(Rest())[HeaderLength(old(Rest()))..]
    {
      ghost var before := Rest();
      ghost var s := Rest();
      text := "";
      var line := ReadLine();
      while line != "" && !IsBlank(line)
        invariant Valid() && JustRead(s, line)
        invariant before == text + s
        invariant HeaderLength(before) == |text| + HeaderLength(s)
        decreases |s|
      {
        OneLine(s, line, Rest());
        Regroup(text, line, Rest());
        text := text + line;
        s := Rest();
        line := ReadLine();
      }
      OneLine(s, line, Rest());
      Regroup(text, line, Rest());
      text := text + line;
      Front(text, Rest());
    }

    /** `_read_exact`: nothing to read for a length of zero or less; nothing returned when the stream
        ends first. */
    method ReadExact(n: int) returns (body: Option<string>)
      requires Valid()
      modifies this`pos
      ensures Valid()
      ensures var m := if n < 0 then 0 else n;
              if m <= |old(Rest())| then body == Some(old(Rest())[..m]) && Rest() == old(Rest())[m..] else body == None
    {
      ghost var before := Rest();
      var remaining, chunks, ended := n, "", false;
      while remaining > 0 && !ended
        invariant Valid() && before == chunks + Rest()
        invariant n <= 0 ==> chunks == "" && remaining == n
        invariant n > 0 ==> 0 <= remaining && |chunks| == n - remaining
        invariant ended ==> Rest() == "" && remaining > 0
        decreases remaining, !ended
      {
        var chunk := Read(remaining);
        ended := chunk == "";
        chunks := chunks + chunk;
        remaining := remaining - |chunk|;
      }
      body := if ended then None else Some(chunks);
    }
  }

  lemma OneLine(s: string, line: string, rest: string)
    requires line == s[..LineLength(s)] && rest == s[LineLength(s)..]
    ensures s == line + rest
    ensures HeaderLength(s) == |line| + if line == "" || IsBlank(line) then 0 else HeaderLength(rest)
  {
  }

  lemma Front(a: string, b: string)
    ensures (a + b)[..|a|] == a && (a + b)[|a|..] == b
  {
  }

  // --- One part and all of them --------------------------------------------------------

  /** A dictionary from lowered names to values, one header line after another. */
  method FillHeaders(lines: seq<string>) returns (headers: map<string, string>)
    ensures forall name :: Value(headers, name) == Get(lines, name)
  {
    headers := map[];
    var i := 0;
    while i < |lines|
      invariant 0 <= i <= |lines|
      invariant forall name :: Value(headers, name) == Get(lines[..i], name)
    {
      var h := Header(lines[i]);
      ghost var was := headers;
      if h.Some? {
        headers := headers[h.value.0 := h.value.1];
      }
      assert lines[..i + 1] == lines[..i] + [lines[i]];
      forall name
        ensures Value(headers, name) == Get(lines[..i + 1], name)
      {
        GetSnoc(lines[..i], lines[i], name);
        assert Value(was, name) == Get(lines[..i], name);
      }
      i := i + 1;
    }
    assert lines[..i] == lines;
  }

  function Value(headers: map<string, string>, name: string): Option<string> {
    if Lower(name) in headers then Some(headers[Lower(name)]) else None
  }

  /** `parse_part_headers`. */
  method ParsePartHeaders<F>(fl: Floats<F>, block: string) returns (r: Result<(Meta<F>, int)>)
    ensures r == Parse(fl, block)
  {
    var headers := FillHeaders(Split(block));
    var frameId := RequireInt(Value(headers, FRAME_ID));
    if frameId.Malformed? { return Malformed(frameId.fault); }
    var ts := RequireInt(Value(headers, TIMESTAMP));
    if ts.Malformed? { return Malformed(ts.fault); }
    var length := RequireInt(Value(headers, CONTENT_LENGTH));
    if length.Malformed? { return Malformed(length.fault); }
    var motion := RequireMotion(Value(headers, MOTION));
    if motion.Malformed? { return Malformed(motion.fault); }
    var bbox: Option<(F, F, F, F)> := None;
    var rawBox := Value(headers, BBOX);
    if rawBox.Some? {
      var box := ParseBox(fl, rawBox.value);
      if box.Malformed? { return Malformed(box.fault); }
      bbox := Some(box.value);
    }
    var area := fl.zero;
    var rawArea := Value(headers, AREA);
    if rawArea.Some? {
      var parsed := fl.parse(rawArea.value);
      if parsed.None? { return Malformed(NotANumber); }
      area := parsed.value;
    }
    return Parsed((Meta(frameId.value, ts.value, motion.value, bbox, area), length.value));
  }

  /** One turn of the loop in `iter_stream`. */
  method NextFrame<F>(reader: Reader, fl: Floats<F>) returns (p: Option<Frame<F>>, ending: Ending)
    requires reader.Valid()
    modifies reader`pos
    ensures reader.Valid()
    ensures match ReadPart(fl, old(reader.Rest()))
            case End(e) => p == None && ending == e
            case Part(frame, rest) => p == Some(frame) && reader.Rest() == rest
  {
    p, ending := None, Corrupt;
    var block := reader.ReadHeaderBlock();
    match block
    case AtEnd => ending := Closed;
    case Misframed =>
    case Headers(text) =>
      var parsed := ParsePartHeaders(fl, text);
      if parsed.Parsed? {
        var (meta, length) := parsed.value;
        var body := reader.ReadExact(length);
        if body.Some? {
          p := Some(Frame(meta, body.value));
        } else {
          ending := Short;
        }
      }
  }

  /** The frames of a stream are those yielded so far and those of what is left. */
  ghost predicate Pending<T>(c: Codec<T>, all: string, frames: seq<T>, s: string)
    requires Consuming(c)
  {
    ReadAll(c, all) == (frames + ReadAll(c, s).0, ReadAll(c, s).1)
  }

  lemma NothingYet<T>(c: Codec<T>, s: string)
    requires Consuming(c)
    ensures Pending(c, s, [], s)
  {
    assert [] + ReadAll(c, s).0 == ReadAll(c, s).0;
  }

  lemma OneYielded<T>(c: Codec<T>, all: string, frames: seq<T>, s: string, p: Part<T>)
    requires Consuming(c) && Pending(c, all, frames, s) && c.read(s) == p
    ensures p.Part? ==> Pending(c, all, frames + [p.frame], p.rest) && |p.rest| < |s|
    ensures p.End? ==> ReadAll(c, all) == (frames, p.ending)
  {
    assert Consumes(c, s);
    if p.Part? {
      assert frames + ([p.frame] + ReadAll(c, p.rest).0) == (frames + [p.frame]) + ReadAll(c, p.rest).0;
    } else {
      assert frames + [] == frames;
    }
  }

  /** `iter_stream`: frames until the reader raises. */
  method IterStream<F(!new)>(reader: Reader, fl: Floats<F>) returns (frames: seq<Frame<F>>, ending: Ending)
    requires reader.Valid()
    modifies reader`pos
    ensures Consuming(WireCodec(fl)) && (frames, ending) == ReadAll(WireCodec(fl), old(reader.Rest()))
  {
    ghost var c := WireCodec(fl);
    ghost var all := reader.Rest();
    WireConsumes(fl);
    NothingYet(c, all);
    frames, ending := [], Corrupt;
    var going := true;
    while going
      invariant reader.Valid() && Consuming(c)
      invariant going ==> Pending(c, all, frames, reader.Rest())
      invariant !going ==> ReadAll(c, all) == (frames, ending)
      decreases going, if going then |reader.Rest()| else 0
    {
      OneYielded(c, all, frames, reader.Rest(), ReadPart(fl, reader.Rest()));
      var p, e := NextFrame(reader, fl);
      if p.Some? {
        frames := frames + [p.value];
      } else {
        going, ending := false, e;
      }
    }
  }
}
