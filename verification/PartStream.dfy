/** A stream of parts, each followed by a line end, and the loop that reads it part by part; for any
    printer and reader of single parts that agree with each other. */
module PartStream {
  import opened WireText

  /** Why the reader stops: the stream closed at a part boundary, ended inside a body, or could not be
      parsed. All three surface as `EdgeUnavailable`. */
  datatype Ending = Closed | Short | Corrupt

  datatype Part<+T> = End(ending: Ending) | Part(frame: T, rest: string)

  /** `full` are the frames whose body is not empty, `clear` what the wire carries of a frame. */
  datatype Codec<!T> = Codec(print_: T -> string, read: string -> Part<T>, clear: T -> T, full: T -> bool)

  ghost predicate ReadsBack<T>(c: Codec<T>, f: T, rest: string) {
    c.read(c.print_(f) + rest) == Part(c.clear(f), rest)
  }

  ghost predicate SkipsLineEnd<T>(c: Codec<T>, s: string) {
    c.read(CRLF + s) == c.read(s)
  }

  ghost predicate CutYieldsNothing<T>(c: Codec<T>, f: T, p: string) {
    c.full(f) && p <= c.print_(f) && |p| < |c.print_(f)| ==> c.read(p).End?
  }

  ghost predicate Consumes<T>(c: Codec<T>, s: string) {
    c.read(s).Part? ==> |c.read(s).rest| < |s|
  }

  ghost predicate Consuming<T>(c: Codec<T>) {
    forall s: string :: Consumes(c, s)
  }

  ghost predicate Framing<T(!new)>(c: Codec<T>) {
    && (forall f: T, rest: string :: ReadsBack(c, f, rest))
    && (forall s: string :: SkipsLineEnd(c, s))
    && (forall f: T, p: string :: CutYieldsNothing(c, f, p))
    && c.read("") == End(Closed) && c.read("\r").End?
  }

  /** The part loop of `iter_stream`. */
  function ReadAll<T>(c: Codec<T>, s: string): (seq<T>, Ending)
    requires Consuming(c)
    decreases |s|
  {
    match c.read(s)
    case End(ending) => ([], ending)
    case Part(frame, rest) =>
      assert Consumes(c, s);
      var (frames, ending) := ReadAll(c, rest);
      ([frame] + frames, ending)
  }

  /** What the edge writes: part, line end, part, line end. */
  function Stream<T>(c: Codec<T>, frames: seq<T>): string {
    if frames == [] then "" else c.print_(frames[0]) + CRLF + Stream(c, frames[1..])
  }

  function Cleared<T>(c: Codec<T>, frames: seq<T>): (r: seq<T>)
    ensures |r| == |frames|
  {
    seq(|frames|, i requires 0 <= i < |frames| => c.clear(frames[i]))
  }

  /** One printed part in front of a stream is one more frame in front. */
  lemma PartInFront<T(!new)>(c: Codec<T>, f: T, s: string)
    requires Consuming(c) && Framing(c)
    ensures ReadAll(c, c.print_(f) + CRLF + s) == ([c.clear(f)] + ReadAll(c, s).0, ReadAll(c, s).1)
  {
    assert c.print_(f) + CRLF + s == c.print_(f) + (CRLF + s);
    assert ReadsBack(c, f, CRLF + s) && SkipsLineEnd(c, s);
  }

  lemma ClearedFront<T>(c: Codec<T>, frames: seq<T>)
    requires frames != []
    ensures Cleared(c, frames) == [c.clear(frames[0])] + Cleared(c, frames[1..])
  {
  }

  /** Reading what was written yields exactly its frames and then a clean end. */
  lemma {:induction false} StreamRoundTrips<T(!new)>(c: Codec<T>, frames: seq<T>)
    requires Consuming(c) && Framing(c)
    ensures ReadAll(c, Stream(c, frames)) == (Cleared(c, frames), Closed)
  {
    if frames != [] {
      PartInFront(c, frames[0], Stream(c, frames[1..]));
      StreamRoundTrips(c, frames[1..]);
      ClearedFront(c, frames);
    }
  }

  // --- A stream cut off anywhere -------------------------------------------------------

  /** Each frame's bytes on the wire, headers and body. */
  function Sizes<T>(c: Codec<T>, frames: seq<T>): (r: seq<nat>)
    ensures |r| == |frames|
  {
    seq(|frames|, i requires 0 <= i < |frames| => |c.print_(frames[i])|)
  }

  /** How many frames at the front have their headers and body within the first `length` bytes, each
      followed by its line end. */
  function Whole(sizes: seq<nat>, length: nat): (k: nat)
    ensures k <= |sizes|
  {
    if sizes == [] || length < sizes[0] then 0
    else if length < sizes[0] + 2 then 1
    else 1 + Whole(sizes[1..], length - sizes[0] - 2)
  }

  /** The frames a cut stream yields are the whole ones at its front. */
  ghost predicate YieldsWhole<T>(c: Codec<T>, frames: seq<T>, p: string)
    requires Consuming(c)
  {
    ReadAll(c, p).0 == Cleared(c, frames[..Whole(Sizes(c, frames), |p|)])
  }

  lemma CutAmong(part: string, rest: string, p: string)
    requires p <= part + CRLF + rest
    ensures |p| < |part| ==> p <= part
    ensures |p| == |part| ==> p == part
    ensures |p| == |part| + 1 ==> p == part + "\r"
    ensures |p| >= |part| + 2 ==> p == part + CRLF + p[|part| + 2..] && p[|part| + 2..] <= rest
  {
    var s := part + CRLF + rest;
    assert p == s[..|p|];
    if |p| <= |part| {
      assert s[..|p|] == part[..|p|];
    } else if |p| == |part| + 1 {
      assert s[..|p|] == part + "\r";
    } else {
      assert s[..|part| + 2] == part + CRLF && s[|part| + 2..] == rest;
      assert p[..|part| + 2] == s[..|part| + 2];
      assert p[|part| + 2..] == rest[..|p| - |part| - 2];
    }
  }

  lemma CutInTheFirst<T(!new)>(c: Codec<T>, frames: seq<T>, p: string)
    requires Consuming(c) && Framing(c) && frames != [] && c.full(frames[0])
    requires p <= Stream(c, frames) && |p| < |c.print_(frames[0])| + 2
    ensures YieldsWhole(c, frames, p)
  {
    var f, part := frames[0], c.print_(frames[0]);
    CutAmong(part, Stream(c, frames[1..]), p);
    if |p| < |part| {
      assert CutYieldsNothing(c, f, p);
      assert frames[..0] == [];
    } else {
      var rest := if |p| == |part| then "" else "\r";
      assert p == part + rest && ReadsBack(c, f, rest);
      assert frames[..1] == [f];
      assert ReadAll(c, rest).0 == [];
    }
  }

  /** A cut past the first part is a cut of the rest. */
  lemma CutInTheRest<T(!new)>(c: Codec<T>, frames: seq<T>, q: string)
    requires Consuming(c) && Framing(c) && frames != []
    ensures YieldsWhole(c, frames, c.print_(frames[0]) + CRLF + q) <==> YieldsWhole(c, frames[1..], q)
  {
    var sizes := Sizes(c, frames);
    var k := Whole(sizes[1..], |q|);
    PartInFront(c, frames[0], q);
    assert sizes[1..] == Sizes(c, frames[1..]);
    ClearedFront(c, frames[..k + 1]);
    assert frames[..k + 1][1..] == frames[1..][..k];
    assert Whole(sizes, sizes[0] + 2 + |q|) == k + 1;
    FrontCancels(c.clear(frames[0]), ReadAll(c, q).0, Cleared(c, frames[1..][..k]));
  }

  lemma FrontCancels<T>(x: T, a: seq<T>, b: seq<T>)
    ensures [x] + a == [x] + b <==> a == b
  {
    assert ([x] + a)[1..] == a && ([x] + b)[1..] == b;
  }

  /** Wherever the stream is cut, the reader has yielded exactly the frames whose headers and body had
      arrived, unaltered and in order, and nothing else. */
  lemma {:induction false} CutStreamYieldsWholeFrames<T(!new)>(c: Codec<T>, frames: seq<T>, p: string)
    requires Consuming(c) && Framing(c) && p <= Stream(c, frames)
    requires forall i :: 0 <= i < |frames| ==> c.full(frames[i])
    ensures YieldsWhole(c, frames, p)
    decreases |frames|
  {
    if frames == [] {
      assert frames[..0] == [];
    } else if |p| < |c.print_(frames[0])| + 2 {
      CutInTheFirst(c, frames, p);
    } else {
      CutAmong(c.print_(frames[0]), Stream(c, frames[1..]), p);
      var q := p[|c.print_(frames[0])| + 2..];
      CutStreamYieldsWholeFrames(c, frames[1..], q);
      CutInTheRest(c, frames, q);
    }
  }

  /** A cut of this part reads as a part. */
  ghost predicate CutReads<T>(c: Codec<T>, f: T) {
    exists p: string :: p <= c.print_(f) && |p| < |c.print_(f)| && c.read(p).Part?
  }

  /** Where some frame is not full, a cut within it yields a frame too many. */
  lemma {:induction false} SomeCutYieldsMore<T(!new)>(c: Codec<T>, frames: seq<T>, i: nat) returns (p: string)
    requires Consuming(c) && Framing(c) && i < |frames| && CutReads(c, frames[i])
    ensures p <= Stream(c, frames) && !YieldsWhole(c, frames, p)
    decreases i
  {
    var part := c.print_(frames[0]);
    if i == 0 {
      p :| p <= part && |p| < |part| && c.read(p).Part?;
      assert |ReadAll(c, p).0| > 0 && Whole(Sizes(c, frames), |p|) == 0;
    } else {
      var q := SomeCutYieldsMore(c, frames[1..], i - 1);
      p := part + CRLF + q;
      CutInTheRest(c, frames, q);
      assert Stream(c, frames) == part + CRLF + Stream(c, frames[1..]);
    }
  }
}
