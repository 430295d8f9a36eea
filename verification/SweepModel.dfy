/** The sweep's vocabulary, shared by its stateless and its windowed form: what the store
    iterator lists, what an oracle answers, and the rows a plain serial loop would write. */
module SweepModel {
  import opened Wrappers

  /** A decoded frame. `shape` is the array shape a batch may not mix; the rest is opaque. */
  datatype Image = Image(shape: int, pixels: int)

  datatype Verdict = Verdict(present: bool, score: int, detail: int)

  /** One frame the store iterator yields, with what reading and decoding its file gives:
      `None` when either raises. Each file is read once per sweep, so one value is enough. */
  datatype Listed = Listed(id: int, image: Option<Image>)

  datatype Row = Row(frameId: int, verdict: Verdict)

  /** A decoded frame waiting in a batch. */
  datatype Pending = Pending(id: int, image: Image)

  /** An oracle call on one image; `None` is an exception. */
  type Oracle = Image -> Option<Verdict>

  /** What the serial loop contributes for one listed frame: at most one row. */
  function RowOf(f: Listed, analyze: Oracle): seq<Row> {
    match f.image
    case None => []
    case Some(image) => PendingRow(Pending(f.id, image), analyze)
  }

  function PendingRow(p: Pending, analyze: Oracle): seq<Row> {
    match analyze(p.image)
    case None => []
    case Some(v) => [Row(p.id, v)]
  }

  /** The rows of the reference loop: decode, analyze, write, one frame after the other. */
  function SerialRows(frames: seq<Listed>, analyze: Oracle): seq<Row> {
    if frames == [] then []
    else SerialRows(frames[..|frames| - 1], analyze) + RowOf(frames[|frames| - 1], analyze)
  }

  /** The decodable frames in iterator order: what the oracle is owed. */
  function Decodable(frames: seq<Listed>): seq<Pending> {
    if frames == [] then []
    else
      var last := frames[|frames| - 1];
      Decodable(frames[..|frames| - 1]) +
      (if last.image.Some? then [Pending(last.id, last.image.value)] else [])
  }

  /** The rows one batch yields when every image is analyzed alone. */
  function BatchRows(batch: seq<Pending>, analyze: Oracle): seq<Row> {
    if batch == [] then []
    else BatchRows(batch[..|batch| - 1], analyze) + PendingRow(batch[|batch| - 1], analyze)
  }

  function CountPresent(rows: seq<Row>): nat {
    if rows == [] then 0
    else CountPresent(rows[..|rows| - 1]) + (if rows[|rows| - 1].verdict.present then 1 else 0)
  }

  lemma SerialRowsSnoc(frames: seq<Listed>, k: nat, analyze: Oracle)
    requires k < |frames|
    ensures SerialRows(frames[..k + 1], analyze) ==
            SerialRows(frames[..k], analyze) + RowOf(frames[k], analyze)
  {
    assert frames[..k + 1][..k] == frames[..k];
  }

  lemma DecodableSnoc(frames: seq<Listed>, k: nat)
    requires k < |frames|
    ensures Decodable(frames[..k + 1]) ==
            Decodable(frames[..k]) +
            (if frames[k].image.Some? then [Pending(frames[k].id, frames[k].image.value)] else [])
  {
    assert frames[..k + 1][..k] == frames[..k];
  }

  lemma BatchRowsSnoc(batch: seq<Pending>, p: Pending, analyze: Oracle)
    ensures BatchRows(batch + [p], analyze) == BatchRows(batch, analyze) + PendingRow(p, analyze)
  {
    assert (batch + [p])[..|batch|] == batch;
  }

  lemma {:induction false} BatchRowsBound(batch: seq<Pending>, analyze: Oracle)
    ensures |BatchRows(batch, analyze)| <= |batch|
  {
    if batch != [] {
      BatchRowsBound(batch[..|batch| - 1], analyze);
    }
  }

  /** Rows written for a prefix of the frames are a prefix of the rows for all of them. */
  lemma {:induction false} SerialRowsPrefix(frames: seq<Listed>, k: nat, analyze: Oracle)
    requires k <= |frames|
    ensures SerialRows(frames[..k], analyze) <= SerialRows(frames, analyze)
    decreases |frames| - k
  {
    if k == |frames| {
      assert frames[..k] == frames;
    } else {
      SerialRowsSnoc(frames, k, analyze);
      SerialRowsPrefix(frames, k + 1, analyze);
    }
  }

  lemma {:induction false} CountPresentConcat(a: seq<Row>, b: seq<Row>)
    ensures CountPresent(a + b) == CountPresent(a) + CountPresent(b)
  {
    if b == [] {
      assert a + b == a;
    } else {
      var front := b[..|b| - 1];
      assert (a + b)[..|a + b| - 1] == a + front;
      CountPresentConcat(a, front);
    }
  }
}
