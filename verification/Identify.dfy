/** One identify pass: batches of visited frames, boxes to the embedder, the nearest gallery cat
    per crop, a marker row for whatever could not be embedded. Indices pass through two layers of
    skipping, the boxless frames and the crops the embedder drops. */
module Identify {
  import opened Wrappers
  import opened Embedding

  type Box = seq<real>

  datatype Visit = Visit(frame: nat, path: string, box: Option<Box>)

  datatype Crop = Crop(path: string, box: Box)

  /** A match row names the nearest cat and its distance; a marker row names nobody. */
  datatype Row = Match(cat: int, distance: real, cropped: Box) | Marker(box: Option<Box>)

  /** One row of the gallery: a normalised vector and whose it is. */
  datatype Reference = Reference(vector: Vec, cat: int)

  /** What decides a pass besides the store: the gallery, the distance between two normalised
      vectors, what decoding leaves of a crop, and the embedder's model. */
  datatype Model<!Tensor> = Model(gallery: seq<Reference>, distance: (Vec, Vec) -> real,
                                  pixels: Crop -> Option<Tensor>, embed: Tensor -> Vec)

  const BATCH: nat := 64

  // --- Matching ------------------------------------------------------------------------

  /** `argmin` over one row of distances: the first index of the smallest. */
  function Argmin(row: seq<real>): (r: nat)
    requires row != []
    ensures r < |row|
    ensures forall i :: 0 <= i < |row| ==> row[r] <= row[i]
    ensures forall i :: 0 <= i < r ==> row[r] < row[i]
  {
    if |row| == 1 then 0
    else
      var front := Argmin(row[..|row| - 1]);
      if row[|row| - 1] < row[front] then |row| - 1 else front
  }

  function Distances<Tensor>(m: Model<Tensor>, v: Vec): (r: seq<real>)
    ensures |r| == |m.gallery|
  {
    seq(|m.gallery|, i requires 0 <= i < |m.gallery| => m.distance(v, m.gallery[i].vector))
  }

  /** `match`: one `(cat, distance)` per query, and none at all against an empty gallery. */
  function MatchAll<Tensor>(m: Model<Tensor>, vecs: seq<Vec>): (r: seq<(int, real)>)
    ensures |r| == if m.gallery == [] then 0 else |vecs|
  {
    if m.gallery == [] then []
    else
      seq(|vecs|, i requires 0 <= i < |vecs| =>
        var d := Distances(m, vecs[i]);
        (m.gallery[Argmin(d)].cat, d[Argmin(d)]))
  }

  // --- What each visited frame should get ----------------------------------------------

  /** The row a frame gets from its own path and box: the nearest gallery vector to its own crop, a
      marker when there is no crop, and nothing when there is a crop but an empty gallery. */
  function RowFor<Tensor>(m: Model<Tensor>, v: Visit): Option<Row>
  {
    if v.box.None? then Some(Marker(None))
    else
      match m.pixels(Crop(v.path, v.box.value))
      case None => Some(Marker(v.box))
      case Some(t) =>
        if m.gallery == [] then None
        else
          var d := Distances(m, m.embed(t));
          Some(Match(m.gallery[Argmin(d)].cat, d[Argmin(d)], v.box.value))
  }

  function Frames(visits: seq<Visit>): set<nat> {
    set i | 0 <= i < |visits| :: visits[i].frame
  }

  ghost predicate DistinctFrames(visits: seq<Visit>) {
    forall i, j :: 0 <= i < j < |visits| ==> visits[i].frame != visits[j].frame
  }

  ghost predicate Same(a: map<nat, Row>, b: map<nat, Row>, f: nat) {
    (f in a <==> f in b) && (f in a ==> a[f] == b[f])
  }

  /** `rows` is `before` with the right row for every visited frame that is never evicted, and
      nothing written for frames that should get nothing or were not visited. */
  ghost predicate Persisted<Tensor>(m: Model<Tensor>, visits: seq<Visit>, stays: set<nat>,
          before: map<nat, Row>, rows: map<nat, Row>)
  {
    && (forall i :: 0 <= i < |visits| ==>
          match RowFor(m, visits[i])
          case Some(row) => visits[i].frame in stays ==> visits[i].frame in rows && rows[visits[i].frame] == row
          case None => Same(before, rows, visits[i].frame))
    && (forall f: nat :: f !in Frames(visits) ==> Same(before, rows, f))
  }

  type Entry = (nat, Row)

  /** The entries a list of visits should produce, in order: those that match, those that do not. */
  function Expected<Tensor>(m: Model<Tensor>, visits: seq<Visit>, matches: bool): seq<Entry>
  {
    if visits == [] then []
    else
      var v := visits[|visits| - 1];
      Expected(m, visits[..|visits| - 1], matches)
      + match RowFor(m, v)
        case None => []
        case Some(row) => if row.Match? == matches then [(v.frame, row)] else []
  }

  // --- The two layers of skipping ------------------------------------------------------

  /** Frames that go to the embedder. */
  function Boxed(batch: seq<Visit>): (r: seq<Visit>)
    ensures forall i :: 0 <= i < |r| ==> r[i].box.Some?
  {
    if batch == [] then []
    else
      var v := batch[|batch| - 1];
      Boxed(batch[..|batch| - 1]) + if v.box.Some? then [v] else []
  }

  function Crops(embeddable: seq<Visit>): (r: seq<Crop>)
    requires forall i :: 0 <= i < |embeddable| ==> embeddable[i].box.Some?
    ensures |r| == |embeddable|
  {
    seq(|embeddable|, i requires 0 <= i < |embeddable| => Crop(embeddable[i].path, embeddable[i].box.value))
  }

  /** Entry `j` is the row of the boxed frame that kept index `j` points at. */
  ghost predicate Paired<Tensor>(m: Model<Tensor>, e: seq<Visit>, kept: seq<nat>, entries: seq<Entry>)
  {
    && |entries| == |kept|
    && forall j :: 0 <= j < |kept| ==>
         kept[j] < |e| && RowFor(m, e[kept[j]]) == Some(entries[j].1) && entries[j].0 == e[kept[j]].frame
  }

  lemma PairedSnoc<Tensor>(m: Model<Tensor>, e: seq<Visit>, kept: seq<nat>, entries: seq<Entry>, v: Visit)
    requires Paired(m, e, kept, entries)
    ensures Paired(m, e + [v], kept, entries)
    ensures RowFor(m, v).Some? ==> Paired(m, e + [v], kept + [|e|], entries + [(v.frame, RowFor(m, v).value)])
  {
  }

  lemma CropsSnoc<Tensor>(m: Model<Tensor>, e: seq<Visit>, v: Visit)
    requires forall i :: 0 <= i < |e + [v]| ==> (e + [v])[i].box.Some?
    requires forall i :: 0 <= i < |e| ==> e[i].box.Some?
    requires v.box.Some?
    ensures Kept(Crops(e + [v]), m.pixels)
         == Kept(Crops(e), m.pixels) + if m.pixels(Crop(v.path, v.box.value)).Some? then [|e|] else []
  {
    assert Crops(e + [v]) == Crops(e) + [Crop(v.path, v.box.value)];
    KeptSnoc(Crops(e), Crop(v.path, v.box.value), m.pixels);
  }

  /** The j-th vector the embedder returns belongs to the j-th expected match: indexing the boxed
      frames by the kept index finds the frame the crop was cut from. */
  lemma {:induction false} KeptAlignsWithMatches<Tensor>(m: Model<Tensor>, batch: seq<Visit>)
    requires m.gallery != []
    ensures Paired(m, Boxed(batch), Kept(Crops(Boxed(batch)), m.pixels), Expected(m, batch, true))
  {
    if batch != [] {
      var front, v := batch[..|batch| - 1], batch[|batch| - 1];
      KeptAlignsWithMatches(m, front);
      var e, expected := Boxed(front), Expected(m, front, true);
      if v.box.None? {
        assert Boxed(batch) == e;
        assert Expected(m, batch, true) == expected;
      } else {
        assert Boxed(batch) == e + [v];
        CropsSnoc(m, e, v);
        PairedSnoc(m, e, Kept(Crops(e), m.pixels), expected, v);
        if m.pixels(Crop(v.path, v.box.value)).None? {
          assert Expected(m, batch, true) == expected;
          assert Kept(Crops(e + [v]), m.pixels) == Kept(Crops(e), m.pixels);
        }
      }
    }
  }

  // --- The store's writer --------------------------------------------------------------

  /** `write_identifications_batch`: insert or replace per entry, skipping frames that have been
      evicted meanwhile. */
  function Stored(rows: map<nat, Row>, entries: seq<Entry>, alive: set<nat>): map<nat, Row> {
    if entries == [] then rows
    else
      var (frame, row) := entries[|entries| - 1];
      var front := Stored(rows, entries[..|entries| - 1], alive);
      if frame in alive then front[frame := row] else front
  }

  /** How many rows that inserts. */
  function Inserted(entries: seq<Entry>, alive: set<nat>): nat {
    if entries == [] then 0
    else Inserted(entries[..|entries| - 1], alive) + if entries[|entries| - 1].0 in alive then 1 else 0
  }

  function EntryFrames(entries: seq<Entry>): set<nat> {
    set i | 0 <= i < |entries| :: entries[i].0
  }

  lemma {:induction false} StoredAt(rows: map<nat, Row>, entries: seq<Entry>, alive: set<nat>, f: nat)
    ensures f !in EntryFrames(entries) || f !in alive ==> Same(rows, Stored(rows, entries, alive), f)
    ensures f in EntryFrames(entries) && f in alive ==>
              f in Stored(rows, entries, alive) && (f, Stored(rows, entries, alive)[f]) in entries
  {
    if entries != [] {
      var front, last := entries[..|entries| - 1], entries[|entries| - 1];
      StoredAt(rows, front, alive, f);
      assert last.0 in EntryFrames(entries);
      assert EntryFrames(entries) == EntryFrames(front) + {last.0};
    }
  }

  // --- The pass ------------------------------------------------------------------------

  /** `n_identified` for visits flushed in batches: matches whose frame was still stored when its
      batch was written. `alive(2b)` and `alive(2b + 1)` are the frames stored at the two writes of
      batch `b`. */
  function Named(isMatch: Visit -> bool, visits: seq<Visit>, alive: nat -> set<nat>): nat {
    if visits == [] then 0
    else
      var n := |visits| - 1;
      Named(isMatch, visits[..n], alive)
      + if isMatch(visits[n]) && visits[n].frame in alive(2 * (n / BATCH)) then 1 else 0
  }

  /** The frames of one batch that its match write names. */
  function Matched(isMatch: Visit -> bool, batch: seq<Visit>, alive: set<nat>): nat {
    if batch == [] then 0
    else
      var v := batch[|batch| - 1];
      Matched(isMatch, batch[..|batch| - 1], alive) + if isMatch(v) && v.frame in alive then 1 else 0
  }

  lemma {:induction false} NamedBatch(isMatch: Visit -> bool, before: seq<Visit>, batch: seq<Visit>,
          alive: nat -> set<nat>, b: nat)
    requires |before| == BATCH * b && |batch| <= BATCH
    ensures Named(isMatch, before + batch, alive)
            == Named(isMatch, before, alive) + Matched(isMatch, batch, alive(2 * b))
  {
    if batch == [] {
      assert before + batch == before;
    } else {
      var front := batch[..|batch| - 1];
      NamedBatch(isMatch, before, front, alive, b);
      assert (before + batch)[..|before| + |front|] == before + front;
      assert (|before| + |front|) / BATCH == b;
    }
  }

  function Matches<Tensor>(m: Model<Tensor>): Visit -> bool {
    (v: Visit) => IsMatch(m, v)
  }

  predicate IsMatch<Tensor>(m: Model<Tensor>, v: Visit) {
    RowFor(m, v).Some? && RowFor(m, v).value.Match?
  }

  lemma InsertedSnoc(entries: seq<Entry>, e: Entry, alive: set<nat>)
    ensures Inserted(entries + [e], alive) == Inserted(entries, alive) + if e.0 in alive then 1 else 0
  {
    assert (entries + [e])[..|entries|] == entries;
  }

  lemma {:induction false} InsertedIsMatched<Tensor>(m: Model<Tensor>, batch: seq<Visit>, alive: set<nat>)
    ensures Inserted(Expected(m, batch, true), alive) == Matched(Matches(m), batch, alive)
  {
    if batch != [] {
      var front, v := batch[..|batch| - 1], batch[|batch| - 1];
      InsertedIsMatched(m, front, alive);
      if IsMatch(m, v) {
        InsertedSnoc(Expected(m, front, true), (v.frame, RowFor(m, v).value), alive);
      } else {
        assert Expected(m, batch, true) == Expected(m, front, true);
      }
    }
  }

  lemma {:induction false} ExpectedIsFaithful<Tensor>(m: Model<Tensor>, visits: seq<Visit>, matches: bool)
    ensures Faithful(m, visits, Expected(m, visits, matches))
    ensures forall i ::
              0 <= i < |visits| && RowFor(m, visits[i]).Some? && RowFor(m, visits[i]).value.Match? == matches ==>
              (visits[i].frame, RowFor(m, visits[i]).value) in Expected(m, visits, matches)
  {
    if visits != [] {
      var front := visits[..|visits| - 1];
      ExpectedIsFaithful(m, front, matches);
      assert forall i :: 0 <= i < |front| ==> visits[i] == front[i];
    }
  }

  /** Each entry is the right row of one of the visits. */
  ghost predicate Faithful<Tensor>(m: Model<Tensor>, visits: seq<Visit>, entries: seq<Entry>)
  {
    forall e :: e in entries ==>
      exists i :: 0 <= i < |visits| && visits[i].frame == e.0 && RowFor(m, visits[i]) == Some(e.1)
  }

  /** One entry for each visit whose row is a marker, and nothing else. */
  ghost predicate MarkersOf<Tensor>(m: Model<Tensor>, visits: seq<Visit>, markers: seq<Entry>)
  {
    && Faithful(m, visits, markers)
    && forall i :: 0 <= i < |visits| && RowFor(m, visits[i]).Some? && RowFor(m, visits[i]).value.Marker? ==>
         (visits[i].frame, RowFor(m, visits[i]).value) in markers
  }

  /** Writing a batch's match rows and then its marker rows gives each frame its own row. */
  lemma BatchPersists<Tensor>(m: Model<Tensor>, batch: seq<Visit>, markers: seq<Entry>, stays: set<nat>,
          rows: map<nat, Row>, alive0: set<nat>, alive1: set<nat>)
    requires DistinctFrames(batch) && stays <= alive0 && stays <= alive1
    requires MarkersOf(m, batch, markers)
    ensures Persisted(m, batch, stays, rows, Stored(Stored(rows, Expected(m, batch, true), alive0), markers, alive1))
  {
    var matches := Expected(m, batch, true);
    var mid := Stored(rows, matches, alive0);
    var end := Stored(mid, markers, alive1);
    ExpectedIsFaithful(m, batch, true);
    forall i | 0 <= i < |batch|
      ensures match RowFor(m, batch[i])
              case Some(row) => batch[i].frame in stays ==> batch[i].frame in end && end[batch[i].frame] == row
              case None => Same(rows, end, batch[i].frame)
    {
      EntriesOf(m, batch, matches, i);
      EntriesOf(m, batch, markers, i);
      StoredAt(rows, matches, alive0, batch[i].frame);
      StoredAt(mid, markers, alive1, batch[i].frame);
      InEntryFrames(matches, batch[i].frame);
      InEntryFrames(markers, batch[i].frame);
    }
    forall f: nat | f !in Frames(batch)
      ensures Same(rows, end, f)
    {
      InEntryFrames(matches, f);
      InEntryFrames(markers, f);
      StoredAt(rows, matches, alive0, f);
      StoredAt(mid, markers, alive1, f);
    }
  }

  lemma InEntryFrames(entries: seq<Entry>, f: nat)
    ensures f in EntryFrames(entries) <==> exists e :: e in entries && e.0 == f
  {
  }

  /** With distinct frames, an entry for a visit's frame is that visit's row. */
  lemma EntriesOf<Tensor>(m: Model<Tensor>, visits: seq<Visit>, entries: seq<Entry>, i: nat)
    requires DistinctFrames(visits) && Faithful(m, visits, entries) && i < |visits|
    ensures forall e :: e in entries && e.0 == visits[i].frame ==> RowFor(m, visits[i]) == Some(e.1)
  {
  }

  // --- Batches in a row ----------------------------------------------------------------

  lemma PersistedThen<Tensor>(m: Model<Tensor>, first: seq<Visit>, batch: seq<Visit>, stays: set<nat>,
          before: map<nat, Row>, mid: map<nat, Row>, end: map<nat, Row>)
    requires DistinctFrames(first + batch)
    requires Persisted(m, first, stays, before, mid) && Persisted(m, batch, stays, mid, end)
    ensures Persisted(m, first + batch, stays, before, end)
  {
    var all := first + batch;
    forall i | 0 <= i < |all|
      ensures if i < |first| then all[i].frame !in Frames(batch) else all[i].frame !in Frames(first)
    {
      if i < |first| {
        forall j | 0 <= j < |batch| ensures batch[j].frame != all[i].frame {
          assert all[|first| + j] == batch[j];
        }
      } else {
        forall j | 0 <= j < |first| ensures first[j].frame != all[i].frame {
          assert all[j] == first[j];
        }
      }
    }
    forall i | 0 <= i < |all|
      ensures match RowFor(m, all[i])
              case Some(row) => all[i].frame in stays ==> all[i].frame in end && end[all[i].frame] == row
              case None => Same(before, end, all[i].frame)
    {
      if i < |first| {
        assert all[i] == first[i] && Same(mid, end, all[i].frame);
      } else {
        assert all[i] == batch[i - |first|] && Same(before, mid, all[i].frame);
      }
    }
    forall f: nat | f !in Frames(all)
      ensures Same(before, end, f)
    {
      assert f !in Frames(first) by { assert forall i :: 0 <= i < |first| ==> all[i] == first[i]; }
      assert f !in Frames(batch) by { assert forall i :: 0 <= i < |batch| ==> all[|first| + i] == batch[i]; }
    }
  }

  /** Checks made: one before the first batch and one after each batch. */
  function Batches(n: nat): nat {
    (n + BATCH - 1) / BATCH
  }

  datatype Outcome = Completed(named: nat) | Stopped

  /** `run_identify`. The store's frames may be evicted at any time: `alive` gives those left at
      each write. `stays` are frames never evicted. */
  class IdentifyPass<!Tensor> {
    const m: Model<Tensor>
    const alive: nat -> set<nat>
    var rows: map<nat, Row>
    var batch: seq<Visit>
    var written: nat
    var done: nat
    var flushes: nat
    // history: progress reports made
    var reports: nat

    constructor (m: Model<Tensor>, alive: nat -> set<nat>, rows: map<nat, Row>)
      ensures this.m == m && this.alive == alive && this.rows == rows
      ensures batch == [] && written == done == flushes == reports == 0
    {
      this.m, this.alive, this.rows := m, alive, rows;
      batch, written, done, flushes, reports := [], 0, 0, 0, 0;
    }

    /** The frames the store can still write to at both writes of the next batch. */
    ghost predicate Stays(stays: set<nat>)
      reads this`flushes
    {
      forall k :: stays <= alive(k)
    }

    /** `flush`, without its closing progress check. */
    method Flush(ghost stays: set<nat>)
      requires DistinctFrames(batch) && Stays(stays)
      modifies `rows, `batch, `written, `done, `flushes
      ensures old(batch) == [] ==> rows == old(rows) && flushes == old(flushes)
      ensures old(batch) != [] ==> flushes == old(flushes) + 1
      ensures Persisted(m, old(batch), stays, old(rows), rows)
      ensures written == old(written) + Matched(Matches(m), old(batch), alive(2 * old(flushes)))
      ensures done == old(done) + |old(batch)| && batch == []
    {
      if batch != [] {
        var matches, markers := BatchRows();
        var now, later := alive(2 * flushes), alive(2 * flushes + 1);
        BatchPersists(m, batch, markers, stays, rows, now, later);
        InsertedIsMatched(m, batch, now);
        written := written + Inserted(matches, now);
        rows := Stored(rows, matches, now);
        rows := Stored(rows, markers, later);
        done := done + |batch|;
        batch := [];
        flushes := flushes + 1;
      }
    }

    /** The pass after the first `i` frames: all but the waiting batch are flushed and written. */
    ghost predicate Underway(visits: seq<Visit>, i: nat, stays: set<nat>, before: map<nat, Row>)
      reads `rows, `batch, `written, `done, `flushes
    {
      && done <= i <= |visits| && batch == visits[done..i]
      && done == BATCH * flushes
      && Persisted(m, visits[..done], stays, before, rows)
      && written == Named(Matches(m), visits[..done], alive)
    }

    /** The whole pass over the frames the store yields. `proceed(k)` is the answer to the k-th
        progress report: one before the first batch, one after each. */
    method Run(visits: seq<Visit>, proceed: nat -> bool, ghost stays: set<nat>) returns (outcome: Outcome)
      requires DistinctFrames(visits) && Stays(stays)
      requires batch == [] && written == done == flushes == reports == 0
      modifies this
      ensures done <= |visits| && Persisted(m, visits[..done], stays, old(rows), rows)
      ensures done == if BATCH * flushes <= |visits| then BATCH * flushes else |visits|
      ensures outcome.Completed? ==> done == |visits| && outcome.named == Named(Matches(m), visits, alive)
      ensures outcome.Completed? <==> forall k :: 0 <= k <= Batches(|visits|) ==> proceed(k)
      ensures outcome.Stopped? ==>
                !proceed(flushes) && flushes <= Batches(|visits|) && forall k :: 0 <= k < flushes ==> proceed(k)
      ensures reports == flushes + 1
    {
      var go := Walk(visits, proceed, stays);
      if go {
        go := FlushLast(visits, proceed, old(rows), stays);
      }
      outcome := if go then Completed(written) else Stopped;
    }

    /** The flush after the loop, reported if there was anything to flush. */
    method FlushLast(visits: seq<Visit>, proceed: nat -> bool, ghost before: map<nat, Row>, ghost stays: set<nat>)
      returns (go: bool)
      requires DistinctFrames(visits) && Stays(stays)
      requires Underway(visits, |visits|, stays, before) && Reported(proceed, true)
      modifies this
      ensures done == |visits| && Persisted(m, visits, stays, before, rows)
      ensures written == Named(Matches(m), visits, alive) && flushes == Batches(|visits|)
      ensures reports == flushes + 1 && go == proceed(flushes) && forall k :: 0 <= k < flushes ==> proceed(k)
    {
      go := true;
      assert visits[..|visits|] == visits;
      if batch != [] {
        FlushNext(visits, before, |visits|, stays);
        go := Report(proceed);
      }
    }

    /** The progress report after so many flushes. */
    method Report(proceed: nat -> bool) returns (go: bool)
      modifies `reports
      ensures reports == old(reports) + 1 && go == proceed(flushes)
    {
      reports := reports + 1;
      go := proceed(flushes);
    }

    /** The loop over `iter_unidentified`; a flush whose report says stop leaves it. */
    method Walk(visits: seq<Visit>, proceed: nat -> bool, ghost stays: set<nat>) returns (go: bool)
      requires DistinctFrames(visits) && Stays(stays)
      requires batch == [] && written == done == flushes == reports == 0
      modifies this
      ensures Underway(visits, if go then |visits| else done, stays, old(rows)) && Reported(proceed, go)
    {
      go := Report(proceed);
      var i := 0;
      while i < |visits| && go
        invariant Underway(visits, i, stays, old(rows)) && Reported(proceed, go)
        invariant !go ==> i == done
      {
        go := TakeAndReport(visits, i, proceed, old(rows), stays);
        i := i + 1;
      }
    }

    /** A report was made before the first flush and after each; all but the last were answered yes. */
    ghost predicate Reported(proceed: nat -> bool, go: bool)
      reads `batch, `flushes, `reports
    {
      && |batch| < BATCH && reports == flushes + 1
      && go == proceed(flushes) && forall k :: 0 <= k < flushes ==> proceed(k)
    }

    /** The body of the loop. */
    method TakeAndReport(visits: seq<Visit>, i: nat, proceed: nat -> bool, ghost before: map<nat, Row>,
            ghost stays: set<nat>)
      returns (go: bool)
      requires DistinctFrames(visits) && Stays(stays) && i < |visits|
      requires Underway(visits, i, stays, before) && Reported(proceed, true)
      modifies this
      ensures Underway(visits, i + 1, stays, before) && Reported(proceed, go)
      ensures !go ==> done == i + 1
    {
      go := true;
      var flushed := Take(visits, i, before, stays);
      if flushed {
        go := Report(proceed);
      }
    }

    /** One frame joins the batch, and a full batch is flushed. */
    method Take(visits: seq<Visit>, i: nat, ghost before: map<nat, Row>, ghost stays: set<nat>) returns (flushed: bool)
      requires DistinctFrames(visits) && Stays(stays) && i < |visits|
      requires Underway(visits, i, stays, before) && |batch| < BATCH
      modifies `rows, `batch, `written, `done, `flushes
      ensures Underway(visits, i + 1, stays, before) && |batch| < BATCH
      ensures flushes == old(flushes) + if flushed then 1 else 0
      ensures flushed ==> batch == [] && done == i + 1
    {
      batch := batch + [visits[i]];
      flushed := |batch| >= BATCH;
      if flushed {
        FlushNext(visits, before, i + 1, stays);
      }
    }

    /** One flush in its place in the pass. */
    method FlushNext(visits: seq<Visit>, ghost before: map<nat, Row>, ghost i: nat, ghost stays: set<nat>)
      requires DistinctFrames(visits) && Stays(stays)
      requires Underway(visits, i, stays, before) && 0 < |batch| <= BATCH
      modifies `rows, `batch, `written, `done, `flushes
      ensures flushes == old(flushes) + 1 && done == i && batch == []
      ensures Persisted(m, visits[..i], stays, before, rows) && written == Named(Matches(m), visits[..i], alive)
    {
      ghost var mid, first, next := rows, visits[..done], batch;
      assert visits[..i] == first + next;
      PrefixIsDistinct(visits, done, i);
      NamedBatch(Matches(m), first, next, alive, flushes);
      Flush(stays);
      PersistedThen(m, first, next, stays, before, mid, rows);
    }

    method BatchRows() returns (matches: seq<Entry>, markers: seq<Entry>)
      ensures matches == Expected(m, batch, true) && MarkersOf(m, batch, markers)
    {
      var kept: seq<nat>;
      matches, kept := MatchRows();
      var boxless := BoxlessRows();
      var dropped := DroppedRows(Boxed(batch), kept);
      MarkersAreExpected(m, batch, boxless, dropped);
      markers := boxless + dropped;
    }

    /** The loop over `zip(match(gallery, emb), kept)`, and the kept indices. */
    method MatchRows() returns (matches: seq<Entry>, kept: seq<nat>)
      ensures matches == Expected(m, batch, true)
      ensures kept == Kept(Crops(Boxed(batch)), m.pixels)
    {
      var embeddable := Boxed(batch);
      var r := EmbedItems(Crops(embeddable), 32, m.pixels, m.embed, k => true);
      kept := r.kept;
      var named := MatchAll(m, r.vecs);
      matches := [];
      if m.gallery == [] {
        NothingMatches(m, batch);
      } else {
        KeptAlignsWithMatches(m, batch);
      }
      ghost var expected := Expected(m, batch, true);
      var j := 0;
      while j < |named| && j < |kept|
        invariant 0 <= j <= |named|
        invariant matches == expected[..j]
      {
        var v := embeddable[kept[j]];
        matches := matches + [(v.frame, Match(named[j].0, named[j].1, v.box.value))];
        j := j + 1;
      }
    }

    /** The first comprehension: frames with no box. */
    method BoxlessRows() returns (markers: seq<Entry>)
      ensures forall e :: e in markers <==>
              exists k :: 0 <= k < |batch| && batch[k].box.None? && e == (batch[k].frame, Marker(None))
    {
      markers := [];
      var i := 0;
      while i < |batch|
        invariant 0 <= i <= |batch|
        invariant forall e :: e in markers <==>
                  exists k :: 0 <= k < i && batch[k].box.None? && e == (batch[k].frame, Marker(None))
      {
        if batch[i].box.None? {
          markers := markers + [(batch[i].frame, Marker(None))];
        }
        i := i + 1;
      }
    }
  }

  /** The second: frames with a box that the embedder dropped. */
  method DroppedRows(embeddable: seq<Visit>, kept: seq<nat>) returns (markers: seq<Entry>)
    ensures forall e :: e in markers <==>
            exists k :: 0 <= k < |embeddable| && k !in kept && e == (embeddable[k].frame, Marker(embeddable[k].box))
  {
    markers := [];
    var i := 0;
    while i < |embeddable|
      invariant 0 <= i <= |embeddable|
      invariant forall e :: e in markers <==>
                exists k :: 0 <= k < i && k !in kept && e == (embeddable[k].frame, Marker(embeddable[k].box))
    {
      if i !in kept {
        markers := markers + [(embeddable[i].frame, Marker(embeddable[i].box))];
      }
      i := i + 1;
    }
  }

  /** Together they are the marker rows of the batch. */
  lemma MarkersAreExpected<Tensor>(m: Model<Tensor>, batch: seq<Visit>, boxless: seq<Entry>, dropped: seq<Entry>)
    requires forall e :: e in boxless <==>
             exists k :: 0 <= k < |batch| && batch[k].box.None? && e == (batch[k].frame, Marker(None))
    requires forall e :: e in dropped <==>
             exists k ::
               && 0 <= k < |Boxed(batch)| && k !in Kept(Crops(Boxed(batch)), m.pixels)
               && e == (Boxed(batch)[k].frame, Marker(Boxed(batch)[k].box))
    ensures MarkersOf(m, batch, boxless + dropped)
  {
    var embeddable := Boxed(batch);
    BoxedIsTheBoxed(batch);
    forall e | e in boxless + dropped
      ensures exists i :: 0 <= i < |batch| && batch[i].frame == e.0 && RowFor(m, batch[i]) == Some(e.1)
    {
      if e in boxless {
        var k :| 0 <= k < |batch| && batch[k].box.None? && e == (batch[k].frame, Marker(None));
        assert RowFor(m, batch[k]) == Some(e.1);
      } else {
        var k :| 0 <= k < |embeddable| && k !in Kept(Crops(embeddable), m.pixels)
                 && e == (embeddable[k].frame, Marker(embeddable[k].box));
        DroppedGetsAMarker(m, embeddable, k);
        assert embeddable[k] in batch;
      }
    }
    forall i | 0 <= i < |batch| && RowFor(m, batch[i]).Some? && RowFor(m, batch[i]).value.Marker?
      ensures (batch[i].frame, RowFor(m, batch[i]).value) in boxless + dropped
    {
      if batch[i].box.Some? {
        var k :| 0 <= k < |embeddable| && embeddable[k] == batch[i];
        DroppedGetsAMarker(m, embeddable, k);
      }
    }
  }

  lemma {:induction false} BoxedIsTheBoxed(batch: seq<Visit>)
    ensures forall v :: v in Boxed(batch) <==> v in batch && v.box.Some?
  {
    if batch != [] {
      BoxedIsTheBoxed(batch[..|batch| - 1]);
    }
  }

  /** An embeddable frame is absent from the kept indices exactly if its row is a marker. */
  lemma DroppedGetsAMarker<Tensor>(m: Model<Tensor>, embeddable: seq<Visit>, i: nat)
    requires i < |embeddable|
    requires forall k :: 0 <= k < |embeddable| ==> embeddable[k].box.Some?
    ensures i !in Kept(Crops(embeddable), m.pixels) <==> RowFor(m, embeddable[i]) == Some(Marker(embeddable[i].box))
  {
    var crops := Crops(embeddable);
    if m.pixels(crops[i]).Some? {
      var j := ReadableAreKept(crops, m.pixels, i);
    } else {
      KeptAreReadable(crops, m.pixels);
    }
  }

  lemma {:induction false} NothingMatches<Tensor>(m: Model<Tensor>, batch: seq<Visit>)
    requires m.gallery == []
    ensures Expected(m, batch, true) == []
  {
    if batch != [] {
      NothingMatches(m, batch[..|batch| - 1]);
    }
  }

  lemma PrefixIsDistinct(visits: seq<Visit>, d: nat, i: nat)
    requires DistinctFrames(visits) && d <= i <= |visits|
    ensures DistinctFrames(visits[..i]) && DistinctFrames(visits[d..i])
  {
  }

  // --- Convergence ---------------------------------------------------------------------

  /** After a completed pass, no visited frame that is still stored is left without a row, exactly
      if the gallery has vectors or none of those frames yields a crop. Against an empty gallery a
      frame that embeds gets neither a match nor a marker, and every later pass visits it again. */
  lemma ConvergesIff<Tensor>(m: Model<Tensor>, visits: seq<Visit>, stays: set<nat>, before: map<nat, Row>,
          rows: map<nat, Row>)
    requires Persisted(m, visits, stays, before, rows)
    requires forall i :: 0 <= i < |visits| ==> visits[i].frame !in before
    ensures (forall i :: 0 <= i < |visits| && visits[i].frame in stays ==> visits[i].frame in rows)
            <==> m.gallery != [] || forall i :: 0 <= i < |visits| && visits[i].frame in stays ==> !Embeds(m, visits[i])
  {
    forall i | 0 <= i < |visits| && visits[i].frame in stays
      ensures visits[i].frame in rows <==> RowFor(m, visits[i]).Some?
      ensures RowFor(m, visits[i]).None? <==> m.gallery == [] && Embeds(m, visits[i])
    {
    }
  }

  predicate Embeds<Tensor>(m: Model<Tensor>, v: Visit) {
    v.box.Some? && m.pixels(Crop(v.path, v.box.value)).Some?
  }

  /** What a match row says: no gallery vector is nearer to the frame's own crop than that of the
      cat it names, and no earlier one is as near. */
  lemma MatchIsNearest<Tensor>(m: Model<Tensor>, v: Visit) returns (nearest: nat)
    requires IsMatch(m, v)
    ensures Embeds(m, v) && nearest < |m.gallery|
    ensures var query := m.embed(m.pixels(Crop(v.path, v.box.value)).value);
            && RowFor(m, v).value == Match(m.gallery[nearest].cat, m.distance(query, m.gallery[nearest].vector),
                                           v.box.value)
            && (forall i :: 0 <= i < |m.gallery| ==>
                m.distance(query, m.gallery[nearest].vector) <= m.distance(query, m.gallery[i].vector))
            && (forall i :: 0 <= i < nearest ==>
                m.distance(query, m.gallery[nearest].vector) < m.distance(query, m.gallery[i].vector))
  {
    var query := m.embed(m.pixels(Crop(v.path, v.box.value)).value);
    var d := Distances(m, query);
    nearest := Argmin(d);
    forall i | 0 <= i < |m.gallery|
      ensures m.distance(query, m.gallery[nearest].vector) <= m.distance(query, m.gallery[i].vector)
      ensures i < nearest ==> m.distance(query, m.gallery[nearest].vector) < m.distance(query, m.gallery[i].vector)
    {
      assert d[nearest] <= d[i] && (i < nearest ==> d[nearest] < d[i]);
    }
  }
}
