/** What one training job does between its promotion and the `finally` that records it: build or
    probe, then insert one durable row; or identify a window. Cancellation reaches it only through
    the stop event, polled at the embedder's reports. */
module TrainingRun {
  import opened Wrappers
  import opened Embedding
  import GalleryCap
  import Identify
  import JobQueue

  /** A labelled crop as the store lists it; `stamp` is its geometry in canonical form, `None` the legacy
      one. */
  datatype Crop = Crop(row: GalleryCap.Row, stamp: Option<string>)

  /** A crop to embed. */
  datatype Label = Label(id: nat, cat: int)

  /** One run's circumstances. `stopped(k)` is whether the stop event is set at the run's k-th poll;
      the errors are I/O faults while writing the artifact, inserting the row, pruning. */
  datatype Work<!Tensor> = Work(
    labels: seq<Label>, pixels: Label -> Option<Tensor>, embed: Tensor -> Vec, stopped: nat -> bool,
    writeError: Option<string>, insertError: Option<string>, pruneError: Option<string>
  )

  datatype Built = NotEnough | Aborted | Faulted(error: string) | Enough

  function Cats(labels: seq<Label>): set<int> {
    set i | 0 <= i < |labels| :: labels[i].cat
  }

  function Pick(labels: seq<Label>, kept: seq<nat>): seq<Label>
    requires forall j :: 0 <= j < |kept| ==> kept[j] < |labels|
  {
    seq(|kept|, j requires 0 <= j < |kept| => labels[kept[j]])
  }

  // --- What a gallery enrols -----------------------------------------------------------

  /** The crops cut at the geometry asked for. */
  function RowsAt(crops: seq<Crop>, geometry: Option<string>): seq<GalleryCap.Row> {
    if crops == [] then []
    else
      var last := crops[|crops| - 1];
      RowsAt(crops[..|crops| - 1], geometry) + if last.stamp == geometry then [last.row] else []
  }

  function LabelsOf(rows: seq<GalleryCap.Row>): (r: seq<Label>)
    ensures |r| == |rows|
  {
    seq(|rows|, i requires 0 <= i < |rows| => Label(rows[i].id, rows[i].cat))
  }

  /** Filtered by geometry, then capped per cat. */
  function Enrolled(crops: seq<Crop>, geometry: Option<string>, cap: Option<int>): seq<Label> {
    LabelsOf(GalleryCap.Cap(RowsAt(crops, geometry), cap))
  }

  /** `rows` are the rows at the positions `at`, which ascend and are exactly those of the crops cut at
      the geometry. */
  ghost predicate PickedAt(crops: seq<Crop>, geometry: Option<string>, rows: seq<GalleryCap.Row>, at: seq<nat>) {
    && |at| == |rows| && (forall i, j :: 0 <= i < j < |at| ==> at[i] < at[j])
    && (forall j :: 0 <= j < |at| ==> at[j] < |crops| && rows[j] == crops[at[j]].row)
    && (forall k :: 0 <= k < |crops| ==> (k in at <==> crops[k].stamp == geometry))
  }

  /** A gallery enrols from exactly the crops cut at the geometry asked for, each as often as it is
      listed and in that order. */
  lemma {:induction false} RowsAtAre(crops: seq<Crop>, geometry: Option<string>) returns (at: seq<nat>)
    ensures PickedAt(crops, geometry, RowsAt(crops, geometry), at)
  {
    at := [];
    if crops != [] {
      var front, last := crops[..|crops| - 1], crops[|crops| - 1];
      at := RowsAtAre(front, geometry);
      assert crops == front + [last];
      if last.stamp == geometry {
        PickedOneMore(front, last, geometry, RowsAt(front, geometry), at);
        at := at + [|front|];
      } else {
        NotPicked(front, last, geometry, RowsAt(front, geometry), at);
      }
    }
  }

  lemma PickedOneMore(crops: seq<Crop>, last: Crop, geometry: Option<string>, rows: seq<GalleryCap.Row>, at: seq<nat>)
    requires PickedAt(crops, geometry, rows, at) && last.stamp == geometry
    ensures PickedAt(crops + [last], geometry, rows + [last.row], at + [|crops|])
  {
    forall k | 0 <= k < |crops| + 1
      ensures k in at + [|crops|] <==> (crops + [last])[k].stamp == geometry
    {
      assert k in at + [|crops|] <==> k in at || k == |crops|;
    }
  }

  lemma NotPicked(crops: seq<Crop>, last: Crop, geometry: Option<string>, rows: seq<GalleryCap.Row>, at: seq<nat>)
    requires PickedAt(crops, geometry, rows, at) && last.stamp != geometry
    ensures PickedAt(crops + [last], geometry, rows + [], at)
  {
    assert rows + [] == rows;
  }

  lemma {:induction false} CatHasRows(rows: seq<GalleryCap.Row>, c: int)
    ensures c in Cats(LabelsOf(rows)) <==> GalleryCap.RowsOf(rows, c) != []
  {
    if rows != [] {
      var front, last := rows[..|rows| - 1], rows[|rows| - 1];
      CatHasRows(front, c);
      assert LabelsOf(rows) == LabelsOf(front) + [Label(last.id, last.cat)];
      CatsSnoc(LabelsOf(front), Label(last.id, last.cat));
    }
  }

  lemma CatsSnoc(labels: seq<Label>, l: Label)
    ensures Cats(labels + [l]) == Cats(labels) + {l.cat}
  {
    forall c | c in Cats(labels)
      ensures c in Cats(labels + [l])
    {
      var i :| 0 <= i < |labels| && labels[i].cat == c;
      assert (labels + [l])[i] == labels[i];
    }
    assert (labels + [l])[|labels|] == l;
  }

  lemma {:induction false} CatsAtMost(labels: seq<Label>)
    ensures |Cats(labels)| <= |labels|
  {
    if labels != [] {
      var front, last := labels[..|labels| - 1], labels[|labels| - 1];
      CatsAtMost(front);
      CatsSnoc(front, last);
      assert labels == front + [last];
    }
  }

  lemma SameCatsCapped(rows: seq<GalleryCap.Row>, cap: Option<int>)
    ensures Cats(LabelsOf(GalleryCap.Cap(rows, cap))) == Cats(LabelsOf(rows))
  {
    if cap.Some? && cap.value >= 1 {
      var any := GalleryCap.Row(0, 0, GalleryCap.Ok, 0);
      forall c: int
        ensures c in Cats(LabelsOf(GalleryCap.Cap(rows, cap))) <==> c in Cats(LabelsOf(rows))
      {
        CatHasRows(rows, c);
        CatHasRows(GalleryCap.Cap(rows, cap), c);
        GalleryCap.CapIsFair(rows, cap.value, c, any, any);
      }
    }
  }

  /** The cap can never turn a buildable set into one with too few labels, nor the other way: only
      the geometry filter (or an exclusion) can. */
  lemma FloorSurvivesTheCap(crops: seq<Crop>, geometry: Option<string>, cap: Option<int>)
    ensures TwoCats(Enrolled(crops, geometry, cap)) <==> TwoCats(LabelsOf(RowsAt(crops, geometry)))
  {
    var rows := RowsAt(crops, geometry);
    SameCatsCapped(rows, cap);
    CatsAtMost(LabelsOf(rows));
    CatsAtMost(Enrolled(crops, geometry, cap));
  }

  method SelectCrops(crops: seq<Crop>, geometry: Option<string>, cap: Option<int>) returns (labels: seq<Label>)
    ensures labels == Enrolled(crops, geometry, cap)
  {
    var rows: seq<GalleryCap.Row> := [];
    var i := 0;
    while i < |crops|
      invariant 0 <= i <= |crops| && rows == RowsAt(crops[..i], geometry)
    {
      assert crops[..i + 1][..i] == crops[..i];
      if crops[i].stamp == geometry {
        rows := rows + [crops[i].row];
      }
      i := i + 1;
    }
    assert crops[..i] == crops;
    var capped := GalleryCap.CapPerCat(rows, cap);
    labels := LabelsOf(capped);
  }

  // --- The run -------------------------------------------------------------------------

  /** The floor both builders apply twice: to the labels, and to those that decoded. */
  predicate TwoCats(labels: seq<Label>) {
    |labels| >= 2 && |Cats(labels)| >= 2
  }

  /** The floor is that some two labels are of different cats. */
  lemma TwoCatsIff(labels: seq<Label>)
    ensures TwoCats(labels) <==> exists i, j :: 0 <= i < j < |labels| && labels[i].cat != labels[j].cat
  {
    if i, j :| 0 <= i < j < |labels| && labels[i].cat != labels[j].cat {
      var a, b := labels[i].cat, labels[j].cat;
      assert a in Cats(labels) && b in Cats(labels) - {a};
      assert |Cats(labels) - {a}| + 1 == |Cats(labels)|;
    }
    if labels != [] && forall i, j :: 0 <= i < j < |labels| ==> labels[i].cat == labels[j].cat {
      assert forall k :: 0 <= k < |labels| ==> labels[k].cat == labels[0].cat;
      assert Cats(labels) == {labels[0].cat};
    }
  }

  /** How often the event is polled, at most: report 0 and one per full batch. */
  function LastPoll<Tensor>(w: Work<Tensor>): nat {
    FullBatches(|Kept(w.labels, w.pixels)|, 32)
  }

  ghost predicate NeverStoppedAtAPoll<Tensor>(w: Work<Tensor>) {
    forall k :: 0 <= k <= LastPoll(w) ==> !w.stopped(k)
  }

  function Readable<Tensor>(w: Work<Tensor>): seq<Label> {
    KeptAreReadable(w.labels, w.pixels);
    Pick(w.labels, Kept(w.labels, w.pixels))
  }

  /** The same circumstances over the crops a gallery enrols. */
  function Enrolling<Tensor>(w: Work<Tensor>, crops: seq<Crop>, geometry: Option<string>,
          cap: Option<int>): Work<Tensor>
  {
    w.(labels := Enrolled(crops, geometry, cap))
  }

  /** Enough labels, no stop at a poll, and enough of them readable: the artifact is to be written. */
  ghost predicate Reaches<Tensor>(w: Work<Tensor>) {
    TwoCats(w.labels) && NeverStoppedAtAPoll(w) && TwoCats(Readable(w))
  }

  /** And it was. */
  ghost predicate Succeeds<Tensor>(w: Work<Tensor>) {
    Reaches(w) && w.writeError.None?
  }

  /** The error of two faults that strike in this order. */
  function First(a: Option<string>, b: Option<string>): Option<string> {
    if a.Some? then a else b
  }

  /** The rows and directories a training job can leave behind. */
  class TrainingStore {
    var feasibilityRuns: seq<string>
    var modelVersions: seq<string>
    var dirs: set<string>

    constructor ()
      ensures feasibilityRuns == [] && modelVersions == [] && dirs == {}
    {
      feasibilityRuns, modelVersions, dirs := [], [], {};
    }

    /** `build_gallery` and the probe, up to the row: floor, embed, floor again, write the artifact. */
    method Build<Tensor>(w: Work<Tensor>, dir: string) returns (built: Built)
      modifies this`dirs
      ensures built.Aborted? <==> TwoCats(w.labels) && !NeverStoppedAtAPoll(w)
      ensures built.Enough? <==> Succeeds(w)
      ensures built.Faulted? <==> Reaches(w) && w.writeError.Some?
      ensures built.Faulted? ==> built.error == w.writeError.value
      ensures dirs == old(dirs) + if Reaches(w) then {dir} else {}
    {
      if !TwoCats(w.labels) {
        return NotEnough;
      }
      var proceed := (k: nat) => !w.stopped(k);
      var r := EmbedItems(w.labels, 32, w.pixels, w.embed, proceed);
      assert forall k: nat {:trigger w.stopped(k)} :: proceed(k) == !w.stopped(k);
      if r.Cancelled? {
        return Aborted;
      }
      KeptAreReadable(w.labels, w.pixels);
      if !TwoCats(Pick(w.labels, r.kept)) {
        return NotEnough;
      }
      dirs := dirs + {dir};
      built := if w.writeError.Some? then Faulted(w.writeError.value) else Enough;
    }

    /** `_run_feasibility`: the row after the report; a failed insert takes its report dir away. */
    method RunFeasibility<Tensor>(w: Work<Tensor>, dir: string) returns (end: JobQueue.RunEnd)
      modifies this
      ensures modelVersions == old(modelVersions)
      ensures Settled(old(feasibilityRuns), feasibilityRuns, dir, end)
      ensures feasibilityRuns != old(feasibilityRuns) <==> Succeeds(w) && w.insertError.None?
      ensures end.EmbedCancelled? <==> TwoCats(w.labels) && !NeverStoppedAtAPoll(w)
      ensures end.Raised? <==> Reaches(w) && First(w.writeError, First(w.insertError, w.pruneError)).Some?
      ensures end.Raised? ==> Some(end.error) == First(w.writeError, First(w.insertError, w.pruneError))
      ensures end != JobQueue.Returned(false)
      ensures dirs == if !Reaches(w) then old(dirs)
                      else if w.writeError.None? && w.insertError.Some? then old(dirs) - {dir} else old(dirs) + {dir}
    {
      var built := Build(w, dir);
      match built
      case NotEnough => end := JobQueue.Returned(true);
      case Aborted => end := JobQueue.EmbedCancelled;
      case Faulted(error) => end := JobQueue.Raised(error);
      case Enough =>
        if w.insertError.Some? {
          dirs := dirs - {dir};
          end := JobQueue.Raised(w.insertError.value);
        } else {
          feasibilityRuns := feasibilityRuns + [dir];
          end := if w.pruneError.Some? then JobQueue.Raised(w.pruneError.value) else JobQueue.Returned(true);
        }
    }

    /** `_run_gallery_build`: likewise, over the crops it enrols; too little data also clears the
        directory. */
    method RunGalleryBuild<Tensor>(crops: seq<Crop>, geometry: Option<string>, cap: Option<int>,
            w: Work<Tensor>, dir: string)
      returns (end: JobQueue.RunEnd)
      modifies this
      ensures feasibilityRuns == old(feasibilityRuns)
      ensures Settled(old(modelVersions), modelVersions, dir, end)
      ensures modelVersions != old(modelVersions) <==>
              Succeeds(Enrolling(w, crops, geometry, cap)) && w.insertError.None?
      ensures end.EmbedCancelled? <==>
                TwoCats(LabelsOf(RowsAt(crops, geometry))) && !NeverStoppedAtAPoll(Enrolling(w, crops, geometry, cap))
      ensures end.Raised? <==>
                Reaches(Enrolling(w, crops, geometry, cap)) && First(w.writeError, w.insertError).Some?
      ensures end.Raised? ==> Some(end.error) == First(w.writeError, w.insertError)
      ensures end != JobQueue.Returned(false)
      ensures dirs == if end.EmbedCancelled? then old(dirs)
                      else if Reaches(Enrolling(w, crops, geometry, cap)) && (w.writeError.Some? || w.insertError.None?)
                      then old(dirs) + {dir} else old(dirs) - {dir}
    {
      var labels := SelectCrops(crops, geometry, cap);
      FloorSurvivesTheCap(crops, geometry, cap);
      var built := Build(w.(labels := labels), dir);
      match built
      case NotEnough =>
        dirs := dirs - {dir};
        end := JobQueue.Returned(true);
      case Aborted => end := JobQueue.EmbedCancelled;
      case Faulted(error) => end := JobQueue.Raised(error);
      case Enough =>
        if w.insertError.Some? {
          dirs := dirs - {dir};
          end := JobQueue.Raised(w.insertError.value);
        } else {
          modelVersions := modelVersions + [dir];
          end := JobQueue.Returned(true);
        }
    }
  }

  /** A run adds one row or none, and only after it can no longer be recorded as canceled: a run
      that gave up on a cancel, or came back without a summary, wrote none. */
  ghost predicate Settled(before: seq<string>, after: seq<string>, dir: string, end: JobQueue.RunEnd) {
    && (after == before || after == before + [dir])
    && (after != before ==> end.Raised? || end == JobQueue.Returned(true))
  }

  /** Whenever the `finally` records "canceled", whatever the event says by then, no row was
      written; and a run that came back with its summary is "done" however late a cancel arrived. */
  lemma CanceledWroteNoRow(before: seq<string>, after: seq<string>, dir: string, end: JobQueue.RunEnd, stop: bool)
    requires Settled(before, after, dir, end)
    ensures JobQueue.Verdict(JobQueue.Trainings, end, stop).Canceled? ==> after == before
    ensures after != before && !end.Raised? ==> JobQueue.Verdict(JobQueue.Trainings, end, stop).Done?
  {
  }

  const NO_ACTIVE_MODEL: string := "no active model"

  /** `_run_identify`: without an active model an error; else the pass's outcome. */
  method RunIdentify<Tensor>(pass: Identify.IdentifyPass<Tensor>, visits: seq<Identify.Visit>,
          modelActive: bool, stopped: nat -> bool, ghost stays: set<nat>)
    returns (end: JobQueue.RunEnd)
    requires Identify.DistinctFrames(visits) && pass.Stays(stays)
    requires pass.batch == [] && pass.written == pass.done == pass.flushes == pass.reports == 0
    modifies pass
    ensures end.Raised? <==> !modelActive
    ensures end.Raised? ==> end == JobQueue.Raised(NO_ACTIVE_MODEL) && pass.rows == old(pass.rows)
    ensures end.EmbedCancelled? <==> modelActive && !(forall k :: 0 <= k <= Identify.Batches(|visits|) ==> !stopped(k))
    ensures end.EmbedCancelled? ==> stopped(pass.flushes) && forall k :: 0 <= k < pass.flushes ==> !stopped(k)
    ensures end.Returned? ==> end == JobQueue.Returned(true) && pass.done == |visits|
    ensures modelActive ==>
              pass.done <= |visits| && Identify.Persisted(pass.m, visits[..pass.done], stays, old(pass.rows), pass.rows)
  {
    if !modelActive {
      end := JobQueue.Raised(NO_ACTIVE_MODEL);
    } else {
      var proceed := (k: nat) => !stopped(k);
      var outcome := pass.Run(visits, proceed, stays);
      assert forall k: nat {:trigger stopped(k)} :: proceed(k) == !stopped(k);
      end := if outcome.Completed? then JobQueue.Returned(true) else JobQueue.EmbedCancelled;
    }
  }

  /** How the detect half comes back: with what the stop flag reads after it, or raising. */
  datatype Detect = Detected(stopSeen: bool) | DetectRaised(error: string)

  /** `_run_visit_identify`: a detect that raises fails the job, one cut short by a stop bails out
      without a summary, and without an active model the job is done after it. */
  method RunVisitIdentify<Tensor>(pass: Identify.IdentifyPass<Tensor>, visits: seq<Identify.Visit>,
          detect: Detect, modelActive: bool, stopped: nat -> bool, ghost stays: set<nat>)
    returns (end: JobQueue.RunEnd)
    requires Identify.DistinctFrames(visits) && pass.Stays(stays)
    requires pass.batch == [] && pass.written == pass.done == pass.flushes == pass.reports == 0
    modifies pass
    ensures detect.DetectRaised? ==> end == JobQueue.Raised(detect.error)
    ensures detect == Detected(true) ==> end == JobQueue.Returned(false)
    ensures detect == Detected(false) && !modelActive ==> end == JobQueue.Returned(true)
    ensures detect != Detected(false) || !modelActive ==> pass.rows == old(pass.rows)
    ensures detect == Detected(false) && modelActive ==>
              && (end.EmbedCancelled? <==> !(forall k :: 0 <= k <= Identify.Batches(|visits|) ==> !stopped(k)))
              && (end.EmbedCancelled? ==> stopped(pass.flushes) && forall k :: 0 <= k < pass.flushes ==> !stopped(k))
              && (end.EmbedCancelled? || (end == JobQueue.Returned(true) && pass.done == |visits|))
              && pass.done <= |visits|
              && Identify.Persisted(pass.m, visits[..pass.done], stays, old(pass.rows), pass.rows)
  {
    match detect
    case DetectRaised(error) => end := JobQueue.Raised(error);
    case Detected(stopSeen) =>
      if stopSeen {
        end := JobQueue.Returned(false);
      } else if !modelActive {
        end := JobQueue.Returned(true);
      } else {
        end := RunIdentify(pass, visits, true, stopped, stays);
      }
  }
}
