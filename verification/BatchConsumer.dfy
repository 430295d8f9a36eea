/** The consumer of the stateless sweep: the loop body between two `q.get()` calls, `_flush`
    included. It touches only the consumer's own locals, so it is stated apart from the threads;
    a class at the end carries it out on mutable lists and counters. */
module BatchConsumer {
  import opened SweepModel

  /** The analyzer as the runner sees it; `hasBatchCall` is whether it offers `analyze_batch`. */
  datatype Backend = Backend(analyze: Oracle, hasBatchCall: bool, batchSize: nat)

  datatype Item = Decoded(id: int, image: Image) | Skipped(id: int) | Sentinel

  function ItemOf(f: Listed): Item {
    if f.image.Some? then Decoded(f.id, f.image.value) else Skipped(f.id)
  }

  datatype After = ThenExit | ThenAppend(id: int, image: Image) | ThenCheck

  datatype Outcome = Finished | Canceled | WriteFailed

  datatype ConsumerAt =
    | Getting
    | Handling(item: Item)
    | Analyzing(after: After)
    | Writing(after: After)
    | Checking
    | Unwinding(outcome: Outcome)
    | Draining(outcome: Outcome)
    | Joining(outcome: Outcome)
    | Ended(outcome: Outcome)

  /** The consumer's locals. `persisted` is what it has written; `taken` (frames taken off the
      queue), `dropped` (a frame in hand when a write raised) and `calls` (batches handed to
      the oracle) are history. */
  datatype Consumer = Consumer(
    at: ConsumerAt,
    batch: seq<Pending>, batchShape: int, rows: seq<Row>,
    persisted: seq<Row>, done: nat, present: nat, errors: nat,
    taken: nat, dropped: nat, calls: seq<seq<Pending>>
  )

  const FRESH := Consumer(Getting, [], 0, [], [], 0, 0, 0, 0, 0, [])

  datatype LocalMove = Handle | BatchSucceeds | BatchRaises | PerImage | WriteSucceeds | WriteRaises

  ghost predicate AllAnswered(batch: seq<Pending>, analyze: Oracle) {
    forall i :: 0 <= i < |batch| ==> analyze(batch[i].image).Some?
  }

  function Zipped(batch: seq<Pending>, results: seq<Verdict>): seq<Row>
    requires |batch| == |results|
  {
    seq(|batch|, i requires 0 <= i < |batch| => Row(batch[i].id, results[i]))
  }

  /** What a batched call returns when it does not raise: element i answers image i. */
  ghost function BatchAnswers(batch: seq<Pending>, analyze: Oracle): (r: seq<Verdict>)
    requires AllAnswered(batch, analyze)
    ensures |r| == |batch|
  {
    seq(|batch|, i requires 0 <= i < |batch| => analyze(batch[i].image).value)
  }

  ghost predicate CanMove(b: Backend, k: Consumer, m: LocalMove) {
    match m
    case Handle => k.at.Handling?
    case BatchSucceeds => k.at.Analyzing? && b.hasBatchCall && AllAnswered(k.batch, b.analyze)
    case BatchRaises => k.at.Analyzing? && b.hasBatchCall
    case PerImage => k.at.Analyzing? && !b.hasBatchCall
    case WriteSucceeds => k.at.Writing?
    case WriteRaises => k.at.Writing?
  }

  ghost function Moved(b: Backend, k: Consumer, m: LocalMove): Consumer
    requires CanMove(b, k, m)
  {
    match m
    case Handle => Handled(b, k)
    case BatchSucceeds => Analyzed(k, Zipped(k.batch, BatchAnswers(k.batch, b.analyze)))
    case BatchRaises => Analyzed(k, BatchRows(k.batch, b.analyze))
    case PerImage => Analyzed(k, BatchRows(k.batch, b.analyze))
    case WriteSucceeds => Resumed(b, Written(k))
    case WriteRaises =>
      k.(at := Unwinding(WriteFailed), dropped := if HoldsFrame(k) then 1 else 0)
  }

  function Took(k: Consumer, item: Item): Consumer {
    k.(at := Handling(item), taken := k.taken + if item.Sentinel? then 0 else 1)
  }

  /** The loop body up to its first flush. An empty batch is never flushed. */
  function Handled(b: Backend, k: Consumer): Consumer
    requires k.at.Handling?
  {
    match k.at.item
    case Sentinel => k.(at := if k.batch == [] then Unwinding(Finished) else Analyzing(ThenExit))
    case Skipped(_) => k.(errors := k.errors + 1, at := Getting)
    case Decoded(id, image) =>
      if k.batch != [] && image.shape != k.batchShape then k.(at := Analyzing(ThenAppend(id, image)))
      else Appended(b, k, id, image)
  }

  function Appended(b: Backend, k: Consumer, id: int, image: Image): Consumer {
    k.(batch := k.batch + [Pending(id, image)],
       batchShape := if k.batch == [] then image.shape else k.batchShape,
       at := if |k.batch| + 1 >= b.batchSize then Analyzing(ThenCheck) else Getting)
  }

  /** `_flush` up to the write: `rows` is ready to persist and every image without a row has
      been counted as an error. */
  function Analyzed(k: Consumer, rows: seq<Row>): Consumer
    requires k.at.Analyzing?
  {
    k.(rows := rows,
       errors := k.errors + if |rows| <= |k.batch| then |k.batch| - |rows| else 0,
       calls := k.calls + [k.batch],
       at := Writing(k.at.after))
  }

  function Written(k: Consumer): Consumer {
    k.(persisted := k.persisted + k.rows,
       done := k.done + |k.rows|,
       present := k.present + CountPresent(k.rows),
       batch := [], rows := [])
  }

  function Resumed(b: Backend, k: Consumer): Consumer
    requires k.at.Writing?
  {
    match k.at.after
    case ThenExit => k.(at := Unwinding(Finished))
    case ThenCheck => k.(at := Checking)
    case ThenAppend(id, image) => Appended(b, k, id, image)
  }

  // --- The invariant -------------------------------------------------------------------

  predicate InFlush(k: Consumer) {
    k.at.Analyzing? || k.at.Writing?
  }

  predicate Outcomed(k: Consumer) {
    k.at.Unwinding? || k.at.Draining? || k.at.Joining? || k.at.Ended?
  }

  predicate SentinelSeen(k: Consumer) {
    || (k.at.Handling? && k.at.item.Sentinel?)
    || (InFlush(k) && k.at.after.ThenExit?)
    || (Outcomed(k) && k.at.outcome == Finished)
  }

  /** The batch has been through the oracle but its rows are not persisted. */
  predicate AwaitsWrite(k: Consumer) {
    k.at.Writing? || (Outcomed(k) && k.at.outcome == WriteFailed)
  }

  /** A decoded frame sits in the consumer's hands, not yet in the batch. */
  predicate HoldsFrame(k: Consumer) {
    || (k.at.Handling? && !k.at.item.Sentinel?)
    || (InFlush(k) && k.at.after.ThenAppend?)
  }

  /** Frames whose outcome the consumer has absorbed. */
  function Resolved(k: Consumer): int {
    k.taken - k.dropped - if HoldsFrame(k) then 1 else 0
  }

  ghost predicate OneShape(batch: seq<Pending>, shape: int) {
    forall i :: 0 <= i < |batch| ==> batch[i].image.shape == shape
  }

  /** What an oracle call may be given: at least one image, at most a batch, one shape. */
  ghost predicate WellBatched(b: Backend, batch: seq<Pending>) {
    1 <= |batch| <= b.batchSize && OneShape(batch, batch[0].image.shape)
  }

  /** A batch is cut off because it is full or because the next image has another shape. */
  ghost predicate Closes(b: Backend, call: seq<Pending>, shape: int) {
    |call| == b.batchSize || (call != [] && call[0].image.shape != shape)
  }

  /** A call is well batched, and the one before it was cut off by its first image. */
  ghost predicate Placed(b: Backend, calls: seq<seq<Pending>>, i: int)
    requires 0 <= i < |calls|
  {
    WellBatched(b, calls[i]) && (i > 0 ==> Closes(b, calls[i - 1], calls[i][0].image.shape))
  }

  /** Every call is well batched and none smaller than it must be. */
  ghost predicate Greedy(b: Backend, calls: seq<seq<Pending>>) {
    forall i :: 0 <= i < |calls| ==> Placed(b, calls, i)
  }

  /** The last call made, if any, is cut off when an image of this shape comes. */
  ghost predicate CutOff(b: Backend, calls: seq<seq<Pending>>, shape: int) {
    calls != [] ==> Closes(b, calls[|calls| - 1], shape)
  }

  /** The batches handed over and the one being filled are `sent`, in order, each well batched and
      none smaller than it must be. */
  ghost predicate Chunks(b: Backend, calls: seq<seq<Pending>>, batch: seq<Pending>, sent: seq<Pending>) {
    Flatten(calls) + batch == sent && Greedy(b, if batch == [] then calls else calls + [batch])
  }

  lemma ChunksGoOut(b: Backend, calls: seq<seq<Pending>>, batch: seq<Pending>, sent: seq<Pending>)
    requires Chunks(b, calls, batch, sent) && batch != []
    ensures Chunks(b, calls + [batch], [], sent)
  {
    FlattenSnoc(calls, batch);
    assert Flatten(calls + [batch]) + [] == Flatten(calls + [batch]);
  }

  lemma ChunksTakeOne(b: Backend, calls: seq<seq<Pending>>, batch: seq<Pending>, sent: seq<Pending>, p: Pending)
    requires Chunks(b, calls, batch, sent) && |batch| < b.batchSize
    requires if batch == [] then CutOff(b, calls, p.image.shape) else batch[0].image.shape == p.image.shape
    ensures Chunks(b, calls, batch + [p], sent + [p])
  {
    Shifted(Flatten(calls), batch, [p], sent);
    var before, after := calls + [batch], calls + [batch + [p]];
    assert batch != [] ==> Placed(b, before, |calls|);
    assert WellBatched(b, batch + [p]);
    forall i | 0 <= i < |after|
      ensures Placed(b, after, i)
    {
      assert i > 0 ==> after[i - 1] == calls[i - 1] == before[i - 1];
      if batch != [] {
        assert Placed(b, before, i);
      } else if i < |calls| {
        assert Placed(b, calls, i);
      }
    }
  }

  /** The calls of a whole batch. */
  ghost function FullCalls(b: Backend, calls: seq<seq<Pending>>): nat {
    if calls == [] then 0
    else FullCalls(b, calls[..|calls| - 1]) + if |calls[|calls| - 1]| == b.batchSize then 1 else 0
  }

  lemma FullCallsSnoc(b: Backend, calls: seq<seq<Pending>>, call: seq<Pending>)
    ensures FullCalls(b, calls + [call]) == FullCalls(b, calls) + if |call| == b.batchSize then 1 else 0
  {
    assert (calls + [call])[..|calls|] == calls;
  }

  ghost function Flatten(calls: seq<seq<Pending>>): seq<Pending> {
    if calls == [] then [] else Flatten(calls[..|calls| - 1]) + calls[|calls| - 1]
  }

  ghost predicate BatchInv(b: Backend, k: Consumer) {
    && OneShape(k.batch, k.batchShape)
    && |k.batch| <= b.batchSize
    && (k.at.Getting? || k.at.Handling? || HoldsFrame(k) ==> |k.batch| < b.batchSize)
    && (InFlush(k) ==> k.batch != [])
    && (k.at.Checking? || (Outcomed(k) && k.at.outcome != WriteFailed) ==> k.batch == [])
    && (AwaitsWrite(k) ==> k.rows == BatchRows(k.batch, b.analyze))
    && (forall i :: 0 <= i < |k.calls| ==> WellBatched(b, k.calls[i]))
    && k.dropped <= (if Outcomed(k) && k.at.outcome == WriteFailed then 1 else 0)
  }

  /** Refinement: what is persisted, plus what the batch will give, is the serial loop's output
      on the frames absorbed so far; and the oracle has been sent exactly those frames. */
  ghost predicate RefinementInv(b: Backend, frames: seq<Listed>, k: Consumer) {
    && 0 <= Resolved(k) <= |frames|
    && k.persisted + BatchRows(k.batch, b.analyze) == SerialRows(frames[..Resolved(k)], b.analyze)
    && Flatten(k.calls) + (if AwaitsWrite(k) then [] else k.batch) == Decodable(frames[..Resolved(k)])
    && (HoldsFrame(k) ==> Resolved(k) < |frames| && Held(k) == ItemOf(frames[Resolved(k)]))
  }

  function Held(k: Consumer): Item
    requires HoldsFrame(k)
  {
    if k.at.Handling? then k.at.item else Decoded(k.at.after.id, k.at.after.image)
  }

  /** Conservation: every absorbed frame is done, an error, or in the batch being written. */
  ghost predicate TallyInv(k: Consumer) {
    && k.done + k.errors + (if AwaitsWrite(k) then |k.rows| else |k.batch|) == Resolved(k)
    && k.done == |k.persisted|
    && k.present == CountPresent(k.persisted)
  }

  ghost predicate ConsumerInv(b: Backend, frames: seq<Listed>, k: Consumer) {
    1 <= b.batchSize && BatchInv(b, k) && RefinementInv(b, frames, k) && TallyInv(k)
  }

  /** A local move never leaves the loop except to unwind, and never invents a sentinel. */
  lemma LocalFrame(b: Backend, k: Consumer, m: LocalMove)
    requires CanMove(b, k, m)
    ensures var k' := Moved(b, k, m);
            && k'.taken == k.taken
            && !k'.at.Handling?
            && !(k'.at.Draining? || k'.at.Joining? || k'.at.Ended?)
            && (SentinelSeen(k') ==> SentinelSeen(k))
            && (SentinelSeen(k) ==> SentinelSeen(k') || (Outcomed(k') && k'.at.outcome == WriteFailed))
            && (Outcomed(k') ==> !Outcomed(k) && k'.at.outcome != Canceled)
            && !Outcomed(k)
  {
  }

  lemma TookKeeps(b: Backend, frames: seq<Listed>, k: Consumer, item: Item)
    requires ConsumerInv(b, frames, k) && k.at.Getting?
    requires !item.Sentinel? ==> k.taken < |frames| && item == ItemOf(frames[k.taken])
    ensures ConsumerInv(b, frames, Took(k, item))
  {
    TookKeepsBatch(b, k, item);
    TookRefines(b, frames, k, item);
    TookTallies(k, item);
  }

  lemma TookKeepsBatch(b: Backend, k: Consumer, item: Item)
    requires BatchInv(b, k) && k.at.Getting?
    ensures BatchInv(b, Took(k, item))
  {
  }

  /** The frame taken is now in hand, so the frames absorbed are those they were. */
  lemma TookRefines(b: Backend, frames: seq<Listed>, k: Consumer, item: Item)
    requires BatchInv(b, k) && RefinementInv(b, frames, k) && k.at.Getting?
    requires !item.Sentinel? ==> k.taken < |frames| && item == ItemOf(frames[k.taken])
    ensures RefinementInv(b, frames, Took(k, item))
  {
    var k' := Took(k, item);
    assert Resolved(k') == Resolved(k) == k.taken && !AwaitsWrite(k') && !AwaitsWrite(k);
    assert HoldsFrame(k') ==> Held(k') == item;
  }

  lemma TookTallies(k: Consumer, item: Item)
    requires TallyInv(k) && k.at.Getting?
    ensures TallyInv(Took(k, item))
  {
    assert Resolved(Took(k, item)) == Resolved(k);
  }

  lemma HandleKeeps(b: Backend, frames: seq<Listed>, k: Consumer)
    requires ConsumerInv(b, frames, k) && k.at.Handling?
    ensures ConsumerInv(b, frames, Handled(b, k))
  {
    match k.at.item
    case Sentinel => FlushDueKeeps(b, frames, k);
    case Skipped(_) => SkipKeeps(b, frames, k);
    case Decoded(id, image) =>
      if k.batch != [] && image.shape != k.batchShape {
        FlushDueKeeps(b, frames, k);
      } else {
        AppendKeeps(b, frames, k, id, image);
      }
  }

  /** The sentinel, or a frame of another shape, only sends the consumer into a flush or out. */
  lemma FlushDueKeeps(b: Backend, frames: seq<Listed>, k: Consumer)
    requires ConsumerInv(b, frames, k) && k.at.Handling?
    requires || k.at.item.Sentinel?
             || (k.at.item.Decoded? && k.batch != [] && k.at.item.image.shape != k.batchShape)
    ensures ConsumerInv(b, frames, Handled(b, k))
  {
    var k' := Handled(b, k);
    assert Resolved(k') == Resolved(k) && HoldsFrame(k') == HoldsFrame(k) && !AwaitsWrite(k') && !AwaitsWrite(k);
    assert HoldsFrame(k) ==> Held(k') == Held(k);
  }

  /** Past the stop check, and from one stage of the teardown to the next, only the place moves. */
  lemma GoesOnKeeps(b: Backend, frames: seq<Listed>, k: Consumer, at: ConsumerAt)
    requires ConsumerInv(b, frames, k)
    requires || (k.at.Checking? && at in {Getting, Unwinding(Canceled)})
             || (Outcomed(k) && Outcomed(k.(at := at)) && at.outcome == k.at.outcome)
    ensures ConsumerInv(b, frames, k.(at := at))
  {
    var k' := k.(at := at);
    assert Resolved(k') == Resolved(k) && AwaitsWrite(k') == AwaitsWrite(k) && !HoldsFrame(k');
  }

  lemma SkipKeeps(b: Backend, frames: seq<Listed>, k: Consumer)
    requires ConsumerInv(b, frames, k) && k.at.Handling? && k.at.item.Skipped?
    ensures ConsumerInv(b, frames, Handled(b, k))
  {
    SkipKeepsBatch(b, k);
    SkipRefines(b, frames, k);
    SkipTallies(b, k);
  }

  lemma SkipKeepsBatch(b: Backend, k: Consumer)
    requires BatchInv(b, k) && k.at.Handling? && k.at.item.Skipped?
    ensures BatchInv(b, Handled(b, k))
  {
  }

  lemma SkipRefines(b: Backend, frames: seq<Listed>, k: Consumer)
    requires RefinementInv(b, frames, k) && k.at.Handling? && k.at.item.Skipped?
    ensures RefinementInv(b, frames, Handled(b, k))
  {
    var r, k' := Resolved(k), Handled(b, k);
    assert Resolved(k') == r + 1 && !HoldsFrame(k') && !AwaitsWrite(k') && !AwaitsWrite(k);
    SkippedAddsNothing(b, frames, r);
  }

  lemma SkipTallies(b: Backend, k: Consumer)
    requires TallyInv(k) && k.at.Handling? && k.at.item.Skipped?
    ensures TallyInv(Handled(b, k))
  {
    assert Resolved(Handled(b, k)) == Resolved(k) + 1;
  }

  lemma SkippedAddsNothing(b: Backend, frames: seq<Listed>, r: nat)
    requires r < |frames| && ItemOf(frames[r]).Skipped?
    ensures SerialRows(frames[..r + 1], b.analyze) == SerialRows(frames[..r], b.analyze)
    ensures Decodable(frames[..r + 1]) == Decodable(frames[..r])
  {
    SerialRowsSnoc(frames, r, b.analyze);
    DecodableSnoc(frames, r);
  }

  lemma Shifted<T>(a: seq<T>, b: seq<T>, x: seq<T>, whole: seq<T>)
    requires a + b == whole
    ensures a + (b + x) == whole + x
  {
    assert a + (b + x) == (a + b) + x;
  }

  /** Moving the held frame into a batch extends both sides of the refinement by its row. */
  lemma AppendRefines(b: Backend, frames: seq<Listed>, k: Consumer, p: Pending)
    requires RefinementInv(b, frames, k) && HoldsFrame(k) && Held(k) == Decoded(p.id, p.image)
    requires !AwaitsWrite(k)
    ensures RefinementInv(b, frames, Appended(b, k, p.id, p.image))
  {
    var r := Resolved(k);
    var k' := Appended(b, k, p.id, p.image);
    assert Resolved(k') == r + 1 && !HoldsFrame(k') && !AwaitsWrite(k');
    assert k'.persisted + BatchRows(k'.batch, b.analyze) == SerialRows(frames[..r + 1], b.analyze) by {
      SerialRowsSnoc(frames, r, b.analyze);
      BatchRowsSnoc(k.batch, p, b.analyze);
      Shifted(k.persisted, BatchRows(k.batch, b.analyze), PendingRow(p, b.analyze), SerialRows(frames[..r], b.analyze));
    }
    assert Flatten(k'.calls) + k'.batch == Decodable(frames[..r + 1]) by {
      DecodableSnoc(frames, r);
      Shifted(Flatten(k.calls), k.batch, [p], Decodable(frames[..r]));
    }
  }

  lemma AppendKeeps(b: Backend, frames: seq<Listed>, k: Consumer, id: int, image: Image)
    requires ConsumerInv(b, frames, k)
    requires HoldsFrame(k) && Held(k) == Decoded(id, image) && !AwaitsWrite(k)
    requires k.batch != [] ==> image.shape == k.batchShape
    ensures ConsumerInv(b, frames, Appended(b, k, id, image))
  {
    AppendRefines(b, frames, k, Pending(id, image));
    AppendTallies(b, k, id, image);
  }

  lemma AppendTallies(b: Backend, k: Consumer, id: int, image: Image)
    requires 1 <= b.batchSize && BatchInv(b, k) && TallyInv(k) && HoldsFrame(k) && !AwaitsWrite(k)
    requires k.batch != [] ==> image.shape == k.batchShape
    ensures BatchInv(b, Appended(b, k, id, image)) && TallyInv(Appended(b, k, id, image))
  {
    var k' := Appended(b, k, id, image);
    assert Resolved(k') == Resolved(k) + 1 && !AwaitsWrite(k');
  }

  /** A successful batch call and the per-image loop give the same rows. */
  lemma {:induction false} BatchCallMatchesPerImage(batch: seq<Pending>, analyze: Oracle)
    requires AllAnswered(batch, analyze)
    ensures Zipped(batch, BatchAnswers(batch, analyze)) == BatchRows(batch, analyze)
  {
    if batch != [] {
      var front := batch[..|batch| - 1];
      BatchCallMatchesPerImage(front, analyze);
      assert Zipped(batch, BatchAnswers(batch, analyze)) ==
             Zipped(front, BatchAnswers(front, analyze)) + PendingRow(batch[|batch| - 1], analyze);
    }
  }

  lemma AnalyzeKeeps(b: Backend, frames: seq<Listed>, k: Consumer)
    requires ConsumerInv(b, frames, k) && k.at.Analyzing?
    ensures ConsumerInv(b, frames, Analyzed(k, BatchRows(k.batch, b.analyze)))
  {
    BatchRowsBound(k.batch, b.analyze);
    AnalyzeKeepsBatch(b, k);
    AnalyzeRefines(b, frames, k);
    AnalyzeTallies(b, k);
  }

  lemma AnalyzeKeepsBatch(b: Backend, k: Consumer)
    requires 1 <= b.batchSize && BatchInv(b, k) && k.at.Analyzing?
    ensures BatchInv(b, Analyzed(k, BatchRows(k.batch, b.analyze)))
  {
    var k' := Analyzed(k, BatchRows(k.batch, b.analyze));
    assert WellBatched(b, k.batch);
    forall i | 0 <= i < |k'.calls| ensures WellBatched(b, k'.calls[i]) {
      assert i < |k.calls| ==> k'.calls[i] == k.calls[i];
    }
    assert HoldsFrame(k') == HoldsFrame(k);
  }

  /** The batch passes into the call history, and its rows await the write. */
  lemma AnalyzeRefines(b: Backend, frames: seq<Listed>, k: Consumer)
    requires RefinementInv(b, frames, k) && k.at.Analyzing?
    ensures RefinementInv(b, frames, Analyzed(k, BatchRows(k.batch, b.analyze)))
  {
    var k' := Analyzed(k, BatchRows(k.batch, b.analyze));
    assert Resolved(k') == Resolved(k) && HoldsFrame(k') == HoldsFrame(k) && AwaitsWrite(k') && !AwaitsWrite(k);
    assert HoldsFrame(k) ==> Held(k') == Held(k);
    FlattenSnoc(k.calls, k.batch);
    assert Flatten(k'.calls) + [] == Flatten(k'.calls);
  }

  lemma AnalyzeTallies(b: Backend, k: Consumer)
    requires TallyInv(k) && k.at.Analyzing? && |BatchRows(k.batch, b.analyze)| <= |k.batch|
    ensures TallyInv(Analyzed(k, BatchRows(k.batch, b.analyze)))
  {
    var k' := Analyzed(k, BatchRows(k.batch, b.analyze));
    assert Resolved(k') == Resolved(k) && AwaitsWrite(k') && !AwaitsWrite(k);
  }

  lemma FlattenSnoc(calls: seq<seq<Pending>>, batch: seq<Pending>)
    ensures Flatten(calls + [batch]) == Flatten(calls) + batch
  {
    assert (calls + [batch])[..|calls|] == calls;
  }

  /** Where the consumer stands once the write is through, before it resumes. */
  ghost function Back(k: Consumer): ConsumerAt
    requires k.at.Writing?
  {
    match k.at.after
    case ThenExit => Unwinding(Finished)
    case ThenCheck => Checking
    case ThenAppend(id, image) => Handling(Decoded(id, image))
  }

  lemma WrittenRefines(b: Backend, frames: seq<Listed>, k: Consumer)
    requires BatchInv(b, k) && RefinementInv(b, frames, k) && k.at.Writing?
    ensures RefinementInv(b, frames, Written(k).(at := Back(k)))
  {
    var w := Written(k).(at := Back(k));
    assert w.persisted + [] == w.persisted;
    assert Flatten(w.calls) + [] == Flatten(w.calls);
    assert Resolved(w) == Resolved(k);
  }

  lemma WrittenKeeps(b: Backend, frames: seq<Listed>, k: Consumer)
    requires ConsumerInv(b, frames, k) && k.at.Writing?
    ensures ConsumerInv(b, frames, Written(k).(at := Back(k)))
  {
    WrittenRefines(b, frames, k);
    CountPresentConcat(k.persisted, k.rows);
    assert Resolved(Written(k).(at := Back(k))) == Resolved(k);
  }

  lemma WriteKeeps(b: Backend, frames: seq<Listed>, k: Consumer)
    requires ConsumerInv(b, frames, k) && k.at.Writing?
    ensures ConsumerInv(b, frames, Resumed(b, Written(k)))
  {
    match k.at.after
    case ThenExit => WrittenKeeps(b, frames, k);
    case ThenCheck => WrittenKeeps(b, frames, k);
    case ThenAppend(id, image) => WriteThenAppendKeeps(b, frames, k, id, image);
  }

  lemma WriteThenAppendKeeps(b: Backend, frames: seq<Listed>, k: Consumer, id: int, image: Image)
    requires ConsumerInv(b, frames, k) && k.at == Writing(ThenAppend(id, image))
    ensures ConsumerInv(b, frames, Appended(b, Written(k), id, image))
  {
    WrittenKeeps(b, frames, k);
    var held := Written(k).(at := Handling(Decoded(id, image)));
    AppendKeeps(b, frames, held, id, image);
    assert Appended(b, held, id, image) == Appended(b, Written(k), id, image);
  }

  /** A write that raises leaves its rows unwritten and drops the frame in hand. */
  lemma WriteFaultKeeps(b: Backend, frames: seq<Listed>, k: Consumer)
    requires ConsumerInv(b, frames, k) && k.at.Writing?
    ensures ConsumerInv(b, frames, Moved(b, k, WriteRaises))
  {
    var k' := Moved(b, k, WriteRaises);
    assert Resolved(k') == Resolved(k) && !HoldsFrame(k') && AwaitsWrite(k') && AwaitsWrite(k);
  }

  lemma MoveKeeps(b: Backend, frames: seq<Listed>, k: Consumer, m: LocalMove)
    requires ConsumerInv(b, frames, k) && CanMove(b, k, m)
    ensures ConsumerInv(b, frames, Moved(b, k, m))
  {
    match m
    case Handle => HandleKeeps(b, frames, k);
    case BatchSucceeds =>
      BatchCallMatchesPerImage(k.batch, b.analyze);
      AnalyzeKeeps(b, frames, k);
    case BatchRaises => AnalyzeKeeps(b, frames, k);
    case PerImage => AnalyzeKeeps(b, frames, k);
    case WriteSucceeds => WriteKeeps(b, frames, k);
    case WriteRaises => WriteFaultKeeps(b, frames, k);
  }
}
