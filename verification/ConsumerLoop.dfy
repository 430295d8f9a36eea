/** The consumer's code as it runs: lists and counters changed in place by the loop and by
    `_flush`, with the queue's items given in the order `get` returns them. */
module ConsumerLoop {
  import opened Wrappers
  import opened SweepModel
  import opened BatchConsumer

  /** What an analyzer promises of its own batched call: when it comes back, element i is what it
      says of image i alone. `None` is a raise. */
  ghost predicate AnswersAlike(b: Backend, batch: seq<Pending>, answer: Option<seq<Verdict>>) {
    answer.Some? ==> AllAnswered(batch, b.analyze) && answer.value == BatchAnswers(batch, b.analyze)
  }

  /** `_flush` up to the write, given what the batched call comes back with if it is made: its
      answers are zipped with the batch; without a call, or when it raised, each image goes alone.
      Either way the same rows come out, and every image that gave none is counted. `alone` is how
      many images were analyzed alone: none that the batched call has answered. */
  method AnalyzeBatch(b: Backend, batch: seq<Pending>, answer: Option<seq<Verdict>>)
    returns (rows: seq<Row>, failed: nat, alone: nat)
    requires AnswersAlike(b, batch, answer)
    ensures rows == BatchRows(batch, b.analyze)
    ensures failed == |batch| - |rows|
    ensures alone == if b.hasBatchCall && answer.Some? then 0 else |batch|
  {
    if b.hasBatchCall && answer.Some? {
      rows := Zip(batch, answer.value);
      failed, alone := 0, 0;
      BatchCallMatchesPerImage(batch, b.analyze);
    } else {
      rows, failed, alone := OneByOne(b, batch);
    }
  }

  method Zip(batch: seq<Pending>, results: seq<Verdict>) returns (rows: seq<Row>)
    requires |results| == |batch|
    ensures rows == Zipped(batch, results)
  {
    rows := [];
    var i := 0;
    while i < |batch|
      invariant 0 <= i <= |batch| && |rows| == i
      invariant forall j :: 0 <= j < i ==> rows[j] == Row(batch[j].id, results[j])
    {
      rows := rows + [Row(batch[i].id, results[i])];
      i := i + 1;
    }
  }

  method OneByOne(b: Backend, batch: seq<Pending>) returns (rows: seq<Row>, failed: nat, alone: nat)
    ensures rows == BatchRows(batch, b.analyze) && failed == |batch| - |rows| && alone == |batch|
  {
    rows, failed, alone := [], 0, 0;
    var i := 0;
    while i < |batch|
      invariant 0 <= i <= |batch| && alone == i
      invariant rows == BatchRows(batch[..i], b.analyze) && failed == i - |rows|
    {
      assert batch[..i + 1] == batch[..i] + [batch[i]];
      BatchRowsSnoc(batch[..i], batch[i], b.analyze);
      match b.analyze(batch[i].image) {
        case Some(v) => rows := rows + [Row(batch[i].id, v)];
        case None => failed := failed + 1;
      }
      i, alone := i + 1, alone + 1;
    }
    assert batch[..i] == batch;
  }

  /** The answers of the outside world: what the n-th batched call comes back with, does the n-th
      write raise, is a stop visible at the n-th check. */
  datatype World = World(
    batchCall: (nat, seq<Pending>) -> Option<seq<Verdict>>,
    writeRaises: nat -> bool,
    stopSeen: nat -> bool
  )

  ghost predicate Honest(b: Backend, world: World) {
    forall n: nat, batch: seq<Pending> :: AnswersAlike(b, batch, world.batchCall(n, batch))
  }

  /** What the refinement says of the store alone, at any moment and on an empty batch. */
  lemma Prefixes(frames: seq<Listed>, analyze: Oracle, persisted: seq<Row>, batch: seq<Pending>, i: nat)
    requires i <= |frames|
    requires persisted + BatchRows(batch, analyze) == SerialRows(frames[..i], analyze)
    ensures persisted <= SerialRows(frames, analyze)
    ensures persisted + BatchRows(batch, analyze) <= SerialRows(frames, analyze)
    ensures batch == [] ==> persisted == SerialRows(frames[..i], analyze)
  {
    SerialRowsPrefix(frames, i, analyze);
    var upTo := SerialRows(frames[..i], analyze);
    assert persisted == upTo[..|persisted|];
  }

  /** The frames' items in order and then the sentinel. */
  ghost predicate HandsOver(items: seq<Item>, frames: seq<Listed>) {
    && |items| == |frames| + 1 && items[|frames|] == Sentinel
    && forall i {:trigger items[i]} :: 0 <= i < |frames| ==> items[i] == ItemOf(frames[i])
  }

  method Get(items: seq<Item>, ghost frames: seq<Listed>, taken: nat) returns (item: Item)
    requires HandsOver(items, frames) && taken <= |frames|
    ensures item == Sentinel <==> taken == |frames|
    ensures taken < |frames| ==> item == ItemOf(frames[taken])
  {
    item := items[taken];
  }

  /** The state `run_analysis` keeps in its enclosing scope, and the store it writes to. */
  class Sweep {
    const backend: Backend
    const world: World
    var batch: seq<Pending>
    var batchShape: int
    var persisted: seq<Row>
    var done: nat
    var present: nat
    var errors: nat
    // history: looks at the stop flag, batches handed to the oracle
    var checks: nat
    var calls: seq<seq<Pending>>

    ghost const frames: seq<Listed>

    constructor (backend: Backend, world: World, ghost frames: seq<Listed>)
      requires 1 <= backend.batchSize && Honest(backend, world)
      ensures this.backend == backend && this.world == world && this.frames == frames
      ensures Going(0)
    {
      this.backend, this.world, this.frames := backend, world, frames;
      batch, batchShape, persisted := [], 0, [];
      done, present, errors, checks, calls := 0, 0, 0, 0, [];
    }

    /** The first `i` frames are accounted for: persisted, an error, or waiting in the batch. */
    ghost predicate Absorbed(i: nat)
      reads `batch, `persisted, `done, `present, `errors
    {
      && i <= |frames| && persisted + BatchRows(batch, backend.analyze) == SerialRows(frames[..i], backend.analyze)
      && done == |persisted| && present == CountPresent(persisted)
      && done + errors + |batch| == i
    }

    /** The oracle has been given, and the batch holds, the images of the first `i` frames. */
    ghost predicate Sent(i: nat)
      reads `calls, `batch
    {
      i <= |frames| && Chunks(backend, calls, batch, Decodable(frames[..i]))
    }

    ghost predicate WritesHeld(n: nat) {
      forall k :: 0 <= k < n ==> !world.writeRaises(k)
    }

    ghost predicate ChecksClear(n: nat) {
      forall k :: 0 <= k < n ==> !world.stopSeen(k)
    }

    /** One write for every batch, one look at the stop flag for every full one, and so far neither
        gave cause to end. */
    ghost predicate Undisturbed()
      reads `calls, `checks
    {
      WritesHeld(|calls|) && checks == FullCalls(backend, calls) && ChecksClear(checks)
    }

    ghost predicate LastWasFull()
      reads `calls
    {
      calls != [] ==> |calls[|calls| - 1]| == backend.batchSize
    }

    ghost predicate ShapeKnown()
      reads `batch, `batchShape
    {
      batch != [] ==> batchShape == batch[0].image.shape
    }

    /** Between two `get`s after `i` frames. */
    ghost predicate Going(i: nat)
      reads this
    {
      && Absorbed(i) && Sent(i) && ShapeKnown() && Undisturbed()
      && |batch| < backend.batchSize && (batch == [] ==> LastWasFull())
    }

    /** The first `i` frames are done or errors, the store has exactly their serial rows, and the
        oracle was given exactly their images. */
    ghost predicate Settled(i: nat)
      reads this
    {
      && i <= |frames| && persisted == SerialRows(frames[..i], backend.analyze) && done + errors == i
      && Chunks(backend, calls, [], Decodable(frames[..i]))
    }

    /** The rows of the batch at hand, which would have been next, are missing from the store. */
    ghost predicate Unwritten(i: nat)
      reads `batch, `persisted, `done, `errors
    {
      && i <= |frames| && persisted + BatchRows(batch, backend.analyze) == SerialRows(frames[..i], backend.analyze)
      && done + errors + |BatchRows(batch, backend.analyze)| == i
    }

    /** The last write raised and was the first to. */
    ghost predicate WriteRaised()
      reads `calls, `checks
    {
      calls != [] && world.writeRaises(|calls| - 1) && WritesHeld(|calls| - 1) && ChecksClear(checks)
    }

    ghost predicate FailedWrite(i: nat)
      reads this
    {
      Unwritten(i) && WriteRaised() && Chunks(backend, calls, [], Decodable(frames[..i]))
    }

    /** Every look at the stop flag but the last saw it clear, and it followed a full batch. */
    ghost predicate Stopped()
      reads `calls, `checks
    {
      && WritesHeld(|calls|) && calls != [] && LastWasFull()
      && checks == FullCalls(backend, calls) && 1 <= checks && world.stopSeen(checks - 1) && ChecksClear(checks - 1)
    }

    /** How the sweep is left after `i` frames: finished at the sentinel, with no write raising and no
        stop seen; canceled at the first look at the flag that sees it set, which follows a full
        batch; or by the first write that raises, when one frame taken may still be in hand. */
    ghost predicate Left(outcome: Outcome, i: nat)
      reads this
    {
      match outcome
      case Finished => Settled(i) && i == |frames| && Undisturbed()
      case Canceled => Settled(i) && Stopped()
      case WriteFailed => FailedWrite(i) || (1 <= i && FailedWrite(i - 1))
    }

    /** `_flush`: a no-op on an empty batch; the batch's rows are appended and recorded, unless the
        write raises, which leaves store, counters of written verdicts and batch as they were. */
    method Flush(ghost i: nat) returns (ok: bool)
      requires Honest(backend, world) && Absorbed(i)
      modifies `calls, `errors, `persisted, `done, `present, `batch
      ensures !ok <==> old(batch) != [] && world.writeRaises(old(|calls|))
      ensures calls == old(calls) + if old(batch) == [] then [] else [old(batch)]
      ensures ok ==> Absorbed(i) && batch == []
      ensures ok ==> persisted == old(persisted + BatchRows(batch, backend.analyze))
      ensures !ok ==> persisted == old(persisted) && done == old(done) && present == old(present) && batch == old(batch)
      ensures !ok ==> Unwritten(i)
      ensures old(batch) == [] ==> unchanged(this)
    {
      ok := true;
      if batch != [] {
        var n := |calls|;
        calls := calls + [batch];
        var rows, failed, alone := AnalyzeBatch(backend, batch, world.batchCall(n, batch));
        errors := errors + failed;
        if world.writeRaises(n) {
          return false;
        }
        Persist(i, rows);
      }
    }

    /** The store takes the rows; they are recorded and the batch cleared. */
    method Persist(ghost i: nat, rows: seq<Row>)
      requires i <= |frames| && persisted + rows == SerialRows(frames[..i], backend.analyze)
      requires done == |persisted| && present == CountPresent(persisted) && done + errors + |rows| == i
      modifies `persisted, `done, `present, `batch
      ensures persisted == old(persisted) + rows && batch == [] && Absorbed(i)
    {
      CountPresentConcat(persisted, rows);
      persisted := persisted + rows;
      done, present := done + |rows|, present + CountPresent(rows);
      batch := [];
      assert persisted + [] == persisted;
    }

    /** A flush with its place in the history. */
    method FlushBatch(ghost i: nat) returns (ok: bool)
      requires Honest(backend, world) && Absorbed(i) && Sent(i)
      requires WritesHeld(|calls|) && ChecksClear(checks)
      modifies `calls, `errors, `persisted, `done, `present, `batch
      ensures calls == old(calls) + if old(batch) == [] then [] else [old(batch)]
      ensures ok ==> Absorbed(i) && Sent(i) && batch == [] && WritesHeld(|calls|)
      ensures !ok ==> FailedWrite(i)
    {
      SendsOut(i);
      ok := Flush(i);
    }

    /** The batch at hand goes out as one call more. */
    lemma SendsOut(i: nat)
      requires Sent(i)
      ensures Chunks(backend, calls + if batch == [] then [] else [batch], [], Decodable(frames[..i]))
    {
      if batch == [] {
        assert calls + [] == calls;
      } else {
        ChunksGoOut(backend, calls, batch, Decodable(frames[..i]));
      }
    }

    /** The loop body on the frame `i`. It returns whether the loop goes on, and if not why. */
    method Take(ghost i: nat, item: Item) returns (goesOn: bool, outcome: Outcome)
      requires Honest(backend, world) && 1 <= backend.batchSize && Going(i) && i < |frames| && item == ItemOf(frames[i])
      modifies this
      ensures goesOn <==> Going(i + 1)
      ensures !goesOn ==> Left(outcome, i + 1) && outcome != Finished
    {
      goesOn, outcome := true, WriteFailed;
      if item.Skipped? {
        Skip(i);
      } else {
        goesOn, outcome := TakeImage(i, item.id, item.image);
      }
    }

    /** Flush at a shape boundary, append, flush when full. */
    method TakeImage(ghost i: nat, id: int, image: Image) returns (goesOn: bool, outcome: Outcome)
      requires Honest(backend, world) && 1 <= backend.batchSize
      requires Going(i) && i < |frames| && ItemOf(frames[i]) == Decoded(id, image)
      modifies this
      ensures goesOn <==> Going(i + 1)
      ensures !goesOn ==> Left(outcome, i + 1) && outcome != Finished
    {
      goesOn, outcome := true, WriteFailed;
      if batch != [] && image.shape != batchShape {
        goesOn := FlushShape(i, image.shape);
      }
      if goesOn {
        goesOn, outcome := AddImage(i, id, image);
      }
    }

    /** Append, and flush when full. */
    method AddImage(ghost i: nat, id: int, image: Image) returns (goesOn: bool, outcome: Outcome)
      requires Honest(backend, world) && 1 <= backend.batchSize
      requires i < |frames| && ItemOf(frames[i]) == Decoded(id, image)
      requires Absorbed(i) && Sent(i) && ShapeKnown() && Undisturbed() && |batch| < backend.batchSize
      requires if batch == [] then CutOff(backend, calls, image.shape) else image.shape == batchShape
      modifies this
      ensures goesOn <==> Going(i + 1)
      ensures !goesOn ==> Left(outcome, i + 1) && outcome != Finished
    {
      goesOn, outcome := true, WriteFailed;
      Append(i, id, image);
      if |batch| >= backend.batchSize {
        goesOn, outcome := FlushFull(i + 1);
      }
    }

    method Skip(ghost i: nat)
      requires Going(i) && i < |frames| && frames[i].image.None?
      modifies `errors
      ensures Going(i + 1)
    {
      SerialRowsSnoc(frames, i, backend.analyze);
      DecodableSnoc(frames, i);
      errors := errors + 1;
    }

    /** The flush at a shape boundary. */
    method FlushShape(ghost i: nat, shape: int) returns (ok: bool)
      requires Honest(backend, world) && Going(i) && batch != [] && shape != batchShape
      modifies `calls, `errors, `persisted, `done, `present, `batch
      ensures ok ==> Absorbed(i) && Sent(i) && Undisturbed() && batch == [] && CutOff(backend, calls, shape)
      ensures !ok ==> Left(WriteFailed, i + 1)
    {
      FullCallsSnoc(backend, calls, batch);
      ok := FlushBatch(i);
    }

    /** The flush of a full batch, after which the stop flag is looked at. */
    method FlushFull(ghost i: nat) returns (goesOn: bool, outcome: Outcome)
      requires Honest(backend, world) && 1 <= backend.batchSize == |batch| && Absorbed(i) && Sent(i) && Undisturbed()
      modifies this
      ensures goesOn <==> Going(i)
      ensures !goesOn ==> Left(outcome, i) && outcome != Finished
    {
      FullCallsSnoc(backend, calls, batch);
      goesOn := FlushBatch(i);
      outcome := WriteFailed;
      if goesOn {
        var stop := LookAtStop();
        if stop {
          BatchIsEmpty(i);
          goesOn, outcome := false, Canceled;
        }
      }
    }

    method LookAtStop() returns (stop: bool)
      requires WritesHeld(|calls|) && calls != [] && LastWasFull()
      requires checks + 1 == FullCalls(backend, calls) && ChecksClear(checks)
      modifies `checks
      ensures stop <==> world.stopSeen(old(checks))
      ensures if stop then Stopped() else Undisturbed()
    {
      stop := world.stopSeen(checks);
      checks := checks + 1;
    }

    /** With an empty batch everything absorbed is settled. */
    lemma BatchIsEmpty(i: nat)
      requires Absorbed(i) && Sent(i) && batch == []
      ensures Settled(i)
    {
      assert persisted + [] == persisted;
    }

    /** One `get`, and the loop body on what it hands over unless that is the sentinel. */
    method GetAndTake(items: seq<Item>, n: nat) returns (more: bool, goesOn: bool, outcome: Outcome)
      requires Honest(backend, world) && 1 <= backend.batchSize && Going(n) && HandsOver(items, frames)
      modifies this
      ensures more <==> n < |frames|
      ensures goesOn <==> Going(if more then n + 1 else n)
      ensures !goesOn ==> more && Left(outcome, n + 1) && outcome != Finished
    {
      goesOn, outcome := true, Finished;
      var item := Get(items, frames, n);
      more := item != Sentinel;
      if more {
        goesOn, outcome := Take(n, item);
      }
    }

    /** The items up to the sentinel, or to an early end. */
    method TakeAll(items: seq<Item>) returns (goesOn: bool, outcome: Outcome, taken: nat)
      requires Honest(backend, world) && 1 <= backend.batchSize && Going(0) && HandsOver(items, frames)
      modifies this
      ensures (goesOn <==> Going(taken)) && (goesOn ==> taken == |frames|)
      ensures !goesOn ==> Left(outcome, taken) && outcome != Finished
    {
      goesOn, outcome, taken := true, Finished, 0;
      var more := true;
      while goesOn && more
        invariant goesOn <==> Going(taken)
        invariant !goesOn ==> Left(outcome, taken) && outcome != Finished
        invariant taken <= |frames| && (!more ==> taken == |frames|)
        decreases |frames| - taken, more
      {
        more, goesOn, outcome := GetAndTake(items, taken);
        if more {
          taken := taken + 1;
        }
      }
    }

    /** The consumer loop, given what `get` hands over. `taken` counts the frames it took. */
    method Consume(items: seq<Item>) returns (outcome: Outcome, taken: nat)
      requires Honest(backend, world) && 1 <= backend.batchSize && Going(0) && HandsOver(items, frames)
      modifies this
      ensures Left(outcome, taken)
      ensures persisted <= SerialRows(frames, backend.analyze)
    {
      var goesOn;
      goesOn, outcome, taken := TakeAll(items);
      if goesOn {
        outcome := FlushLast(taken);
      }
      LeftIsWithin(outcome, taken);
    }

    /** However it is left, the store has a prefix of what the serial loop would put there. */
    lemma LeftIsWithin(outcome: Outcome, i: nat)
      requires Left(outcome, i)
      ensures persisted <= SerialRows(frames, backend.analyze)
    {
      match outcome
      case WriteFailed =>
        var k := if FailedWrite(i) then i else i - 1;
        Prefixes(frames, backend.analyze, persisted, batch, k);
      case _ =>
        assert persisted + [] == persisted;
        Prefixes(frames, backend.analyze, persisted, [], i);
    }

    /** The flush the sentinel asks for. */
    method FlushLast(ghost i: nat) returns (outcome: Outcome)
      requires Honest(backend, world) && Going(i) && i == |frames|
      modifies this
      ensures Left(outcome, i) && outcome != Canceled
    {
      FullCallsSnoc(backend, calls, batch);
      assert calls + [] == calls;
      var ok := FlushBatch(i);
      outcome := if ok then Finished else WriteFailed;
      if ok {
        BatchIsEmpty(i);
      }
    }

    method Append(ghost i: nat, id: int, image: Image)
      requires Absorbed(i) && Sent(i) && i < |frames| && ItemOf(frames[i]) == Decoded(id, image)
      requires ShapeKnown() && |batch| < backend.batchSize
      requires if batch == [] then CutOff(backend, calls, image.shape) else image.shape == batchShape
      modifies `batch, `batchShape
      ensures Absorbed(i + 1) && Sent(i + 1) && ShapeKnown() && |batch| == old(|batch|) + 1
    {
      var p := Pending(id, image);
      RowsTakeOne(frames, backend.analyze, persisted, batch, p, i);
      DecodableSnoc(frames, i);
      ChunksTakeOne(backend, calls, batch, Decodable(frames[..i]), p);
      if batch == [] {
        batchShape := image.shape;
      }
      batch := batch + [p];
    }
  }

  /** An image more in the batch is its row more on both sides. */
  lemma RowsTakeOne(frames: seq<Listed>, analyze: Oracle, persisted: seq<Row>, batch: seq<Pending>, p: Pending, i: nat)
    requires i < |frames| && ItemOf(frames[i]) == Decoded(p.id, p.image)
    requires persisted + BatchRows(batch, analyze) == SerialRows(frames[..i], analyze)
    ensures persisted + BatchRows(batch + [p], analyze) == SerialRows(frames[..i + 1], analyze)
  {
    SerialRowsSnoc(frames, i, analyze);
    BatchRowsSnoc(batch, p, analyze);
    Shifted(persisted, BatchRows(batch, analyze), PendingRow(p, analyze), SerialRows(frames[..i], analyze));
  }
}
