/** The windowed sweep of `run_analysis`: frames must reach a stateful analyzer in time order, so
    only decoding runs ahead, as a deque of futures consumed in submission order, and only the
    verdict writes are batched. */
module WindowedSweep {
  import opened Wrappers
  import opened SweepModel

  /** A stateful analyzer: it reads and updates its rolling state on every call, and a call that
      raises (`None`) may have moved that state too. */
  type Gate<!S> = (S, Image) -> (S, Option<Verdict>)

  /** What the serial decode-then-analyze loop has done: the analyzer's state, the rows it
      would have written, the images the analyzer was fed, and the frames it skipped. */
  datatype Fold<S> = Fold(state: S, rows: seq<Row>, fed: seq<Image>, errors: nat)

  function FoldStep<S>(f: Fold<S>, frame: Listed, gate: Gate<S>): Fold<S> {
    match frame.image
    case None => f.(errors := f.errors + 1)
    case Some(image) =>
      var (state, answer) := gate(f.state, image);
      var fed := f.(state := state, fed := f.fed + [image]);
      match answer
      case None => fed.(errors := f.errors + 1)
      case Some(v) => fed.(rows := f.rows + [Row(frame.id, v)])
  }

  function SerialFold<S>(frames: seq<Listed>, gate: Gate<S>, start: S): Fold<S> {
    if frames == [] then Fold(start, [], [], 0)
    else FoldStep(SerialFold(frames[..|frames| - 1], gate, start), frames[|frames| - 1], gate)
  }

  lemma SerialFoldSnoc<S>(frames: seq<Listed>, k: nat, gate: Gate<S>, start: S)
    requires k < |frames|
    ensures SerialFold(frames[..k + 1], gate, start) == FoldStep(SerialFold(frames[..k], gate, start), frames[k], gate)
  {
    assert frames[..k + 1][..k] == frames[..k];
  }

  /** Rows only grow along the sweep, and every frame is a row or an error. */
  lemma {:induction false} SerialFoldGrows<S>(frames: seq<Listed>, k: nat, gate: Gate<S>, start: S)
    requires k <= |frames|
    ensures SerialFold(frames[..k], gate, start).rows <= SerialFold(frames, gate, start).rows
    decreases |frames| - k
  {
    if k == |frames| {
      assert frames[..k] == frames;
    } else {
      SerialFoldSnoc(frames, k, gate, start);
      SerialFoldGrows(frames, k + 1, gate, start);
    }
  }

  /** The images fed are the decodable frames in iterator order. */
  lemma {:induction false} SerialFoldFeedsDecodable<S>(frames: seq<Listed>, gate: Gate<S>, start: S)
    ensures var d := Decodable(frames);
            var f := SerialFold(frames, gate, start);
            && |f.fed| == |d| && (forall i :: 0 <= i < |d| ==> f.fed[i] == d[i].image)
            && |f.rows| + f.errors == |frames|
  {
    if frames != [] {
      SerialFoldFeedsDecodable(frames[..|frames| - 1], gate, start);
    }
  }

  /** The analyzer's state once it has been fed these images, whatever it answered. */
  function After<S>(gate: Gate<S>, start: S, images: seq<Image>): S {
    if images == [] then start else gate(After(gate, start, images[..|images| - 1]), images[|images| - 1]).0
  }

  function Images(d: seq<Pending>): (r: seq<Image>)
    ensures |r| == |d|
  {
    seq(|d|, i requires 0 <= i < |d| => d[i].image)
  }

  /** What a stateful analyzer says of these frames one after the other: its answer to each, with the
      state all those before it left, the failed ones included. */
  function Verdicts<S>(gate: Gate<S>, start: S, d: seq<Pending>): seq<Row> {
    if d == [] then []
    else
      var front, last := d[..|d| - 1], d[|d| - 1];
      Verdicts(gate, start, front)
      + match gate(After(gate, start, Images(front)), last.image).1
        case None => []
        case Some(v) => [Row(last.id, v)]
  }

  /** The fold is the analyzer run over the decodable frames and nothing else: its state, its rows and
      what it was fed depend on them alone, however many frames fail to decode between them. */
  lemma {:induction false} SerialFoldIsTheAnalyzer<S>(frames: seq<Listed>, gate: Gate<S>, start: S)
    ensures var d, f := Decodable(frames), SerialFold(frames, gate, start);
            && f.state == After(gate, start, Images(d))
            && f.rows == Verdicts(gate, start, d)
            && f.fed == Images(d)
            && f.errors == |frames| - |Verdicts(gate, start, d)|
  {
    if frames != [] {
      var front, last := frames[..|frames| - 1], frames[|frames| - 1];
      SerialFoldIsTheAnalyzer(front, gate, start);
      if last.image.Some? {
        FeedOneMore(gate, start, Decodable(front), Pending(last.id, last.image.value));
      } else {
        assert Decodable(frames) == Decodable(front);
      }
    }
  }

  lemma FeedOneMore<S>(gate: Gate<S>, start: S, d: seq<Pending>, p: Pending)
    ensures Images(d + [p]) == Images(d) + [p.image]
    ensures After(gate, start, Images(d + [p])) == gate(After(gate, start, Images(d)), p.image).0
    ensures Verdicts(gate, start, d + [p])
            == Verdicts(gate, start, d)
               + match gate(After(gate, start, Images(d)), p.image).1
                 case None => []
                 case Some(v) => [Row(p.id, v)]
  {
    assert (d + [p])[..|d|] == d;
    assert Images(d + [p]) == Images(d) + [p.image];
    assert (Images(d) + [p.image])[..|d|] == Images(d);
  }

  const WRITE_BATCH: nat := 256

  datatype End = Finished | Canceled | WriteFailed | IteratorFailed

  /** The answers of the outside world: is a stop visible at the n-th check, does the n-th
      write raise, does the iterator raise once its frames are exhausted, and which futures the
      pool completes at the n-th chance it gets. */
  datatype World = World(stopSeen: nat -> bool, writeRaises: nat -> bool, iterFaults: bool, completes: nat -> set<nat>)

  /** An entry of the deque: a frame and the future of its decode, numbered by submission. */
  datatype Submitted = Submitted(id: int, future: nat)

  function Futures(frames: seq<Listed>, front: nat, pulled: nat): (r: seq<Submitted>)
    requires front <= pulled <= |frames|
    ensures |r| == pulled - front
  {
    seq(pulled - front, i requires 0 <= i < pulled - front => Submitted(frames[front + i].id, front + i))
  }

  /** The sweep's locals and the pool. `decoded` holds the futures that are done and what each
      gives, an image or (`None`) a raise; they get done in any order, many at a time. */
  class Sweep<S(!new)> {
    const frames: seq<Listed>
    const gate: Gate<S>
    const lookahead: nat
    const world: World
    ghost const start: S

    var inflight: seq<Submitted>
    var pulled: nat
    var decoded: map<nat, Option<Image>>
    var chances: nat
    var state: S
    var pending: seq<Row>
    var persisted: seq<Row>
    var done: nat
    var errors: nat
    var writes: nat
    // history: frames whose decode was awaited, images fed, most futures ever in the deque
    var awaited: nat
    var fed: seq<Image>
    var peak: nat

    constructor (frames: seq<Listed>, gate: Gate<S>, start: S, lookahead: nat, world: World)
      ensures this.frames == frames && this.gate == gate && this.start == start
      ensures this.lookahead == lookahead && this.world == world
      ensures Ready() && FullWrites() && awaited == 0 && inflight == [] && peak == 0 && pulled == 0
    {
      this.frames, this.gate, this.start, this.lookahead, this.world := frames, gate, start, lookahead, world;
      inflight, pulled, decoded, chances := [], 0, map[], 0;
      state, pending, persisted := start, [], [];
      done, errors, writes, awaited, fed, peak := 0, 0, 0, 0, [], 0;
    }

    ghost function Reference(k: nat): Fold<S>
      requires k <= |frames|
    {
      SerialFold(frames[..k], gate, start)
    }

    /** The analyzer has been taken through the first `awaited` frames as the serial loop would,
        and every row so far is persisted or pending. */
    ghost predicate Accounted()
      reads this
    {
      && awaited <= |frames|
      && Reference(awaited) == Fold(state, persisted + pending, fed, errors)
      && done == |persisted| + |pending|
    }

    /** What a future gives is settled by its frame's file, whenever the pool got round to it. */
    ghost predicate Pooled()
      reads this
    {
      pulled <= |frames| && forall k :: k in decoded ==> k < pulled && decoded[k] == frames[k].image
    }

    /** The deque holds, in order, exactly the frames submitted and not yet awaited. */
    ghost predicate Queued()
      reads this
    {
      Pooled() && awaited <= pulled && inflight == Futures(frames, awaited, pulled) && |inflight| <= peak <= lookahead
    }

    /** The pool completes whichever of the submitted decodes it likes. */
    method PoolRuns()
      requires Pooled()
      modifies `decoded, `chances
      ensures Pooled()
    {
      var done := world.completes(chances);
      decoded := decoded + map k | k in done && k < pulled :: frames[k].image;
      chances := chances + 1;
    }

    /** `future.result()`: waits for the decode if the pool has not done it. */
    method Result(future: nat) returns (image: Option<Image>)
      requires Pooled() && future < pulled
      modifies `decoded
      ensures Pooled() && image == frames[future].image
    {
      if future !in decoded {
        decoded := decoded[future := frames[future].image];
      }
      image := decoded[future];
    }

    ghost predicate Ready()
      reads this
    {
      Queued() && Accounted() && |pending| < WRITE_BATCH
    }

    /** No write so far has raised, and each was of a full batch. */
    ghost predicate FullWrites()
      reads this
    {
      |persisted| == WRITE_BATCH * writes && forall n :: 0 <= n < writes ==> !world.writeRaises(n)
    }

    /** The pool is kept fed: the frames pulled are `lookahead` ahead of those awaited, or all, and
        that only if the iterator does not raise after them. */
    ghost predicate Fed()
      reads this
    {
      && (world.iterFaults ==> awaited + lookahead <= |frames|)
      && pulled == if awaited + lookahead <= |frames| then awaited + lookahead else |frames|
    }

    /** `_submit_next`: pull one frame and submit its decode. `faulted` is the iterator raising.
        `front` is the first frame in the deque; it is one past `awaited` while the popped frame
        is in hand, so that at most `lookahead` futures and that one frame are in flight. */
    method SubmitNext(ghost front: nat) returns (submitted: bool, faulted: bool)
      requires Pooled() && front <= pulled && inflight == Futures(frames, front, pulled)
      requires |inflight| < lookahead && |inflight| <= peak <= lookahead
      modifies `inflight, `pulled, `peak, `decoded, `chances
      ensures Pooled() && front <= pulled && inflight == Futures(frames, front, pulled)
      ensures |inflight| <= peak <= lookahead
      ensures submitted <==> old(pulled) < |frames|
      ensures pulled == old(pulled) + if submitted then 1 else 0
      ensures faulted <==> world.iterFaults && !submitted
    {
      submitted, faulted := false, false;
      if pulled < |frames| {
        inflight := inflight + [Submitted(frames[pulled].id, pulled)];
        pulled := pulled + 1;
        if |inflight| > peak {
          peak := |inflight|;
        }
        submitted := true;
      } else {
        faulted := world.iterFaults;
      }
      PoolRuns();
    }

    /** Fill the deque before the first frame is awaited. */
    method Prime() returns (faulted: bool)
      requires Queued() && awaited == pulled == 0
      modifies `inflight, `pulled, `peak, `decoded, `chances
      ensures Queued() && (!faulted ==> Fed())
      ensures faulted <==> world.iterFaults && |frames| < lookahead
    {
      faulted := false;
      var more := true;
      while more && |inflight| < lookahead
        invariant Queued()
        invariant faulted ==> world.iterFaults && !more
        invariant !more ==> pulled == |frames| < lookahead && (faulted <==> world.iterFaults)
        decreases |frames| - pulled, more
      {
        more, faulted := SubmitNext(awaited);
      }
    }

    /** `_flush_windowed`. A raising write leaves the store and the pending rows alone. */
    method FlushWindowed() returns (ok: bool)
      modifies `pending, `persisted, `writes
      ensures writes == old(writes) + if old(pending) == [] then 0 else 1
      ensures !ok <==> old(pending) != [] && world.writeRaises(old(writes))
      ensures ok ==> persisted == old(persisted + pending) && pending == []
      ensures !ok ==> persisted == old(persisted) && pending == old(pending)
    {
      ok := true;
      if pending != [] {
        writes := writes + 1;
        if world.writeRaises(writes - 1) {
          return false;
        }
        persisted := persisted + pending;
        pending := [];
      }
    }

    /** With the popped frame's decode awaited: analyze the image, queue the verdict. */
    method Analyze(id: int, image: Option<Image>)
      requires Accounted() && |pending| < WRITE_BATCH && awaited < |frames| && Listed(id, image) == frames[awaited]
      modifies `state, `pending, `done, `errors, `awaited, `fed
      ensures awaited == old(awaited) + 1
      ensures Accounted() && |pending| <= WRITE_BATCH
    {
      SerialFoldSnoc(frames, awaited, gate, start);
      if image.Some? {
        var (next, answer) := gate(state, image.value);
        state, fed := next, fed + [image.value];
        if answer.Some? {
          ghost var before := pending;
          pending := pending + [Row(id, answer.value)];
          assert persisted + pending == persisted + before + [Row(id, answer.value)];
          done := done + 1;
        } else {
          errors := errors + 1;
        }
      } else {
        errors := errors + 1;
      }
      awaited := awaited + 1;
    }

    /** The flush of a full write batch. */
    method FlushFull() returns (ok: bool)
      requires Accounted() && FullWrites() && |pending| <= WRITE_BATCH
      modifies `pending, `persisted, `writes
      ensures Accounted()
      ensures ok ==> FullWrites() && |pending| < WRITE_BATCH
      ensures !ok ==> FailedWrite() && |pending| == WRITE_BATCH
    {
      ok := true;
      if |pending| >= WRITE_BATCH {
        ghost var rows := persisted + pending;
        ok := FlushWindowed();
        assert persisted + pending == rows;
      }
    }

    /** The last write raised, and it was the first to; all before it were of a full batch. */
    ghost predicate FailedWrite()
      reads this
    {
      && 1 <= writes && world.writeRaises(writes - 1) && (forall n :: 0 <= n < writes - 1 ==> !world.writeRaises(n))
      && |persisted| == WRITE_BATCH * (writes - 1) && 1 <= |pending| <= WRITE_BATCH
    }

    /** The iterator raised when it was asked for one frame too many. */
    ghost predicate FailedIterator()
      reads this
    {
      && world.iterFaults && FullWrites() && |pending| < WRITE_BATCH
      && awaited == if lookahead <= |frames| then |frames| - lookahead else 0
    }

    method PopHead() returns (head: Submitted)
      requires Queued() && inflight != []
      modifies `inflight
      ensures head.future == awaited < pulled && head.id == frames[awaited].id
      ensures inflight == Futures(frames, awaited + 1, pulled) && |inflight| == old(|inflight|) - 1
    {
      head := inflight[0];
      inflight := inflight[1..];
    }

    /** Await the head's decode, analyze, record, flush a full write batch. */
    method Settle(head: Submitted) returns (ok: bool)
      requires Accounted() && FullWrites() && |pending| < WRITE_BATCH && Pooled()
      requires head.future == awaited < pulled && head.id == frames[awaited].id
      modifies `decoded, `state, `pending, `done, `errors, `awaited, `fed, `persisted, `writes
      ensures Pooled() && awaited == old(awaited) + 1 && Accounted()
      ensures ok ==> FullWrites() && |pending| < WRITE_BATCH
      ensures !ok ==> FailedWrite() && |pending| == WRITE_BATCH
    {
      var image := Result(head.future);
      Analyze(head.id, image);
      ok := FlushFull();
    }

    /** One turn of the loop after the stop check: take the oldest future, keep the pool fed,
        await the decode, analyze, record. */
    method Turn() returns (goesOn: bool, end: End)
      requires Ready() && FullWrites() && Fed() && inflight != []
      modifies this
      ensures peak <= lookahead && Accounted()
      ensures goesOn ==> Ready() && FullWrites() && Fed() && awaited == old(awaited) + 1
      ensures !goesOn && end == WriteFailed ==>
                FailedWrite() && |pending| == WRITE_BATCH && awaited == old(awaited) + 1
      ensures !goesOn && end != WriteFailed ==> end == IteratorFailed && FailedIterator() && awaited == old(awaited)
    {
      var head := PopHead();
      var submitted, faulted := SubmitNext(awaited + 1);
      goesOn, end := !faulted, IteratorFailed;
      if goesOn {
        goesOn := Settle(head);
        end := WriteFailed;
      }
    }

    /** No stop was visible at any check before a frame that was awaited. */
    ghost predicate Unstopped()
      reads this
    {
      forall n :: 0 <= n < awaited ==> !world.stopSeen(n)
    }

    /** How the loop stands: still going, or left with its cause. */
    ghost predicate Stands(end: End)
      reads this
    {
      match end
      case Finished => Ready() && FullWrites() && Fed()
      case Canceled => Ready() && FullWrites() && awaited < |frames| && world.stopSeen(awaited)
      case WriteFailed => FailedWrite() && |pending| == WRITE_BATCH
      case IteratorFailed => FailedIterator()
    }

    /** The loop's body: the stop check, and a turn if no stop is visible. */
    method Next() returns (end: End)
      requires Stands(Finished) && Unstopped() && inflight != []
      modifies this
      ensures peak <= lookahead && Accounted() && Unstopped() && Stands(end)
      ensures end == Finished ==> awaited == old(awaited) + 1
    {
      if world.stopSeen(awaited) {
        end := Canceled;
      } else {
        var goesOn, why := Turn();
        end := if goesOn then Finished else why;
      }
    }

    /** Everything analyzed is persisted, in as few full batches as that takes, none refused. */
    ghost predicate AllWritten()
      reads this
    {
      && pending == [] && (forall n :: 0 <= n < writes ==> !world.writeRaises(n))
      && writes == (|persisted| + WRITE_BATCH - 1) / WRITE_BATCH
    }

    /** The loop up to the last flush. */
    method Loop() returns (end: End)
      requires Ready() && FullWrites() && awaited == pulled == 0 && 1 <= lookahead
      modifies this
      ensures peak <= lookahead && Accounted() && Unstopped() && Stands(end)
      ensures end == Finished ==> awaited == |frames| && !world.iterFaults
    {
      var faulted := Prime();
      var goesOn := !faulted;
      end := if faulted then IteratorFailed else Finished;
      while goesOn && inflight != []
        invariant peak <= lookahead && Accounted() && Unstopped()
        invariant Stands(end) && (goesOn <==> end == Finished)
        decreases goesOn, |frames| - awaited
      {
        end := Next();
        goesOn := end == Finished;
      }
    }

    /** The windowed sweep. Whatever the decodes and the analyzer answer, and in whatever order the
        decodes complete, what is persisted and then what is pending are the serial rows of the
        frames awaited, whose images the analyzer was fed in iterator order, each once; the deque
        never held more than `lookahead` futures. The stop flag decides at every check, the first
        write to raise ends the sweep, and so does the iterator, when it is asked for one frame too
        many. Otherwise nothing is left pending, and a sweep that finishes has awaited every frame. */
    method Run() returns (end: End)
      requires Ready() && FullWrites() && awaited == pulled == 0 && 1 <= lookahead
      modifies this
      ensures Accounted() && Unstopped() && peak <= lookahead
      ensures persisted <= SerialFold(frames, gate, start).rows && |persisted| + |pending| + errors == awaited
      ensures end == Finished ==>
                AllWritten() && !world.iterFaults && persisted == SerialFold(frames, gate, start).rows
      ensures end == Canceled ==>
                AllWritten() && awaited < |frames| && world.stopSeen(awaited) && persisted == Reference(awaited).rows
      ensures end == WriteFailed ==> FailedWrite()
      ensures end == WriteFailed && |pending| < WRITE_BATCH ==>
                (awaited == |frames| && !world.iterFaults) || (awaited < |frames| && world.stopSeen(awaited))
      ensures end == IteratorFailed ==> FailedIterator()
    {
      end := Loop();
      if end == Finished || end == Canceled {
        end := FinalFlush(end);
      }
      AccountedRows(this);
    }

    /** The flush after the pool is shut down, on the normal and the canceled path alike. */
    method FinalFlush(clean: End) returns (end: End)
      requires Ready() && FullWrites() && clean != WriteFailed
      modifies `pending, `persisted, `writes
      ensures Accounted()
      ensures end == if old(pending) != [] && world.writeRaises(old(writes)) then WriteFailed else clean
      ensures end == WriteFailed ==> FailedWrite() && |pending| < WRITE_BATCH
      ensures end != WriteFailed ==> AllWritten() && persisted == old(persisted + pending)
    {
      ghost var rows := persisted + pending;
      var ok := FlushWindowed();
      end := if ok then clean else WriteFailed;
      assert persisted + pending == rows;
    }
  }

  /** An accounted store with nothing pending holds exactly the serial rows of the frames awaited,
      and at any end what it holds is a prefix of all of them. */
  lemma AccountedRows<S(!new)>(sweep: Sweep<S>)
    requires sweep.Accounted()
    ensures sweep.persisted <= SerialFold(sweep.frames, sweep.gate, sweep.start).rows
    ensures sweep.pending == [] ==> sweep.persisted == sweep.Reference(sweep.awaited).rows
    ensures sweep.pending == [] && sweep.awaited == |sweep.frames| ==>
              sweep.persisted == SerialFold(sweep.frames, sweep.gate, sweep.start).rows
    ensures |sweep.persisted| + |sweep.pending| + sweep.errors == sweep.awaited
  {
    AccountedIsWithin(sweep.frames, sweep.gate, sweep.start, sweep.persisted, sweep.pending, sweep.awaited);
    SerialFoldFeedsDecodable(sweep.frames[..sweep.awaited], sweep.gate, sweep.start);
    assert sweep.frames[..|sweep.frames|] == sweep.frames;
  }

  /** What an accounted store holds compared with the whole serial run. */
  lemma AccountedIsWithin<S>(frames: seq<Listed>, gate: Gate<S>, start: S, persisted: seq<Row>,
          pending: seq<Row>, k: nat)
    requires k <= |frames| && SerialFold(frames[..k], gate, start).rows == persisted + pending
    ensures persisted <= SerialFold(frames, gate, start).rows
    ensures persisted + pending <= SerialFold(frames, gate, start).rows
  {
    SerialFoldGrows(frames, k, gate, start);
    assert persisted == (persisted + pending)[..|persisted|];
  }
}
