/** What the stateless sweep promises, over every interleaving: it never wedges, its teardown is
    bounded, and what it writes is what the serial loop would have written. */
module StatelessTheorems {
  import opened SweepModel
  import opened BatchConsumer
  import opened StatelessSweep

  lemma {:induction false} RunKeepsInv(c: Config, states: seq<State>, actions: seq<Action>, i: nat)
    requires c.Valid() && IsRun(c, states, actions) && i < |states|
    ensures Inv(c, states[i])
  {
    if i == 0 {
      InitInv(c);
    } else {
      RunKeepsInv(c, states, actions, i - 1);
      assert Steps(c, states[i - 1], actions[i - 1], states[i - 1 + 1]);
      StepKeepsInv(c, states[i - 1], actions[i - 1]);
    }
  }

  ghost function Last(states: seq<State>): State
    requires states != []
  {
    states[|states| - 1]
  }

  // --- Liveness ------------------------------------------------------------------------

  /** A step that brings the sweep closer to its end. */
  ghost predicate Productive(c: Config, s: State, a: Action) {
    Enabled(c, s, a) && !a.OperatorStops? && a != Produce(PutTimesOut)
  }

  /** In no interleaving is the consumer left waiting on an empty queue by a finished producer,
      and as long as the sweep has not ended some thread can take a productive step. */
  lemma NeverWedged(c: Config, states: seq<State>, actions: seq<Action>)
    requires c.Valid() && IsRun(c, states, actions)
    ensures var s := Last(states);
            && !(s.k.at.Getting? && s.sh.q == [] && s.p.at.Exited?)
            && (s.k.at.Ended? || exists a :: Productive(c, s, a))
            && (s.k.at.Ended? ==> s.p.at.Exited?)
  {
    var s := Last(states);
    RunKeepsInv(c, states, actions, |actions|);
    if !s.k.at.Ended? {
      var a := SomeProductive(c, s);
    }
  }

  lemma SomeProductive(c: Config, s: State) returns (a: Action)
    requires Inv(c, s) && !s.k.at.Ended?
    ensures Productive(c, s, a)
  {
    match s.k.at
    case Handling(_) => a := Consume(Local(Handle));
    case Analyzing(_) => a := Consume(Local(if c.oracle.hasBatchCall then BatchRaises else PerImage));
    case Writing(_) => a := Consume(Local(WriteSucceeds));
    case Checking => a := Consume(CheckStop);
    case Unwinding(_) => a := Consume(SetAbort);
    case Draining(_) => a := Consume(if s.sh.q != [] then DrainOne else DrainEmpty);
    case Joining(_) => a := if s.p.at.Exited? then Consume(Join) else ProducerMoves(c, s);
    case Getting =>
      if s.sh.q != [] {
        a := Consume(Get);
      } else {
        assert !s.p.at.Exited?;
        a := ProducerMoves(c, s);
      }
  }

  /** With room in the queue a live producer can always move. */
  ghost function ProducerMoves(c: Config, s: State): (a: Action)
    requires ProducerInv(c, s.sh, s.p) && !s.p.at.Exited?
    requires |s.sh.q| < c.Capacity()
    ensures Productive(c, s, a)
  {
    match s.p.at
    case Fetching => Produce(Pull)
    case Got => Produce(CheckFlags)
    case Putting(checked) => Produce(if checked then PutLands else CheckAbort)
    case Finishing(checked) => Produce(if checked then PutLands else CheckAbort)
  }

  /** A put times out only when the queue is full, and then the consumer can move: a run can be
      stretched by timeouts only as long as the scheduler holds the consumer back. */
  lemma TimeoutOnlyWhileConsumerCanMove(c: Config, s: State)
    requires Inv(c, s) && Enabled(c, s, Produce(PutTimesOut))
    ensures exists m :: CanConsume(c, s, m)
  {
    var a := SomeProductive(c, s);
    assert |s.sh.q| >= 2;
    if a.Produce? {
      assert false;
    }
    assert CanConsume(c, s, a.step);
  }

  function ConsumerRank(k: Consumer): nat {
    match k.at
    case Handling(_) => 10
    case Analyzing(after) => if after.ThenAppend? then 9 else 7
    case Writing(after) => if after.ThenAppend? then 8 else 6
    case Checking => 5
    case Getting => 4
    case Unwinding(_) => 3
    case Draining(_) => 2
    case Joining(_) => 1
    case Ended(_) => 0
  }

  /** Eleven for each frame not yet pulled: four producer steps and the seven its item costs
      the consumer. */
  function ProducerRank(n: nat, p: Producer): nat
    requires p.pulled <= n
  {
    var rest := 11 * (n - p.pulled);
    match p.at
    case Fetching => rest + 10
    case Got => rest + 20
    case Putting(checked) => rest + if checked then 18 else 19
    case Finishing(checked) => if checked then 8 else 9
    case Exited => 0
  }

  function Rank(n: nat, s: State): nat
    requires s.p.pulled <= n
  {
    ProducerRank(n, s.p) + 7 * |s.sh.q| + ConsumerRank(s.k) + if s.sh.stop then 0 else 1
  }

  lemma ProducerRanks(c: Config, sh: Shared, p: Producer, m: ProducerMove)
    requires ProducerInv(c, sh, p) && CanProduce(c, sh, p, m)
    ensures var p' := ProducerNext(c, sh, p, m);
            var sh' := SharedAfterProducer(c, sh, p, m);
            && p'.pulled <= |c.frames| && sh'.stop == sh.stop
            && ProducerRank(|c.frames|, p') + 7 * |sh'.q| <=
               ProducerRank(|c.frames|, p) + 7 * |sh.q| + if m.PutTimesOut? then 1 else -1
  {
  }

  lemma ConsumerRanks(c: Config, s: State, m: ConsumerMove)
    requires CanConsume(c, s, m)
    ensures SharedAfterConsumer(c, s, m).stop == s.sh.stop
    ensures ConsumerRank(ConsumerNext(c, s, m)) + 7 * |SharedAfterConsumer(c, s, m).q| <
            ConsumerRank(s.k) + 7 * |s.sh.q|
  {
  }

  /** Every step but a put timeout brings the end nearer; a timeout costs one step. */
  lemma StepRanks(c: Config, s: State, a: Action)
    requires ProducerInv(c, s.sh, s.p) && Enabled(c, s, a)
    ensures var t := Apply(c, s, a);
            && t.p.pulled <= |c.frames|
            && Rank(|c.frames|, t) <= Rank(|c.frames|, s) + if a == Produce(PutTimesOut) then 1 else -1
  {
    match a
    case OperatorStops =>
    case Produce(m) => ProducerRanks(c, s.sh, s.p, m);
    case Consume(m) => ConsumerRanks(c, s, m);
  }

  function Timeouts(actions: seq<Action>): nat {
    if actions == [] then 0
    else Timeouts(actions[..|actions| - 1]) + if actions[|actions| - 1] == Produce(PutTimesOut) then 1 else 0
  }

  /** Every run is short: besides its put timeouts (each of which costs one more step) it takes
      at most eleven steps a frame and fifteen more. */
  lemma RunsAreBounded(c: Config, states: seq<State>, actions: seq<Action>)
    requires c.Valid() && IsRun(c, states, actions)
    ensures |actions| <= 11 * |c.frames| + 15 + 2 * Timeouts(actions)
  {
    RankAlongRun(c, states, actions, |actions|);
    assert actions[..|actions|] == actions;
  }

  lemma {:induction false} RankAlongRun(c: Config, states: seq<State>, actions: seq<Action>, i: nat)
    requires c.Valid() && IsRun(c, states, actions) && i <= |actions|
    ensures states[i].p.pulled <= |c.frames|
    ensures i + Rank(|c.frames|, states[i]) <= 11 * |c.frames| + 15 + 2 * Timeouts(actions[..i])
  {
    if i > 0 {
      RankAlongRun(c, states, actions, i - 1);
      RankAt(c, states, actions, i - 1);
      assert actions[..i][..i - 1] == actions[..i - 1];
    }
  }

  lemma RankAt(c: Config, states: seq<State>, actions: seq<Action>, i: nat)
    requires c.Valid() && IsRun(c, states, actions) && i < |actions|
    ensures states[i].p.pulled <= |c.frames| && states[i + 1].p.pulled <= |c.frames|
    ensures Rank(|c.frames|, states[i + 1]) <=
            Rank(|c.frames|, states[i]) + if actions[i] == Produce(PutTimesOut) then 1 else -1
  {
    RunKeepsInv(c, states, actions, i);
    assert Steps(c, states[i], actions[i], states[i + 1]);
    StepRanks(c, states[i], actions[i]);
  }

  // --- Teardown ------------------------------------------------------------------------

  /** What the producer can still do once abort is set, a landing put counted with its item. */
  function ProducerLeft(p: Producer): nat {
    match p.at
    case Fetching => 3
    case Got => 2
    case Putting(checked) => if checked then 5 else 2
    case Finishing(checked) => if checked then 2 else 1
    case Exited => 0
  }

  /** Steps left once abort is set: the producer's are a constant, whatever is left to read. */
  function TeardownRank(s: State): nat {
    ProducerLeft(s.p) + |s.sh.q| + ConsumerRank(s.k) + if s.sh.stop then 0 else 1
  }

  lemma ProducerTeardown(c: Config, sh: Shared, p: Producer, m: ProducerMove)
    requires CanProduce(c, sh, p, m) && sh.abort
    ensures var sh' := SharedAfterProducer(c, sh, p, m);
            && sh'.abort && sh'.stop == sh.stop
            && ProducerLeft(ProducerNext(c, sh, p, m)) + |sh'.q| < ProducerLeft(p) + |sh.q|
  {
  }

  lemma ConsumerTeardown(c: Config, s: State, m: ConsumerMove)
    requires CanConsume(c, s, m) && s.sh.abort && Outcomed(s.k)
    ensures var sh' := SharedAfterConsumer(c, s, m);
            && sh'.abort && sh'.stop == s.sh.stop
            && |sh'.q| + ConsumerRank(ConsumerNext(c, s, m)) < |s.sh.q| + ConsumerRank(s.k)
  {
  }

  lemma TeardownStep(c: Config, s: State, a: Action)
    requires Inv(c, s) && Enabled(c, s, a) && s.sh.abort
    ensures Apply(c, s, a).sh.abort
    ensures TeardownRank(Apply(c, s, a)) < TeardownRank(s)
  {
    match a
    case OperatorStops =>
    case Produce(m) => ProducerTeardown(c, s.sh, s.p, m);
    case Consume(m) => ConsumerTeardown(c, s, m);
  }

  /** From the state `from` where abort is first seen set, every schedule, timeouts included,
      has at most `2 * batchSize + 9` steps left; at most one item lands in all that time; and a
      schedule that cannot be extended has ended with the producer joined. */
  lemma TeardownIsBounded(c: Config, states: seq<State>, actions: seq<Action>, from: nat)
    requires c.Valid() && IsRun(c, states, actions) && from <= |actions| && states[from].sh.abort
    ensures |actions| - from <= 2 * c.oracle.batchSize + 9
    ensures Last(states).sh.late <= 1
    ensures (forall a :: !Productive(c, Last(states), a)) ==> Last(states).k.at.Ended? && Last(states).p.at.Exited?
  {
    TeardownRankBound(c, states, actions, from);
    TeardownRun(c, states, actions, from, |actions|);
    AtMostOneLatePut(c, states, actions);
    NeverWedged(c, states, actions);
  }

  lemma TeardownRankBound(c: Config, states: seq<State>, actions: seq<Action>, i: nat)
    requires c.Valid() && IsRun(c, states, actions) && i < |states| && states[i].sh.abort
    ensures TeardownRank(states[i]) <= 2 * c.oracle.batchSize + 9
  {
    RunKeepsInv(c, states, actions, i);
  }

  lemma AtMostOneLatePut(c: Config, states: seq<State>, actions: seq<Action>)
    requires c.Valid() && IsRun(c, states, actions)
    ensures Last(states).sh.late <= 1
  {
    RunKeepsInv(c, states, actions, |actions|);
  }

  lemma TeardownAt(c: Config, states: seq<State>, actions: seq<Action>, i: nat)
    requires c.Valid() && IsRun(c, states, actions) && i < |actions| && states[i].sh.abort
    ensures states[i + 1].sh.abort && TeardownRank(states[i + 1]) < TeardownRank(states[i])
  {
    RunKeepsInv(c, states, actions, i);
    assert Steps(c, states[i], actions[i], states[i + 1]);
    TeardownStep(c, states[i], actions[i]);
  }

  lemma {:induction false} TeardownRun(c: Config, states: seq<State>, actions: seq<Action>, from: nat, upto: nat)
    requires c.Valid() && IsRun(c, states, actions) && from <= upto <= |actions| && states[from].sh.abort
    ensures states[upto].sh.abort
    ensures (upto - from) + TeardownRank(states[upto]) <= TeardownRank(states[from])
    decreases upto
  {
    if from < upto {
      TeardownRun(c, states, actions, from, upto - 1);
      TeardownAt(c, states, actions, upto - 1);
    }
  }

  // --- Refinement of the serial loop ---------------------------------------------------

  /** At every moment of every interleaving the persisted rows are a prefix of the serial rows;
      they are all of them when the sweep finishes uncanceled, and the serial rows of the frames
      it took when it was canceled. The oracle path (batch call, failed batch, per image) never
      shows. */
  lemma PersistedRefinesSerial(c: Config, states: seq<State>, actions: seq<Action>)
    requires c.Valid() && IsRun(c, states, actions)
    ensures var s := Last(states);
            && s.k.taken <= |c.frames|
            && s.k.persisted <= SerialRows(c.frames, c.oracle.analyze)
            && (s.k.at == Ended(Finished) && !s.sh.stop ==> s.k.persisted == SerialRows(c.frames, c.oracle.analyze))
            && (s.k.at == Ended(Canceled) || s.k.at == Ended(Finished) ==>
                  s.k.persisted == SerialRows(c.frames[..s.k.taken], c.oracle.analyze))
  {
    var s := Last(states);
    RunKeepsInv(c, states, actions, |actions|);
    PersistedPrefix(c.oracle, c.frames, s.k);
    if s.k.at == Ended(Finished) && !s.sh.stop {
      assert c.frames[..|c.frames|] == c.frames;
    }
  }

  lemma PersistedPrefix(b: Backend, frames: seq<Listed>, k: Consumer)
    requires BatchInv(b, k) && RefinementInv(b, frames, k)
    ensures k.persisted <= SerialRows(frames, b.analyze)
    ensures Outcomed(k) && k.at.outcome != WriteFailed ==>
              k.persisted == SerialRows(frames[..k.taken], b.analyze)
  {
    var upTo := SerialRows(frames[..Resolved(k)], b.analyze);
    SerialRowsPrefix(frames, Resolved(k), b.analyze);
    FrontOfFront(k.persisted, BatchRows(k.batch, b.analyze), upTo, SerialRows(frames, b.analyze));
    if Outcomed(k) && k.at.outcome != WriteFailed {
      assert k.batch == [] && Resolved(k) == k.taken;
      assert k.persisted + [] == k.persisted;
    }
  }

  lemma FrontOfFront<T>(a: seq<T>, b: seq<T>, c: seq<T>, d: seq<T>)
    requires a + b == c && c <= d
    ensures a <= d
  {
    assert a == c[..|a|];
  }

  /** Every oracle call in every interleaving holds between one and `batchSize` images of one
      shape, and the calls laid end to end are the decodable frames in iterator order, none
      skipped and none sent twice. */
  lemma BatchesPartitionTheFrames(c: Config, states: seq<State>, actions: seq<Action>)
    requires c.Valid() && IsRun(c, states, actions)
    ensures var s := Last(states);
            && (forall i :: 0 <= i < |s.k.calls| ==> WellBatched(c.oracle, s.k.calls[i]))
            && Flatten(s.k.calls) <= Decodable(c.frames)
            && (s.k.at == Ended(Finished) && !s.sh.stop ==> Flatten(s.k.calls) == Decodable(c.frames))
  {
    var s := Last(states);
    RunKeepsInv(c, states, actions, |actions|);
    SentPrefix(c.oracle, c.frames, s.k);
    if s.k.at == Ended(Finished) && !s.sh.stop {
      assert c.frames[..|c.frames|] == c.frames;
    }
  }

  lemma SentPrefix(b: Backend, frames: seq<Listed>, k: Consumer)
    requires BatchInv(b, k) && RefinementInv(b, frames, k)
    ensures Flatten(k.calls) <= Decodable(frames)
    ensures Outcomed(k) && k.at.outcome != WriteFailed ==>
              Flatten(k.calls) == Decodable(frames[..k.taken])
  {
    var upTo := Decodable(frames[..Resolved(k)]);
    DecodablePrefix(frames, Resolved(k));
    assert Flatten(k.calls) == upTo[..|Flatten(k.calls)|];
  }

  lemma {:induction false} DecodablePrefix(frames: seq<Listed>, i: nat)
    requires i <= |frames|
    ensures Decodable(frames[..i]) <= Decodable(frames)
    decreases |frames| - i
  {
    if i == |frames| {
      assert frames[..i] == frames;
    } else {
      DecodableSnoc(frames, i);
      DecodablePrefix(frames, i + 1);
    }
  }

  /** Nothing is lost from the tallies: at the end of an unfailed sweep every frame taken is done
      or an error, `done` is the number of rows persisted and `present` the positive ones. When a
      write raised, what is missing is the unwritten rows and a frame the consumer had in hand. */
  lemma TalliesAccountForEveryFrame(c: Config, states: seq<State>, actions: seq<Action>)
    requires c.Valid() && IsRun(c, states, actions) && Last(states).k.at.Ended?
    ensures var k := Last(states).k;
            && k.done == |k.persisted| && k.present == CountPresent(k.persisted)
            && (k.at.outcome != WriteFailed ==> k.done + k.errors == k.taken)
            && (k.at.outcome == WriteFailed ==>
                  k.done + k.errors + |BatchRows(k.batch, c.oracle.analyze)| + k.dropped == k.taken && k.dropped <= 1)
            && (k.at.outcome == Finished && !Last(states).sh.stop ==> k.done + k.errors == |c.frames|)
  {
    RunKeepsInv(c, states, actions, |actions|);
  }

  /** Whether `run_analysis` raises once both threads are done: a write error propagates out of
      the loop, otherwise a captured iterator fault is raised after the join. */
  predicate JobRaises(s: State) {
    s.k.at.Ended? && (s.k.at.outcome == WriteFailed || s.sh.fatal)
  }

  /** An iterator fault is never swallowed and never costs a row: with no stop and no failed
      write the job fails exactly when the iterator did, and every frame it yielded is accounted
      for first. */
  lemma IteratorFaultSurfaces(c: Config, states: seq<State>, actions: seq<Action>)
    requires c.Valid() && IsRun(c, states, actions)
    requires Last(states).k.at == Ended(Finished) && !Last(states).sh.stop
    ensures JobRaises(Last(states)) <==> c.iterFaults
    ensures Last(states).k.persisted == SerialRows(c.frames, c.oracle.analyze)
  {
    RunKeepsInv(c, states, actions, |actions|);
    PersistedRefinesSerial(c, states, actions);
  }

  // --- No batch smaller than it must be ------------------------------------------------

  /** The calls made, with the batch being filled, each cut off because it was full or because the
      next image had another shape; and where the consumer is says which. */
  ghost predicate ChunkInv(b: Backend, k: Consumer) {
    && Greedy(b, if k.batch == [] || AwaitsWrite(k) then k.calls else k.calls + [k.batch])
    && (AwaitsWrite(k) ==> k.calls != [] && k.calls[|k.calls| - 1] == k.batch)
    && (InFlush(k) && k.at.after.ThenAppend? ==> k.at.after.image.shape != k.batchShape)
    && (InFlush(k) && k.at.after.ThenCheck? ==> |k.batch| == b.batchSize)
    && (k.batch == [] && (k.at.Getting? || k.at.Handling? || k.at.Checking?) ==> LastWasFull(b, k.calls))
  }

  ghost predicate LastWasFull(b: Backend, calls: seq<seq<Pending>>) {
    calls != [] ==> |calls[|calls| - 1]| == b.batchSize
  }

  lemma AppendChunks(b: Backend, k: Consumer, id: int, image: Image)
    requires BatchInv(b, k) && Greedy(b, if k.batch == [] then k.calls else k.calls + [k.batch])
    requires |k.batch| < b.batchSize && !AwaitsWrite(Appended(b, k, id, image))
    requires if k.batch == [] then CutOff(b, k.calls, image.shape) else image.shape == k.batchShape
    ensures ChunkInv(b, Appended(b, k, id, image))
  {
    ChunksTakeOne(b, k.calls, k.batch, Flatten(k.calls) + k.batch, Pending(id, image));
  }

  lemma HandleChunks(b: Backend, k: Consumer)
    requires BatchInv(b, k) && ChunkInv(b, k) && k.at.Handling?
    ensures ChunkInv(b, Handled(b, k))
  {
    if k.at.item.Decoded? && (k.batch == [] || k.at.item.image.shape == k.batchShape) {
      AppendChunks(b, k, k.at.item.id, k.at.item.image);
    }
  }

  lemma WriteChunks(b: Backend, k: Consumer)
    requires BatchInv(b, k) && ChunkInv(b, k) && k.at.Writing? && 1 <= b.batchSize
    ensures ChunkInv(b, Resumed(b, Written(k)))
  {
    if k.at.after.ThenAppend? {
      assert k.batch[0].image.shape == k.batchShape;
      AppendChunks(b, Written(k).(at := Getting), k.at.after.id, k.at.after.image);
      assert Appended(b, Written(k).(at := Getting), k.at.after.id, k.at.after.image) == Resumed(b, Written(k));
    }
  }

  lemma MoveChunks(b: Backend, k: Consumer, m: LocalMove)
    requires BatchInv(b, k) && ChunkInv(b, k) && 1 <= b.batchSize && CanMove(b, k, m)
    ensures ChunkInv(b, Moved(b, k, m))
  {
    match m
    case Handle => HandleChunks(b, k);
    case WriteSucceeds => WriteChunks(b, k);
    case _ =>
  }

  lemma StepChunks(c: Config, s: State, a: Action)
    requires Inv(c, s) && ChunkInv(c.oracle, s.k) && Enabled(c, s, a)
    ensures ChunkInv(c.oracle, Apply(c, s, a).k)
  {
    if a.Consume? {
      ConsumeChunks(c, s, a.step);
    }
  }

  lemma ConsumeChunks(c: Config, s: State, m: ConsumerMove)
    requires c.Valid() && BatchInv(c.oracle, s.k) && ChunkInv(c.oracle, s.k) && CanConsume(c, s, m)
    ensures ChunkInv(c.oracle, ConsumerNext(c, s, m))
  {
    match m
    case Local(move) => MoveChunks(c.oracle, s.k, move);
    case Get =>
    case CheckStop =>
    case SetAbort =>
    case DrainOne =>
    case DrainEmpty =>
    case Join =>
  }

  lemma {:induction false} RunChunks(c: Config, states: seq<State>, actions: seq<Action>, i: nat)
    requires c.Valid() && IsRun(c, states, actions) && i < |states|
    ensures ChunkInv(c.oracle, states[i].k)
  {
    if i > 0 {
      RunChunks(c, states, actions, i - 1);
      RunKeepsInv(c, states, actions, i - 1);
      assert Steps(c, states[i - 1], actions[i - 1], states[i - 1 + 1]);
      StepChunks(c, states[i - 1], actions[i - 1]);
    }
  }

  /** In every interleaving each oracle call but the last is full, or was cut off by an image of
      another shape, with which the next call starts. */
  lemma CallsAreAsLargeAsCanBe(c: Config, states: seq<State>, actions: seq<Action>, i: nat)
    requires c.Valid() && IsRun(c, states, actions) && i + 1 < |Last(states).k.calls|
    ensures var calls := Last(states).k.calls;
            && calls[i] != [] && calls[i + 1] != []
            && (|calls[i]| == c.oracle.batchSize || calls[i][0].image.shape != calls[i + 1][0].image.shape)
  {
    RunChunks(c, states, actions, |actions|);
    var k := Last(states).k;
    var all := if k.batch == [] || AwaitsWrite(k) then k.calls else k.calls + [k.batch];
    assert Placed(c.oracle, all, i) && Placed(c.oracle, all, i + 1);
    assert all[i] == k.calls[i] && all[i + 1] == k.calls[i + 1];
  }

  // --- Stopping ------------------------------------------------------------------------

  ghost predicate LeftAs(k: Consumer, outcome: Outcome) {
    Outcomed(k) && k.at.outcome == outcome
  }

  /** A step that makes the consumer leave with a failed write, or canceled. */
  ghost predicate FailsWrite(a: Action) {
    a == Consume(Local(WriteRaises))
  }

  ghost predicate SeesStop(s: State, a: Action) {
    a == Consume(CheckStop) && s.sh.stop
  }

  lemma ConsumeOutcome(c: Config, s: State, m: ConsumerMove)
    requires CanConsume(c, s, m)
    ensures var k := ConsumerNext(c, s, m);
            && (LeftAs(k, WriteFailed) <==> LeftAs(s.k, WriteFailed) || FailsWrite(Consume(m)))
            && (LeftAs(k, Canceled) <==> LeftAs(s.k, Canceled) || SeesStop(s, Consume(m)))
  {
    match m
    case Local(move) => LocalFrame(c.oracle, s.k, move);
    case Get =>
    case CheckStop =>
    case SetAbort =>
    case DrainOne =>
    case DrainEmpty =>
    case Join =>
  }

  lemma StepOutcome(c: Config, s: State, a: Action)
    requires Enabled(c, s, a)
    ensures var t := Apply(c, s, a);
            && (LeftAs(t.k, WriteFailed) <==> LeftAs(s.k, WriteFailed) || FailsWrite(a))
            && (LeftAs(t.k, Canceled) <==> LeftAs(s.k, Canceled) || SeesStop(s, a))
  {
    if a.Consume? {
      ConsumeOutcome(c, s, a.step);
    }
  }

  lemma OutcomeAt(c: Config, states: seq<State>, actions: seq<Action>, i: nat)
    requires IsRun(c, states, actions) && i < |actions|
    ensures LeftAs(states[i + 1].k, WriteFailed) <==> LeftAs(states[i].k, WriteFailed) || FailsWrite(actions[i])
    ensures LeftAs(states[i + 1].k, Canceled) <==> LeftAs(states[i].k, Canceled) || SeesStop(states[i], actions[i])
  {
    assert Steps(c, states[i], actions[i], states[i + 1]);
    StepOutcome(c, states[i], actions[i]);
  }

  /** One of the first `n` steps was a write that raised. */
  ghost predicate AWriteFailed(actions: seq<Action>, n: nat)
    requires n <= |actions|
  {
    exists j :: 0 <= j < n && FailsWrite(actions[j])
  }

  /** One of the first `n` steps was a look at the stop flag that saw it set. */
  ghost predicate AStopWasSeen(states: seq<State>, actions: seq<Action>, n: nat)
    requires n <= |actions| <= |states|
  {
    exists j :: 0 <= j < n && SeesStop(states[j], actions[j])
  }

  /** Every end has its cause: the consumer has left with a failed write exactly if a write raised, and
      canceled exactly if it looked at the stop flag, after a full batch, and it was set. */
  lemma {:induction false} OutcomeHasItsCause(c: Config, states: seq<State>, actions: seq<Action>, i: nat)
    requires IsRun(c, states, actions) && i <= |actions|
    ensures LeftAs(states[i].k, WriteFailed) <==> AWriteFailed(actions, i)
    ensures LeftAs(states[i].k, Canceled) <==> AStopWasSeen(states, actions, i)
  {
    if i > 0 {
      OutcomeHasItsCause(c, states, actions, i - 1);
      OutcomeAt(c, states, actions, i - 1);
      OneStepMore(states, actions, i - 1);
    }
  }

  lemma OneStepMore(states: seq<State>, actions: seq<Action>, i: nat)
    requires i < |actions| <= |states|
    ensures AWriteFailed(actions, i + 1) <==> AWriteFailed(actions, i) || FailsWrite(actions[i])
    ensures AStopWasSeen(states, actions, i + 1) <==>
            AStopWasSeen(states, actions, i) || SeesStop(states[i], actions[i])
  {
  }

  /** What the producer may still put with the stop flag set: the frame whose flags it checked before. */
  function StillPuts(p: Producer): nat {
    if p.at.Putting? then 1 else 0
  }

  lemma StopStep(c: Config, s: State, a: Action)
    requires ProducerInv(c, s.sh, s.p) && Enabled(c, s, a) && s.sh.stop
    ensures var t := Apply(c, s, a);
            && t.sh.stop
            && t.p.put + StillPuts(t.p) <= s.p.put + StillPuts(s.p)
            && (Outcomed(s.k) ==> Outcomed(t.k) && t.k.taken == s.k.taken && t.k.persisted == s.k.persisted)
  {
    match a
    case OperatorStops =>
    case Produce(m) => ProducerStops(c, s.sh, s.p, m);
    case Consume(m) =>
  }

  lemma ProducerStops(c: Config, sh: Shared, p: Producer, m: ProducerMove)
    requires ProducerInv(c, sh, p) && CanProduce(c, sh, p, m) && sh.stop
    ensures SharedAfterProducer(c, sh, p, m).stop
    ensures var p' := ProducerNext(c, sh, p, m); p'.put + StillPuts(p') <= p.put + StillPuts(p)
  {
  }

  lemma {:induction false} StopRun(c: Config, states: seq<State>, actions: seq<Action>, from: nat, i: nat)
    requires c.Valid() && IsRun(c, states, actions) && from <= i < |states| && states[from].sh.stop
    ensures var s, t := states[from], states[i];
            && t.sh.stop
            && t.p.put + StillPuts(t.p) <= s.p.put + StillPuts(s.p)
            && (Outcomed(s.k) ==> Outcomed(t.k) && t.k.taken == s.k.taken && t.k.persisted == s.k.persisted)
    decreases i
  {
    if from < i {
      StopRun(c, states, actions, from, i - 1);
      RunKeepsInv(c, states, actions, i - 1);
      assert Steps(c, states[i - 1], actions[i - 1], states[i - 1 + 1]);
      StopStep(c, states[i - 1], actions[i - 1]);
    }
  }

  lemma StopLooked(c: Config, states: seq<State>, actions: seq<Action>, from: nat, i: nat)
    requires c.Valid() && IsRun(c, states, actions) && from < i < |states| && states[from].sh.stop
    requires actions[from] == Consume(CheckStop)
    ensures LeftAs(states[i].k, Canceled)
    ensures states[i].k.taken == states[from].k.taken && states[i].k.persisted == states[from].k.persisted
  {
    assert Steps(c, states[from], actions[from], states[from + 1]);
    StopRun(c, states, actions, from + 1, i);
    OutcomeHasItsCause(c, states, actions, i);
    assert SeesStop(states[from], actions[from]);
  }

  lemma TakenAfterStop(c: Config, s: State, t: State)
    requires Inv(c, s) && Inv(c, t) && t.p.put <= s.p.put + 1
    requires Outcomed(s.k) ==> t.k.taken == s.k.taken
    ensures t.k.taken <= s.k.taken + 2 * c.oracle.batchSize + 1
  {
  }

  /** A stop is prompt. Once it is set the producer ships at most one frame more, so the consumer takes
      at most what is queued and that one; and after the first look at the flag, which every full batch
      brings, it takes and persists nothing more and ends canceled. */
  lemma StopIsPrompt(c: Config, states: seq<State>, actions: seq<Action>, from: nat, i: nat)
    requires c.Valid() && IsRun(c, states, actions) && from <= i < |states| && states[from].sh.stop
    ensures states[i].p.put <= states[from].p.put + 1
    ensures states[i].k.taken <= states[from].k.taken + 2 * c.oracle.batchSize + 1
    ensures from < i && actions[from] == Consume(CheckStop) ==>
              && LeftAs(states[i].k, Canceled)
              && states[i].k.taken == states[from].k.taken && states[i].k.persisted == states[from].k.persisted
  {
    StopRun(c, states, actions, from, i);
    RunKeepsInv(c, states, actions, from);
    RunKeepsInv(c, states, actions, i);
    TakenAfterStop(c, states[from], states[i]);
    if from < i && actions[from] == Consume(CheckStop) {
      StopLooked(c, states, actions, from, i);
    }
  }
}
