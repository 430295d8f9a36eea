/** The stateless sweep of `run_analysis`: a decode-ahead producer thread, a bounded queue with
    a sentinel, an abort flag, and a consumer that batches. The two threads are one transition
    system with a program counter each; a run is any interleaving of their steps, with the
    operator's stop, put timeouts, batch failures and write failures free to happen anywhere. */
module StatelessSweep {
  import opened SweepModel
  import opened BatchConsumer

  /** `frames` is what the iterator yields, after which it ends or, if `iterFaults`, raises. */
  datatype Config = Config(frames: seq<Listed>, iterFaults: bool, oracle: Backend) {
    ghost predicate Valid() { 1 <= oracle.batchSize }
    function Capacity(): nat { 2 * oracle.batchSize }
  }

  /** Where the producer is. `checked` is inside `_abort_put`: the abort flag was just seen
      clear and the timed put is in progress. */
  datatype ProducerAt =
    | Fetching
    | Got
    | Putting(checked: bool)
    | Finishing(checked: bool)
    | Exited

  /** The producer thread, with the number of frames pulled off the iterator and put so far. */
  datatype Producer = Producer(at: ProducerAt, pulled: nat, put: nat)

  /** What the threads share. `late` counts the puts that landed after the abort was set. */
  datatype Shared = Shared(q: seq<Item>, abort: bool, stop: bool, fatal: bool, late: nat)

  datatype State = State(sh: Shared, p: Producer, k: Consumer)

  const INIT := State(Shared([], false, false, false, 0), Producer(Fetching, 0, 0), FRESH)

  datatype Action =
    | OperatorStops
    | Produce(move: ProducerMove)
    | Consume(step: ConsumerMove)

  datatype ProducerMove = Pull | CheckFlags | CheckAbort | PutLands | PutTimesOut

  datatype ConsumerMove =
    | Get
    | Local(move: LocalMove)
    | CheckStop
    | SetAbort
    | DrainOne
    | DrainEmpty
    | Join

  // --- The producer --------------------------------------------------------------------

  predicate InPut(p: Producer) {
    p.at.Putting? || p.at.Finishing?
  }

  predicate MidPut(p: Producer) {
    InPut(p) && p.at.checked
  }

  predicate Leaving(p: Producer) {
    p.at.Finishing? || p.at.Exited?
  }

  ghost predicate CanProduce(c: Config, sh: Shared, p: Producer, m: ProducerMove) {
    match m
    case Pull => p.at.Fetching?
    case CheckFlags => p.at.Got?
    case CheckAbort => InPut(p) && !p.at.checked
    case PutLands => MidPut(p) && |sh.q| < c.Capacity() && (p.at.Putting? ==> p.put < |c.frames|)
    case PutTimesOut => MidPut(p) && |sh.q| >= c.Capacity()
  }

  ghost function ProducerNext(c: Config, sh: Shared, p: Producer, m: ProducerMove): Producer
    requires CanProduce(c, sh, p, m)
  {
    match m
    case Pull =>
      if p.pulled < |c.frames| then p.(at := Got, pulled := p.pulled + 1) else p.(at := Finishing(false))
    case CheckFlags => p.(at := if sh.abort || sh.stop then Finishing(false) else Putting(false))
    case CheckAbort =>
      if p.at.Putting? then p.(at := if sh.abort then Finishing(false) else Putting(true))
      else p.(at := if sh.abort then Exited else Finishing(true))
    case PutLands =>
      if p.at.Putting? then p.(at := Fetching, put := p.put + 1) else p.(at := Exited)
    case PutTimesOut => p.(at := if p.at.Putting? then Putting(false) else Finishing(false))
  }

  ghost function SharedAfterProducer(c: Config, sh: Shared, p: Producer, m: ProducerMove): Shared
    requires CanProduce(c, sh, p, m)
  {
    match m
    case Pull => if p.pulled < |c.frames| then sh else sh.(fatal := c.iterFaults)
    case PutLands =>
      sh.(q := sh.q + [if p.at.Putting? then ItemOf(c.frames[p.put]) else Sentinel],
          late := sh.late + if sh.abort then 1 else 0)
    case _ => sh
  }

  // --- The consumer --------------------------------------------------------------------

  ghost predicate CanConsume(c: Config, s: State, m: ConsumerMove) {
    match m
    case Get => s.k.at.Getting? && s.sh.q != []
    case Local(move) => CanMove(c.oracle, s.k, move)
    case CheckStop => s.k.at.Checking?
    case SetAbort => s.k.at.Unwinding?
    case DrainOne => s.k.at.Draining? && s.sh.q != []
    case DrainEmpty => s.k.at.Draining? && s.sh.q == []
    case Join => s.k.at.Joining? && s.p.at.Exited?
  }

  ghost function ConsumerNext(c: Config, s: State, m: ConsumerMove): Consumer
    requires CanConsume(c, s, m)
  {
    match m
    case Get => Took(s.k, s.sh.q[0])
    case Local(move) => Moved(c.oracle, s.k, move)
    case CheckStop => s.k.(at := if s.sh.stop then Unwinding(Canceled) else Getting)
    case SetAbort => s.k.(at := Draining(s.k.at.outcome))
    case DrainOne => s.k
    case DrainEmpty => s.k.(at := Joining(s.k.at.outcome))
    case Join => s.k.(at := Ended(s.k.at.outcome))
  }

  ghost function SharedAfterConsumer(c: Config, s: State, m: ConsumerMove): Shared
    requires CanConsume(c, s, m)
  {
    match m
    case Get => s.sh.(q := s.sh.q[1..])
    case DrainOne => s.sh.(q := s.sh.q[1..])
    case CheckStop => if s.sh.stop then s.sh.(abort := true) else s.sh
    case SetAbort => s.sh.(abort := true)
    case _ => s.sh
  }

  // --- Runs ----------------------------------------------------------------------------

  ghost predicate Enabled(c: Config, s: State, a: Action) {
    match a
    case OperatorStops => !s.sh.stop
    case Produce(m) => CanProduce(c, s.sh, s.p, m)
    case Consume(m) => CanConsume(c, s, m)
  }

  ghost function Apply(c: Config, s: State, a: Action): State
    requires Enabled(c, s, a)
  {
    match a
    case OperatorStops => s.(sh := s.sh.(stop := true))
    case Produce(m) => State(SharedAfterProducer(c, s.sh, s.p, m), ProducerNext(c, s.sh, s.p, m), s.k)
    case Consume(m) => State(SharedAfterConsumer(c, s, m), s.p, ConsumerNext(c, s, m))
  }

  ghost predicate Steps(c: Config, s: State, a: Action, t: State) {
    Enabled(c, s, a) && t == Apply(c, s, a)
  }

  /** Any interleaving: `states` from the start, one enabled action between neighbours. */
  ghost predicate IsRun(c: Config, states: seq<State>, actions: seq<Action>) {
    && |states| == |actions| + 1
    && states[0] == INIT
    && forall i {:trigger actions[i]} :: 0 <= i < |actions| ==> Steps(c, states[i], actions[i], states[i + 1])
  }

  // --- The invariant -------------------------------------------------------------------

  /** Items of the frames `from..to`, as the producer ships them. */
  ghost function Items(frames: seq<Listed>, from: nat, to: nat): (r: seq<Item>)
    requires from <= to <= |frames|
    ensures |r| == to - from
  {
    seq(to - from, i requires 0 <= i < to - from => ItemOf(frames[from + i]))
  }

  /** The producer's place in the frames, and what its leaving implies for the flags. */
  ghost predicate ProducerInv(c: Config, sh: Shared, p: Producer) {
    && p.put <= p.pulled <= |c.frames|
    && (p.at.Fetching? ==> p.put == p.pulled)
    && (p.at.Got? || p.at.Putting? ==> p.pulled == p.put + 1)
    && (Leaving(p) ==> (p.put == p.pulled == |c.frames|) || ((sh.abort || sh.stop) && p.pulled == p.put + 1))
    && (sh.fatal <==> c.iterFaults && Leaving(p) && p.put == p.pulled)
  }

  /** What is in the queue: while the consumer loops, exactly the items put and not yet taken,
      then the sentinel if the producer is gone. */
  ghost predicate QueueInv(c: Config, s: State)
    requires s.p.put <= |c.frames|
  {
    && s.k.taken <= s.p.put
    && |s.sh.q| <= c.Capacity()
    && (SentinelSeen(s.k) ==> s.p.at.Exited? && s.k.taken == s.p.put && s.sh.q == [])
    && (SentinelSeen(s.k) && !s.sh.stop ==> s.p.put == s.p.pulled == |c.frames|)
    && (!Outcomed(s.k) && !SentinelSeen(s.k) ==>
          s.sh.q == Items(c.frames, s.k.taken, s.p.put) + if s.p.at.Exited? then [Sentinel] else [])
    && (s.k.at.Handling? && !s.k.at.item.Sentinel? ==>
          1 <= s.k.taken && s.k.at.item == ItemOf(c.frames[s.k.taken - 1]))
  }

  /** The anti-wedge half: abort is set only when the consumer has left its loop, and at most
      the one put already past its check can land afterwards. */
  ghost predicate AbortInv(s: State) {
    && (s.k.at.Draining? || s.k.at.Joining? || s.k.at.Ended? ==> s.sh.abort)
    && (s.sh.abort ==> Outcomed(s.k))
    && (!s.sh.abort ==> s.sh.late == 0)
    && s.sh.late + (if s.sh.abort && MidPut(s.p) then 1 else 0) <= 1
    && (s.k.at.Joining? || s.k.at.Ended? ==> |s.sh.q| + (if MidPut(s.p) then 1 else 0) <= 1)
    && (s.k.at.Ended? ==> s.p.at.Exited?)
    && (Outcomed(s.k) && s.k.at.outcome == Canceled ==> s.sh.stop)
  }

  ghost predicate Inv(c: Config, s: State) {
    && c.Valid()
    && ProducerInv(c, s.sh, s.p)
    && QueueInv(c, s)
    && AbortInv(s)
    && ConsumerInv(c.oracle, c.frames, s.k)
  }

  lemma InitInv(c: Config)
    requires c.Valid()
    ensures Inv(c, INIT)
  {
    assert c.frames[..0] == [];
    assert Items(c.frames, 0, 0) == [];
  }

  lemma ProducerKeepsProducerInv(c: Config, sh: Shared, p: Producer, m: ProducerMove)
    requires ProducerInv(c, sh, p) && CanProduce(c, sh, p, m)
    ensures ProducerInv(c, SharedAfterProducer(c, sh, p, m), ProducerNext(c, sh, p, m))
  {
  }

  lemma ProducerKeepsQueue(c: Config, s: State, m: ProducerMove)
    requires ProducerInv(c, s.sh, s.p) && QueueInv(c, s) && AbortInv(s) && CanProduce(c, s.sh, s.p, m)
    ensures ProducerNext(c, s.sh, s.p, m).put <= |c.frames|
    ensures QueueInv(c, Apply(c, s, Produce(m)))
  {
    var items := Items(c.frames, s.k.taken, s.p.put);
    assert forall q: seq<Item> :: q + [] == q;
    if m.PutLands? && s.p.at.Putting? {
      assert Items(c.frames, s.k.taken, s.p.put + 1) == items + [ItemOf(c.frames[s.p.put])];
    }
  }

  lemma ProducerKeepsAbort(c: Config, s: State, m: ProducerMove)
    requires AbortInv(s) && CanProduce(c, s.sh, s.p, m)
    ensures AbortInv(Apply(c, s, Produce(m)))
  {
  }

  lemma ConsumerKeepsQueue(c: Config, s: State, m: ConsumerMove)
    requires ProducerInv(c, s.sh, s.p) && QueueInv(c, s) && AbortInv(s) && CanConsume(c, s, m)
    ensures QueueInv(c, Apply(c, s, Consume(m)))
  {
    if m.Get? {
      var items := Items(c.frames, s.k.taken, s.p.put);
      if s.k.taken < s.p.put {
        assert s.sh.q[0] == items[0] == ItemOf(c.frames[s.k.taken]);
        assert items[1..] == Items(c.frames, s.k.taken + 1, s.p.put);
      } else {
        assert items == [];
      }
    }
    if m.Local? {
      LocalFrame(c.oracle, s.k, m.move);
    }
  }

  lemma ConsumerKeepsAbort(c: Config, s: State, m: ConsumerMove)
    requires AbortInv(s) && CanConsume(c, s, m)
    ensures AbortInv(Apply(c, s, Consume(m)))
  {
    if m.Local? {
      LocalFrame(c.oracle, s.k, m.move);
    }
  }

  lemma GetKeepsConsumerInv(c: Config, s: State)
    requires Inv(c, s) && CanConsume(c, s, Get)
    ensures ConsumerInv(c.oracle, c.frames, ConsumerNext(c, s, Get))
  {
    var items := Items(c.frames, s.k.taken, s.p.put);
    if s.k.taken < s.p.put {
      assert s.sh.q[0] == items[0] == ItemOf(c.frames[s.k.taken]);
    } else {
      assert items == [];
    }
    TookKeeps(c.oracle, c.frames, s.k, s.sh.q[0]);
  }

  lemma ConsumerKeepsConsumerInv(c: Config, s: State, m: ConsumerMove)
    requires Inv(c, s) && CanConsume(c, s, m)
    ensures ConsumerInv(c.oracle, c.frames, ConsumerNext(c, s, m))
  {
    match m
    case Get => GetKeepsConsumerInv(c, s);
    case Local(move) => MoveKeeps(c.oracle, c.frames, s.k, move);
    case CheckStop => GoesOnKeeps(c.oracle, c.frames, s.k, if s.sh.stop then Unwinding(Canceled) else Getting);
    case SetAbort => GoesOnKeeps(c.oracle, c.frames, s.k, Draining(s.k.at.outcome));
    case DrainOne =>
    case DrainEmpty => GoesOnKeeps(c.oracle, c.frames, s.k, Joining(s.k.at.outcome));
    case Join => GoesOnKeeps(c.oracle, c.frames, s.k, Ended(s.k.at.outcome));
  }

  /** Every step of every thread keeps the whole invariant. */
  lemma StepKeepsInv(c: Config, s: State, a: Action)
    requires Inv(c, s) && Enabled(c, s, a)
    ensures Inv(c, Apply(c, s, a))
  {
    match a
    case OperatorStops =>
    case Produce(m) =>
      ProducerKeepsProducerInv(c, s.sh, s.p, m);
      ProducerKeepsQueue(c, s, m);
      ProducerKeepsAbort(c, s, m);
    case Consume(m) =>
      ConsumerKeepsQueue(c, s, m);
      ConsumerKeepsAbort(c, s, m);
      ConsumerKeepsConsumerInv(c, s, m);
  }
}
