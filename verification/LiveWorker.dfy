/** The always-on naming worker (`LiveIdentifyManager`) among everything that runs beside it.
    A tick lists the closed visits beyond its watermark and takes each through detect, then
    identify; only then does the watermark pass it. Each lock hold and each call is one step. */
module LiveWorker {
  const MAX_SPANS_PER_TICK: nat := 50

  /** A closed visit: the ids of its first and last motion frame, and a number no other visit
      ever has. Clustering is the store's; `closed_visits` is taken at its contract. */
  datatype Visit = Visit(lo: int, hi: int, mark: nat)

  datatype Phase =
    | Waiting
    | Snapped(epoch: nat, watermark: int)
    | Clamping(epoch: nat, latest: int)
    | Querying(epoch: nat, watermark: int)
    | AtSpan(epoch: nat, spans: seq<Visit>, i: nat)
    | Detecting(epoch: nat, spans: seq<Visit>, i: nat)
    | Detected(epoch: nat, spans: seq<Visit>, i: nat, complete: bool)
    | Identifying(epoch: nat, spans: seq<Visit>, i: nat)
    | Advancing(epoch: nat, spans: seq<Visit>, i: nat)

  datatype Worker = Worker(phase: Phase, stopped: bool)

  datatype Starter = Checking | Reading | Setting(horizon: int) | Unflagging | Locking

  datatype Clearer = Wiping | ReadingHorizon | Resetting(horizon: int)

  /** `visits` is what the store can list as closed, oldest first; `latest` its greatest row id.
      `neverEnabled` is `_seed_horizon`. The history: the spans whose detect, and whose identify,
      completed (a visit cut short by a query is not that visit's span); the last seed; and the
      greatest id in a visit closed since the last reset. */
  datatype System = System(
    visits: seq<Visit>, latest: int, marks: nat,
    watermark: int, epoch: nat, neverEnabled: bool, running: bool, current: nat, threads: nat,
    workers: map<nat, Worker>, starters: map<nat, Starter>, clearers: map<nat, Clearer>,
    detected: set<Visit>, identified: set<Visit>, seed: int, high: int
  )

  datatype PassEnd = Completes | StopsPartway | Raises

  datatype Action =
    | Grow(id: int)
    | Shrink(latest: int)
    | Close(lo: int, hi: int)
    | Evict
    | StarterArrives(k: nat)
    | StarterSteps(k: nat)
    | Stop
    | ClearerArrives(k: nat)
    | ClearerSteps(k: nat)
    | Tick(w: nat, move: TickMove)

  datatype TickMove =
    | Snap
    | ReadLatest
    | Clamp
    | Query(spans: seq<Visit>)
    | BeginSpan(busy: bool)
    | EndDetect(end: PassEnd)
    | CheckStop
    | EndIdentify(end: PassEnd)
    | Advance

  ghost predicate Ordered(visits: seq<Visit>) {
    && (forall i :: 0 <= i < |visits| ==> visits[i].lo <= visits[i].hi)
    && forall i, j :: 0 <= i < j < |visits| ==> visits[i].hi < visits[j].lo
  }

  function Max(a: int, b: int): int { if a <= b then b else a }

  /** `closed_visits(since, now)`: the closed visits with a frame beyond `since`, oldest first,
      one that `since` cuts through being listed from its first frame beyond. */
  ghost predicate Lists(visits: seq<Visit>, since: int, spans: seq<Visit>) {
    && Ordered(spans)
    && (forall i :: 0 <= i < |spans| ==> since < spans[i].lo)
    && (forall v :: v in visits && since < v.lo ==> v in spans)
    && (forall v {:trigger CutBy(v, since)} ::
          v in visits && CutBy(v, since) ==> exists u :: u in spans && TailOf(u, v))
    && (forall u :: u in spans ==> exists v :: v in visits && TailOf(u, v))
  }

  predicate CutBy(v: Visit, since: int) { v.lo <= since < v.hi }

  /** The visit from one of its frames on. */
  predicate TailOf(u: Visit, v: Visit) {
    u.mark == v.mark && u.hi == v.hi && v.lo <= u.lo
  }

  /** What is left when the rows above `latest` are gone. A visit that loses its last frames is no
      longer that visit: what remains of it, and rows that reuse its ids, may close as another. */
  ghost function EndedBy(visits: seq<Visit>, latest: int): (r: seq<Visit>)
    ensures r <= visits
  {
    if visits == [] || visits[|visits| - 1].hi <= latest then visits
    else EndedBy(visits[..|visits| - 1], latest)
  }

  ghost predicate CanTick(s: System, w: Worker, m: TickMove) {
    match m
    case Snap => w.phase.Waiting?
    case ReadLatest => w.phase.Snapped?
    case Clamp => w.phase.Clamping?
    case Query(spans) => w.phase.Querying? && Lists(s.visits, w.phase.watermark, spans)
    case BeginSpan(_) => w.phase.AtSpan?
    case EndDetect(end) => w.phase.Detecting? && (end.StopsPartway? ==> w.stopped) && w.phase.i < |w.phase.spans|
    case CheckStop => w.phase.Detected?
    case EndIdentify(end) => w.phase.Identifying? && (end.StopsPartway? ==> w.stopped) && w.phase.i < |w.phase.spans|
    case Advance => w.phase.Advancing? && w.phase.i < |w.phase.spans|
  }

  ghost predicate Enabled(s: System, a: Action) {
    match a
    case Grow(id) => id > s.latest
    case Shrink(latest) => 0 <= latest <= s.latest
    case Close(lo, hi) => 1 <= lo <= hi <= s.latest && forall v :: v in s.visits ==> v.hi < lo
    case Evict => s.visits != []
    case StarterArrives(k) => k !in s.starters
    case StarterSteps(k) => k in s.starters
    case Stop => s.running && s.current in s.workers
    case ClearerArrives(k) => k !in s.clearers
    case ClearerSteps(k) => k in s.clearers
    case Tick(w, move) => w in s.workers && CanTick(s, s.workers[w], move)
  }

  ghost function PhaseAfter(s: System, w: Worker, m: TickMove): Phase
    requires CanTick(s, w, m)
  {
    var p := w.phase;
    match m
    case Snap => Snapped(s.epoch, s.watermark)
    case ReadLatest => if p.watermark > s.latest then Clamping(p.epoch, s.latest) else Querying(p.epoch, p.watermark)
    case Clamp => if p.epoch != s.epoch then Waiting else Querying(p.epoch, p.latest)
    case Query(spans) => AtSpan(p.epoch, spans, 0)
    case BeginSpan(busy) =>
      if p.i >= |p.spans| || p.i >= MAX_SPANS_PER_TICK || w.stopped || busy then Waiting
      else Detecting(p.epoch, p.spans, p.i)
    case EndDetect(end) => if end.Raises? then Waiting else Detected(p.epoch, p.spans, p.i, end.Completes?)
    case CheckStop => if w.stopped then Waiting else Identifying(p.epoch, p.spans, p.i)
    case EndIdentify(end) => if end.Completes? then Advancing(p.epoch, p.spans, p.i) else Waiting
    case Advance => if p.epoch != s.epoch then Waiting else AtSpan(p.epoch, p.spans, p.i + 1)
  }

  ghost function WatermarkAfter(s: System, w: Worker, m: TickMove): int
    requires CanTick(s, w, m)
  {
    if m.Clamp? && w.phase.epoch == s.epoch then w.phase.latest
    else if m.Advance? && w.phase.epoch == s.epoch then w.phase.spans[w.phase.i].hi
    else s.watermark
  }

  ghost function DetectedAfter(s: System, w: Worker, m: TickMove): set<Visit>
    requires CanTick(s, w, m)
  {
    if m == EndDetect(Completes) then s.detected + {w.phase.spans[w.phase.i]} else s.detected
  }

  ghost function IdentifiedAfter(s: System, w: Worker, m: TickMove): set<Visit>
    requires CanTick(s, w, m)
  {
    if m == EndIdentify(Completes) then s.identified + {w.phase.spans[w.phase.i]} else s.identified
  }

  ghost function Moves(s: System, w: nat, phase: Phase): System
    requires w in s.workers
  {
    s.(workers := s.workers[w := s.workers[w].(phase := phase)])
  }

  ghost function Apply(s: System, a: Action): System
    requires Enabled(s, a)
  {
    match a
    case Grow(id) => s.(latest := id)
    case Shrink(latest) => s.(latest := latest, visits := EndedBy(s.visits, latest))
    case Close(lo, hi) => Closed(s, Visit(lo, hi, s.marks))
    case Evict => s.(visits := s.visits[1..])
    case StarterArrives(k) => s.(starters := s.starters[k := Checking])
    case StarterSteps(k) => StarterNext(s, k)
    case Stop =>
      s.(running := false, workers := s.workers[s.current := s.workers[s.current].(stopped := true)])
    case ClearerArrives(k) => s.(clearers := s.clearers[k := Wiping])
    case ClearerSteps(k) => ClearerNext(s, k)
    case Tick(w, move) =>
      var worker := s.workers[w];
      Moves(s.(watermark := WatermarkAfter(s, worker, move),
               detected := DetectedAfter(s, worker, move),
               identified := IdentifiedAfter(s, worker, move)),
            w, PhaseAfter(s, worker, move))
  }

  ghost function Closed(s: System, v: Visit): System {
    s.(visits := s.visits + [v], marks := s.marks + 1, high := Max(s.high, v.hi))
  }

  /** `start`: on the very first enable the watermark jumps to the horizon, without touching the
      epoch; then the locked running check. */
  ghost function StarterNext(s: System, k: nat): System
    requires k in s.starters
  {
    match s.starters[k]
    case Checking => s.(starters := s.starters[k := if s.neverEnabled then Reading else Locking])
    case Reading => s.(starters := s.starters[k := Setting(s.latest)])
    case Setting(horizon) => FirstSeeded(s, horizon).(starters := s.starters[k := Unflagging])
    case Unflagging => s.(neverEnabled := false, starters := s.starters[k := Locking])
    case Locking =>
      var left := s.(starters := s.starters - {k});
      if s.running then left
      else
        left.(running := true, current := s.threads, threads := s.threads + 1,
              workers := s.workers[s.threads := Worker(Waiting, false)])
  }

  ghost function FirstSeeded(s: System, horizon: int): System {
    s.(watermark := horizon, seed := horizon)
  }

  /** `/api/clear`. The reset always bumps the epoch, but leaves the watermark of a worker that
      was never enabled alone. */
  ghost function ClearerNext(s: System, k: nat): System
    requires k in s.clearers
  {
    match s.clearers[k]
    case Wiping => s.(visits := [], latest := 0, clearers := s.clearers[k := ReadingHorizon])
    case ReadingHorizon => s.(clearers := s.clearers[k := Resetting(s.latest)])
    case Resetting(horizon) => Reset(s, horizon).(clearers := s.clearers - {k})
  }

  /** The greatest id in a closed visit, or 0. */
  ghost function LastEnd(visits: seq<Visit>): int {
    if visits == [] then 0 else visits[|visits| - 1].hi
  }

  ghost function Reset(s: System, horizon: int): System {
    if s.neverEnabled then s.(epoch := s.epoch + 1)
    else s.(epoch := s.epoch + 1, watermark := horizon, seed := horizon, high := LastEnd(s.visits))
  }

  // --- Runs ----------------------------------------------------------------------------

  ghost predicate IsInit(s: System) {
    && Ordered(s.visits) && (forall v :: v in s.visits ==> 1 <= v.lo && v.hi <= s.latest && v.mark < s.marks)
    && s.high == LastEnd(s.visits) && 0 <= s.latest
    && s.seed == s.watermark && s.detected == {} && s.identified == {}
    && s.workers == map[] && s.starters == map[] && s.clearers == map[] && !s.running
  }

  ghost predicate Steps(s: System, a: Action, t: System) {
    Enabled(s, a) && t == Apply(s, a)
  }

  ghost predicate IsRun(states: seq<System>, actions: seq<Action>) {
    && |states| == |actions| + 1
    && IsInit(states[0])
    && forall i {:trigger actions[i]} :: 0 <= i < |actions| ==> Steps(states[i], actions[i], states[i + 1])
  }

  ghost predicate Current(s: System, w: Worker) {
    !w.phase.Waiting? && w.phase.epoch == s.epoch
  }

  ghost predicate NoTick(s: System) {
    forall w :: w in s.workers ==> !Current(s, s.workers[w])
  }

  // --- What holds in every run ---------------------------------------------------------

  /** How many of the listed spans a tick gets to. */
  function Reach(spans: seq<Visit>): nat {
    if |spans| < MAX_SPANS_PER_TICK then |spans| else MAX_SPANS_PER_TICK
  }

  ghost predicate MarksBelow(visits: seq<Visit>, marks: nat) {
    forall i :: 0 <= i < |visits| ==> visits[i].mark < marks
  }

  /** A list is in order; a pass that completed is on record; a partial detect means a stop. */
  ghost predicate WorkerShape(s: System, w: Worker) {
    && (!w.phase.Waiting? ==> w.phase.epoch <= s.epoch)
    && match w.phase
       case AtSpan(_, spans, i) => Ordered(spans) && MarksBelow(spans, s.marks)
       case Detecting(_, spans, i) => Ordered(spans) && MarksBelow(spans, s.marks) && i < Reach(spans)
       case Detected(_, spans, i, complete) =>
         && Ordered(spans) && MarksBelow(spans, s.marks) && i < Reach(spans)
         && (if complete then spans[i] in s.detected else w.stopped)
       case Identifying(_, spans, i) =>
         Ordered(spans) && MarksBelow(spans, s.marks) && i < Reach(spans) && spans[i] in s.detected
       case Advancing(_, spans, i) =>
         && Ordered(spans) && MarksBelow(spans, s.marks) && i < Reach(spans)
         && spans[i] in s.detected && spans[i] in s.identified
       case _ => true
  }

  ghost predicate Shape(s: System) {
    && 0 <= s.high && Ordered(s.visits) && MarksBelow(s.visits, s.marks)
    && (forall v :: v in s.visits ==> 1 <= v.lo && v.hi <= s.high && v.hi <= s.latest)
    && (forall v :: v in s.detected || v in s.identified ==> v.mark < s.marks)
    && (forall w :: w in s.workers ==> w < s.threads && WorkerShape(s, s.workers[w]))
  }

  /** Threads may be told to stop and waiting ones may be added. */
  lemma WorkersKeepShape(s: System, t: System)
    requires Shape(s) && s.epoch <= t.epoch && s.threads <= t.threads && s.marks <= t.marks
    requires s.detected <= t.detected && s.identified <= t.identified
    requires forall w :: w in t.workers ==>
               || (w < t.threads && t.workers[w].phase.Waiting?)
               || (w in s.workers && t.workers[w].phase == s.workers[w].phase
                   && (s.workers[w].stopped ==> t.workers[w].stopped))
    ensures forall w :: w in t.workers ==> w < t.threads && WorkerShape(t, t.workers[w])
  {
    forall w | w in t.workers
      ensures w < t.threads && WorkerShape(t, t.workers[w])
    {
      assert w in s.workers ==> WorkerShape(s, s.workers[w]);
    }
  }

  lemma {:induction false} EndedByEnds(visits: seq<Visit>, latest: int)
    requires Ordered(visits)
    ensures forall v :: v in EndedBy(visits, latest) <==> v in visits && v.hi <= latest
  {
    if visits != [] {
      var front, last := visits[..|visits| - 1], visits[|visits| - 1];
      assert visits == front + [last];
      if latest < last.hi {
        EndedByEnds(front, latest);
        assert forall v :: v in visits <==> v in front || v == last;
      } else {
        EndsAtItsLast(visits);
      }
    }
  }

  lemma EndsAtItsLast(visits: seq<Visit>)
    requires Ordered(visits) && visits != []
    ensures forall v :: v in visits ==> v.hi <= visits[|visits| - 1].hi
  {
    forall i | 0 <= i < |visits|
      ensures visits[i].hi <= visits[|visits| - 1].hi
    {
    }
  }

  lemma ShrinkKeepsShape(s: System, latest: int)
    requires Shape(s) && Enabled(s, Shrink(latest))
    ensures Shape(Apply(s, Shrink(latest)))
  {
    EndedByEnds(s.visits, latest);
    WorkersKeepShape(s, Apply(s, Shrink(latest)));
  }

  lemma StoreKeepsShape(s: System, a: Action)
    requires Shape(s) && Enabled(s, a) && (a.Grow? || a.Close? || a.Evict?)
    ensures Shape(Apply(s, a))
  {
    WorkersKeepShape(s, Apply(s, a));
  }

  /** Seeds, flags and watermarks do not matter. */
  lemma ActorsKeepShape(s: System, t: System)
    requires Shape(s) && s.epoch <= t.epoch && s.threads <= t.threads
    requires t.visits == s.visits && t.marks == s.marks && t.detected == s.detected && t.identified == s.identified
    requires t.latest == s.latest && (t.high == s.high || t.high == LastEnd(s.visits))
    requires forall w :: w in t.workers ==>
               || (w < t.threads && t.workers[w].phase.Waiting?)
               || (w in s.workers && t.workers[w].phase == s.workers[w].phase
                   && (s.workers[w].stopped ==> t.workers[w].stopped))
    ensures Shape(t)
  {
    WorkersKeepShape(s, t);
  }

  lemma LaunchKeepsShape(s: System, k: nat)
    requires Shape(s) && k in s.starters && s.starters[k].Locking?
    ensures Shape(StarterNext(s, k))
  {
    ActorsKeepShape(s, StarterNext(s, k));
  }

  lemma StarterKeepsShape(s: System, k: nat)
    requires Shape(s) && Enabled(s, StarterSteps(k))
    ensures Shape(StarterNext(s, k))
  {
    match s.starters[k]
    case Checking => SameWorkersKeepShape(s, StarterNext(s, k));
    case Reading => SameWorkersKeepShape(s, StarterNext(s, k));
    case Setting(_) => SameWorkersKeepShape(s, StarterNext(s, k));
    case Unflagging => SameWorkersKeepShape(s, StarterNext(s, k));
    case Locking => LaunchKeepsShape(s, k);
  }

  lemma SameWorkersKeepShape(s: System, t: System)
    requires Shape(s) && s.epoch <= t.epoch && t.threads == s.threads && t.workers == s.workers
    requires t.visits == s.visits && t.marks == s.marks && t.detected == s.detected && t.identified == s.identified
    requires t.latest == s.latest && (t.high == s.high || t.high == LastEnd(s.visits))
    ensures Shape(t)
  {
    ActorsKeepShape(s, t);
  }

  lemma WipeKeepsShape(s: System, t: System)
    requires Shape(s) && t == s.(visits := [], latest := 0, clearers := t.clearers)
    ensures Shape(t)
  {
    WorkersKeepShape(s, t);
  }

  lemma ClearerKeepsShape(s: System, k: nat)
    requires Shape(s) && Enabled(s, ClearerSteps(k))
    ensures Shape(ClearerNext(s, k))
  {
    match s.clearers[k]
    case Wiping => WipeKeepsShape(s, ClearerNext(s, k));
    case ReadingHorizon => SameWorkersKeepShape(s, ClearerNext(s, k));
    case Resetting(_) => SameWorkersKeepShape(s, ClearerNext(s, k));
  }

  lemma MoveKeepsShape(s: System, w: Worker, m: TickMove)
    requires Shape(s) && CanTick(s, w, m) && WorkerShape(s, w)
    ensures WorkerShape(s.(detected := DetectedAfter(s, w, m), identified := IdentifiedAfter(s, w, m)),
                        w.(phase := PhaseAfter(s, w, m)))
    ensures m.EndDetect? || m.EndIdentify? ==> w.phase.spans[w.phase.i].mark < s.marks
  {
    if m.Query? {
      forall j | 0 <= j < |m.spans|
        ensures m.spans[j].mark < s.marks
      {
        assert m.spans[j] in m.spans;
        var v :| v in s.visits && TailOf(m.spans[j], v);
      }
    }
  }

  lemma TickKeepsShape(s: System, w: nat, m: TickMove)
    requires Shape(s) && w in s.workers && CanTick(s, s.workers[w], m)
    ensures Shape(Apply(s, Tick(w, m)))
  {
    var t := Apply(s, Tick(w, m));
    assert WorkerShape(s, s.workers[w]);
    MoveKeepsShape(s, s.workers[w], m);
    forall v | v in t.workers
      ensures v < t.threads && WorkerShape(t, t.workers[v])
    {
      assert WorkerShape(s, s.workers[v]);
    }
  }

  lemma StepKeepsShape(s: System, a: Action)
    requires Shape(s) && Enabled(s, a)
    ensures Shape(Apply(s, a))
  {
    if a.Tick? {
      TickKeepsShape(s, a.w, a.move);
    } else if a.StarterSteps? {
      StarterKeepsShape(s, a.k);
    } else if a.ClearerSteps? {
      ClearerKeepsShape(s, a.k);
    } else if a.Shrink? {
      ShrinkKeepsShape(s, a.latest);
    } else if a.Grow? || a.Close? || a.Evict? {
      StoreKeepsShape(s, a);
    } else {
      ActorsKeepShape(s, Apply(s, a));
    }
  }

  lemma {:induction false} RunKeepsShape(states: seq<System>, actions: seq<Action>, i: nat)
    requires IsRun(states, actions) && i < |states|
    ensures Shape(states[i])
  {
    if i > 0 {
      RunKeepsShape(states, actions, i - 1);
      assert Steps(states[i - 1], actions[i - 1], states[i - 1 + 1]);
      StepKeepsShape(states[i - 1], actions[i - 1]);
    }
  }

  // --- Coverage ------------------------------------------------------------------------

  ghost predicate Named(s: System, v: Visit) {
    v in s.detected && v in s.identified
  }

  /** Every closed visit above the seed that starts at or below the watermark had both passes
      complete, over the whole of it. */
  ghost predicate Covered(s: System, n: int) {
    forall v :: v in s.visits && s.seed < v.lo <= n ==> Named(s, v)
  }

  ghost predicate Coverage(s: System) {
    Covered(s, s.watermark)
  }

  /** The end of the last span a tick at span `i` gets to, or none (an id below every visit). */
  ghost function ListEnd(spans: seq<Visit>, i: nat): int {
    if i < Reach(spans) then spans[Reach(spans) - 1].hi else 0
  }

  ghost function SpanEnd(spans: seq<Visit>, i: nat): int {
    if i < |spans| then spans[i].hi else 0
  }

  /** The furthest id a tick can leave behind the watermark without querying again. A stop is
      looked at before each span and after its detect, not before a clamp or an advance. */
  ghost function Place(w: Worker): int {
    match w.phase
    case Waiting => 0
    case Snapped(_, watermark) => watermark
    case Clamping(_, latest) => latest
    case Querying(_, watermark) => if w.stopped then 0 else watermark
    case AtSpan(_, spans, i) => if w.stopped then 0 else ListEnd(spans, i)
    case Detecting(_, spans, i) => if w.stopped then 0 else ListEnd(spans, i)
    case Detected(_, spans, i, _) => if w.stopped then 0 else ListEnd(spans, i)
    case Identifying(_, spans, i) => if w.stopped then SpanEnd(spans, i) else ListEnd(spans, i)
    case Advancing(_, spans, i) => if w.stopped then SpanEnd(spans, i) else ListEnd(spans, i)
  }

  /** The tick can leave visit `v` behind the watermark. Once it is stopped its snapshot does so only
      by a clamp, to a store that still has the whole visit. */
  ghost predicate Passes(w: Worker, v: Visit) {
    if w.phase.Snapped? && w.stopped then v.hi < w.phase.watermark else v.lo <= Place(w)
  }

  ghost predicate InRest(v: Visit, spans: seq<Visit>, i: int) {
    exists j :: 0 <= i <= j < |spans| && spans[j] == v
  }

  /** Still ahead in the tick's list. */
  ghost predicate ToCome(p: Phase, v: Visit) {
    match p
    case AtSpan(_, spans, i) => InRest(v, spans, i)
    case Detecting(_, spans, i) => InRest(v, spans, i)
    case Detected(_, spans, i, _) => InRest(v, spans, i)
    case Identifying(_, spans, i) => InRest(v, spans, i)
    case Advancing(_, spans, i) => InRest(v, spans, i)
    case _ => false
  }

  /** Visit `v`, above `seed`, will be behind the worker unnamed if tick `w` runs on. */
  ghost predicate Missed(s: System, seed: int, w: Worker, v: Visit) {
    && Current(s, w) && v in s.visits && seed < v.lo && Passes(w, v)
    && !Named(s, v) && !ToCome(w.phase, v)
  }

  /** Up to its place a tick has every visit above the seed named, but for those in its list. */
  ghost predicate Knows(s: System, w: Worker) {
    forall v :: v in s.visits ==> !Missed(s, s.seed, w, v)
  }

  ghost predicate Inv(s: System) {
    && Coverage(s)
    && forall w :: w in s.workers ==> Knows(s, s.workers[w])
  }

  /** A visit that has just closed is behind the worker: behind the watermark, or behind what a
      tick of this epoch has already listed or clamped to. */
  ghost predicate Behind(s: System, v: Visit) {
    s.seed < v.lo && (v.lo <= s.watermark || exists w :: w in s.workers && PassedBy(s, s.workers[w], v))
  }

  ghost predicate PassedBy(s: System, w: Worker, v: Visit) {
    Current(s, w) && Passes(w, v)
  }

  /** A first seed at `horizon` would make a tick under way step over a visit above it. */
  ghost predicate Strands(s: System, horizon: int) {
    exists w, v :: w in s.workers && Missed(s, horizon, s.workers[w], v)
  }

  /** The two steps that can cost a visit, and when they do not: a visit must close ahead of the
      worker, a first seed must strand none. */
  ghost predicate Harmless(s: System, a: Action) {
    && (a.Close? ==> !Behind(Closed(s, Visit(a.lo, a.hi, s.marks)), Visit(a.lo, a.hi, s.marks)))
    && (IsFirstSeed(s, a) ==> !Strands(s, s.starters[a.k].horizon))
  }

  ghost predicate IsFirstSeed(s: System, a: Action) {
    a.StarterSteps? && a.k in s.starters && s.starters[a.k].Setting?
  }

  ghost predicate IsReset(s: System, a: Action) {
    a.ClearerSteps? && a.k in s.clearers && s.clearers[a.k].Resetting?
  }

  // --- Every step ----------------------------------------------------------------------

  ghost function PassesAfter(s: System, w: Worker, m: TickMove): System
    requires CanTick(s, w, m)
  {
    s.(detected := DetectedAfter(s, w, m), identified := IdentifiedAfter(s, w, m))
  }

  /** No step of a tick after its snapshot makes it miss a visit it was not missing. */
  lemma MoveMissesNoMore(s: System, w: Worker, m: TickMove, v: Visit)
    requires Shape(s) && CanTick(s, w, m) && WorkerShape(s, w) && !m.Snap?
    requires Missed(PassesAfter(s, w, m), s.seed, w.(phase := PhaseAfter(s, w, m)), v)
    ensures Missed(s, s.seed, w, v)
  {
    if m.ReadLatest? || m.Clamp? || m.Query? {
      OpeningMissesNoMore(s, w, m, v);
    } else if m.Advance? {
      AdvanceMissesNoMore(s, w, v);
    }
  }

  lemma OpeningMissesNoMore(s: System, w: Worker, m: TickMove, v: Visit)
    requires Shape(s) && CanTick(s, w, m) && (m.ReadLatest? || m.Clamp? || m.Query?)
    requires Missed(s, s.seed, w.(phase := PhaseAfter(s, w, m)), v)
    ensures Missed(s, s.seed, w, v)
  {
    if m.Query? && w.phase.watermark < v.lo {
      assert v in m.spans;
      var j :| 0 <= j < |m.spans| && m.spans[j] == v;
      assert InRest(v, m.spans, 0);
    }
  }

  lemma AdvanceMissesNoMore(s: System, w: Worker, v: Visit)
    requires Shape(s) && CanTick(s, w, Advance) && WorkerShape(s, w)
    requires Missed(s, s.seed, w.(phase := PhaseAfter(s, w, Advance)), v)
    ensures Missed(s, s.seed, w, v)
  {
    RestStep(v, w.phase.spans, w.phase.i);
  }

  lemma RestStep(v: Visit, spans: seq<Visit>, i: nat)
    requires i < |spans|
    ensures InRest(v, spans, i) <==> v == spans[i] || InRest(v, spans, i + 1)
  {
  }

  /** What a tick leaves behind the watermark unnamed it was missing before. */
  lemma WriteMissesNoMore(s: System, w: Worker, m: TickMove, v: Visit)
    requires Shape(s) && CanTick(s, w, m) && WorkerShape(s, w) && (m.Clamp? || m.Advance?) && Current(s, w)
    requires v in s.visits && s.seed < v.lo <= WatermarkAfter(s, w, m) && !Named(s, v)
    ensures Missed(s, s.seed, w, v)
  {
    if m.Advance? {
      var spans, i := w.phase.spans, w.phase.i;
      assert forall j :: i < j < |spans| ==> spans[i].hi < spans[j].lo;
    }
  }

  lemma SnapMissesNone(s: System, w: Worker, v: Visit)
    requires Shape(s) && Coverage(s) && CanTick(s, w, Snap)
    ensures !Missed(s, s.seed, w.(phase := PhaseAfter(s, w, Snap)), v)
  {
  }

  lemma TickKeepsCoverage(s: System, w: Worker, m: TickMove)
    requires Shape(s) && Coverage(s) && CanTick(s, w, m) && WorkerShape(s, w) && Knows(s, w)
    ensures Covered(PassesAfter(s, w, m), WatermarkAfter(s, w, m))
  {
    if WatermarkAfter(s, w, m) != s.watermark {
      forall v | v in s.visits && s.seed < v.lo <= WatermarkAfter(s, w, m)
        ensures Named(s, v)
      {
        if !Named(s, v) {
          WriteMissesNoMore(s, w, m, v);
        }
      }
    }
  }

  lemma TickKeepsKnows(s: System, w: Worker, m: TickMove)
    requires Shape(s) && Coverage(s) && CanTick(s, w, m) && WorkerShape(s, w) && Knows(s, w)
    ensures Knows(PassesAfter(s, w, m), w.(phase := PhaseAfter(s, w, m)))
  {
    var t, w' := PassesAfter(s, w, m), w.(phase := PhaseAfter(s, w, m));
    forall v | v in t.visits
      ensures !Missed(t, t.seed, w', v)
    {
      if m.Snap? {
        SnapMissesNone(s, w, v);
      } else if Missed(t, t.seed, w', v) {
        MoveMissesNoMore(s, w, m, v);
      }
    }
  }

  /** Knowing depends on the visits, the passes, the seed and the epoch alone; more passes, and no
      more visits, keep it. */
  lemma KnowsStays(s: System, t: System, w: Worker)
    requires Knows(s, w) && t.visits == s.visits && s.detected <= t.detected && s.identified <= t.identified
    requires t.seed == s.seed && t.epoch == s.epoch
    ensures Knows(t, w)
  {
    forall v | v in t.visits
      ensures !Missed(t, t.seed, w, v)
    {
      assert !Missed(s, s.seed, w, v);
    }
  }

  lemma TickKeepsInv(s: System, w: nat, m: TickMove)
    requires Shape(s) && Inv(s) && w in s.workers && CanTick(s, s.workers[w], m)
    ensures Inv(Apply(s, Tick(w, m)))
  {
    var worker, t := s.workers[w], Apply(s, Tick(w, m));
    assert WorkerShape(s, worker) && Knows(s, worker);
    TickKeepsCoverage(s, worker, m);
    TickKeepsKnows(s, worker, m);
    forall v | v in t.workers
      ensures Knows(t, t.workers[v])
    {
      if v == w {
        KnowsStays(PassesAfter(s, worker, m), t, t.workers[v]);
      } else {
        KnowsStays(s, t, t.workers[v]);
      }
    }
  }

  /** A stop takes places away; evictions, purges and wipes take visits away. */
  lemma QuietKeepsInv(s: System, t: System)
    requires Shape(s) && Inv(s) && t.detected == s.detected && t.identified == s.identified
    requires t.seed == s.seed && t.watermark == s.watermark && t.epoch == s.epoch
    requires forall v :: v in t.visits ==> v in s.visits
    requires forall w :: w in t.workers && !t.workers[w].phase.Waiting? ==>
             w in s.workers && t.workers[w].phase == s.workers[w].phase
             && (s.workers[w].stopped ==> t.workers[w].stopped)
    ensures Inv(t)
  {
    forall w, v | w in t.workers && v in t.visits
      ensures !Missed(t, t.seed, t.workers[w], v)
    {
      if Missed(t, t.seed, t.workers[w], v) {
        assert Knows(s, s.workers[w]) && v in s.visits && WorkerShape(s, s.workers[w]);
        assert !Missed(s, s.seed, s.workers[w], v);
        PassesLess(s, s.workers[w], t.workers[w], v);
      }
    }
  }

  lemma PassesLess(s: System, w: Worker, w': Worker, v: Visit)
    requires w'.phase == w.phase && (w.stopped ==> w'.stopped) && WorkerShape(s, w)
    requires 1 <= v.lo <= v.hi && Passes(w', v)
    ensures Passes(w, v)
  {
  }

  /** The invariant is kept by a closing visit exactly if it is not behind the worker. */
  lemma CloseKeepsInvIff(s: System, lo: int, hi: int)
    requires Shape(s) && Inv(s) && Enabled(s, Close(lo, hi))
    ensures Inv(Apply(s, Close(lo, hi))) <==> Harmless(s, Close(lo, hi))
  {
    var v := Visit(lo, hi, s.marks);
    var t := Closed(s, v);
    assert t.visits[|s.visits|] == v && !Named(t, v);
    forall w | w in s.workers
      ensures Knows(t, s.workers[w]) <==> !(s.seed < lo && PassedBy(t, s.workers[w], v))
    {
      assert Knows(s, s.workers[w]) && WorkerShape(s, s.workers[w]);
      CloseKeepsKnowsIff(s, v, s.workers[w]);
    }
    assert forall u :: u in t.visits && u != v ==> u in s.visits;
    assert Coverage(t) <==> !(s.seed < lo <= s.watermark);
  }

  lemma CloseKeepsKnowsIff(s: System, v: Visit, w: Worker)
    requires Knows(s, w) && WorkerShape(s, w) && v.mark == s.marks && !Named(s, v) && 1 <= v.lo <= v.hi
    requires forall u :: u in s.visits ==> 1 <= u.lo && u.hi < v.lo
    ensures Knows(Closed(s, v), w) <==> !(s.seed < v.lo && PassedBy(Closed(s, v), w, v))
  {
    var t := Closed(s, v);
    assert t.visits[|s.visits|] == v;
    assert !ToCome(w.phase, v);
    if !(s.seed < v.lo && PassedBy(t, w, v)) {
      forall u | u in t.visits
        ensures !Missed(t, t.seed, w, u)
      {
        if u != v {
          assert u in s.visits && !Missed(s, s.seed, w, u);
        }
      }
    } else {
      assert Missed(t, t.seed, w, v);
    }
  }

  /** After a first seed nothing is claimed but what ticks under way may still step over. */
  lemma FirstSeedKeepsInvIff(s: System, k: nat)
    requires Shape(s) && Enabled(s, StarterSteps(k)) && IsFirstSeed(s, StarterSteps(k))
    ensures Inv(Apply(s, StarterSteps(k))) <==> Harmless(s, StarterSteps(k))
  {
    var horizon, t := s.starters[k].horizon, Apply(s, StarterSteps(k));
    forall w, v | w in s.workers && v in s.visits
      ensures Missed(t, t.seed, t.workers[w], v) <==> Missed(s, horizon, s.workers[w], v)
    {
    }
  }

  /** The steps that need nothing of the past: a reset of a worker that was ever enabled, and a
      first seed with no tick under way. */
  ghost predicate Restores(s: System, a: Action) {
    (IsReset(s, a) && !s.neverEnabled) || (IsFirstSeed(s, a) && NoTick(s))
  }

  lemma RestoresInv(s: System, a: Action)
    requires Shape(s) && Enabled(s, a) && Restores(s, a)
    ensures Inv(Apply(s, a))
  {
    if IsFirstSeed(s, a) {
      FirstSeedKeepsInvIff(s, a.k);
    } else {
      ResetLeavesNoTick(s, a.k);
    }
  }

  lemma ResetLeavesNoTick(s: System, k: nat)
    requires Shape(s) && k in s.clearers && s.clearers[k].Resetting?
    ensures NoTick(ClearerNext(s, k))
  {
    forall w | w in s.workers
      ensures !Current(ClearerNext(s, k), s.workers[w])
    {
      assert WorkerShape(s, s.workers[w]);
    }
  }

  lemma ClearerKeepsInv(s: System, k: nat)
    requires Shape(s) && Inv(s) && Enabled(s, ClearerSteps(k))
    ensures Inv(ClearerNext(s, k))
  {
    if s.clearers[k].Resetting? {
      ResetLeavesNoTick(s, k);
    } else {
      QuietKeepsInv(s, ClearerNext(s, k));
    }
  }

  lemma OthersKeepInv(s: System, a: Action)
    requires Shape(s) && Inv(s) && Enabled(s, a)
    requires a.Grow? || a.Shrink? || a.Evict? || a.Stop? || a.StarterArrives? || a.ClearerArrives?
    ensures Inv(Apply(s, a))
  {
    QuietKeepsInv(s, Apply(s, a));
  }

  lemma StepKeepsInv(s: System, a: Action)
    requires Shape(s) && Inv(s) && Enabled(s, a) && Harmless(s, a)
    ensures Inv(Apply(s, a))
  {
    if a.Tick? {
      TickKeepsInv(s, a.w, a.move);
    } else if a.Close? {
      CloseKeepsInvIff(s, a.lo, a.hi);
    } else if IsFirstSeed(s, a) {
      FirstSeedKeepsInvIff(s, a.k);
    } else if a.StarterSteps? {
      QuietKeepsInv(s, StarterNext(s, a.k));
    } else if a.ClearerSteps? {
      ClearerKeepsInv(s, a.k);
    } else {
      OthersKeepInv(s, a);
    }
  }

  lemma {:induction false} RunKeepsInv(states: seq<System>, actions: seq<Action>, r: nat, i: nat)
    requires IsRun(states, actions) && r <= i < |states|
    requires r == 0 || Restores(states[r - 1], actions[r - 1])
    requires forall m {:trigger actions[m]} :: r <= m < i ==> Harmless(states[m], actions[m])
    ensures Inv(states[i])
    decreases i
  {
    if i > 0 {
      RunKeepsShape(states, actions, i - 1);
      assert Steps(states[i - 1], actions[i - 1], states[i - 1 + 1]);
      if i == r {
        RestoresInv(states[i - 1], actions[i - 1]);
      } else {
        RunKeepsInv(states, actions, r, i - 1);
        StepKeepsInv(states[i - 1], actions[i - 1]);
      }
    }
  }

  /** Let `r` be the start of the run, or right after any reset of a worker ever enabled, or after
      a first seed with no tick under way. As long as no visit has since closed behind the worker
      and no first seed has stranded one, every closed visit above the last seed that starts at or
      below the in-memory watermark had both its detect and its identify complete; so a stop,
      cancel, fault or busy signal anywhere leaves the watermark before the unfinished visit, old
      threads included. */
  lemma WatermarkMeansNamed(states: seq<System>, actions: seq<Action>, r: nat, i: nat)
    requires IsRun(states, actions) && r <= i < |states|
    requires r == 0 || Restores(states[r - 1], actions[r - 1])
    requires forall m {:trigger actions[m]} :: r <= m < i ==> Harmless(states[m], actions[m])
    ensures Coverage(states[i])
  {
    RunKeepsInv(states, actions, r, i);
  }

  // --- No resurrection -----------------------------------------------------------------

  lemma EpochStep(states: seq<System>, actions: seq<Action>, i: nat)
    requires IsRun(states, actions) && i < |actions|
    ensures states[i + 1].epoch == states[i].epoch + if IsReset(states[i], actions[i]) then 1 else 0
  {
    assert Steps(states[i], actions[i], states[i + 1]);
  }

  lemma {:induction false} EpochsOnlyGrow(states: seq<System>, actions: seq<Action>, i: nat, j: nat)
    requires IsRun(states, actions) && i <= j < |states|
    ensures states[i].epoch <= states[j].epoch
    decreases j
  {
    if i < j {
      EpochsOnlyGrow(states, actions, i, j - 1);
      EpochStep(states, actions, j - 1);
    }
  }

  lemma TickEpochStep(s: System, a: Action, w: nat)
    requires Shape(s) && Enabled(s, a) && w in s.workers && a != Tick(w, Snap)
    ensures w in Apply(s, a).workers
    ensures Apply(s, a).workers[w].phase.Waiting? ||
            (!s.workers[w].phase.Waiting? && Apply(s, a).workers[w].phase.epoch == s.workers[w].phase.epoch)
  {
    if a.Tick? {
      OtherTickEpochStep(s, a.w, a.move, w);
    } else if a.StarterSteps? {
      assert StarterNext(s, a.k).workers[w] == s.workers[w];
    } else {
      assert Apply(s, a).workers[w].phase == s.workers[w].phase;
    }
  }

  lemma OtherTickEpochStep(s: System, v: nat, m: TickMove, w: nat)
    requires v in s.workers && CanTick(s, s.workers[v], m) && w in s.workers && (v != w || m != Snap)
    ensures var after := Apply(s, Tick(v, m)).workers[w].phase;
            after.Waiting? || (!s.workers[w].phase.Waiting? && after.epoch == s.workers[w].phase.epoch)
  {
  }

  lemma {:induction false} TickKeepsItsEpoch(states: seq<System>, actions: seq<Action>, i: nat, k: nat, w: nat)
    requires IsRun(states, actions)
    requires i < k <= |actions| && actions[i] == Tick(w, Snap)
    requires forall m :: i < m < k ==> actions[m] != Tick(w, Snap)
    ensures w in states[k].workers
    ensures states[k].workers[w].phase.Waiting? || states[k].workers[w].phase.epoch == states[i].epoch
    decreases k
  {
    assert Steps(states[k - 1], actions[k - 1], states[k - 1 + 1]);
    if i < k - 1 {
      TickKeepsItsEpoch(states, actions, i, k - 1, w);
      RunKeepsShape(states, actions, k - 1);
      TickEpochStep(states[k - 1], actions[k - 1], w);
    }
  }

  /** A tick whose snapshot (step `i`) predates a reset (step `j`) never changes the in-memory
      watermark afterwards, not even as a leftover of a thread that was stopped and replaced. */
  lemma StaleTickNeverWrites(states: seq<System>, actions: seq<Action>, i: nat, j: nat, k: nat, w: nat)
    requires IsRun(states, actions)
    requires i < j < k < |actions|
    requires actions[i] == Tick(w, Snap) && IsReset(states[j], actions[j])
    requires forall m :: i < m < k ==> actions[m] != Tick(w, Snap)
    requires actions[k].Tick? && actions[k].w == w
    ensures states[k + 1].watermark == states[k].watermark
  {
    EpochsOnlyGrow(states, actions, i, j);
    EpochStep(states, actions, j);
    EpochsOnlyGrow(states, actions, j + 1, k);
    TickKeepsItsEpoch(states, actions, i, k, w);
    assert Steps(states[k], actions[k], states[k + 1]);
  }

  // --- Threads -------------------------------------------------------------------------

  /** The threads that have not been told to stop are the current one, if the worker runs, and no
      other. */
  ghost predicate SoleThread(s: System) {
    && (s.running ==> s.current in s.workers)
    && forall w :: w in s.workers ==> w < s.threads && (s.workers[w].stopped <==> !(s.running && w == s.current))
  }

  lemma StepKeepsSoleThread(s: System, a: Action)
    requires SoleThread(s) && Enabled(s, a)
    ensures SoleThread(Apply(s, a))
  {
    if a.Tick? {
      TickLeavesThreads(s, a.w, a.move);
    } else if a.ClearerSteps? {
      ClearerLeavesThreads(s, a.k);
    }
  }

  lemma TickLeavesThreads(s: System, w: nat, m: TickMove)
    requires w in s.workers && CanTick(s, s.workers[w], m)
    ensures var t := Apply(s, Tick(w, m));
            && t.running == s.running && t.current == s.current && t.threads == s.threads && s.epoch == t.epoch
            && t.workers == s.workers[w := s.workers[w].(phase := PhaseAfter(s, s.workers[w], m))]
  {
  }

  /** Whatever else happens leaves a thread where it was in its tick. */
  lemma OthersLeaveThePhase(s: System, a: Action, w: nat)
    requires Enabled(s, a) && w in s.workers && w < s.threads && !(a.Tick? && a.w == w)
    ensures var t := Apply(s, a); w in t.workers && t.workers[w].phase == s.workers[w].phase && s.epoch <= t.epoch
    ensures s.workers[w].stopped ==> Apply(s, a).workers[w].stopped
  {
    if a.Tick? {
      TickLeavesThreads(s, a.w, a.move);
    } else if a.StarterSteps? {
      StarterLeavesThreads(s, a.k, w);
    } else if a.ClearerSteps? {
      ClearerLeavesThreads(s, a.k);
    } else {
      assert Apply(s, a).epoch == s.epoch;
    }
  }

  lemma StarterLeavesThreads(s: System, k: nat, w: nat)
    requires k in s.starters && w in s.workers && w < s.threads
    ensures var t := StarterNext(s, k); w in t.workers && t.workers[w] == s.workers[w] && s.epoch <= t.epoch
  {
  }

  lemma ClearerLeavesThreads(s: System, k: nat)
    requires k in s.clearers
    ensures var t := ClearerNext(s, k);
            && t.workers == s.workers && s.epoch <= t.epoch
            && t.running == s.running && t.current == s.current && t.threads == s.threads
  {
  }

  /** However starts and stops interleave, at most one thread is ever free to go on, exactly while the
      worker runs: a replaced thread is never revived. */
  lemma {:induction false} OneThreadAtATime(states: seq<System>, actions: seq<Action>, i: nat)
    requires IsRun(states, actions) && i < |states|
    ensures SoleThread(states[i])
  {
    if i > 0 {
      OneThreadAtATime(states, actions, i - 1);
      assert Steps(states[i - 1], actions[i - 1], states[i - 1 + 1]);
      StepKeepsSoleThread(states[i - 1], actions[i - 1]);
    }
  }

  /** From the one state to the other thread `w` starts its detect on a visit. */
  ghost predicate BeginsDetect(s: System, t: System, w: nat) {
    && w in s.workers && w in t.workers
    && !s.workers[w].phase.Detecting? && t.workers[w].phase.Detecting?
  }

  /** How many detects of thread `w` begin from step `i` up to step `j`. */
  ghost function Begun(states: seq<System>, w: nat, i: nat, j: nat): nat
    requires i <= j < |states|
    decreases j
  {
    if i == j then 0
    else
      Begun(states, w, i, j - 1)
      + if BeginsDetect(states[j - 1], states[j], w) then 1 else 0
  }

  /** The detects a tick that has lost its epoch may still begin. */
  function MayBegin(p: Phase): nat {
    if p.Snapped? || p.Querying? || p.AtSpan? then 1 else 0
  }

  lemma StaleStep(s: System, a: Action, w: nat)
    requires Shape(s) && Enabled(s, a) && w in s.workers && a != Tick(w, Snap)
    requires s.workers[w].phase.Waiting? || s.workers[w].phase.epoch < s.epoch
    ensures var t := Apply(s, a);
            && w in t.workers && s.epoch <= t.epoch
            && (t.workers[w].phase.Waiting? || t.workers[w].phase.epoch < t.epoch)
            && MayBegin(t.workers[w].phase) + (if BeginsDetect(s, t, w) then 1 else 0)
               <= MayBegin(s.workers[w].phase)
  {
    if a.Tick? && a.w == w {
      TickLeavesThreads(s, w, a.move);
      StaleMove(s, s.workers[w], a.move);
    } else {
      OthersLeaveThePhase(s, a, w);
    }
  }

  lemma StaleMove(s: System, w: Worker, m: TickMove)
    requires CanTick(s, w, m) && !m.Snap? && w.phase.epoch < s.epoch
    ensures var p := PhaseAfter(s, w, m);
            && (p.Waiting? || p.epoch < s.epoch)
            && MayBegin(p) + (if !w.phase.Detecting? && p.Detecting? then 1 else 0) <= MayBegin(w.phase)
  {
  }

  lemma {:induction false} StaleTickRun(states: seq<System>, actions: seq<Action>, i: nat, j: nat, w: nat)
    requires IsRun(states, actions) && i <= j <= |actions| && w in states[i].workers
    requires states[i].workers[w].phase.Waiting? || states[i].workers[w].phase.epoch < states[i].epoch
    requires forall m :: i <= m < j ==> actions[m] != Tick(w, Snap)
    ensures w in states[j].workers
    ensures states[j].workers[w].phase.Waiting? || states[j].workers[w].phase.epoch < states[j].epoch
    ensures Begun(states, w, i, j) + MayBegin(states[j].workers[w].phase)
            <= MayBegin(states[i].workers[w].phase)
    decreases j
  {
    if i < j {
      StaleTickRun(states, actions, i, j - 1, w);
      RunKeepsShape(states, actions, j - 1);
      assert Steps(states[j - 1], actions[j - 1], states[j - 1 + 1]);
      StaleStep(states[j - 1], actions[j - 1], w);
    }
  }

  /** A tick that a reset has overtaken is abandoned: until the thread's next snapshot it begins at
      most one more detect. */
  lemma StaleTickIsAbandoned(states: seq<System>, actions: seq<Action>, i: nat, j: nat, w: nat)
    requires IsRun(states, actions) && i <= j <= |actions| && w in states[i].workers
    requires !states[i].workers[w].phase.Waiting? && states[i].workers[w].phase.epoch < states[i].epoch
    requires forall m :: i <= m < j ==> actions[m] != Tick(w, Snap)
    ensures Begun(states, w, i, j) <= 1
  {
    StaleTickRun(states, actions, i, j, w);
  }

  lemma StoppedAt(states: seq<System>, actions: seq<Action>, i: nat, w: nat)
    requires IsRun(states, actions) && i < |actions| && w in states[i].workers && states[i].workers[w].stopped
    ensures w in states[i + 1].workers && states[i + 1].workers[w].stopped
    ensures !BeginsDetect(states[i], states[i + 1], w)
  {
    OneThreadAtATime(states, actions, i);
    assert Steps(states[i], actions[i], states[i + 1]);
    StoppedStep(states[i], actions[i], w);
  }

  lemma StoppedStep(s: System, a: Action, w: nat)
    requires SoleThread(s) && Enabled(s, a) && w in s.workers && s.workers[w].stopped
    ensures var t := Apply(s, a); w in t.workers && t.workers[w].stopped && !BeginsDetect(s, t, w)
  {
    if a.Tick? && a.w == w {
      TickLeavesThreads(s, w, a.move);
    } else {
      OthersLeaveThePhase(s, a, w);
    }
  }

  /** And a thread that was told to stop begins none. */
  lemma {:induction false} StoppedThreadBeginsNothing(states: seq<System>, actions: seq<Action>, i: nat, j: nat, w: nat)
    requires IsRun(states, actions) && i <= j <= |actions| && w in states[i].workers && states[i].workers[w].stopped
    ensures w in states[j].workers && states[j].workers[w].stopped
    ensures Begun(states, w, i, j) == 0
    decreases j
  {
    if i < j {
      StoppedThreadBeginsNothing(states, actions, i, j - 1, w);
      StoppedAt(states, actions, j - 1, w);
    }
  }
}
