/** The always-on detection worker (`YoloOracleManager`) among everything that runs beside it:
    the collector inserting frames, evictions, operators starting and stopping, `/api/clear`,
    and old worker threads still winding down. Each lock hold and each store call is one step. */
module OracleWorker {
  const MAX_FRAMES_PER_TICK: nat := 2000
  const CHUNK: nat := 256

  /** The frames table: row id to the capture stored under it. Captures are never reused; row
      ids are, once the greatest row is deleted. */
  type Frames = map<int, nat>

  ghost predicate IsLatest(frames: Frames, n: int) {
    && (n in frames || (n == 0 && frames == map[]))
    && forall id :: id in frames ==> id <= n
  }

  /** Where one worker thread is in `_tick`. Every phase of a tick carries the epoch it saw. */
  datatype Phase =
    | Waiting
    | Snapped(epoch: nat, watermark: int)
    | Clamping(epoch: nat, latest: int)
    | AtChunk(epoch: nat, lo: int, until: int)
    | Detecting(epoch: nat, lo: int, hi: int, until: int, listed: set<nat>)
    | Returned(epoch: nat, lo: int, hi: int, until: int, complete: bool)
    | Advancing(epoch: nat, hi: int, until: int)

  datatype Worker = Worker(phase: Phase, stopped: bool)

  datatype Starter = Checking | Reading | Seeding(horizon: int) | Locking

  datatype Clearer = Wiping | ReadingHorizon | Resetting(horizon: int)

  /** `swept` collects the captures in chunks whose detect completed; `seed` is the last value
      written by a re-seed and `high` the greatest row id stored since: history only. */
  datatype System = System(
    frames: Frames, captures: nat,
    watermark: int, epoch: nat, running: bool, current: nat, threads: nat,
    workers: map<nat, Worker>, starters: map<nat, Starter>, clearers: map<nat, Clearer>,
    swept: set<nat>, seed: int, high: int
  )

  datatype DetectEnd = Completes | StopsPartway | Raises

  datatype Action =
    | Insert(id: int)
    | Delete(id: int)
    | StarterArrives(k: nat)
    | StarterSteps(k: nat, latest: int)
    | Stop
    | ClearerArrives(k: nat)
    | ClearerSteps(k: nat, latest: int)
    | Tick(w: nat, move: TickMove)

  datatype TickMove =
    | Snap
    | ReadLatest(latest: int)
    | Clamp
    | BeginChunk(busy: bool)
    | EndDetect(end: DetectEnd)
    | CheckStop
    | Advance

  ghost predicate Enabled(s: System, a: Action) {
    match a
    case Insert(id) => 1 <= id && id !in s.frames
    case Delete(id) => id in s.frames
    case StarterArrives(k) => k !in s.starters
    case StarterSteps(k, latest) => k in s.starters && IsLatest(s.frames, latest)
    case Stop => s.running && s.current in s.workers
    case ClearerArrives(k) => k !in s.clearers
    case ClearerSteps(k, latest) => k in s.clearers && IsLatest(s.frames, latest)
    case Tick(w, move) => w in s.workers && CanTick(s, s.workers[w], move)
  }

  ghost predicate CanTick(s: System, w: Worker, m: TickMove) {
    match m
    case Snap => w.phase.Waiting?
    case ReadLatest(latest) => w.phase.Snapped? && IsLatest(s.frames, latest)
    case Clamp => w.phase.Clamping?
    case BeginChunk(_) => w.phase.AtChunk?
    case EndDetect(end) => w.phase.Detecting? && (end.StopsPartway? ==> w.stopped)
    case CheckStop => w.phase.Returned?
    case Advance => w.phase.Advancing?
  }

  function Min(a: int, b: int): int { if a <= b then a else b }

  function Max(a: int, b: int): int { if a <= b then b else a }

  /** The window a tick sweeps: from one past the watermark to here. */
  function Until(watermark: int, latest: int): int { Min(latest, watermark + MAX_FRAMES_PER_TICK) }

  function ChunkEnd(lo: int, until: int): int { Min(lo + CHUNK - 1, until) }

  /** Captures of the stored frames with ids in the chunk, when its detect begins. */
  ghost function Listed(frames: Frames, lo: int, hi: int): set<nat> {
    set id | id in frames && lo <= id <= hi :: frames[id]
  }

  ghost function Moves(s: System, w: nat, phase: Phase): System
    requires w in s.workers
  {
    s.(workers := s.workers[w := s.workers[w].(phase := phase)])
  }

  /** `_seed_watermark`: bump the epoch and force the watermark, in one lock hold. */
  ghost function Reseeded(s: System, value: int, latest: int): System {
    s.(epoch := s.epoch + 1, watermark := value, seed := value, high := latest)
  }

  ghost function Apply(s: System, a: Action): System
    requires Enabled(s, a)
  {
    match a
    case Insert(id) =>
      s.(frames := s.frames[id := s.captures], captures := s.captures + 1, high := Max(s.high, id))
    case Delete(id) => s.(frames := s.frames - {id})
    case StarterArrives(k) => s.(starters := s.starters[k := Checking])
    case StarterSteps(k, latest) => StarterNext(s, k, latest)
    case Stop =>
      s.(running := false, workers := s.workers[s.current := s.workers[s.current].(stopped := true)])
    case ClearerArrives(k) => s.(clearers := s.clearers[k := Wiping])
    case ClearerSteps(k, latest) => ClearerNext(s, k, latest)
    case Tick(w, move) =>
      Moves(s.(watermark := WatermarkAfter(s, s.workers[w], move), swept := SweptAfter(s, s.workers[w], move)),
            w, PhaseAfter(s, s.workers[w], move))
  }

  /** The next step of a tick. A tick that finds its epoch gone, a stop, a busy GPU, the end of
      its window or a fault goes back to waiting. */
  ghost function PhaseAfter(s: System, w: Worker, m: TickMove): Phase
    requires CanTick(s, w, m)
  {
    var p := w.phase;
    match m
    case Snap => Snapped(s.epoch, s.watermark)
    case ReadLatest(latest) => WindowPhase(p, latest)
    case Clamp => if p.epoch != s.epoch then Waiting else WindowPhase(Snapped(p.epoch, p.latest), p.latest)
    case BeginChunk(busy) =>
      if p.until < p.lo || w.stopped || busy then Waiting
      else
        var hi := ChunkEnd(p.lo, p.until);
        Detecting(p.epoch, p.lo, hi, p.until, Listed(s.frames, p.lo, hi))
    case EndDetect(end) =>
      if end.Raises? then Waiting else Returned(p.epoch, p.lo, p.hi, p.until, end.Completes?)
    case CheckStop => if w.stopped then Waiting else Advancing(p.epoch, p.hi, p.until)
    case Advance => if p.epoch != s.epoch then Waiting else AtChunk(p.epoch, p.hi + 1, p.until)
  }

  /** `_advance_watermark`: written only while the epoch is the one the tick snapshotted. */
  ghost function WatermarkAfter(s: System, w: Worker, m: TickMove): int
    requires CanTick(s, w, m)
  {
    if m.Clamp? && w.phase.epoch == s.epoch then w.phase.latest
    else if m.Advance? && w.phase.epoch == s.epoch then w.phase.hi
    else s.watermark
  }

  ghost function SweptAfter(s: System, w: Worker, m: TickMove): set<nat>
    requires CanTick(s, w, m)
  {
    if m == EndDetect(Completes) then s.swept + w.phase.listed else s.swept
  }

  /** What a tick does once it has read the store's latest id: clamp, or open its window. */
  ghost function WindowPhase(p: Phase, latest: int): Phase
    requires p.Snapped?
  {
    if p.watermark > latest then Clamping(p.epoch, latest)
    else AtChunk(p.epoch, p.watermark + 1, Until(p.watermark, latest))
  }

  /** `start`: an unlocked running check, the horizon read, the seed, then the locked check. */
  ghost function StarterNext(s: System, k: nat, latest: int): System
    requires k in s.starters
  {
    match s.starters[k]
    case Checking =>
      if s.running then s.(starters := s.starters - {k}) else s.(starters := s.starters[k := Reading])
    case Reading => s.(starters := s.starters[k := Seeding(latest)])
    case Seeding(horizon) => Reseeded(s, horizon, latest).(starters := s.starters[k := Locking])
    case Locking =>
      var left := s.(starters := s.starters - {k});
      if s.running then left
      else
        left.(running := true, current := s.threads, threads := s.threads + 1,
              workers := s.workers[s.threads := Worker(Waiting, false)])
  }

  /** `/api/clear`: wipe, read the post-wipe horizon, reset the watermark to it. */
  ghost function ClearerNext(s: System, k: nat, latest: int): System
    requires k in s.clearers
  {
    match s.clearers[k]
    case Wiping => s.(frames := map[], clearers := s.clearers[k := ReadingHorizon])
    case ReadingHorizon => s.(clearers := s.clearers[k := Resetting(latest)])
    case Resetting(horizon) => Reseeded(s, horizon, latest).(clearers := s.clearers - {k})
  }

  /** A process that has just started: an arbitrary store, a persisted watermark, no thread. */
  ghost predicate IsInit(s: System) {
    && IsLatest(s.frames, s.high)
    && s.seed == s.watermark && s.swept == {}
    && s.workers == map[] && s.starters == map[] && s.clearers == map[] && !s.running
    && 0 <= s.high
    && (forall id :: id in s.frames ==> 1 <= id && s.frames[id] < s.captures)
    && OneCaptureEach(s.frames)
  }

  ghost predicate OneCaptureEach(frames: Frames) {
    forall a, b :: a in frames && b in frames && frames[a] == frames[b] ==> a == b
  }

  ghost predicate Steps(s: System, a: Action, t: System) {
    Enabled(s, a) && t == Apply(s, a)
  }

  ghost predicate IsRun(states: seq<System>, actions: seq<Action>) {
    && |states| == |actions| + 1
    && IsInit(states[0])
    && forall i {:trigger actions[i]} :: 0 <= i < |actions| ==> Steps(states[i], actions[i], states[i + 1])
  }

  /** The two writers that do not come from a sweep: `start`'s seed and `/api/clear`'s reset. */
  ghost predicate IsReseed(s: System, a: Action) {
    || (a.StarterSteps? && a.k in s.starters && s.starters[a.k].Seeding?)
    || (a.ClearerSteps? && a.k in s.clearers && s.clearers[a.k].Resetting?)
  }

  // --- What holds whatever ids are handed out ------------------------------------------

  /** A tick under way whose snapshot is of the present epoch. */
  ghost predicate Current(s: System, w: Worker) {
    !w.phase.Waiting? && w.phase.epoch == s.epoch
  }

  /** No id a tick holds lies beyond `top`. */
  ghost predicate Bounded(p: Phase, top: int) {
    match p
    case Waiting => true
    case Snapped(_, watermark) => watermark <= top
    case Clamping(_, latest) => latest <= top
    case AtChunk(_, lo, until) => lo - 1 <= top && until <= top
    case Detecting(_, _, hi, until, _) => hi <= top && until <= top
    case Returned(_, _, hi, until, _) => hi <= top && until <= top
    case Advancing(_, hi, until) => hi <= top && until <= top
  }

  /** The last seed or the greatest row since, whichever is further. */
  ghost function Top(s: System): int { Max(s.seed, s.high) }

  ghost predicate WorkerShape(s: System, w: Worker) {
    && (!w.phase.Waiting? ==> w.phase.epoch <= s.epoch)
    && (w.phase.Returned? && !w.phase.complete ==> w.stopped)
    && (w.phase.Detecting? ==> forall u :: u in w.phase.listed ==> u < s.captures)
    && (Current(s, w) ==> Bounded(w.phase, Top(s)))
  }

  ghost predicate Shape(s: System) {
    && 0 <= s.high && s.watermark <= Top(s)
    && (forall id :: id in s.frames ==> 1 <= id <= s.high && s.frames[id] < s.captures)
    && OneCaptureEach(s.frames)
    && (forall u :: u in s.swept ==> u < s.captures)
    && (forall w :: w in s.workers ==> w < s.threads && WorkerShape(s, s.workers[w]))
  }

  lemma TickKeepsShape(s: System, w: nat, m: TickMove)
    requires Shape(s) && w in s.workers && CanTick(s, s.workers[w], m)
    ensures Shape(Apply(s, Tick(w, m)))
  {
    var t, phase := Apply(s, Tick(w, m)), PhaseAfter(s, s.workers[w], m);
    assert WorkerShape(s, s.workers[w]);
    assert WorkerShape(s, s.workers[w].(phase := phase));
    forall v | v in t.workers
      ensures v < t.threads && WorkerShape(t, t.workers[v])
    {
      assert v != w ==> WorkerShape(s, s.workers[v]);
    }
  }

  /** Threads may be told to stop, waiting ones may be added, and a tick's ids stay within `Top`
      unless a re-seed has made it one of the past. */
  lemma WorkersKeepShape(s: System, t: System)
    requires Shape(s) && s.captures <= t.captures && s.epoch <= t.epoch && s.threads <= t.threads
    requires s.epoch == t.epoch ==> Top(s) <= Top(t)
    requires forall w :: w in t.workers ==>
               || (w < t.threads && t.workers[w].phase.Waiting?)
               || (w in s.workers && t.workers[w].phase == s.workers[w].phase
                   && (s.workers[w].stopped ==> t.workers[w].stopped))
    ensures forall w :: w in t.workers ==> w < t.threads && WorkerShape(t, t.workers[w])
  {
    forall w | w in t.workers
      ensures w < t.threads && WorkerShape(t, t.workers[w])
    {
      assert w in s.workers ==> WorkerShape(s, s.workers[w]);
    }
  }

  lemma StoreKeepsShape(s: System, a: Action)
    requires Shape(s) && Enabled(s, a) && (a.Insert? || a.Delete? || a.Stop? || a.StarterArrives? || a.ClearerArrives?)
    ensures Shape(Apply(s, a))
  {
    WorkersKeepShape(s, Apply(s, a));
  }

  lemma ReseedKeepsShape(s: System, value: int, latest: int)
    requires Shape(s) && IsLatest(s.frames, latest)
    ensures Shape(Reseeded(s, value, latest))
  {
    WorkersKeepShape(s, Reseeded(s, value, latest));
  }

  /** Who is starting or clearing does not matter. */
  lemma ActorsKeepShape(s: System, t: System)
    requires Shape(s) && t == s.(starters := t.starters, clearers := t.clearers)
    ensures Shape(t)
  {
    WorkersKeepShape(s, t);
  }

  lemma LaunchKeepsShape(s: System, k: nat, latest: int)
    requires Shape(s) && k in s.starters && s.starters[k].Locking?
    ensures Shape(StarterNext(s, k, latest))
  {
    WorkersKeepShape(s, StarterNext(s, k, latest));
  }

  lemma StarterKeepsShape(s: System, k: nat, latest: int)
    requires Shape(s) && Enabled(s, StarterSteps(k, latest))
    ensures Shape(StarterNext(s, k, latest))
  {
    match s.starters[k]
    case Checking => ActorsKeepShape(s, StarterNext(s, k, latest));
    case Reading => ActorsKeepShape(s, StarterNext(s, k, latest));
    case Seeding(horizon) =>
      ReseedKeepsShape(s, horizon, latest);
      ActorsKeepShape(Reseeded(s, horizon, latest), StarterNext(s, k, latest));
    case Locking => LaunchKeepsShape(s, k, latest);
  }

  lemma WipeKeepsShape(s: System)
    requires Shape(s)
    ensures Shape(s.(frames := map[]))
  {
    WorkersKeepShape(s, s.(frames := map[]));
  }

  lemma ClearerKeepsShape(s: System, k: nat, latest: int)
    requires Shape(s) && Enabled(s, ClearerSteps(k, latest))
    ensures Shape(ClearerNext(s, k, latest))
  {
    match s.clearers[k]
    case Wiping =>
      WipeKeepsShape(s);
      ActorsKeepShape(s.(frames := map[]), ClearerNext(s, k, latest));
    case ReadingHorizon => ActorsKeepShape(s, ClearerNext(s, k, latest));
    case Resetting(horizon) =>
      ReseedKeepsShape(s, horizon, latest);
      ActorsKeepShape(Reseeded(s, horizon, latest), ClearerNext(s, k, latest));
  }

  lemma StepKeepsShape(s: System, a: Action)
    requires Shape(s) && Enabled(s, a)
    ensures Shape(Apply(s, a))
  {
    match a
    case Tick(w, move) => TickKeepsShape(s, w, move);
    case StarterSteps(k, latest) => StarterKeepsShape(s, k, latest);
    case ClearerSteps(k, latest) => ClearerKeepsShape(s, k, latest);
    case _ => StoreKeepsShape(s, a);
  }

  lemma {:induction false} RunKeepsShape(states: seq<System>, actions: seq<Action>, i: nat)
    requires IsRun(states, actions) && i < |states|
    ensures Shape(states[i])
  {
    if i > 0 {
      RunKeepsShape(states, actions, i - 1);
      assert Steps(states[i - 1], actions[i - 1], states[i - 1 + 1]);
      StepKeepsShape(states[i - 1], actions[i - 1]);
    }
  }

  // --- Coverage ------------------------------------------------------------------------

  /** Every stored frame above the seed and up to `n` was in a chunk whose detect completed. */
  ghost predicate Covered(s: System, n: int) {
    forall id :: id in s.frames && s.seed < id <= n ==> s.frames[id] in s.swept
  }

  ghost predicate Coverage(s: System) {
    Covered(s, s.watermark)
  }

  /** The furthest id a tick can leave behind the watermark without listing it again, or none
      (an id below every row). A stop is looked at before each chunk and after each detect, not
      before a clamp. */
  ghost function Place(w: Worker): int {
    match w.phase
    case Waiting => 0
    case Snapped(_, watermark) => if w.stopped then watermark - 1 else watermark
    case Clamping(_, latest) => latest
    case AtChunk(_, lo, until) => if w.stopped || until < lo then 0 else lo - 1
    case Detecting(_, _, hi, _, _) => if w.stopped then 0 else hi
    case Returned(_, _, hi, _, _) => if w.stopped then 0 else hi
    case Advancing(_, hi, _) => hi
  }

  /** A row stored under `id` now would be behind the worker: behind the watermark, or behind
      what a tick of this epoch has already listed or clamped to. */
  ghost predicate Passed(s: System, id: int) {
    s.seed < id && (id <= s.watermark || exists w :: w in s.workers && PassedBy(s, s.workers[w], id))
  }

  ghost predicate PassedBy(s: System, w: Worker, id: int) {
    Current(s, w) && id <= Place(w)
  }

  /** Up to its place a tick has all rows swept, but for those in the chunk it is detecting. */
  ghost predicate Knows(s: System, w: Worker) {
    forall id :: id in s.frames && s.seed < id <= Place(w) ==>
      || s.frames[id] in s.swept
      || (w.phase.Detecting? && w.phase.lo <= id && s.frames[id] in w.phase.listed)
  }

  ghost predicate Inv(s: System) {
    && Coverage(s)
    && forall w :: w in s.workers && Current(s, s.workers[w]) ==> Knows(s, s.workers[w])
  }

  /** An insert is harmless if its row lands ahead of the worker (or at or below the seed, where
      nothing is claimed). */
  ghost predicate Harmless(s: System, a: Action) {
    a.Insert? ==> !Passed(s, a.id)
  }

  /** Rows above every row stored since the last re-seed are ahead of the worker, so a store that
      hands out no id twice between re-seeds is harmless. */
  ghost predicate FreshId(s: System, a: Action) {
    a.Insert? ==> a.id > s.high
  }

  lemma FreshIsHarmless(s: System, a: Action)
    requires Shape(s) && Enabled(s, a) && FreshId(s, a)
    ensures Harmless(s, a)
  {
    if a.Insert? {
      forall w | w in s.workers && Current(s, s.workers[w])
        ensures s.seed < a.id ==> Place(s.workers[w]) < a.id
      {
        assert WorkerShape(s, s.workers[w]);
      }
    }
  }

  /** After its step a tick still knows what is behind it, on the swept set it leaves. */
  lemma MoveKnows(s: System, w: Worker, m: TickMove)
    requires CanTick(s, w, m) && Coverage(s) && WorkerShape(s, w) && (Current(s, w) ==> Knows(s, w))
    requires forall id :: id in s.frames ==> 1 <= id
    ensures var t := s.(swept := SweptAfter(s, w, m));
            && Covered(t, WatermarkAfter(s, w, m))
            && (Current(s, w.(phase := PhaseAfter(s, w, m))) ==> Knows(t, w.(phase := PhaseAfter(s, w, m))))
  {
  }

  lemma TickKeeps(s: System, w: nat, m: TickMove)
    requires Shape(s) && Inv(s) && w in s.workers && CanTick(s, s.workers[w], m)
    ensures Inv(Apply(s, Tick(w, m)))
  {
    assert WorkerShape(s, s.workers[w]);
    MoveKnows(s, s.workers[w], m);
    var t := Apply(s, Tick(w, m));
    forall v | v in t.workers && Current(t, t.workers[v])
      ensures Knows(t, t.workers[v])
    {
      assert v != w ==> Knows(s, s.workers[v]);
    }
  }

  /** The invariant is kept by an insert exactly if it is harmless. */
  lemma InsertKeepsInvIff(s: System, id: int)
    requires Shape(s) && Inv(s) && Enabled(s, Insert(id))
    ensures Inv(Apply(s, Insert(id))) <==> !Passed(s, id)
  {
    var t := Apply(s, Insert(id));
    assert t.frames[id] == s.captures && s.captures !in t.swept;
    forall w | w in s.workers && Current(s, s.workers[w])
      ensures Knows(t, t.workers[w]) <==> !PassedBy(s, s.workers[w], id) || id <= s.seed
    {
      assert Knows(s, s.workers[w]) && WorkerShape(s, s.workers[w]);
    }
    assert Coverage(t) <==> !(s.seed < id <= s.watermark);
  }

  /** Fewer rows, threads told to stop and waiting ones added: nothing to know becomes more. */
  lemma FrameKeeps(s: System, t: System)
    requires Inv(s) && forall id :: id in s.frames ==> 1 <= id
    requires forall id :: id in t.frames ==> id in s.frames && t.frames[id] == s.frames[id]
    requires t.swept == s.swept && t.seed == s.seed && t.watermark == s.watermark && t.epoch == s.epoch
    requires forall w :: w in t.workers && !t.workers[w].phase.Waiting? ==>
             && w in s.workers && t.workers[w].phase == s.workers[w].phase
               && (s.workers[w].stopped ==> t.workers[w].stopped)
    ensures Inv(t)
  {
    forall w | w in t.workers && Current(t, t.workers[w])
      ensures Knows(t, t.workers[w])
    {
      assert Knows(s, s.workers[w]);
      PlaceShrinks(s.workers[w], t.workers[w]);
    }
  }

  /** A stop takes away places, except below every row. */
  lemma PlaceShrinks(w: Worker, w': Worker)
    requires w'.phase == w.phase && (w.stopped ==> w'.stopped)
    ensures Place(w') <= Place(w) || Place(w') == 0
  {
  }

  /** A re-seed restores the invariant from any state: nothing is claimed up to the new seed, and
      every tick under way becomes one of the past. */
  lemma ReseedRestores(s: System, a: Action)
    requires Shape(s) && Enabled(s, a) && IsReseed(s, a)
    ensures Inv(Apply(s, a))
  {
    var t := Apply(s, a);
    forall w | w in t.workers
      ensures !Current(t, t.workers[w])
    {
      assert WorkerShape(s, s.workers[w]);
    }
  }

  lemma OthersKeepInv(s: System, a: Action)
    requires Shape(s) && Inv(s) && Enabled(s, a) && !IsReseed(s, a) && !a.Tick? && !a.Insert?
    ensures Inv(Apply(s, a))
  {
    if a.StarterSteps? {
      FrameKeeps(s, StarterNext(s, a.k, a.latest));
    } else if a.ClearerSteps? {
      FrameKeeps(s, ClearerNext(s, a.k, a.latest));
    } else {
      FrameKeeps(s, Apply(s, a));
    }
  }

  lemma StepKeepsInv(s: System, a: Action)
    requires Shape(s) && Inv(s) && Enabled(s, a) && Harmless(s, a)
    ensures Inv(Apply(s, a))
  {
    if IsReseed(s, a) {
      ReseedRestores(s, a);
    } else if a.Tick? {
      TickKeeps(s, a.w, a.move);
    } else if a.Insert? {
      InsertKeepsInvIff(s, a.id);
    } else {
      OthersKeepInv(s, a);
    }
  }

  lemma {:induction false} RunKeepsInv(states: seq<System>, actions: seq<Action>, r: nat, i: nat)
    requires IsRun(states, actions) && r <= i < |states|
    requires r == 0 || IsReseed(states[r - 1], actions[r - 1])
    requires forall m {:trigger actions[m]} :: r <= m < i ==> Harmless(states[m], actions[m])
    ensures Inv(states[i])
    decreases i
  {
    if i > 0 {
      RunKeepsShape(states, actions, i - 1);
      assert Steps(states[i - 1], actions[i - 1], states[i - 1 + 1]);
      if i == r {
        ReseedRestores(states[i - 1], actions[i - 1]);
      } else {
        RunKeepsInv(states, actions, r, i - 1);
        StepKeepsInv(states[i - 1], actions[i - 1]);
      }
    }
  }

  /** Let `r` be the start of the run or right after any re-seed. As long as no row has since been
      inserted behind the worker, every stored frame above the last seed and at or below the
      in-memory watermark was in a chunk whose detect completed without a stop, whatever threads,
      starts, stops and clears overlapped, and whatever ids were handed out before `r`. */
  lemma WatermarkMeansCovered(states: seq<System>, actions: seq<Action>, r: nat, i: nat)
    requires IsRun(states, actions) && r <= i < |states|
    requires r == 0 || IsReseed(states[r - 1], actions[r - 1])
    requires forall m {:trigger actions[m]} :: r <= m < i ==> Harmless(states[m], actions[m])
    ensures Coverage(states[i])
  {
    RunKeepsInv(states, actions, r, i);
  }

  /** In particular with row ids not reused since the last re-seed. */
  lemma FreshIdsSuffice(states: seq<System>, actions: seq<Action>, r: nat, i: nat)
    requires IsRun(states, actions) && r <= i < |states|
    requires r == 0 || IsReseed(states[r - 1], actions[r - 1])
    requires forall m {:trigger actions[m]} :: r <= m < i ==> FreshId(states[m], actions[m])
    ensures Coverage(states[i])
  {
    forall m | r <= m < i
      ensures Harmless(states[m], actions[m])
    {
      RunKeepsShape(states, actions, m);
      assert Steps(states[m], actions[m], states[m + 1]);
      FreshIsHarmless(states[m], actions[m]);
    }
    WatermarkMeansCovered(states, actions, r, i);
  }

  // --- No resurrection -----------------------------------------------------------------

  lemma {:induction false} EpochsOnlyGrow(states: seq<System>, actions: seq<Action>, i: nat, j: nat)
    requires IsRun(states, actions) && i <= j < |states|
    ensures states[i].epoch <= states[j].epoch
    decreases j
  {
    if i < j {
      EpochsOnlyGrow(states, actions, i, j - 1);
      EpochGrows(states, actions, j - 1);
    }
  }

  lemma EpochGrows(states: seq<System>, actions: seq<Action>, i: nat)
    requires IsRun(states, actions) && i < |actions|
    ensures states[i].epoch <= states[i + 1].epoch
  {
    EpochStep(states, actions, i);
  }

  lemma EpochStep(states: seq<System>, actions: seq<Action>, i: nat)
    requires IsRun(states, actions) && i < |actions|
    ensures states[i + 1].epoch == states[i].epoch + if IsReseed(states[i], actions[i]) then 1 else 0
  {
    assert Steps(states[i], actions[i], states[i + 1]);
  }

  /** Between two snapshots of the same thread its tick keeps the epoch of the first. */
  lemma {:induction false} TickKeepsItsEpoch(states: seq<System>, actions: seq<Action>, i: nat, k: nat, w: nat)
    requires IsRun(states, actions)
    requires i < k <= |actions| && actions[i] == Tick(w, Snap)
    requires forall m :: i < m < k ==> actions[m] != Tick(w, Snap)
    ensures w in states[k].workers
    ensures states[k].workers[w].phase.Waiting? || states[k].workers[w].phase.epoch == states[i].epoch
    decreases k
  {
    assert Steps(states[k - 1], actions[k - 1], states[k - 1 + 1]);
    if i < k - 1 {
      TickKeepsItsEpoch(states, actions, i, k - 1, w);
      RunKeepsShape(states, actions, k - 1);
      TickEpochStep(states[k - 1], actions[k - 1], w);
    }
  }

  lemma TickEpochStep(s: System, a: Action, w: nat)
    requires Shape(s) && Enabled(s, a) && w in s.workers && a != Tick(w, Snap)
    ensures w in Apply(s, a).workers
    ensures Apply(s, a).workers[w].phase.Waiting? ||
            (!s.workers[w].phase.Waiting? && Apply(s, a).workers[w].phase.epoch == s.workers[w].phase.epoch)
  {
    if !a.Tick? || a.w != w {
      assert Apply(s, a).workers[w].phase == s.workers[w].phase;
    }
  }

  /** A tick whose snapshot (step `i`) predates a re-seed (step `j`) never changes the in-memory
      watermark afterwards, not even as a leftover of a thread that was stopped and replaced. */
  lemma StaleTickNeverWrites(states: seq<System>, actions: seq<Action>, i: nat, j: nat, k: nat, w: nat)
    requires IsRun(states, actions)
    requires i < j < k < |actions|
    requires actions[i] == Tick(w, Snap) && IsReseed(states[j], actions[j])
    requires forall m :: i < m < k ==> actions[m] != Tick(w, Snap)
    requires actions[k].Tick? && actions[k].w == w
    ensures states[k + 1].watermark == states[k].watermark
  {
    EpochsOnlyGrow(states, actions, i, j);
    EpochStep(states, actions, j);
    EpochsOnlyGrow(states, actions, j + 1, k);
    TickKeepsItsEpoch(states, actions, i, k, w);
    assert Steps(states[k], actions[k], states[k + 1]);
  }

  /** Only completed sweeps, clamps of the present epoch and re-seeds move the watermark. */
  lemma OnlyCurrentTicksWrite(s: System, a: Action)
    requires Enabled(s, a) && Apply(s, a).watermark != s.watermark
    ensures IsReseed(s, a) || (a.Tick? && (a.move.Advance? || a.move.Clamp?) && s.workers[a.w].phase.epoch == s.epoch)
  {
  }

  // --- Threads -------------------------------------------------------------------------

  /** The threads that have not been told to stop are the current one, if the worker runs, and no
      other. */
  ghost predicate SoleThread(s: System) {
    && (s.running ==> s.current in s.workers)
    && forall w :: w in s.workers ==> w < s.threads && (s.workers[w].stopped <==> !(s.running && w == s.current))
  }

  lemma StepKeepsSoleThread(s: System, a: Action)
    requires SoleThread(s) && Enabled(s, a)
    ensures SoleThread(Apply(s, a))
  {
    if a.Tick? {
      TickLeavesThreads(s, a.w, a.move);
    } else if a.ClearerSteps? {
      ClearerLeavesThreads(s, a.k, a.latest);
    }
  }

  lemma TickLeavesThreads(s: System, w: nat, m: TickMove)
    requires w in s.workers && CanTick(s, s.workers[w], m)
    ensures var t := Apply(s, Tick(w, m));
            && t.running == s.running && t.current == s.current && t.threads == s.threads && s.epoch == t.epoch
            && t.workers == s.workers[w := s.workers[w].(phase := PhaseAfter(s, s.workers[w], m))]
  {
  }

  /** Whatever else happens leaves a thread where it was in its tick. */
  lemma OthersLeaveThePhase(s: System, a: Action, w: nat)
    requires Enabled(s, a) && w in s.workers && w < s.threads && !(a.Tick? && a.w == w)
    ensures var t := Apply(s, a); w in t.workers && t.workers[w].phase == s.workers[w].phase && s.epoch <= t.epoch
    ensures s.workers[w].stopped ==> Apply(s, a).workers[w].stopped
  {
    if a.Tick? {
      TickLeavesThreads(s, a.w, a.move);
    } else if a.StarterSteps? {
      StarterLeavesThreads(s, a.k, a.latest, w);
    } else if a.ClearerSteps? {
      ClearerLeavesThreads(s, a.k, a.latest);
    } else {
      assert Apply(s, a).epoch == s.epoch;
    }
  }

  lemma StarterLeavesThreads(s: System, k: nat, latest: int, w: nat)
    requires k in s.starters && w in s.workers && w < s.threads
    ensures var t := StarterNext(s, k, latest); w in t.workers && t.workers[w] == s.workers[w] && s.epoch <= t.epoch
  {
  }

  lemma ClearerLeavesThreads(s: System, k: nat, latest: int)
    requires k in s.clearers
    ensures var t := ClearerNext(s, k, latest);
            && t.workers == s.workers && s.epoch <= t.epoch
            && t.running == s.running && t.current == s.current && t.threads == s.threads
  {
  }

  /** However starts and stops interleave, at most one thread is ever free to go on, exactly while the
      worker runs: a replaced thread is never revived. */
  lemma {:induction false} OneThreadAtATime(states: seq<System>, actions: seq<Action>, i: nat)
    requires IsRun(states, actions) && i < |states|
    ensures SoleThread(states[i])
  {
    if i > 0 {
      OneThreadAtATime(states, actions, i - 1);
      assert Steps(states[i - 1], actions[i - 1], states[i - 1 + 1]);
      StepKeepsSoleThread(states[i - 1], actions[i - 1]);
    }
  }

  /** From the one state to the other thread `w` starts its detect on a chunk. */
  ghost predicate BeginsDetect(s: System, t: System, w: nat) {
    && w in s.workers && w in t.workers
    && !s.workers[w].phase.Detecting? && t.workers[w].phase.Detecting?
  }

  /** How many detects of thread `w` begin from step `i` up to step `j`. */
  ghost function Begun(states: seq<System>, w: nat, i: nat, j: nat): nat
    requires i <= j < |states|
    decreases j
  {
    if i == j then 0
    else
      Begun(states, w, i, j - 1)
      + if BeginsDetect(states[j - 1], states[j], w) then 1 else 0
  }

  /** The detects a tick that has lost its epoch may still begin. */
  function MayBegin(p: Phase): nat {
    if p.Snapped? || p.AtChunk? then 1 else 0
  }

  lemma StaleStep(s: System, a: Action, w: nat)
    requires Shape(s) && Enabled(s, a) && w in s.workers && a != Tick(w, Snap)
    requires s.workers[w].phase.Waiting? || s.workers[w].phase.epoch < s.epoch
    ensures var t := Apply(s, a);
            && w in t.workers && s.epoch <= t.epoch
            && (t.workers[w].phase.Waiting? || t.workers[w].phase.epoch < t.epoch)
            && MayBegin(t.workers[w].phase) + (if BeginsDetect(s, t, w) then 1 else 0)
               <= MayBegin(s.workers[w].phase)
  {
    if a.Tick? && a.w == w {
      TickLeavesThreads(s, w, a.move);
      StaleMove(s, s.workers[w], a.move);
    } else {
      OthersLeaveThePhase(s, a, w);
    }
  }

  lemma StaleMove(s: System, w: Worker, m: TickMove)
    requires CanTick(s, w, m) && !m.Snap? && w.phase.epoch < s.epoch
    ensures var p := PhaseAfter(s, w, m);
            && (p.Waiting? || p.epoch < s.epoch)
            && MayBegin(p) + (if !w.phase.Detecting? && p.Detecting? then 1 else 0) <= MayBegin(w.phase)
  {
  }

  lemma {:induction false} StaleTickRun(states: seq<System>, actions: seq<Action>, i: nat, j: nat, w: nat)
    requires IsRun(states, actions) && i <= j <= |actions| && w in states[i].workers
    requires states[i].workers[w].phase.Waiting? || states[i].workers[w].phase.epoch < states[i].epoch
    requires forall m :: i <= m < j ==> actions[m] != Tick(w, Snap)
    ensures w in states[j].workers
    ensures states[j].workers[w].phase.Waiting? || states[j].workers[w].phase.epoch < states[j].epoch
    ensures Begun(states, w, i, j) + MayBegin(states[j].workers[w].phase)
            <= MayBegin(states[i].workers[w].phase)
    decreases j
  {
    if i < j {
      StaleTickRun(states, actions, i, j - 1, w);
      RunKeepsShape(states, actions, j - 1);
      assert Steps(states[j - 1], actions[j - 1], states[j - 1 + 1]);
      StaleStep(states[j - 1], actions[j - 1], w);
    }
  }

  /** A tick that a re-seed has overtaken is abandoned: until the thread's next snapshot it begins at
      most one more detect. */
  lemma StaleTickIsAbandoned(states: seq<System>, actions: seq<Action>, i: nat, j: nat, w: nat)
    requires IsRun(states, actions) && i <= j <= |actions| && w in states[i].workers
    requires !states[i].workers[w].phase.Waiting? && states[i].workers[w].phase.epoch < states[i].epoch
    requires forall m :: i <= m < j ==> actions[m] != Tick(w, Snap)
    ensures Begun(states, w, i, j) <= 1
  {
    StaleTickRun(states, actions, i, j, w);
  }

  lemma StoppedAt(states: seq<System>, actions: seq<Action>, i: nat, w: nat)
    requires IsRun(states, actions) && i < |actions| && w in states[i].workers && states[i].workers[w].stopped
    ensures w in states[i + 1].workers && states[i + 1].workers[w].stopped
    ensures !BeginsDetect(states[i], states[i + 1], w)
  {
    OneThreadAtATime(states, actions, i);
    assert Steps(states[i], actions[i], states[i + 1]);
    StoppedStep(states[i], actions[i], w);
  }

  lemma StoppedStep(s: System, a: Action, w: nat)
    requires SoleThread(s) && Enabled(s, a) && w in s.workers && s.workers[w].stopped
    ensures var t := Apply(s, a); w in t.workers && t.workers[w].stopped && !BeginsDetect(s, t, w)
  {
    if a.Tick? && a.w == w {
      TickLeavesThreads(s, w, a.move);
    } else {
      OthersLeaveThePhase(s, a, w);
    }
  }

  /** And a thread that was told to stop begins none. */
  lemma {:induction false} StoppedThreadBeginsNothing(states: seq<System>, actions: seq<Action>, i: nat, j: nat, w: nat)
    requires IsRun(states, actions) && i <= j <= |actions| && w in states[i].workers && states[i].workers[w].stopped
    ensures w in states[j].workers && states[j].workers[w].stopped
    ensures Begun(states, w, i, j) == 0
    decreases j
  {
    if i < j {
      StoppedThreadBeginsNothing(states, actions, i, j - 1, w);
      StoppedAt(states, actions, j - 1, w);
    }
  }
}
