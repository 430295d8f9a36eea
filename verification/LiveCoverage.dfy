/** What the naming worker's coverage rests on: which closing visits and which first seeds cost a
    visit, exactly; that visits closing in order and starts that do not overlap cost none; and a
    run in which two overlapping first starts do. */
module LiveCoverage {
  import opened LiveWorker

  // --- Enough: visits in order, one first start at a time ------------------------------

  /** A visit closes above every visit closed since the last reset, or began at or below the seed,
      where nothing is claimed. */
  ghost predicate FreshVisit(s: System, a: Action) {
    a.Close? ==> a.lo > s.high || a.lo <= s.seed
  }

  ghost predicate InSection(p: Starter) {
    p.Reading? || p.Setting? || p.Unflagging?
  }

  /** At most one start is between its test of the flag and its clearing of it. */
  ghost predicate Serial(s: System) {
    forall k, l :: k in s.starters && l in s.starters && InSection(s.starters[k]) && InSection(s.starters[l]) ==> k == l
  }

  /** Before the flag is cleared there is no thread and no start about to make one; while a start
      is seeding the flag is not cleared. */
  ghost predicate FirstStart(s: System) {
    && (s.neverEnabled ==> s.workers == map[] && forall k :: k in s.starters ==> !s.starters[k].Locking?)
    && (forall k :: k in s.starters && InSection(s.starters[k]) ==> s.neverEnabled)
  }

  lemma StepKeepsFirstStart(s: System, a: Action)
    requires FirstStart(s) && Serial(s) && Enabled(s, a)
    ensures FirstStart(Apply(s, a))
  {
    if a.StarterSteps? {
      StarterKeepsFirstStart(s, a.k);
    }
  }

  lemma StarterKeepsFirstStart(s: System, k: nat)
    requires FirstStart(s) && Serial(s) && k in s.starters
    ensures FirstStart(StarterNext(s, k))
  {
  }

  lemma {:induction false} RunKeepsFirstStart(states: seq<System>, actions: seq<Action>, i: nat)
    requires IsRun(states, actions) && i < |states|
    requires forall m :: 0 <= m < i ==> Serial(states[m])
    ensures FirstStart(states[i])
  {
    if i > 0 {
      RunKeepsFirstStart(states, actions, i - 1);
      assert Steps(states[i - 1], actions[i - 1], states[i - 1 + 1]);
      StepKeepsFirstStart(states[i - 1], actions[i - 1]);
    }
  }

  /** With starts one at a time every first seed comes before there is any thread, so it is
      harmless. */
  lemma SerialSeedsAreQuiet(states: seq<System>, actions: seq<Action>, i: nat)
    requires IsRun(states, actions) && i < |actions| && IsFirstSeed(states[i], actions[i])
    requires forall m :: 0 <= m <= i ==> Serial(states[m])
    ensures states[i].workers == map[] && Harmless(states[i], actions[i])
  {
    RunKeepsFirstStart(states, actions, i);
  }

  function Top(s: System): int { Max(s.seed, s.high) }

  /** The furthest id a tick holds. */
  ghost function Furthest(p: Phase): int {
    match p
    case Waiting => 0
    case Snapped(_, watermark) => watermark
    case Clamping(_, latest) => latest
    case Querying(_, watermark) => watermark
    case AtSpan(_, spans, _) => LastEnd(spans)
    case Detecting(_, spans, _) => LastEnd(spans)
    case Detected(_, spans, _, _) => LastEnd(spans)
    case Identifying(_, spans, _) => LastEnd(spans)
    case Advancing(_, spans, _) => LastEnd(spans)
  }

  lemma PassesWithinFurthest(s: System, w: Worker, v: Visit)
    requires WorkerShape(s, w) && 1 <= v.lo <= v.hi && Passes(w, v)
    ensures v.lo <= Furthest(w.phase)
  {
  }

  /** The watermark, and every place a tick of this epoch can put it, is at most the last seed or
      the last visit closed. */
  ghost predicate Tops(s: System) {
    && s.watermark <= Top(s)
    && forall w :: w in s.workers && Current(s, s.workers[w]) ==> Furthest(s.workers[w].phase) <= Top(s)
  }

  lemma FreshIsHarmless(s: System, a: Action)
    requires Shape(s) && Tops(s) && Enabled(s, a) && FreshVisit(s, a) && (IsFirstSeed(s, a) ==> s.workers == map[])
    ensures Harmless(s, a)
  {
    if a.Close? && s.seed < a.lo {
      var v := Visit(a.lo, a.hi, s.marks);
      forall w | w in s.workers
        ensures !PassedBy(s, s.workers[w], v)
      {
        if PassedBy(s, s.workers[w], v) {
          PassesWithinFurthest(s, s.workers[w], v);
        }
      }
    }
  }

  lemma TickKeepsTops(s: System, w: nat, m: TickMove)
    requires Shape(s) && Tops(s) && w in s.workers && CanTick(s, s.workers[w], m)
    ensures Tops(Apply(s, Tick(w, m)))
  {
    MoveKeepsTops(s, s.workers[w], m);
    var t := Apply(s, Tick(w, m));
    forall v | v in t.workers && Current(t, t.workers[v])
      ensures Furthest(t.workers[v].phase) <= Top(t)
    {
      assert v != w ==> t.workers[v] == s.workers[v];
    }
  }

  /** A listed span ends where a closed visit does. */
  lemma ListEndsByHigh(s: System, since: int, spans: seq<Visit>)
    requires Shape(s) && Lists(s.visits, since, spans)
    ensures LastEnd(spans) <= s.high
  {
    if spans != [] {
      var last := spans[|spans| - 1];
      assert last in spans;
      var v :| v in s.visits && TailOf(last, v);
    }
  }

  lemma QueryKeepsTops(s: System, w: Worker, spans: seq<Visit>)
    requires Shape(s) && s.watermark <= Top(s) && CanTick(s, w, Query(spans))
    ensures Furthest(PhaseAfter(s, w, Query(spans))) <= Top(s)
  {
    ListEndsByHigh(s, w.phase.watermark, spans);
  }

  lemma AdvanceKeepsTops(s: System, w: Worker)
    requires s.watermark <= Top(s) && CanTick(s, w, Advance) && WorkerShape(s, w)
    requires Current(s, w) ==> Furthest(w.phase) <= Top(s)
    ensures WatermarkAfter(s, w, Advance) <= Top(s)
  {
  }

  /** The moves that neither query nor write keep what the tick holds. */
  lemma PassKeepsTops(s: System, w: Worker, m: TickMove)
    requires CanTick(s, w, m) && (m.BeginSpan? || m.EndDetect? || m.CheckStop? || m.EndIdentify? || m.Advance?)
    ensures var after := PhaseAfter(s, w, m);
            after.Waiting? || (after.epoch == w.phase.epoch && Furthest(after) == Furthest(w.phase))
  {
  }

  lemma OpeningKeepsTops(s: System, w: Worker, m: TickMove)
    requires Shape(s) && s.watermark <= Top(s) && CanTick(s, w, m) && (m.Snap? || m.ReadLatest? || m.Clamp?)
    requires Current(s, w) ==> Furthest(w.phase) <= Top(s)
    ensures Current(s, w.(phase := PhaseAfter(s, w, m))) ==> Furthest(PhaseAfter(s, w, m)) <= Top(s)
    ensures WatermarkAfter(s, w, m) <= Top(s)
  {
  }

  lemma MoveKeepsTops(s: System, w: Worker, m: TickMove)
    requires Shape(s) && s.watermark <= Top(s) && CanTick(s, w, m) && WorkerShape(s, w)
    requires Current(s, w) ==> Furthest(w.phase) <= Top(s)
    ensures Current(s, w.(phase := PhaseAfter(s, w, m))) ==> Furthest(PhaseAfter(s, w, m)) <= Top(s)
    ensures WatermarkAfter(s, w, m) <= Top(s)
  {
    if m.Query? {
      QueryKeepsTops(s, w, m.spans);
    } else if m.Snap? || m.ReadLatest? || m.Clamp? {
      OpeningKeepsTops(s, w, m);
    } else {
      PassKeepsTops(s, w, m);
      if m.Advance? {
        AdvanceKeepsTops(s, w);
      }
    }
  }

  lemma QuietKeepsTops(s: System, t: System)
    requires Tops(s) && t.seed == s.seed && s.high <= t.high && t.watermark == s.watermark && t.epoch == s.epoch
    requires forall w :: w in t.workers && !t.workers[w].phase.Waiting? ==>
             w in s.workers && t.workers[w].phase == s.workers[w].phase
    ensures Tops(t)
  {
  }

  lemma ClearerKeepsTops(s: System, k: nat)
    requires Shape(s) && Tops(s) && k in s.clearers
    ensures Tops(ClearerNext(s, k))
  {
    if s.clearers[k].Resetting? {
      ResetLeavesNoTick(s, k);
    } else {
      QuietKeepsTops(s, ClearerNext(s, k));
    }
  }

  lemma StepKeepsTops(s: System, a: Action)
    requires Shape(s) && Tops(s) && Enabled(s, a) && (IsFirstSeed(s, a) ==> s.workers == map[])
    ensures Tops(Apply(s, a))
  {
    if a.Tick? {
      TickKeepsTops(s, a.w, a.move);
    } else if a.ClearerSteps? {
      ClearerKeepsTops(s, a.k);
    } else if IsFirstSeed(s, a) {
      RestoresTops(s, a);
    } else if a.StarterSteps? {
      QuietKeepsTops(s, StarterNext(s, a.k));
    } else {
      QuietKeepsTops(s, Apply(s, a));
    }
  }

  lemma RestoresTops(s: System, a: Action)
    requires Shape(s) && Enabled(s, a) && Restores(s, a)
    ensures Tops(Apply(s, a))
  {
    if IsReset(s, a) {
      ResetLeavesNoTick(s, a.k);
    }
  }

  lemma {:induction false} RunKeepsTops(states: seq<System>, actions: seq<Action>, r: nat, i: nat)
    requires IsRun(states, actions) && r <= i < |states|
    requires r == 0 || Restores(states[r - 1], actions[r - 1])
    requires forall m :: 0 <= m < i ==> Serial(states[m])
    ensures Tops(states[i])
    decreases i
  {
    if i > 0 {
      RunKeepsShape(states, actions, i - 1);
      assert Steps(states[i - 1], actions[i - 1], states[i - 1 + 1]);
      if i == r {
        RestoresTops(states[i - 1], actions[i - 1]);
      } else {
        RunKeepsTops(states, actions, r, i - 1);
        if IsFirstSeed(states[i - 1], actions[i - 1]) {
          SerialSeedsAreQuiet(states, actions, i - 1);
        }
        StepKeepsTops(states[i - 1], actions[i - 1]);
      }
    }
  }

  /** So with starts one at a time, and visits closing in order since `r`, coverage holds. */
  lemma OrderSuffices(states: seq<System>, actions: seq<Action>, r: nat, i: nat)
    requires IsRun(states, actions) && r <= i < |states|
    requires r == 0 || Restores(states[r - 1], actions[r - 1])
    requires forall m :: 0 <= m < i ==> Serial(states[m])
    requires forall m {:trigger actions[m]} :: r <= m < i ==> FreshVisit(states[m], actions[m])
    ensures Coverage(states[i])
  {
    forall m {:trigger actions[m]} | r <= m < i
      ensures Harmless(states[m], actions[m])
    {
      RunKeepsShape(states, actions, m);
      RunKeepsTops(states, actions, r, m);
      assert Steps(states[m], actions[m], states[m + 1]);
      if IsFirstSeed(states[m], actions[m]) {
        SerialSeedsAreQuiet(states, actions, m);
      }
      FreshIsHarmless(states[m], actions[m]);
    }
    WatermarkMeansNamed(states, actions, r, i);
  }

  // --- And what anything less costs ----------------------------------------------------

  /** Steps that can be taken from `s`, each of them harmless. */
  ghost predicate Harmlessly(s: System, actions: seq<Action>)
    decreases |actions|
  {
    actions == [] ||
    (Enabled(s, actions[0]) && Harmless(s, actions[0]) && Harmlessly(Apply(s, actions[0]), actions[1..]))
  }

  ghost function After(s: System, actions: seq<Action>): System
    requires Harmlessly(s, actions)
    decreases |actions|
  {
    if actions == [] then s else After(Apply(s, actions[0]), actions[1..])
  }

  /** Some harmless future of `s` has an unnamed visit between the seed and the watermark. */
  ghost predicate Loses(s: System) {
    exists actions :: Harmlessly(s, actions) && !Coverage(After(s, actions))
  }

  lemma {:induction false} KeepsInvAfter(s: System, actions: seq<Action>)
    requires Shape(s) && Inv(s) && Harmlessly(s, actions)
    ensures Inv(After(s, actions))
    decreases |actions|
  {
    if actions != [] {
      StepKeepsShape(s, actions[0]);
      StepKeepsInv(s, actions[0]);
      KeepsInvAfter(Apply(s, actions[0]), actions[1..]);
    }
  }

  lemma LosesBefore(s: System, a: Action)
    requires Enabled(s, a) && Harmless(s, a) && Loses(Apply(s, a))
    ensures Loses(s)
  {
    var rest :| Harmlessly(Apply(s, a), rest) && !Coverage(After(Apply(s, a), rest));
    var actions := [a] + rest;
    assert actions[0] == a && actions[1..] == rest;
    assert Harmlessly(s, actions) && After(s, actions) == After(Apply(s, a), rest);
  }

  lemma LosesNow(s: System)
    requires !Coverage(s)
    ensures Loses(s)
  {
    assert Harmlessly(s, []) && After(s, []) == s;
  }

  /** Thread `w` misses visit `v`. */
  ghost predicate Misses(s: System, w: nat, v: Visit) {
    w in s.workers && WorkerShape(s, s.workers[w]) && Missed(s, s.seed, s.workers[w], v)
  }

  lemma TickLoses(s: System, w: nat, m: TickMove)
    requires w in s.workers && CanTick(s, s.workers[w], m) && Loses(Apply(s, Tick(w, m)))
    ensures Loses(s)
  {
    LosesBefore(s, Tick(w, m));
  }

  /** A tick that misses a visit within its list loses it by running on: span by span its passes
      complete, and some advance passes the visit. */
  lemma {:induction false} AdvanceLoses(s: System, w: nat, v: Visit)
    requires Misses(s, w, v) && 1 <= v.lo && s.workers[w].phase.Advancing?
    ensures Loses(s)
    decreases |s.workers[w].phase.spans| - s.workers[w].phase.i, 0
  {
    var t, spans, i := Apply(s, Tick(w, Advance)), s.workers[w].phase.spans, s.workers[w].phase.i;
    if v.lo <= spans[i].hi {
      assert v in t.visits && !Named(t, v);
      LosesNow(t);
    } else {
      RestStep(v, spans, i);
      assert i + 1 < Reach(spans);
      SpanLoses(t, w, v);
    }
    TickLoses(s, w, Advance);
  }

  lemma IdentifyLoses(s: System, w: nat, v: Visit)
    requires Misses(s, w, v) && 1 <= v.lo && s.workers[w].phase.Identifying?
    ensures Loses(s)
    decreases |s.workers[w].phase.spans| - s.workers[w].phase.i, 1
  {
    RestStep(v, s.workers[w].phase.spans, s.workers[w].phase.i);
    AdvanceLoses(Apply(s, Tick(w, EndIdentify(Completes))), w, v);
    TickLoses(s, w, EndIdentify(Completes));
  }

  lemma DetectedLoses(s: System, w: nat, v: Visit)
    requires Misses(s, w, v) && 1 <= v.lo && s.workers[w].phase.Detected?
    ensures Loses(s)
    decreases |s.workers[w].phase.spans| - s.workers[w].phase.i, 2
  {
    IdentifyLoses(Apply(s, Tick(w, CheckStop)), w, v);
    TickLoses(s, w, CheckStop);
  }

  lemma DetectLoses(s: System, w: nat, v: Visit)
    requires Misses(s, w, v) && 1 <= v.lo && s.workers[w].phase.Detecting?
    ensures Loses(s)
    decreases |s.workers[w].phase.spans| - s.workers[w].phase.i, 3
  {
    RestStep(v, s.workers[w].phase.spans, s.workers[w].phase.i);
    DetectedLoses(Apply(s, Tick(w, EndDetect(Completes))), w, v);
    TickLoses(s, w, EndDetect(Completes));
  }

  lemma SpanLoses(s: System, w: nat, v: Visit)
    requires Misses(s, w, v) && 1 <= v.lo && s.workers[w].phase.AtSpan?
    ensures Loses(s)
    decreases |s.workers[w].phase.spans| - s.workers[w].phase.i, 4
  {
    DetectLoses(Apply(s, Tick(w, BeginSpan(false))), w, v);
    TickLoses(s, w, BeginSpan(false));
  }

  /** The visits beyond `since`, one that it cuts through from its last frame on. */
  ghost function Later(visits: seq<Visit>, since: int): seq<Visit> {
    if visits == [] || since < visits[0].lo then visits
    else if since < visits[0].hi then [visits[0].(lo := visits[0].hi)] + visits[1..]
    else Later(visits[1..], since)
  }

  lemma AllAreListed(visits: seq<Visit>, since: int)
    requires Ordered(visits) && forall i :: 0 <= i < |visits| ==> since < visits[i].lo
    ensures Lists(visits, since, visits)
  {
    assert forall v :: v in visits ==> TailOf(v, v);
  }

  lemma CutIsListed(visits: seq<Visit>, since: int)
    requires Ordered(visits) && visits != [] && CutBy(visits[0], since)
    ensures Lists(visits, since, [visits[0].(lo := visits[0].hi)] + visits[1..])
  {
    var cut := visits[0].(lo := visits[0].hi);
    var spans := [cut] + visits[1..];
    assert spans[0] == cut && TailOf(cut, visits[0]);
    forall i | 1 <= i < |visits|
      ensures spans[i] == visits[i] && since < visits[i].lo
    {
      assert visits[0].hi < visits[i].lo;
    }
    forall v | v in visits && v != visits[0]
      ensures v in spans && !CutBy(v, since)
    {
      var i :| 0 <= i < |visits| && visits[i] == v;
      assert spans[i] == v;
    }
    forall u | u in spans
      ensures exists v :: v in visits && TailOf(u, v)
    {
      var i :| 0 <= i < |spans| && spans[i] == u;
      assert TailOf(u, visits[i]) && visits[i] in visits;
    }
  }

  lemma PassedIsNotListed(visits: seq<Visit>, since: int, spans: seq<Visit>)
    requires visits != [] && visits[0].hi <= since && visits[0].lo <= visits[0].hi && Lists(visits[1..], since, spans)
    ensures Lists(visits, since, spans)
  {
    assert forall v :: v in visits && v != visits[0] ==> v in visits[1..];
    assert forall v :: v in visits[1..] ==> v in visits;
    forall u | u in spans
      ensures exists v :: v in visits && TailOf(u, v)
    {
      var v :| v in visits[1..] && TailOf(u, v);
      assert v in visits;
    }
  }

  lemma {:induction false} LaterIsListed(visits: seq<Visit>, since: int)
    requires Ordered(visits)
    ensures Lists(visits, since, Later(visits, since))
  {
    if visits == [] || since < visits[0].lo {
      AllAreListed(visits, since);
    } else if since < visits[0].hi {
      CutIsListed(visits, since);
    } else {
      LaterIsListed(visits[1..], since);
      PassedIsNotListed(visits, since, Later(visits[1..], since));
    }
  }

  lemma QueryMisses(s: System, w: nat, v: Visit, spans: seq<Visit>)
    requires Shape(s) && Misses(s, w, v) && s.workers[w].phase.Querying?
    requires CanTick(s, s.workers[w], Query(spans)) && spans != []
    ensures Misses(Apply(s, Tick(w, Query(spans))), w, v)
  {
    var since := s.workers[w].phase.watermark;
    MoveKeepsShape(s, s.workers[w], Query(spans));
    ListEndIsBeyond(spans, since);
    assert !InRest(v, spans, 0);
  }

  /** A query past the missed visit lists what is beyond it. */
  lemma QueryLoses(s: System, w: nat, v: Visit, u: Visit)
    requires Shape(s) && Misses(s, w, v) && s.workers[w].phase.Querying?
    requires u in s.visits && s.workers[w].phase.watermark < u.lo
    ensures Loses(s)
  {
    var spans := Later(s.visits, s.workers[w].phase.watermark);
    LaterIsListed(s.visits, s.workers[w].phase.watermark);
    QueryMisses(s, w, v, spans);
    SpanLoses(Apply(s, Tick(w, Query(spans))), w, v);
    TickLoses(s, w, Query(spans));
  }

  lemma ListEndIsBeyond(spans: seq<Visit>, since: int)
    requires Ordered(spans) && spans != [] && since < spans[0].lo
    ensures since < ListEnd(spans, 0)
  {
  }

  lemma {:induction false} FurthestExists(workers: map<nat, Worker>, ks: set<nat>) returns (bound: nat)
    requires forall k :: k in ks ==> k in workers
    ensures forall k :: k in ks ==> Furthest(workers[k].phase) <= bound
    decreases ks
  {
    if k :| k in ks {
      var rest := FurthestExists(workers, ks - {k});
      bound := Max(rest, Furthest(workers[k].phase));
    } else {
      bound := 0;
    }
  }

  /** A visit may yet close beyond everything, ahead of every tick. */
  lemma CloseBeyond(s: System, beyond: int) returns (x: int)
    requires Shape(s)
    ensures beyond < x && s.latest < x
    ensures Enabled(s, Grow(x)) && Enabled(Apply(s, Grow(x)), Close(x, x)) && Harmless(Apply(s, Grow(x)), Close(x, x))
  {
    var bound := FurthestExists(s.workers, s.workers.Keys);
    x := Max(Max(bound, beyond), Max(s.watermark, Max(s.latest, 0))) + 1;
    var g := Apply(s, Grow(x));
    forall w | w in g.workers
      ensures !PassedBy(g, g.workers[w], Visit(x, x, g.marks))
    {
      if Passes(s.workers[w], Visit(x, x, g.marks)) {
        PassesWithinFurthest(s, s.workers[w], Visit(x, x, g.marks));
      }
    }
  }

  lemma OpenLoses(s: System, w: nat, v: Visit)
    requires Shape(s) && Misses(s, w, v) && s.workers[w].phase.Querying?
    ensures Loses(s)
  {
    var x := CloseBeyond(s, s.workers[w].phase.watermark);
    var g := Apply(s, Grow(x));
    var t := Apply(g, Close(x, x));
    StepKeepsShape(s, Grow(x));
    StepKeepsShape(g, Close(x, x));
    assert v in t.visits && t.visits[|s.visits|] == Visit(x, x, s.marks) && t.visits[|s.visits|] in t.visits;
    QueryLoses(t, w, v, Visit(x, x, s.marks));
    LosesBefore(g, Close(x, x));
    LosesBefore(s, Grow(x));
  }

  lemma ClampLoses(s: System, w: nat, v: Visit)
    requires Misses(s, w, v) && s.workers[w].phase.Clamping?
    ensures Loses(s)
  {
    var t := Apply(s, Tick(w, Clamp));
    assert v in t.visits && !Named(t, v);
    LosesNow(t);
    TickLoses(s, w, Clamp);
  }

  /** The store is behind the snapshot: the tick clamps past the visit. */
  lemma BehindSnapshotLoses(s: System, w: nat, v: Visit)
    requires Shape(s) && Misses(s, w, v) && s.workers[w].phase.Snapped? && s.latest < s.workers[w].phase.watermark
    ensures Loses(s)
  {
    ClampLoses(Apply(s, Tick(w, ReadLatest)), w, v);
    TickLoses(s, w, ReadLatest);
  }

  lemma SnapshotLoses(s: System, w: nat, v: Visit)
    requires Shape(s) && Misses(s, w, v) && s.workers[w].phase.Snapped?
    ensures Loses(s)
  {
    if s.latest < s.workers[w].phase.watermark {
      BehindSnapshotLoses(s, w, v);
    } else if s.workers[w].stopped {
      ShrinkLoses(s, w, v);
    } else {
      StepKeepsShape(s, Tick(w, ReadLatest));
      OpenLoses(Apply(s, Tick(w, ReadLatest)), w, v);
      TickLoses(s, w, ReadLatest);
    }
  }

  /** A stopped tick can still clamp, once the store has shrunk to the visit. */
  lemma ShrinkLoses(s: System, w: nat, v: Visit)
    requires Shape(s) && Misses(s, w, v) && s.workers[w].phase.Snapped? && s.workers[w].stopped
    requires s.workers[w].phase.watermark <= s.latest
    ensures Loses(s)
  {
    StepKeepsShape(s, Shrink(v.hi));
    EndedByEnds(s.visits, v.hi);
    BehindSnapshotLoses(Apply(s, Shrink(v.hi)), w, v);
    LosesBefore(s, Shrink(v.hi));
  }

  lemma MissLoses(s: System, w: nat, v: Visit)
    requires Shape(s) && Misses(s, w, v)
    ensures Loses(s)
  {
    match s.workers[w].phase
    case Snapped(_, _) => SnapshotLoses(s, w, v);
    case Clamping(_, _) => ClampLoses(s, w, v);
    case Querying(_, _) => OpenLoses(s, w, v);
    case AtSpan(_, _, _) => SpanLoses(s, w, v);
    case Detecting(_, _, _) => DetectLoses(s, w, v);
    case Detected(_, _, _, _) => DetectedLoses(s, w, v);
    case Identifying(_, _, _) => IdentifyLoses(s, w, v);
    case Advancing(_, _, _) => AdvanceLoses(s, w, v);
  }

  lemma BehindLoses(s: System, lo: int, hi: int)
    requires Shape(s) && Enabled(s, Close(lo, hi)) && !Harmless(s, Close(lo, hi))
    ensures Loses(Apply(s, Close(lo, hi)))
  {
    var v, t := Visit(lo, hi, s.marks), Apply(s, Close(lo, hi));
    StepKeepsShape(s, Close(lo, hi));
    assert t.visits[|s.visits|] == v && v in t.visits && !Named(t, v);
    if lo <= s.watermark {
      LosesNow(t);
    } else {
      var w :| w in t.workers && PassedBy(t, t.workers[w], v);
      assert WorkerShape(s, s.workers[w]) && !ToCome(s.workers[w].phase, v);
      MissLoses(t, w, v);
    }
  }

  lemma StrandingLoses(s: System, k: nat)
    requires Shape(s) && Enabled(s, StarterSteps(k)) && IsFirstSeed(s, StarterSteps(k)) && !Harmless(s, StarterSteps(k))
    ensures Loses(Apply(s, StarterSteps(k)))
  {
    var w, v :| w in s.workers && Missed(s, s.starters[k].horizon, s.workers[w], v);
    var t := Apply(s, StarterSteps(k));
    StepKeepsShape(s, StarterSteps(k));
    assert Misses(t, w, v);
    MissLoses(t, w, v);
  }

  /** Exactly which steps cost a visit: one that closes behind the worker, and a first seed that
      strands one. After any other step no harmless future loses a visit; after one of these some
      harmless future does. */
  lemma LosesIff(s: System, a: Action)
    requires Shape(s) && Inv(s) && Enabled(s, a)
    ensures Loses(Apply(s, a)) <==> !Harmless(s, a)
  {
    StepKeepsShape(s, a);
    if Harmless(s, a) {
      StepKeepsInv(s, a);
      if Loses(Apply(s, a)) {
        var actions :| Harmlessly(Apply(s, a), actions) && !Coverage(After(Apply(s, a), actions));
        KeepsInvAfter(Apply(s, a), actions);
      }
    } else if a.Close? {
      BehindLoses(s, a.lo, a.hi);
    } else {
      StrandingLoses(s, a.k);
    }
  }

  // --- Two overlapping first starts ----------------------------------------------------

  ghost predicate Reachable(s: System) {
    exists states, actions :: IsRun(states, actions) && s == states[|actions|]
  }

  lemma ReachableStep(s: System, a: Action)
    requires Reachable(s) && Enabled(s, a)
    ensures Reachable(Apply(s, a))
  {
    var states, actions :| IsRun(states, actions) && s == states[|actions|];
    var states', actions' := states + [Apply(s, a)], actions + [a];
    forall i {:trigger actions'[i]} | 0 <= i < |actions'|
      ensures Steps(states'[i], actions'[i], states'[i + 1])
    {
      if i < |actions| {
        assert Steps(states[i], actions[i], states[i + 1]);
      }
    }
    assert IsRun(states', actions') && states'[|actions'|] == Apply(s, a);
  }

  lemma InitReachable(s: System)
    requires IsInit(s)
    ensures Reachable(s)
  {
    var states: seq<System>, actions: seq<Action> := [s], [];
    assert IsRun(states, actions) && s == states[|actions|];
  }

  /** A start arrives and tests the flag. */
  lemma TestsFlag(s: System, k: nat) returns (t: System)
    requires Reachable(s) && k !in s.starters
    ensures Reachable(t) && t == s.(starters := s.starters[k := if s.neverEnabled then Reading else Locking])
  {
    ReachableStep(s, StarterArrives(k));
    var s1 := Apply(s, StarterArrives(k));
    ReachableStep(s1, StarterSteps(k));
    t := Apply(s1, StarterSteps(k));
    assert t.starters == s.starters[k := if s.neverEnabled then Reading else Locking];
  }

  /** A first start arrives, tests the flag and reads its horizon. */
  lemma ReadsHorizon(s: System, k: nat) returns (t: System)
    requires Reachable(s) && s.neverEnabled && k !in s.starters
    ensures Reachable(t) && t == s.(starters := s.starters[k := Setting(s.latest)])
  {
    var s1 := TestsFlag(s, k);
    ReachableStep(s1, StarterSteps(k));
    t := Apply(s1, StarterSteps(k));
    assert t.starters == s.starters[k := Setting(s.latest)];
  }

  /** It seeds and clears the flag. */
  lemma SeedsWatermark(s: System, k: nat) returns (t: System)
    requires Reachable(s) && k in s.starters && s.starters[k].Setting?
    ensures Reachable(t)
    ensures t == FirstSeeded(s, s.starters[k].horizon).(neverEnabled := false, starters := s.starters[k := Locking])
  {
    ReachableStep(s, StarterSteps(k));
    var s1 := Apply(s, StarterSteps(k));
    ReachableStep(s1, StarterSteps(k));
    t := Apply(s1, StarterSteps(k));
    assert t.starters == s.starters[k := Locking];
  }

  /** It launches the worker, whose first tick takes its snapshot. */
  lemma LaunchesWorker(s: System, k: nat) returns (t: System)
    requires Reachable(s) && k in s.starters && s.starters[k].Locking? && !s.running && s.workers == map[]
    ensures Reachable(t) && t.starters == s.starters - {k}
    ensures t.workers == map[s.threads := Worker(Snapped(s.epoch, s.watermark), false)]
    ensures t.visits == s.visits && t.latest == s.latest && t.detected == s.detected && t.epoch == s.epoch
    ensures t.seed == s.seed && t.watermark == s.watermark
  {
    ReachableStep(s, StarterSteps(k));
    var s1 := Apply(s, StarterSteps(k));
    ReachableStep(s1, Tick(s.threads, Snap));
    t := Apply(s1, Tick(s.threads, Snap));
  }

  /** A first start reads its horizon from an empty store. Then a visit closes. */
  lemma EarlyReadReachable() returns (s: System)
    ensures Reachable(s) && s.starters == map[0 := Setting(0)] && s.visits == [Visit(1, 1, 0)] && s.detected == {}
    ensures s.neverEnabled && !s.running && s.workers == map[] && s.threads == 0 && s.latest == 1
  {
    var init := System([], 0, 0, 0, 0, true, false, 0, 0, map[], map[], map[], {}, {}, 0, 0);
    InitReachable(init);
    var s0 := ReadsHorizon(init, 0);
    ReachableStep(s0, Grow(1));
    var s1 := Apply(s0, Grow(1));
    ReachableStep(s1, Close(1, 1));
    s := Apply(s1, Close(1, 1));
  }

  /** A second first start overtakes it, and its worker takes a snapshot. */
  lemma OvertakenReachable() returns (s: System)
    ensures Reachable(s) && s.visits == [Visit(1, 1, 0)] && s.latest == 1 && s.detected == {}
    ensures s.seed == s.watermark == 1 && s.starters == map[0 := Setting(0)]
    ensures s.workers == map[0 := Worker(Snapped(s.epoch, 1), false)]
  {
    var s0 := EarlyReadReachable();
    var s1 := ReadsHorizon(s0, 1);
    var s2 := SeedsWatermark(s1, 1);
    s := LaunchesWorker(s2, 1);
  }

  /** A first seed does not bump the epoch. The first start's late seed then moves the watermark
      back below the visit, but the tick has already looked past it: it loses the visit. */
  lemma LateFirstSeedLosesVisit() returns (s: System)
    ensures Reachable(s) && Enabled(s, StarterSteps(0)) && IsFirstSeed(s, StarterSteps(0))
    ensures !Harmless(s, StarterSteps(0)) && Loses(Apply(s, StarterSteps(0)))
  {
    s := OvertakenReachable();
    var states, actions :| IsRun(states, actions) && s == states[|actions|];
    RunKeepsShape(states, actions, |actions|);
    assert s.visits[0] == Visit(1, 1, 0);
    assert Missed(s, 0, s.workers[0], Visit(1, 1, 0));
    StrandingLoses(s, 0);
  }

  // --- A visit under reused ids --------------------------------------------------------

  /** A start of a worker that was enabled before is about to launch it over one closed visit. */
  lemma LockingReachable() returns (s: System)
    ensures Reachable(s) && s.visits == [Visit(1, 1, 0)] && s.latest == 1 && s.detected == {}
    ensures s.seed == s.watermark == 0 && s.starters == map[0 := Locking]
    ensures !s.running && s.workers == map[] && s.threads == 0
  {
    var init := System([Visit(1, 1, 0)], 1, 1, 0, 0, false, false, 0, 0, map[], map[], map[], {}, {}, 0, 1);
    InitReachable(init);
    s := TestsFlag(init, 0);
  }

  /** Its tick has read the store's latest row. */
  lemma QueryingReachable() returns (s: System)
    ensures Reachable(s) && s.visits == [Visit(1, 1, 0)] && s.latest == 1 && s.detected == {}
    ensures s.seed == s.watermark == 0 && s.workers == map[0 := Worker(Querying(s.epoch, 0), false)]
  {
    var s0 := LockingReachable();
    var s1 := LaunchesWorker(s0, 0);
    ReachableStep(s1, Tick(0, ReadLatest));
    s := Apply(s1, Tick(0, ReadLatest));
    assert s == Moves(s1, 0, Querying(s1.epoch, 0));
  }

  /** It lists the visit. */
  lemma ListedReachable() returns (s: System)
    ensures Reachable(s) && s.latest == 1 && s.detected == {} && s.seed == s.watermark == 0
    ensures s.visits == [Visit(1, 1, 0)]
    ensures s.workers == map[0 := Worker(AtSpan(s.epoch, [Visit(1, 1, 0)], 0), false)]
  {
    var s0 := QueryingReachable();
    AllAreListed(s0.visits, 0);
    ReachableStep(s0, Tick(0, Query(s0.visits)));
    s := Apply(s0, Tick(0, Query(s0.visits)));
    assert s == Moves(s0, 0, AtSpan(s0.epoch, s0.visits, 0));
  }

  /** And begins its detect. */
  lemma DetectingReachable() returns (s: System)
    ensures Reachable(s) && s.latest == 1 && s.detected == {} && s.seed == s.watermark == 0
    ensures s.visits == [Visit(1, 1, 0)]
    ensures s.workers == map[0 := Worker(Detecting(s.epoch, [Visit(1, 1, 0)], 0), false)]
  {
    var s0 := ListedReachable();
    ReachableStep(s0, Tick(0, BeginSpan(false)));
    s := Apply(s0, Tick(0, BeginSpan(false)));
    assert s == Moves(s0, 0, Detecting(s0.epoch, [Visit(1, 1, 0)], 0));
  }

  /** While its detect runs the visit's rows are deleted and its ids reused. The visit that closes
      under them starts above the watermark, and is lost. */
  lemma ReclosedVisitCanBeLost() returns (s: System)
    ensures Reachable(s) && s.watermark < 1 && Enabled(s, Close(1, 1))
    ensures !Harmless(s, Close(1, 1)) && Loses(Apply(s, Close(1, 1)))
  {
    var s0 := DetectingReachable();
    ReachableStep(s0, Shrink(0));
    var s1 := Apply(s0, Shrink(0));
    assert s1.visits == [];
    ReachableStep(s1, Grow(1));
    s := Apply(s1, Grow(1));
    assert PassedBy(Closed(s, Visit(1, 1, s.marks)), s.workers[0], Visit(1, 1, s.marks));
    var states, actions :| IsRun(states, actions) && s == states[|actions|];
    RunKeepsShape(states, actions, |actions|);
    BehindLoses(s, 1, 1);
  }
}
