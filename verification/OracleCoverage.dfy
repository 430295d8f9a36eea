/** What the detection worker's coverage rests on: which inserts cost a row, exactly; which rows are
    left behind for good; and how a stale seed is healed. */
module OracleCoverage {
  import opened OracleWorker

  // --- What a reused id costs ----------------------------------------------------------

  /** Steps that can be taken from `s`, with every insert harmless. */
  ghost predicate Harmlessly(s: System, actions: seq<Action>)
    decreases |actions|
  {
    actions == [] ||
    (Enabled(s, actions[0]) && Harmless(s, actions[0]) && Harmlessly(Apply(s, actions[0]), actions[1..]))
  }

  ghost function After(s: System, actions: seq<Action>): System
    requires Harmlessly(s, actions)
    decreases |actions|
  {
    if actions == [] then s else After(Apply(s, actions[0]), actions[1..])
  }

  /** Some harmless future of `s` has an unswept row between the seed and the watermark. */
  ghost predicate Loses(s: System) {
    exists actions :: Harmlessly(s, actions) && !Coverage(After(s, actions))
  }

  lemma {:induction false} KeepsInvAfter(s: System, actions: seq<Action>)
    requires Shape(s) && Inv(s) && Harmlessly(s, actions)
    ensures Inv(After(s, actions))
    decreases |actions|
  {
    if actions != [] {
      StepKeepsShape(s, actions[0]);
      StepKeepsInv(s, actions[0]);
      KeepsInvAfter(Apply(s, actions[0]), actions[1..]);
    }
  }

  lemma LosesBefore(s: System, a: Action)
    requires Enabled(s, a) && Harmless(s, a) && Loses(Apply(s, a))
    ensures Loses(s)
  {
    var rest :| Harmlessly(Apply(s, a), rest) && !Coverage(After(Apply(s, a), rest));
    var actions := [a] + rest;
    assert actions[0] == a && actions[1..] == rest;
    assert Harmlessly(s, actions) && After(s, actions) == After(Apply(s, a), rest);
  }

  lemma LosesNow(s: System)
    requires !Coverage(s)
    ensures Loses(s)
  {
    assert Harmlessly(s, []) && After(s, []) == s;
  }

  /** A stored row above the seed that is neither swept nor listed by tick `w`. */
  ghost predicate Unseen(s: System, w: nat, id: int) {
    && w in s.workers && Current(s, s.workers[w])
    && id in s.frames && s.seed < id && s.frames[id] !in s.swept
    && (s.workers[w].phase.Detecting? ==> s.frames[id] !in s.workers[w].phase.listed)
  }

  lemma AdvanceLoses(s: System, w: nat, id: int)
    requires Unseen(s, w, id) && s.workers[w].phase.Advancing? && id <= s.workers[w].phase.hi
    ensures Loses(s)
  {
    LosesNow(Apply(s, Tick(w, Advance)));
    LosesBefore(s, Tick(w, Advance));
  }

  lemma ReturnLoses(s: System, w: nat, id: int)
    requires Unseen(s, w, id) && !s.workers[w].stopped
    requires s.workers[w].phase.Returned? && id <= s.workers[w].phase.hi
    ensures Loses(s)
  {
    AdvanceLoses(Apply(s, Tick(w, CheckStop)), w, id);
    LosesBefore(s, Tick(w, CheckStop));
  }

  lemma DetectLoses(s: System, w: nat, id: int)
    requires Unseen(s, w, id) && !s.workers[w].stopped
    requires s.workers[w].phase.Detecting? && id <= s.workers[w].phase.hi
    ensures Loses(s)
  {
    ReturnLoses(Apply(s, Tick(w, EndDetect(Completes))), w, id);
    LosesBefore(s, Tick(w, EndDetect(Completes)));
  }

  lemma ChunkLoses(s: System, w: nat, id: int)
    requires Unseen(s, w, id) && !s.workers[w].stopped && OneCaptureEach(s.frames)
    requires s.workers[w].phase.AtChunk? && id < s.workers[w].phase.lo <= s.workers[w].phase.until
    ensures Loses(s)
  {
    DetectLoses(Apply(s, Tick(w, BeginChunk(false))), w, id);
    LosesBefore(s, Tick(w, BeginChunk(false)));
  }

  lemma ClampLoses(s: System, w: nat, id: int)
    requires Unseen(s, w, id) && s.workers[w].phase.Clamping? && id <= s.workers[w].phase.latest
    ensures Loses(s)
  {
    LosesNow(Apply(s, Tick(w, Clamp)));
    LosesBefore(s, Tick(w, Clamp));
  }

  lemma {:induction false} LatestExists(ids: set<int>, some: int) returns (latest: int)
    requires some in ids
    ensures latest in ids && forall id :: id in ids ==> id <= latest
  {
    if further :| further in ids && some < further {
      latest := LatestExists(ids - {some}, further);
      assert forall id :: id in ids && id != some ==> id in ids - {some};
    } else {
      latest := some;
    }
  }

  /** A tick that snapshotted a watermark at or past the row: once the rows above the row are gone
      its clamp lands on the row, and if the row is the watermark itself its next chunk passes it. */
  lemma {:induction false} SnapshotLoses(s: System, w: nat, id: int)
    requires Shape(s) && Unseen(s, w, id) && s.workers[w].phase.Snapped? && id <= Place(s.workers[w])
    ensures Loses(s)
    decreases |s.frames|
  {
    var watermark := s.workers[w].phase.watermark;
    var latest := LatestExists(s.frames.Keys, id);
    if latest < watermark {
      ClampLoses(Apply(s, Tick(w, ReadLatest(latest))), w, id);
      LosesBefore(s, Tick(w, ReadLatest(latest)));
    } else if id < watermark {
      StepKeepsShape(s, Delete(latest));
      SnapshotLoses(Apply(s, Delete(latest)), w, id);
      LosesBefore(s, Delete(latest));
    } else if watermark < latest {
      WindowLoses(s, w, id, latest);
    } else {
      var insert := Insert(Top(s) + 1);
      var t := Apply(s, insert);
      FreshIsHarmless(s, insert);
      StepKeepsShape(s, insert);
      WindowLoses(t, w, id, insert.id);
      LosesBefore(s, insert);
    }
  }

  lemma WindowLoses(s: System, w: nat, id: int, latest: int)
    requires Shape(s) && Unseen(s, w, id) && !s.workers[w].stopped && IsLatest(s.frames, latest)
    requires s.workers[w].phase.Snapped? && id <= s.workers[w].phase.watermark < latest
    ensures Loses(s)
  {
    ChunkLoses(Apply(s, Tick(w, ReadLatest(latest))), w, id);
    LosesBefore(s, Tick(w, ReadLatest(latest)));
  }

  lemma PassedLoses(s: System, w: nat, id: int)
    requires Shape(s) && Unseen(s, w, id) && id <= Place(s.workers[w])
    ensures Loses(s)
  {
    match s.workers[w].phase
    case Snapped(_, _) => SnapshotLoses(s, w, id);
    case Clamping(_, _) => ClampLoses(s, w, id);
    case AtChunk(_, _, _) => ChunkLoses(s, w, id);
    case Detecting(_, _, _, _, _) => DetectLoses(s, w, id);
    case Returned(_, _, _, _, _) => ReturnLoses(s, w, id);
    case Advancing(_, _, _) => AdvanceLoses(s, w, id);
  }

  lemma PassedInsertLoses(s: System, id: int)
    requires Shape(s) && Enabled(s, Insert(id)) && Passed(s, id)
    ensures Loses(Apply(s, Insert(id)))
  {
    var t := Apply(s, Insert(id));
    StepKeepsShape(s, Insert(id));
    assert t.frames[id] == s.captures && s.captures !in t.swept;
    if id <= s.watermark {
      LosesNow(t);
    } else {
      var w :| w in s.workers && PassedBy(s, s.workers[w], id);
      assert WorkerShape(s, s.workers[w]);
      PassedLoses(t, w, id);
    }
  }

  /** Exactly which steps cost coverage: inserts behind the worker. After any other step no harmless
      future loses a row; after one of these some harmless future does. */
  lemma LosesIff(s: System, a: Action)
    requires Shape(s) && Inv(s) && Enabled(s, a)
    ensures Loses(Apply(s, a)) <==> a.Insert? && Passed(s, a.id)
  {
    StepKeepsShape(s, a);
    if a.Insert? && Passed(s, a.id) {
      PassedInsertLoses(s, a.id);
    } else {
      StepKeepsInv(s, a);
      if Loses(Apply(s, a)) {
        var actions :| Harmlessly(Apply(s, a), actions) && !Coverage(After(Apply(s, a), actions));
        KeepsInvAfter(Apply(s, a), actions);
      }
    }
  }

  /** SQLite hands out one past the greatest row. So when the newest row, already swept, is
      deleted, the next capture takes its id and is lost at once. */
  lemma ReusedRowIsMissed(s: System)
    requires Shape(s) && Inv(s) && IsLatest(s.frames, s.watermark) && s.seed < s.watermark && s.watermark in s.frames
    ensures var purged := Apply(s, Delete(s.watermark));
            && Enabled(purged, Insert(s.watermark)) && Passed(purged, s.watermark)
            && !Coverage(Apply(purged, Insert(s.watermark)))
  {
    var purged := Apply(s, Delete(s.watermark));
    var t := Apply(purged, Insert(s.watermark));
    assert t.frames[s.watermark] == s.captures && s.captures !in t.swept;
  }

  ghost predicate Reachable(s: System) {
    exists states, actions :: IsRun(states, actions) && s == states[|actions|]
  }

  lemma ReachableStep(s: System, a: Action)
    requires Reachable(s) && Enabled(s, a)
    ensures Reachable(Apply(s, a))
  {
    var states, actions :| IsRun(states, actions) && s == states[|actions|];
    var states', actions' := states + [Apply(s, a)], actions + [a];
    forall i {:trigger actions'[i]} | 0 <= i < |actions'|
      ensures Steps(states'[i], actions'[i], states'[i + 1])
    {
      if i < |actions| {
        assert Steps(states[i], actions[i], states[i + 1]);
      }
    }
    assert IsRun(states', actions') && states'[|actions'|] == Apply(s, a);
  }

  lemma InitReachable(s: System)
    requires IsInit(s)
    ensures Reachable(s)
  {
    var states: seq<System>, actions: seq<Action> := [s], [];
    assert IsRun(states, actions) && s == states[|actions|];
  }

  /** A first worker that has been started on an empty store. */
  lemma LaunchReachable() returns (s: System)
    ensures Reachable(s) && s.frames == map[] && s.captures == 0 && s.swept == {}
    ensures s.seed == s.watermark == 0 && s.workers == map[0 := Worker(Waiting, false)]
  {
    var init := System(map[], 0, 0, 0, false, 0, 0, map[], map[], map[], {}, 0, 0);
    InitReachable(init);
    ReachableStep(init, StarterArrives(0));
    var s1 := Apply(init, StarterArrives(0));
    ReachableStep(s1, StarterSteps(0, 0));
    var s2 := Apply(s1, StarterSteps(0, 0));
    ReachableStep(s2, StarterSteps(0, 0));
    var s3 := Apply(s2, StarterSteps(0, 0));
    ReachableStep(s3, StarterSteps(0, 0));
    var s4 := Apply(s3, StarterSteps(0, 0));
    ReachableStep(s4, StarterSteps(0, 0));
    s := Apply(s4, StarterSteps(0, 0));
  }

  /** Its first row inserted. */
  lemma InsertReachable() returns (s: System)
    ensures Reachable(s) && s.frames == map[1 := 0] && s.captures == 1 && s.swept == {}
    ensures s.seed == s.watermark == 0 && s.workers == map[0 := Worker(Waiting, false)]
  {
    var s0 := LaunchReachable();
    ReachableStep(s0, Insert(1));
    s := Apply(s0, Insert(1));
    assert s.frames == map[1 := 0];
  }

  /** And its window open. */
  lemma WindowReachable() returns (s: System)
    ensures Reachable(s) && s.frames == map[1 := 0] && s.captures == 1 && s.swept == {}
    ensures s.seed == s.watermark == 0 && s.workers == map[0 := Worker(AtChunk(s.epoch, 1, 1), false)]
  {
    var s1 := InsertReachable();
    ReachableStep(s1, Tick(0, Snap));
    var s2 := Apply(s1, Tick(0, Snap));
    assert s2 == Moves(s1, 0, Snapped(s1.epoch, 0));
    ReachableStep(s2, Tick(0, ReadLatest(1)));
    s := Apply(s2, Tick(0, ReadLatest(1)));
    assert s == Moves(s2, 0, AtChunk(s1.epoch, 1, 1));
  }

  /** And listed for detection. */
  lemma DetectReachable() returns (s: System)
    ensures Reachable(s) && s.frames == map[1 := 0] && s.captures == 1 && s.swept == {}
    ensures s.seed == s.watermark == 0 && s.workers == map[0 := Worker(Detecting(s.epoch, 1, 1, 1, {0}), false)]
  {
    var s0 := WindowReachable();
    ReachableStep(s0, Tick(0, BeginChunk(false)));
    s := Apply(s0, Tick(0, BeginChunk(false)));
    assert s0.frames[1] == 0;
    assert Listed(s0.frames, 1, 1) == {0};
  }

  /** The id need not be at or below the watermark. A row is listed for detection, deleted while
      the detect runs, and the store hands its id to the next capture: above the watermark, and
      lost when the chunk's end becomes the watermark. */
  lemma NextIdCanBePassed() returns (s: System)
    ensures Reachable(s) && IsLatest(s.frames, 0) && s.watermark < 1 && Enabled(s, Insert(1))
    ensures Passed(s, 1) && Loses(Apply(s, Insert(1)))
  {
    var s0 := DetectReachable();
    ReachableStep(s0, Delete(1));
    s := Apply(s0, Delete(1));
    assert PassedBy(s, s.workers[0], 1);
    DetectLoses(Apply(s, Insert(1)), 0, 1);
  }

  // --- What stays behind ---------------------------------------------------------------

  /** Every id a tick may still list, and every place it may still put the watermark, is beyond
      row `r` at or above it. */
  ghost predicate Beyond(p: Phase, r: int, capture: nat) {
    match p
    case Waiting => true
    case Snapped(_, watermark) => r <= watermark
    case Clamping(_, latest) => r <= latest
    case AtChunk(_, lo, _) => r < lo
    case Detecting(_, lo, hi, _, listed) => r < lo && r <= hi && capture !in listed
    case Returned(_, _, hi, _, _) => r <= hi
    case Advancing(_, hi, _) => r <= hi
  }

  /** A stored, unswept row at or below the watermark, with no tick that will list it. */
  ghost predicate Stranded(s: System, r: int) {
    && r in s.frames && r <= s.watermark && s.frames[r] !in s.swept
    && forall w :: w in s.workers ==> Beyond(s.workers[w].phase, r, s.frames[r])
  }

  /** The step is no re-seed and does not remove row `r`. */
  ghost predicate StoredAfter(s: System, a: Action, r: int) {
    && !IsReseed(s, a) && a != Delete(r)
    && !(a.ClearerSteps? && a.k in s.clearers && s.clearers[a.k].Wiping?)
  }

  lemma StrandedStays(s: System, a: Action, r: int)
    requires Shape(s) && Stranded(s, r) && Enabled(s, a) && StoredAfter(s, a, r)
    ensures Stranded(Apply(s, a), r)
  {
    var t := Apply(s, a);
    if a.Tick? {
      TickStaysBeyond(s, a.w, a.move, r);
    }
    forall w | w in t.workers
      ensures Beyond(t.workers[w].phase, r, t.frames[r])
    {
      assert w in s.workers ==> Beyond(s.workers[w].phase, r, s.frames[r]);
    }
  }

  lemma TickStaysBeyond(s: System, w: nat, m: TickMove, r: int)
    requires OneCaptureEach(s.frames) && Stranded(s, r) && w in s.workers && CanTick(s, s.workers[w], m)
    ensures Beyond(PhaseAfter(s, s.workers[w], m), r, s.frames[r])
    ensures r <= WatermarkAfter(s, s.workers[w], m) && s.frames[r] !in SweptAfter(s, s.workers[w], m)
  {
    assert Beyond(s.workers[w].phase, r, s.frames[r]);
  }

  lemma StrandedNext(states: seq<System>, actions: seq<Action>, j: nat, r: int)
    requires IsRun(states, actions) && j < |actions|
    requires Stranded(states[j], r) && StoredAfter(states[j], actions[j], r)
    ensures Stranded(states[j + 1], r)
  {
    RunKeepsShape(states, actions, j);
    assert Steps(states[j], actions[j], states[j + 1]);
    StrandedStays(states[j], actions[j], r);
  }

  /** A stranded row is never swept for as long as it is stored and no re-seed moves the watermark
      back: clamps do not reach below a stored row. */
  lemma {:induction false} StrandedForGood(states: seq<System>, actions: seq<Action>, i: nat, j: nat, r: int)
    requires IsRun(states, actions) && i <= j < |states| && Stranded(states[i], r)
    requires forall m {:trigger actions[m]} :: i <= m < j ==> StoredAfter(states[m], actions[m], r)
    ensures Stranded(states[j], r)
    decreases j
  {
    if i < j {
      StrandedForGood(states, actions, i, j - 1, r);
      assert StoredAfter(states[j - 1], actions[j - 1], r);
      StrandedNext(states, actions, j - 1, r);
    }
  }

  // --- A seed gone stale ---------------------------------------------------------------

  /** An example. The guard is on ticks, not on `start`: its horizon is read before its seed. When a clear
      runs in between, the seed lands above the emptied store. */
  lemma ClearDuringStartSeedsStale(s: System, k: nat, c: nat, latest: int)
    requires IsLatest(s.frames, latest)
    requires k in s.starters && s.starters[k].Seeding? && s.starters[k].horizon >= 1
    requires c in s.clearers && s.clearers[c].Wiping?
    ensures var s1 := Apply(s, ClearerSteps(c, latest));
            var s2 := Apply(s1, ClearerSteps(c, 0));
            var s3 := Apply(s2, ClearerSteps(c, 0));
            var s4 := Apply(s3, StarterSteps(k, 0));
            && s3.watermark == 0 && s4.watermark == s.starters[k].horizon && IsLatest(s4.frames, 0)
  {
  }

  /** A lone tick that finds the watermark beyond the store. */
  lemma ClampTrace(s: System, w: nat, latest: int) returns (t: System)
    requires w in s.workers && s.workers[w].phase.Waiting? && IsLatest(s.frames, latest) && latest < s.watermark
    ensures var s1 := Apply(s, Tick(w, Snap));
            var s2 := Apply(s1, Tick(w, ReadLatest(latest)));
            t == Apply(s2, Tick(w, Clamp))
    ensures t == Moves(s.(watermark := latest), w, AtChunk(s.epoch, latest + 1, latest))
  {
    var s1 := Apply(s, Tick(w, Snap));
    var s2 := Apply(s1, Tick(w, ReadLatest(latest)));
    assert s2 == Moves(s, w, Clamping(s.epoch, latest));
    t := Apply(s2, Tick(w, Clamp));
  }

  /** The next tick heals it: finding the watermark beyond the store it clamps to the store's
      latest row, and that is as good as a re-seed there, so that coverage holds from that row on
      (`seed` is history, no step looks at it). What is lost is what was stored in between: every
      unswept row up to the clamp is stranded. */
  lemma ClampHeals(s: System, w: nat, latest: int) returns (t: System)
    requires Shape(s) && w in s.workers && (forall v :: v in s.workers ==> s.workers[v].phase.Waiting?)
    requires IsLatest(s.frames, latest) && latest < s.watermark
    ensures var s1 := Apply(s, Tick(w, Snap));
            var s2 := Apply(s1, Tick(w, ReadLatest(latest)));
            t == Apply(s2, Tick(w, Clamp))
    ensures t.watermark == latest && Shape(t.(seed := latest)) && Inv(t.(seed := latest))
    ensures t.frames == s.frames && forall r :: r in s.frames && s.frames[r] !in s.swept ==> Stranded(t, r)
  {
    t := ClampTrace(s, w, latest);
    forall v | v in t.workers
      ensures v < t.threads && WorkerShape(t.(seed := latest), t.workers[v])
    {
      assert WorkerShape(s, s.workers[v]);
    }
  }
}
