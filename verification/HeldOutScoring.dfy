/** The scoring loops: arrays masked in place, counters, a confusion matrix and curve points bumped
    visit by visit, and the stranger block's totals over one such pass per cat. */
module HeldOutScoring {
  import opened Wrappers
  import opened VisitScoring

  datatype Point = Point(correct: nat, wrong: nat, unknown: nat, asResident: nat, asNeighbour: nat, asUnknown: nat)

  const NO_POINT := Point(0, 0, 0, 0, 0, 0)

  /** The counts of a list of trials. Buckets are counted for the headline threshold always, for a
      curve point only in stranger mode. */
  ghost function PointOf(s: Setting, buckets: bool, xs: seq<Trial>): Point {
    Point(Count(xs, IsCorrect), Count(xs, IsWrong), Count(xs, IsUnknown),
          if buckets then Count(xs, BucketIs(s.cats, AsResident)) else 0,
          if buckets then Count(xs, BucketIs(s.cats, AsNeighbour)) else 0,
          if buckets then Count(xs, BucketIs(s.cats, AsUnknown)) else 0)
  }

  /** One outcome counted. */
  function Bumped(s: Setting, buckets: bool, p: Point, truth: nat, named: Option<nat>): Point {
    if named.None? then p.(unknown := p.unknown + 1)
    else
      var q := if named.value == truth then p.(correct := p.correct + 1) else p.(wrong := p.wrong + 1);
      if !buckets then q
      else
        match BucketOf(s.cats, named.value)
        case AsResident => q.(asResident := q.asResident + 1)
        case AsNeighbour => q.(asNeighbour := q.asNeighbour + 1)
        case AsUnknown => q.(asUnknown := q.asUnknown + 1)
  }

  lemma OutcomeSnoc(xs: seq<Trial>, x: Trial)
    ensures Count(xs + [x], IsCorrect) == Count(xs, IsCorrect) + if IsCorrect(x) then 1 else 0
    ensures Count(xs + [x], IsWrong) == Count(xs, IsWrong) + if IsWrong(x) then 1 else 0
    ensures Count(xs + [x], IsUnknown) == Count(xs, IsUnknown) + if IsUnknown(x) then 1 else 0
    ensures Count(xs + [x], IsScored) == Count(xs, IsScored) + if IsScored(x) then 1 else 0
  {
    CountSnoc(xs, x, IsCorrect);
    CountSnoc(xs, x, IsWrong);
    CountSnoc(xs, x, IsUnknown);
    CountSnoc(xs, x, IsScored);
  }

  lemma BucketSnoc(xs: seq<Trial>, x: Trial, cats: Option<seq<Cat>>, b: Bucket)
    ensures Count(xs + [x], BucketIs(cats, b)) == Count(xs, BucketIs(cats, b)) + if InBucket(cats, x, b) then 1 else 0
  {
    CountSnoc(xs, x, BucketIs(cats, b));
  }

  lemma PointSnoc(s: Setting, buckets: bool, xs: seq<Trial>, x: Trial)
    ensures PointOf(s, buckets, xs + [x])
         == match x.verdict
            case Scored(named) => Bumped(s, buckets, PointOf(s, buckets, xs), x.truth, named)
            case Unscoreable => PointOf(s, buckets, xs)
  {
    OutcomeSnoc(xs, x);
    BucketSnoc(xs, x, s.cats, AsResident);
    BucketSnoc(xs, x, s.cats, AsNeighbour);
    BucketSnoc(xs, x, s.cats, AsUnknown);
  }

  // --- Repeated thresholds -------------------------------------------------------------

  function Plus(p: Point, q: Point): Point {
    Point(p.correct + q.correct, p.wrong + q.wrong, p.unknown + q.unknown,
          p.asResident + q.asResident, p.asNeighbour + q.asNeighbour, p.asUnknown + q.asUnknown)
  }

  /** A point added up `m` times. */
  function Times(p: Point, m: nat): Point {
    Point(m * p.correct, m * p.wrong, m * p.unknown, m * p.asResident, m * p.asNeighbour, m * p.asUnknown)
  }

  lemma Distributes(m: int, a: int, b: int)
    ensures m * (a + b) == m * a + m * b
  {
  }

  lemma TimesPlus(p: Point, q: Point, m: nat)
    ensures Times(Plus(p, q), m) == Plus(Times(p, m), Times(q, m))
  {
    Distributes(m, p.correct, q.correct);
    Distributes(m, p.wrong, q.wrong);
    Distributes(m, p.unknown, q.unknown);
    Distributes(m, p.asResident, q.asResident);
    Distributes(m, p.asNeighbour, q.asNeighbour);
    Distributes(m, p.asUnknown, q.asUnknown);
  }

  lemma OnceMore(p: Point, m: nat)
    ensures Times(p, m + 1) == Plus(Times(p, m), p)
  {
  }

  lemma BumpedIsPlus(s: Setting, buckets: bool, p: Point, truth: nat, named: Option<nat>)
    ensures Bumped(s, buckets, p, truth, named) == Plus(p, Bumped(s, buckets, NO_POINT, truth, named))
  {
  }

  /** How often a threshold is listed. */
  function Often(ts: seq<real>, t: real): (m: nat)
    ensures t in ts ==> m > 0
  {
    if ts == [] then 0
    else
      assert ts == ts[..|ts| - 1] + [ts[|ts| - 1]];
      Often(ts[..|ts| - 1], t) + if ts[|ts| - 1] == t then 1 else 0
  }

  ghost predicate Distinct(ts: seq<real>) {
    forall i, j :: 0 <= i < j < |ts| ==> ts[i] != ts[j]
  }

  lemma {:induction false} DistinctIsOnce(ts: seq<real>, i: nat)
    requires Distinct(ts) && i < |ts|
    ensures Often(ts, ts[i]) == 1
  {
    var n := |ts| - 1;
    if i < n {
      DistinctIsOnce(ts[..n], i);
    } else {
      AbsentIsNever(ts[..n], ts[n]);
    }
  }

  lemma {:induction false} AbsentIsNever(ts: seq<real>, t: real)
    requires forall i :: 0 <= i < |ts| ==> ts[i] != t
    ensures Often(ts, t) == 0
  {
    if ts != [] {
      AbsentIsNever(ts[..|ts| - 1], t);
    }
  }

  lemma OftenNext(ts: seq<real>, i: nat)
    requires i < |ts|
    ensures forall t :: Often(ts[..i + 1], t) == Often(ts[..i], t) + if ts[i] == t then 1 else 0
  {
    assert ts[..i + 1][..i] == ts[..i];
  }

  // --- Names given ---------------------------------------------------------------------

  lemma UnscoreableSnoc(xs: seq<Trial>, x: Trial, c: nat)
    ensures Count(xs + [x], Of(c, IsUnscoreable))
            == Count(xs, Of(c, IsUnscoreable)) + if x.truth == c && x.verdict.Unscoreable? then 1 else 0
  {
    CountSnoc(xs, x, Of(c, IsUnscoreable));
    assert Of(c, IsUnscoreable)(x) <==> x.truth == c && IsUnscoreable(x);
  }

  lemma ScoredAddsNoUnscoreable(xs: seq<Trial>, x: Trial)
    requires x.verdict.Scored?
    ensures forall c: nat :: Count(xs + [x], Of(c, IsUnscoreable)) == Count(xs, Of(c, IsUnscoreable))
  {
    forall c: nat
      ensures Count(xs + [x], Of(c, IsUnscoreable)) == Count(xs, Of(c, IsUnscoreable))
    {
      UnscoreableSnoc(xs, x, c);
    }
  }

  lemma SkippedAddsToItsCat(xs: seq<Trial>, truth: nat)
    ensures forall c: nat ::
              Count(xs + [Trial(truth, Unscoreable)], Of(c, IsUnscoreable))
              == Count(xs, Of(c, IsUnscoreable)) + if c == truth then 1 else 0
  {
    forall c: nat
      ensures Count(xs + [Trial(truth, Unscoreable)], Of(c, IsUnscoreable))
              == Count(xs, Of(c, IsUnscoreable)) + if c == truth then 1 else 0
    {
      UnscoreableSnoc(xs, Trial(truth, Unscoreable), c);
    }
  }

  ghost predicate CountsNames(named: map<nat, nat>, xs: seq<Trial>) {
    && (forall c: nat :: c in named <==> Count(xs, Names(c)) > 0)
    && (forall c: nat :: c in named ==> named[c] == Count(xs, Names(c)))
  }

  function NamedOnce(named: map<nat, nat>, name: Option<nat>): map<nat, nat> {
    if name.None? then named
    else named[name.value := (if name.value in named then named[name.value] else 0) + 1]
  }

  lemma NamesSnoc(named: map<nat, nat>, xs: seq<Trial>, x: Trial)
    requires CountsNames(named, xs)
    ensures CountsNames(if x.verdict.Scored? then NamedOnce(named, x.verdict.named) else named, xs + [x])
  {
    forall c: nat
      ensures Count(xs + [x], Names(c))
              == Count(xs, Names(c)) + if x.verdict.Scored? && x.verdict.named == Some(c) then 1 else 0
    {
      CountSnoc(xs, x, Names(c));
    }
  }

  // --- The loops -----------------------------------------------------------------------

  /** Is the true cat on the gallery side outside the visit? One array of flags, masked twice. */
  method HasOther(s: Setting, g: seq<nat>, truth: nat) returns (any: bool)
    requires WellFormed(s) && IsGroup(s, g)
    ensures any <==> exists j :: 0 <= j < |s.y| && s.y[j] == truth && LiveColumn(s, g, j)
  {
    var n := |s.y|;
    var others := new bool[n](j requires 0 <= j < n => s.y[j] == truth);
    var k := 0;
    while k < |g|
      invariant 0 <= k <= |g|
      invariant forall j :: 0 <= j < n ==> (others[j] <==> s.y[j] == truth && j !in g[..k])
    {
      others[g[k]] := false;
      k := k + 1;
    }
    assert g[..k] == g;
    any := false;
    k := 0;
    while k < n
      invariant 0 <= k <= n
      invariant forall j :: 0 <= j < n ==>
                (others[j] <==> s.y[j] == truth && j !in g && (j < k && s.gallery.Some? ==> s.gallery.value[j]))
      invariant any <==> exists j :: 0 <= j < k && s.y[j] == truth && LiveColumn(s, g, j)
    {
      others[k] := others[k] && (s.gallery.None? || s.gallery.value[k]);
      any := any || others[k];
      k := k + 1;
    }
  }

  /** One row of distances with the columns outside the gallery and then the visit's own set to
      infinity, and its argmin. */
  method NearestColumn(s: Setting, g: seq<nat>, i: nat) returns (v: Vote)
    requires WellFormed(s) && IsGroup(s, g) && i < |s.y|
    ensures v == VoteOf(s, g, i)
  {
    var n := |s.y|;
    var row := new Distance[n](j requires 0 <= j < n => Finite(s.dist[i][j]));
    var k := 0;
    if s.gallery.Some? {
      while k < n
        invariant 0 <= k <= n
        invariant forall j :: 0 <= j < n ==>
                  row[j] == if j < k && !s.gallery.value[j] then Infinity else Finite(s.dist[i][j])
      {
        if !s.gallery.value[k] { row[k] := Infinity; }
        k := k + 1;
      }
    }
    k := 0;
    while k < |g|
      invariant 0 <= k <= |g|
      invariant forall j :: 0 <= j < n ==>
                row[j] == if j in g[..k] || (s.gallery.Some? && !s.gallery.value[j]) then Infinity
                else Finite(s.dist[i][j])
    {
      row[g[k]] := Infinity;
      k := k + 1;
    }
    assert g[..k] == g && row[..] == MaskedRow(s, g, i);
    var best := 0;
    k := 1;
    while k < n
      invariant 1 <= k <= n && best < k && row[..] == MaskedRow(s, g, i)
      invariant best == Argmin(row[..k])
    {
      assert row[..k + 1][..k] == row[..k];
      if Closer(row[k], row[best]) { best := k; }
      k := k + 1;
    }
    assert row[..n] == row[..];
    v := Vote(s.y[best], row[best]);
  }

  ghost function TrialsTo(s: Setting, groups: seq<seq<nat>>, truths: seq<nat>, t: Option<real>, k: nat): seq<Trial>
    requires WellFormed(s) && AreGroups(s, groups, truths) && k <= |groups|
  {
    Trials(s, groups, truths, t)[..k]
  }

  /** The accumulators of `_score_visits`. */
  class Scoring {
    const s: Setting
    const headline: Option<real>
    const ts: seq<real>
    const conf: array2<nat>
    var nScored: nat
    var tally: Point
    var unscoreable: map<nat, nat>
    var named: map<nat, nat>
    var curve: map<real, Point>

    constructor (s: Setting, headline: Option<real>, ts: seq<real>)
      ensures this.s == s && this.headline == headline && this.ts == ts && fresh(conf)
      ensures conf.Length0 == s.nCats && conf.Length1 == s.nCats + 1
      ensures Tallied([]) && Charted([])
      ensures curve.Keys == (set i | 0 <= i < |ts| :: ts[i]) && forall t :: t in curve ==> curve[t] == NO_POINT
    {
      this.s, this.headline, this.ts := s, headline, ts;
      nScored, tally, unscoreable, named := 0, NO_POINT, map[], map[];
      conf := new nat[s.nCats, s.nCats + 1]((i, j) => 0);
      curve := map t | t in ts :: NO_POINT;
    }

    /** The headline counters are those of the trials so far. */
    ghost predicate Tallied(xs: seq<Trial>)
      reads this`nScored, this`tally, this`unscoreable, this`named
    {
      && nScored == Count(xs, IsScored)
      && tally == PointOf(s, true, xs)
      && (forall c: nat :: c in unscoreable <==> Count(xs, Of(c, IsUnscoreable)) > 0)
      && (forall c: nat :: c in unscoreable ==> unscoreable[c] == Count(xs, Of(c, IsUnscoreable)))
      && CountsNames(named, xs)
    }

    /** So is the confusion matrix. */
    ghost predicate Charted(xs: seq<Trial>)
      reads conf
    {
      && conf.Length0 == s.nCats && conf.Length1 == s.nCats + 1
      && forall i, j :: 0 <= i < s.nCats && 0 <= j <= s.nCats ==> conf[i, j] == Count(xs, CellIs(i, j, s.nCats))
    }

    /** A visit whose cat has no crop left is counted for its cat and nowhere else. */
    method SkipUnscoreable(truth: nat, ghost xs: seq<Trial>)
      requires Tallied(xs) && Charted(xs)
      modifies this`unscoreable
      ensures Tallied(xs + [Trial(truth, Unscoreable)]) && Charted(xs + [Trial(truth, Unscoreable)])
    {
      ghost var x := Trial(truth, Unscoreable);
      OutcomeSnoc(xs, x);
      PointSnoc(s, true, xs, x);
      SkippedAddsToItsCat(xs, truth);
      forall i, j
        ensures Count(xs + [x], CellIs(i, j, s.nCats)) == Count(xs, CellIs(i, j, s.nCats))
      {
        CountSnoc(xs, x, CellIs(i, j, s.nCats));
      }
      NamesSnoc(named, xs, x);
      unscoreable := unscoreable[truth := (if truth in unscoreable then unscoreable[truth] else 0) + 1];
    }

    method CountCell(truth: nat, name: Option<nat>, ghost xs: seq<Trial>)
      requires Charted(xs) && truth < s.nCats && (name.Some? ==> name.value < s.nCats)
      modifies conf
      ensures Charted(xs + [Trial(truth, Scored(name))])
    {
      ghost var x := Trial(truth, Scored(name));
      var col := if name.None? then s.nCats else name.value;
      forall i, j
        ensures Count(xs + [x], CellIs(i, j, s.nCats))
                == Count(xs, CellIs(i, j, s.nCats)) + if i == truth && j == col then 1 else 0
      {
        CountSnoc(xs, x, CellIs(i, j, s.nCats));
      }
      conf[truth, col] := conf[truth, col] + 1;
    }

    /** A scored visit's headline outcome and its confusion cell. */
    method CountOutcome(truth: nat, name: Option<nat>, ghost xs: seq<Trial>)
      requires Tallied(xs) && Charted(xs) && truth < s.nCats && (name.Some? ==> name.value < s.nCats)
      modifies this`nScored, this`tally, this`named, conf
      ensures Tallied(xs + [Trial(truth, Scored(name))]) && Charted(xs + [Trial(truth, Scored(name))])
    {
      ghost var x := Trial(truth, Scored(name));
      OutcomeSnoc(xs, x);
      PointSnoc(s, true, xs, x);
      ScoredAddsNoUnscoreable(xs, x);
      NamesSnoc(named, xs, x);
      nScored := nScored + 1;
      tally := Bumped(s, true, tally, truth, name);
      named := NamedOnce(named, name);
      CountCell(truth, name, xs);
    }

    /** The point of the first `k` trials under threshold `t`, as often as it is listed. */
    ghost function PointTo(groups: seq<seq<nat>>, truths: seq<nat>, k: nat, t: real): Point
      requires WellFormed(s) && AreGroups(s, groups, truths) && k <= |groups|
    {
      Times(PointOf(s, s.stranger, TrialsTo(s, groups, truths, Some(t), k)), Often(ts, t))
    }

    /** Every curve point is that of the first `k` trials under its own threshold. */
    ghost predicate Plotted(groups: seq<seq<nat>>, truths: seq<nat>, k: nat)
      requires WellFormed(s) && AreGroups(s, groups, truths) && k <= |groups|
      reads this`curve
    {
      forall i :: 0 <= i < |ts| ==> ts[i] in curve && curve[ts[i]] == PointTo(groups, truths, k, ts[i])
    }

    /** What a visit adds to a point of threshold `t`. */
    ghost function Added(span: seq<Vote>, truth: nat, t: real): Point {
      Bumped(s, s.stranger, NO_POINT, truth, s.rule(span, Some(t)))
    }

    /** The curve after the first `n` thresholds. */
    ghost predicate Grown(before: map<real, Point>, after: map<real, Point>, span: seq<Vote>, truth: nat, n: nat)
      requires n <= |ts|
    {
      after.Keys == before.Keys
      && forall t :: t in before ==> after[t] == Plus(before[t], Times(Added(span, truth, t), Often(ts[..n], t)))
    }

    lemma GrowsOn(before: map<real, Point>, after: map<real, Point>, span: seq<Vote>, truth: nat, n: nat)
      requires n < |ts| && Grown(before, after, span, truth, n) && ts[n] in before
      ensures Grown(before, after[ts[n] := Bumped(s, s.stranger, after[ts[n]], truth, s.rule(span, Some(ts[n])))],
                    span, truth, n + 1)
    {
      var t := ts[n];
      var next := after[t := Bumped(s, s.stranger, after[t], truth, s.rule(span, Some(t)))];
      OftenNext(ts, n);
      BumpedIsPlus(s, s.stranger, after[t], truth, s.rule(span, Some(t)));
      OnceMore(Added(span, truth, t), Often(ts[..n], t));
      forall u | u in before
        ensures next[u] == Plus(before[u], Times(Added(span, truth, u), Often(ts[..n + 1], u)))
      {
        assert after[u] == Plus(before[u], Times(Added(span, truth, u), Often(ts[..n], u)));
      }
    }

    /** The inner loop over the thresholds, one outcome counted at each. */
    method BumpEach(span: seq<Vote>, truth: nat)
      requires forall i :: 0 <= i < |ts| ==> ts[i] in curve
      modifies this`curve
      ensures Grown(old(curve), curve, span, truth, |ts|)
    {
      var i := 0;
      while i < |ts|
        invariant 0 <= i <= |ts| && Grown(old(curve), curve, span, truth, i)
      {
        GrowsOn(old(curve), curve, span, truth, i);
        curve := curve[ts[i] := Bumped(s, s.stranger, curve[ts[i]], truth, s.rule(span, Some(ts[i])))];
        i := i + 1;
      }
    }

    /** The same votes again at every threshold of the curve, once for each time it is listed. */
    method CountCurve(span: seq<Vote>, ghost groups: seq<seq<nat>>, ghost truths: seq<nat>, ghost k: nat, truth: nat)
      requires WellFormed(s) && AreGroups(s, groups, truths) && k < |groups| && truths[k] == truth
      requires Scoreable(s, groups[k], truth) && span == Span(s, groups[k])
      requires Plotted(groups, truths, k)
      modifies this`curve
      ensures Plotted(groups, truths, k + 1) && curve.Keys == old(curve.Keys)
    {
      BumpEach(span, truth);
      assert ts[..|ts|] == ts;
      forall j | 0 <= j < |ts|
        ensures curve[ts[j]] == PointTo(groups, truths, k + 1, ts[j])
      {
        AddedEverywhere(groups, truths, k, ts[j], Often(ts, ts[j]));
      }
    }

    lemma AddedEverywhere(groups: seq<seq<nat>>, truths: seq<nat>, k: nat, t: real, m: nat)
      requires WellFormed(s) && AreGroups(s, groups, truths) && k < |groups| && Scoreable(s, groups[k], truths[k])
      ensures Times(PointOf(s, s.stranger, TrialsTo(s, groups, truths, Some(t), k + 1)), m)
           == Plus(Times(PointOf(s, s.stranger, TrialsTo(s, groups, truths, Some(t), k)), m),
                   Times(Added(Span(s, groups[k]), truths[k], t), m))
    {
      var p := PointOf(s, s.stranger, TrialsTo(s, groups, truths, Some(t), k));
      NextTrial(s, groups, truths, Some(t), k);
      PointSnoc(s, s.stranger, TrialsTo(s, groups, truths, Some(t), k), TrialOf(s, groups[k], truths[k], Some(t)));
      BumpedIsPlus(s, s.stranger, p, truths[k], s.rule(Span(s, groups[k]), Some(t)));
      TimesPlus(p, Added(Span(s, groups[k]), truths[k], t), m);
    }

    /** The votes of a visit: the nearest live column of each of its crops. */
    method CastVotes(g: seq<nat>) returns (span: seq<Vote>)
      requires WellFormed(s) && IsGroup(s, g)
      ensures span == Span(s, g)
    {
      span := [];
      var k := 0;
      while k < |g|
        invariant 0 <= k <= |g|
        invariant span == Span(s, g)[..k]
      {
        var v := NearestColumn(s, g, g[k]);
        span := span + [v];
        k := k + 1;
      }
    }

    /** A visit with a crop left to compare with: voted on once and counted at every threshold. */
    method VoteAndCount(groups: seq<seq<nat>>, truths: seq<nat>, k: nat)
      requires WellFormed(s) && AreGroups(s, groups, truths) && k < |groups| && NamesFromSpan(s.rule)
      requires Scoreable(s, groups[k], truths[k])
      requires Tallied(TrialsTo(s, groups, truths, headline, k)) && Charted(TrialsTo(s, groups, truths, headline, k))
      requires Plotted(groups, truths, k)
      modifies this`nScored, this`tally, this`named, this`curve, conf
      ensures Tallied(TrialsTo(s, groups, truths, headline, k + 1))
      ensures Charted(TrialsTo(s, groups, truths, headline, k + 1))
      ensures Plotted(groups, truths, k + 1) && curve.Keys == old(curve.Keys)
    {
      var g, truth := groups[k], truths[k];
      NextTrial(s, groups, truths, headline, k);
      var span := CastVotes(g);
      var name := s.rule(span, headline);
      if name.Some? {
        NameIsInRange(s, g, headline);
      }
      CountOutcome(truth, name, TrialsTo(s, groups, truths, headline, k));
      CountCurve(span, groups, truths, k, truth);
    }

    /** One visit: skipped as unscoreable, or voted on and counted. */
    method ScoreVisit(groups: seq<seq<nat>>, truths: seq<nat>, k: nat)
      requires WellFormed(s) && AreGroups(s, groups, truths) && k < |groups| && NamesFromSpan(s.rule)
      requires Tallied(TrialsTo(s, groups, truths, headline, k)) && Charted(TrialsTo(s, groups, truths, headline, k))
      requires Plotted(groups, truths, k)
      modifies this, conf
      ensures Tallied(TrialsTo(s, groups, truths, headline, k + 1))
      ensures Charted(TrialsTo(s, groups, truths, headline, k + 1))
      ensures Plotted(groups, truths, k + 1) && curve.Keys == old(curve.Keys)
    {
      var other := true;
      if !s.stranger {
        other := HasOther(s, groups[k], truths[k]);
      }
      if other {
        VoteAndCount(groups, truths, k);
      } else {
        NextTrial(s, groups, truths, headline, k);
        SkipUnscoreable(truths[k], TrialsTo(s, groups, truths, headline, k));
        SkippedIsPlotted(groups, truths, k);
      }
    }

    lemma SkippedIsPlotted(groups: seq<seq<nat>>, truths: seq<nat>, k: nat)
      requires WellFormed(s) && AreGroups(s, groups, truths) && k < |groups|
      requires !Scoreable(s, groups[k], truths[k]) && Plotted(groups, truths, k)
      ensures Plotted(groups, truths, k + 1)
    {
      forall i | 0 <= i < |ts|
        ensures PointOf(s, s.stranger, TrialsTo(s, groups, truths, Some(ts[i]), k + 1))
                == PointOf(s, s.stranger, TrialsTo(s, groups, truths, Some(ts[i]), k))
      {
        NextTrial(s, groups, truths, Some(ts[i]), k);
        PointSnoc(s, s.stranger, TrialsTo(s, groups, truths, Some(ts[i]), k), Trial(truths[k], Unscoreable));
      }
    }

    /** `_score_visits`: afterwards every counter, cell and point is the count of the trials. */
    method Run(groups: seq<seq<nat>>, truths: seq<nat>)
      requires WellFormed(s) && AreGroups(s, groups, truths) && NamesFromSpan(s.rule)
      requires Tallied([]) && Charted([]) && curve.Keys == (set i | 0 <= i < |ts| :: ts[i])
      requires forall t :: t in curve ==> curve[t] == NO_POINT
      modifies this, conf
      ensures Tallied(Trials(s, groups, truths, headline)) && Charted(Trials(s, groups, truths, headline))
      ensures curve.Keys == (set i | 0 <= i < |ts| :: ts[i])
      ensures forall i :: 0 <= i < |ts| ==>
                curve[ts[i]] == Times(PointOf(s, s.stranger, Trials(s, groups, truths, Some(ts[i]))), Often(ts, ts[i]))
    {
      var k := 0;
      assert TrialsTo(s, groups, truths, headline, 0) == [];
      assert Plotted(groups, truths, 0) by {
        forall i | 0 <= i < |ts|
          ensures curve[ts[i]] == PointTo(groups, truths, 0, ts[i])
        {
          assert TrialsTo(s, groups, truths, Some(ts[i]), 0) == [];
        }
      }
      while k < |groups|
        invariant 0 <= k <= |groups|
        invariant Tallied(TrialsTo(s, groups, truths, headline, k)) && Charted(TrialsTo(s, groups, truths, headline, k))
        invariant Plotted(groups, truths, k) && curve.Keys == old(curve.Keys)
      {
        ScoreVisit(groups, truths, k);
        k := k + 1;
      }
      assert TrialsTo(s, groups, truths, headline, |groups|) == Trials(s, groups, truths, headline);
      forall i | 0 <= i < |ts|
        ensures curve[ts[i]] == Times(PointOf(s, s.stranger, Trials(s, groups, truths, Some(ts[i]))), Often(ts, ts[i]))
      {
        assert TrialsTo(s, groups, truths, Some(ts[i]), |groups|) == Trials(s, groups, truths, Some(ts[i]));
      }
    }

    /** `_per_cat`: one row per known cat off its row of the confusion matrix. */
    method PerCatRows(ghost xs: seq<Trial>) returns (rows: Option<seq<CatRow>>)
      requires Tallied(xs) && Charted(xs) && NamedInRange(xs, s.nCats)
      ensures rows.None? <==> s.cats.None? || s.cats.value == []
      ensures rows.Some? ==>
                && |rows.value| == (if |s.cats.value| <= s.nCats then |s.cats.value| else s.nCats)
                && forall i :: 0 <= i < |rows.value| ==> rows.value[i] == RowOf(s.cats.value[i].id, xs, i)
    {
      if s.cats.None? || s.cats.value == [] {
        return None;
      }
      var cats := if |s.cats.value| <= s.nCats then s.cats.value else s.cats.value[..s.nCats];
      var out: seq<CatRow> := [];
      while |out| < |cats|
        invariant |out| <= |cats|
        invariant forall i :: 0 <= i < |out| ==> out[i] == RowOf(cats[i].id, xs, i)
        decreases |cats| - |out|
      {
        var row := PerCatRow(cats[|out|].id, |out|, xs);
        out := out + [row];
      }
      rows := Some(out);
    }

    method PerCatRow(id: int, i: nat, ghost xs: seq<Trial>) returns (row: CatRow)
      requires Tallied(xs) && Charted(xs) && NamedInRange(xs, s.nCats) && i < s.nCats
      ensures row == RowOf(id, xs, i)
    {
      var scored := RowSum(i, xs);
      CellsOfARow(xs, i, s.nCats);
      OutcomesOf(xs, i);
      var correct, declined := conf[i, i], conf[i, s.nCats];
      var wrong := scored - correct - declined;
      var skipped := if i in unscoreable then unscoreable[i] else 0;
      row := CatRow(id, scored, correct, wrong, declined, skipped, Rate(correct, correct + wrong),
                    Rate(declined, scored));
    }

    method RowSum(i: nat, ghost xs: seq<Trial>) returns (sum: nat)
      requires Charted(xs) && i < s.nCats
      ensures sum == Sum(ConfusionRow(xs, i, s.nCats))
    {
      ghost var row := ConfusionRow(xs, i, s.nCats);
      sum := 0;
      var c := 0;
      while c <= s.nCats
        invariant 0 <= c <= s.nCats + 1
        invariant sum == Sum(row[..c])
      {
        assert row[..c + 1][..c] == row[..c];
        sum := sum + conf[i, c];
        c := c + 1;
      }
      assert row[..c] == row;
    }
  }

  datatype CatRow = CatRow(id: int, scored: nat, correct: nat, wrong: int, declined: nat, unscoreable: nat,
                           recall: Option<real>, declinedRate: Option<real>)

  /** A share of a whole, if there is a whole. */
  function Rate(part: int, whole: int): Option<real> {
    if whole == 0 then None else Some(part as real / whole as real)
  }

  /** One cat's visits by outcome. */
  ghost function RowOf(id: int, xs: seq<Trial>, i: nat): CatRow {
    CatRow(id, Count(xs, Of(i, IsScored)), Count(xs, Of(i, IsCorrect)), Count(xs, Of(i, IsWrong)),
           Count(xs, Of(i, IsUnknown)), Count(xs, Of(i, IsUnscoreable)),
           Rate(Count(xs, Of(i, IsCorrect)), Count(xs, Of(i, IsCorrect)) + Count(xs, Of(i, IsWrong))),
           Rate(Count(xs, Of(i, IsUnknown)), Count(xs, Of(i, IsScored))))
  }

  /** At every threshold correct, wrong and unknown make up the scored visits, which are the same
      number at all of them, and with the unscoreable ones make up the visits. */
  lemma ScoresAreConserved(s: Setting, groups: seq<seq<nat>>, truths: seq<nat>, headline: Option<real>, t: Option<real>)
    requires WellFormed(s) && AreGroups(s, groups, truths)
    ensures var scored := Count(Trials(s, groups, truths, headline), IsScored);
            var p := PointOf(s, true, Trials(s, groups, truths, t));
            && p.correct + p.wrong + p.unknown == scored
            && p.unknown + p.asResident + p.asNeighbour + p.asUnknown == scored
            && scored + Count(Trials(s, groups, truths, headline), IsUnscoreable) == |groups|
  {
    var a, b := Trials(s, groups, truths, headline), Trials(s, groups, truths, t);
    VisitsAreConserved(a);
    VisitsAreConserved(b);
    ImpersonationsAreConserved(b, s.cats);
    SameScored(a, b);
  }

  lemma {:induction false} SameScored(a: seq<Trial>, b: seq<Trial>)
    requires |a| == |b| && forall i :: 0 <= i < |a| ==> (a[i].verdict.Scored? <==> b[i].verdict.Scored?)
    ensures Count(a, IsScored) == Count(b, IsScored)
  {
    if a != [] {
      SameScored(a[..|a| - 1], b[..|b| - 1]);
    }
  }

  lemma NextTrial(s: Setting, groups: seq<seq<nat>>, truths: seq<nat>, t: Option<real>, k: nat)
    requires WellFormed(s) && AreGroups(s, groups, truths) && k < |groups|
    ensures TrialsTo(s, groups, truths, t, k + 1)
            == TrialsTo(s, groups, truths, t, k) + [TrialOf(s, groups[k], truths[k], t)]
  {
  }
}
