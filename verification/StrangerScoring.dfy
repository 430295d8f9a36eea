/** Held-out cats: one stranger pass per cat over that cat's visits with the cat masked out of the
    gallery, its totals and curve points added up over the cats. */
module StrangerScoring {
  import opened Wrappers
  import opened VisitScoring
  import opened HeldOutScoring

  /** What a stranger pass reports: visits, how many were rejected, how many were given a name, and
      whose. */
  datatype Leaks = Leaks(nScored: nat, rejected: nat, impersonated: int, asResident: nat, asNeighbour: nat,
                         asUnknown: nat)

  const NO_LEAKS := Leaks(0, 0, 0, 0, 0, 0)

  /** A cat that was named, with its id and roster flag if the index has them, and how often. */
  datatype Mention = Mention(id: Option<int>, resident: Option<bool>, n: nat)

  /** What one held-out cat's pass reports: its counts, the share impersonated, and as whom. */
  datatype PassRow = PassRow(cat: nat, leaks: Leaks, rate: Option<real>, named: seq<Mention>)

  /** `_cat_id_of`. */
  function IdOf(cats: Option<seq<Cat>>, index: nat): Option<int> {
    if cats.Some? && index < |cats.value| then Some(cats.value[index].id) else None
  }

  /** The cats below `k` that were named, in order of index, each with its count. */
  function MentionsOf(cats: Option<seq<Cat>>, xs: seq<Trial>, k: nat): seq<Mention> {
    if k == 0 then []
    else
      var n := Count(xs, Names(k - 1));
      MentionsOf(cats, xs, k - 1) + if n > 0 then [Mention(IdOf(cats, k - 1), FlagOf(cats, k - 1), n)] else []
  }

  function MentionTotal(ms: seq<Mention>): nat {
    if ms == [] then 0 else MentionTotal(ms[..|ms| - 1]) + ms[|ms| - 1].n
  }

  function NameTotal(xs: seq<Trial>, k: nat): nat {
    if k == 0 then 0 else NameTotal(xs, k - 1) + Count(xs, Names(k - 1))
  }

  lemma {:induction false} MentionsAddUp(cats: Option<seq<Cat>>, xs: seq<Trial>, k: nat)
    ensures MentionTotal(MentionsOf(cats, xs, k)) == NameTotal(xs, k)
  {
    if k > 0 {
      MentionsAddUp(cats, xs, k - 1);
      var front, n := MentionsOf(cats, xs, k - 1), Count(xs, Names(k - 1));
      if n > 0 {
        assert MentionsOf(cats, xs, k)[..|front|] == front;
      } else {
        assert MentionsOf(cats, xs, k) == front;
      }
    }
  }

  lemma {:induction false} NameTotalSnoc(xs: seq<Trial>, x: Trial, k: nat)
    ensures NameTotal(xs + [x], k)
         == NameTotal(xs, k) + if x.verdict.Scored? && x.verdict.named.Some? && x.verdict.named.value < k then 1 else 0
  {
    if k > 0 {
      NameTotalSnoc(xs, x, k - 1);
      CountSnoc(xs, x, Names(k - 1));
    }
  }

  lemma {:induction false} NoNames(k: nat)
    ensures NameTotal([], k) == 0
  {
    if k > 0 {
      NoNames(k - 1);
    }
  }

  /** The counts of the named list add up to the scored visits that were not rejected. */
  lemma {:induction false} NamedAddUp(xs: seq<Trial>, nCats: nat)
    requires NamedInRange(xs, nCats)
    ensures NameTotal(xs, nCats) == Count(xs, IsScored) - Count(xs, IsUnknown)
  {
    if xs == [] {
      NoNames(nCats);
    } else {
      var front, x := xs[..|xs| - 1], xs[|xs| - 1];
      NamedAddUp(front, nCats);
      NameTotalSnoc(front, x, nCats);
      OutcomeSnoc(front, x);
      assert xs == front + [x];
    }
  }

  /** The setting of one cat's pass: `gal_mask = (y != c)`. */
  function Held(base: Setting, c: nat): Setting {
    base.(gallery := Some(seq(|base.y|, j requires 0 <= j < |base.y| => base.y[j] != c)), stranger := true)
  }

  /** The visits of one cat, in order. */
  function Select(groups: seq<seq<nat>>, truths: seq<nat>, c: nat): (r: seq<seq<nat>>)
    requires |groups| == |truths|
    ensures forall i :: 0 <= i < |r| ==> r[i] in groups
  {
    if groups == [] then []
    else
      var n := |groups| - 1;
      Select(groups[..n], truths[..n], c) + if truths[n] == c then [groups[n]] else []
  }

  function Repeat(c: nat, n: nat): (r: seq<nat>)
    ensures |r| == n && forall i :: 0 <= i < n ==> r[i] == c
  {
    seq(n, _ => c)
  }

  /** Every visit as a stranger: its own cat masked out. */
  ghost function StrangerTrials(base: Setting, groups: seq<seq<nat>>, truths: seq<nat>,
          t: Option<real>): (r: seq<Trial>)
    requires WellFormed(base) && AreGroups(base, groups, truths)
    ensures |r| == |groups| && forall i :: 0 <= i < |r| ==> r[i].truth == truths[i] && IsScored(r[i])
  {
    seq(|groups|, i requires 0 <= i < |groups| => TrialOf(Held(base, truths[i]), groups[i], truths[i], t))
  }

  ghost function LeaksOf(cats: Option<seq<Cat>>, xs: seq<Trial>): Leaks {
    Leaks(Count(xs, IsScored), Count(xs, IsUnknown), Count(xs, IsScored) - Count(xs, IsUnknown),
          Count(xs, BucketIs(cats, AsResident)), Count(xs, BucketIs(cats, AsNeighbour)),
          Count(xs, BucketIs(cats, AsUnknown)))
  }

  /** The trials of cat `c`'s pass. */
  ghost function PassTrials(base: Setting, groups: seq<seq<nat>>, truths: seq<nat>, c: nat, t: Option<real>): seq<Trial>
    requires WellFormed(base) && AreGroups(base, groups, truths) && c < base.nCats
  {
    var sel := Select(groups, truths, c);
    Trials(Held(base, c), sel, Repeat(c, |sel|), t)
  }

  lemma PassSnoc(base: Setting, groups: seq<seq<nat>>, truths: seq<nat>, c: nat, t: Option<real>)
    requires WellFormed(base) && AreGroups(base, groups, truths) && c < base.nCats && groups != []
    ensures var n := |groups| - 1;
            && AreGroups(base, groups[..n], truths[..n])
            && PassTrials(base, groups, truths, c, t)
               == PassTrials(base, groups[..n], truths[..n], c, t)
                  + if truths[n] == c then [TrialOf(Held(base, c), groups[n], c, t)] else []
  {
  }

  lemma StrangerSnoc(base: Setting, groups: seq<seq<nat>>, truths: seq<nat>, t: Option<real>)
    requires WellFormed(base) && AreGroups(base, groups, truths) && groups != []
    ensures var n := |groups| - 1;
            && AreGroups(base, groups[..n], truths[..n])
            && StrangerTrials(base, groups, truths, t)
               == StrangerTrials(base, groups[..n], truths[..n], t)
                  + [TrialOf(Held(base, truths[n]), groups[n], truths[n], t)]
  {
  }

  function OfCat(xs: seq<Trial>, c: nat): seq<Trial> {
    if xs == [] then []
    else OfCat(xs[..|xs| - 1], c) + if xs[|xs| - 1].truth == c then [xs[|xs| - 1]] else []
  }

  lemma OfCatSnoc(xs: seq<Trial>, x: Trial, c: nat)
    ensures OfCat(xs + [x], c) == OfCat(xs, c) + if x.truth == c then [x] else []
  {
    assert (xs + [x])[..|xs|] == xs;
  }

  lemma {:induction false} CountOfCat(xs: seq<Trial>, c: nat, p: Trial -> bool)
    ensures Count(OfCat(xs, c), p) == Count(xs, Of(c, p))
  {
    if xs != [] {
      var front, x := xs[..|xs| - 1], xs[|xs| - 1];
      CountOfCat(front, c, p);
      assert Of(c, p)(x) <==> x.truth == c && p(x);
      if x.truth == c {
        CountSnoc(OfCat(front, c), x, p);
      } else {
        assert OfCat(xs, c) == OfCat(front, c);
      }
    }
  }

  /** A cat's pass is over exactly that cat's visits among the strangers. */
  lemma {:induction false} PassIsOfCat(base: Setting, groups: seq<seq<nat>>, truths: seq<nat>, c: nat, t: Option<real>)
    requires WellFormed(base) && AreGroups(base, groups, truths) && c < base.nCats
    ensures PassTrials(base, groups, truths, c, t) == OfCat(StrangerTrials(base, groups, truths, t), c)
  {
    if groups != [] {
      var n := |groups| - 1;
      PassSnoc(base, groups, truths, c, t);
      StrangerSnoc(base, groups, truths, t);
      PassIsOfCat(base, groups[..n], truths[..n], c, t);
      OfCatSnoc(StrangerTrials(base, groups[..n], truths[..n], t),
                TrialOf(Held(base, truths[n]), groups[n], truths[n], t), c);
    }
  }

  lemma PassCounts(base: Setting, groups: seq<seq<nat>>, truths: seq<nat>, c: nat, t: Option<real>, p: Trial -> bool)
    requires WellFormed(base) && AreGroups(base, groups, truths) && c < base.nCats
    ensures Count(PassTrials(base, groups, truths, c, t), p) == Count(StrangerTrials(base, groups, truths, t), Of(c, p))
  {
    PassIsOfCat(base, groups, truths, c, t);
    CountOfCat(StrangerTrials(base, groups, truths, t), c, p);
  }

  /** The trials with a property among the first `k` cats, cat by cat. */
  function Total(xs: seq<Trial>, p: Trial -> bool, k: nat): nat {
    if k == 0 then 0 else Total(xs, p, k - 1) + Count(xs, Of(k - 1, p))
  }

  /** The totals after the passes of the first `k` cats. */
  ghost function LeaksTo(base: Setting, xs: seq<Trial>, k: nat): Leaks {
    Leaks(Total(xs, IsScored, k), Total(xs, IsUnknown, k), Total(xs, IsScored, k) - Total(xs, IsUnknown, k),
          Total(xs, BucketIs(base.cats, AsResident), k),
          Total(xs, BucketIs(base.cats, AsNeighbour), k),
          Total(xs, BucketIs(base.cats, AsUnknown), k))
  }

  function PlusLeaks(a: Leaks, b: Leaks): Leaks {
    Leaks(a.nScored + b.nScored, a.rejected + b.rejected, a.impersonated + b.impersonated,
          a.asResident + b.asResident, a.asNeighbour + b.asNeighbour, a.asUnknown + b.asUnknown)
  }

  // --- Repeated thresholds -------------------------------------------------------------

  /** A curve point as a pass reports it: the outcomes counted once for each of the `m` times its
      threshold is listed, the visits once, and the impersonated the difference. */
  function Relisted(l: Leaks, m: nat): Leaks {
    Leaks(l.nScored, m * l.rejected, l.nScored - m * l.rejected,
          m * l.asResident, m * l.asNeighbour, m * l.asUnknown)
  }

  /** Added up `m` times. */
  function ManyLeaks(l: Leaks, m: nat): Leaks {
    Leaks(m * l.nScored, m * l.rejected, m * l.impersonated, m * l.asResident, m * l.asNeighbour, m * l.asUnknown)
  }

  /** A curve point of the block: a pass lists it `m` times, and each is added. */
  function CurvePoint(l: Leaks, m: nat): Leaks {
    ManyLeaks(Relisted(l, m), m)
  }

  /** A threshold listed once has the point of its counts. */
  lemma PointOfOnce(l: Leaks)
    requires l.impersonated == l.nScored - l.rejected
    ensures CurvePoint(l, 1) == l
  {
  }

  lemma ManyAddsOn(l: Leaks, m: nat)
    ensures ManyLeaks(l, m + 1) == PlusLeaks(ManyLeaks(l, m), l)
  {
  }

  lemma RelistedPlus(a: Leaks, b: Leaks, m: nat)
    ensures Relisted(PlusLeaks(a, b), m) == PlusLeaks(Relisted(a, m), Relisted(b, m))
  {
    Distributes(m, a.rejected, b.rejected);
    Distributes(m, a.asResident, b.asResident);
    Distributes(m, a.asNeighbour, b.asNeighbour);
    Distributes(m, a.asUnknown, b.asUnknown);
  }

  lemma ManyPlus(a: Leaks, b: Leaks, m: nat)
    ensures ManyLeaks(PlusLeaks(a, b), m) == PlusLeaks(ManyLeaks(a, m), ManyLeaks(b, m))
  {
    Distributes(m, a.nScored, b.nScored);
    Distributes(m, a.rejected, b.rejected);
    Distributes(m, a.impersonated, b.impersonated);
    Distributes(m, a.asResident, b.asResident);
    Distributes(m, a.asNeighbour, b.asNeighbour);
    Distributes(m, a.asUnknown, b.asUnknown);
  }

  lemma PointsAddUp(a: Leaks, b: Leaks, m: nat)
    ensures CurvePoint(PlusLeaks(a, b), m) == PlusLeaks(CurvePoint(a, m), CurvePoint(b, m))
  {
    RelistedPlus(a, b, m);
    ManyPlus(Relisted(a, m), Relisted(b, m), m);
  }

  // --- Cat by cat ----------------------------------------------------------------------

  lemma NextCount(base: Setting, groups: seq<seq<nat>>, truths: seq<nat>, t: Option<real>, k: nat, p: Trial -> bool)
    requires WellFormed(base) && AreGroups(base, groups, truths) && k < base.nCats
    ensures Total(StrangerTrials(base, groups, truths, t), p, k + 1)
         == Total(StrangerTrials(base, groups, truths, t), p, k) + Count(PassTrials(base, groups, truths, k, t), p)
  {
    PassCounts(base, groups, truths, k, t, p);
  }

  lemma {:induction false} TotalIsPerCat(xs: seq<Trial>, p: Trial -> bool, k: nat)
    ensures Total(xs, p, k) == Sum(PerCat(xs, p, k))
  {
    if k > 0 {
      TotalIsPerCat(xs, p, k - 1);
      assert PerCat(xs, p, k)[..k - 1] == PerCat(xs, p, k - 1);
    }
  }

  lemma TotalIsCount(xs: seq<Trial>, p: Trial -> bool, nCats: nat)
    requires forall i :: 0 <= i < |xs| ==> xs[i].truth < nCats
    ensures Total(xs, p, nCats) == Count(xs, p)
  {
    TotalIsPerCat(xs, p, nCats);
    CatsAddUp(xs, p, nCats);
  }

  lemma NextCat(base: Setting, groups: seq<seq<nat>>, truths: seq<nat>, t: Option<real>, k: nat)
    requires WellFormed(base) && AreGroups(base, groups, truths) && k < base.nCats
    ensures LeaksTo(base, StrangerTrials(base, groups, truths, t), k + 1)
         == PlusLeaks(LeaksTo(base, StrangerTrials(base, groups, truths, t), k),
                      LeaksOf(base.cats, PassTrials(base, groups, truths, k, t)))
  {
    NextCount(base, groups, truths, t, k, IsScored);
    NextCount(base, groups, truths, t, k, IsUnknown);
    NextCount(base, groups, truths, t, k, BucketIs(base.cats, AsResident));
    NextCount(base, groups, truths, t, k, BucketIs(base.cats, AsNeighbour));
    NextCount(base, groups, truths, t, k, BucketIs(base.cats, AsUnknown));
  }

  lemma AllCats(base: Setting, groups: seq<seq<nat>>, truths: seq<nat>, t: Option<real>)
    requires WellFormed(base) && AreGroups(base, groups, truths)
    ensures LeaksTo(base, StrangerTrials(base, groups, truths, t), base.nCats)
            == LeaksOf(base.cats, StrangerTrials(base, groups, truths, t))
  {
    var xs := StrangerTrials(base, groups, truths, t);
    TotalIsCount(xs, IsScored, base.nCats);
    TotalIsCount(xs, IsUnknown, base.nCats);
    TotalIsCount(xs, BucketIs(base.cats, AsResident), base.nCats);
    TotalIsCount(xs, BucketIs(base.cats, AsNeighbour), base.nCats);
    TotalIsCount(xs, BucketIs(base.cats, AsUnknown), base.nCats);
  }

  const MIN_CATS: nat := 3

  datatype Block = NoCatIndex | TooFewCats | NoVisits
                 | Available(totals: Leaks, curve: map<real, Leaks>, rows: seq<PassRow>, skipped: seq<nat>,
                             splitKnown: bool, rate: Option<real>, residentRate: Option<real>)

  ghost function PassRowOf(base: Setting, groups: seq<seq<nat>>, truths: seq<nat>, c: nat, t: Option<real>): PassRow
    requires WellFormed(base) && AreGroups(base, groups, truths) && c < base.nCats
  {
    var xs := PassTrials(base, groups, truths, c, t);
    var leaks := LeaksOf(base.cats, xs);
    PassRow(c, leaks, Rate(leaks.impersonated, leaks.nScored), MentionsOf(base.cats, xs, base.nCats))
  }

  /** A curve point of one cat's pass. */
  ghost function PassPoint(base: Setting, groups: seq<seq<nat>>, truths: seq<nat>, c: nat, ts: seq<real>,
          t: real): Leaks
    requires WellFormed(base) && AreGroups(base, groups, truths) && c < base.nCats
  {
    Relisted(LeaksOf(base.cats, PassTrials(base, groups, truths, c, Some(t))), Often(ts, t))
  }

  /** A curve point of the block after the passes of the first `c` cats. */
  ghost function PointTo(base: Setting, groups: seq<seq<nat>>, truths: seq<nat>, c: nat, ts: seq<real>, t: real): Leaks
    requires WellFormed(base) && AreGroups(base, groups, truths)
  {
    CurvePoint(LeaksTo(base, StrangerTrials(base, groups, truths, Some(t)), c), Often(ts, t))
  }

  /** One cat's pass over its visits, as `_score_visits` returns it in stranger mode. */
  method Pass(base: Setting, groups: seq<seq<nat>>, truths: seq<nat>, c: nat, headline: Option<real>, ts: seq<real>)
    returns (row: PassRow, curve: map<real, Leaks>)
    requires WellFormed(base) && AreGroups(base, groups, truths) && c < base.nCats
    requires NamesFromSpan(base.rule)
    ensures row == PassRowOf(base, groups, truths, c, headline)
    ensures forall i :: 0 <= i < |ts| ==> ts[i] in curve
    ensures forall i :: 0 <= i < |ts| ==> curve[ts[i]] == PassPoint(base, groups, truths, c, ts, ts[i])
  {
    var s, sel := Held(base, c), Select(groups, truths, c);
    var same := Repeat(c, |sel|);
    var scoring := new Scoring(s, headline, ts);
    scoring.Run(sel, same);
    var leaks := Report(scoring.nScored, scoring.tally);
    var named := NamedList(base, scoring.named, Trials(s, sel, same, headline));
    row := PassRow(c, leaks, Rate(leaks.impersonated, leaks.nScored), named);
    ReportIsLeaks(s, sel, same, headline, headline);
    curve := Points(s, sel, same, headline, ts, scoring.nScored, scoring.curve);
  }

  /** The curve a pass reports. */
  method Points(s: Setting, ghost groups: seq<seq<nat>>, ghost truths: seq<nat>, ghost headline: Option<real>,
          ts: seq<real>, nScored: nat, counted: map<real, Point>)
    returns (curve: map<real, Leaks>)
    requires WellFormed(s) && AreGroups(s, groups, truths) && s.stranger
    requires nScored == Count(Trials(s, groups, truths, headline), IsScored)
    requires forall i :: 0 <= i < |ts| ==> ts[i] in counted
    requires forall i :: 0 <= i < |ts| ==>
               counted[ts[i]] == Times(PointOf(s, s.stranger, Trials(s, groups, truths, Some(ts[i]))), Often(ts, ts[i]))
    ensures forall i :: 0 <= i < |ts| ==> ts[i] in curve
    ensures forall i :: 0 <= i < |ts| ==>
              curve[ts[i]] == Relisted(LeaksOf(s.cats, Trials(s, groups, truths, Some(ts[i]))), Often(ts, ts[i]))
  {
    curve := map t | t in counted :: Report(nScored, counted[t]);
    forall i | 0 <= i < |ts|
      ensures Report(nScored, Times(PointOf(s, s.stranger, Trials(s, groups, truths, Some(ts[i]))), Often(ts, ts[i])))
              == Relisted(LeaksOf(s.cats, Trials(s, groups, truths, Some(ts[i]))), Often(ts, ts[i]))
    {
      PointIsRelisted(s, groups, truths, headline, Some(ts[i]), Often(ts, ts[i]));
    }
  }

  lemma PointIsRelisted(s: Setting, groups: seq<seq<nat>>, truths: seq<nat>, headline: Option<real>,
          t: Option<real>, m: nat)
    requires WellFormed(s) && AreGroups(s, groups, truths) && s.stranger
    ensures Report(Count(Trials(s, groups, truths, headline), IsScored),
                   Times(PointOf(s, s.stranger, Trials(s, groups, truths, t)), m))
            == Relisted(LeaksOf(s.cats, Trials(s, groups, truths, t)), m)
  {
    ReportIsLeaks(s, groups, truths, headline, t);
    var nScored := Count(Trials(s, groups, truths, headline), IsScored);
    ReportIsRelisted(nScored, PointOf(s, true, Trials(s, groups, truths, t)), m);
  }

  /** Every impersonation is of a cat in the named list. */
  lemma NamedAreTheImpersonated(base: Setting, groups: seq<seq<nat>>, truths: seq<nat>, c: nat, t: Option<real>)
    requires WellFormed(base) && AreGroups(base, groups, truths) && c < base.nCats && NamesFromSpan(base.rule)
    ensures var row := PassRowOf(base, groups, truths, c, t); MentionTotal(row.named) == row.leaks.impersonated
  {
    var s, sel := Held(base, c), Select(groups, truths, c);
    var xs := PassTrials(base, groups, truths, c, t);
    TrialsNameInRange(s, sel, Repeat(c, |sel|), t);
    MentionsAddUp(base.cats, xs, base.nCats);
    NamedAddUp(xs, base.nCats);
  }

  /** The named cats in order of index. */
  method NamedList(base: Setting, named: map<nat, nat>, ghost xs: seq<Trial>) returns (ms: seq<Mention>)
    requires CountsNames(named, xs)
    ensures ms == MentionsOf(base.cats, xs, base.nCats)
  {
    ms := [];
    var i := 0;
    while i < base.nCats
      invariant 0 <= i <= base.nCats && ms == MentionsOf(base.cats, xs, i)
    {
      if i in named {
        ms := ms + [Mention(IdOf(base.cats, i), FlagOf(base.cats, i), named[i])];
      }
      i := i + 1;
    }
  }

  lemma ReportIsLeaks(s: Setting, groups: seq<seq<nat>>, truths: seq<nat>, headline: Option<real>, t: Option<real>)
    requires WellFormed(s) && AreGroups(s, groups, truths) && s.stranger
    ensures Report(Count(Trials(s, groups, truths, headline), IsScored), PointOf(s, true, Trials(s, groups, truths, t)))
         == LeaksOf(s.cats, Trials(s, groups, truths, t))
  {
    AllStrangersAreScored(s, groups, truths, headline);
    AllStrangersAreScored(s, groups, truths, t);
  }

  /** Everything not rejected is an impersonation, by subtraction. */
  function Report(nScored: nat, p: Point): Leaks {
    Leaks(nScored, p.unknown, nScored - p.unknown, p.asResident, p.asNeighbour, p.asUnknown)
  }

  lemma ReportIsRelisted(nScored: nat, p: Point, m: nat)
    ensures Report(nScored, Times(p, m)) == Relisted(Report(nScored, p), m)
  {
  }

  lemma AllStrangersAreScored(s: Setting, groups: seq<seq<nat>>, truths: seq<nat>, t: Option<real>)
    requires WellFormed(s) && AreGroups(s, groups, truths) && s.stranger
    ensures Count(Trials(s, groups, truths, t), IsScored) == |groups|
  {
    CountAll(Trials(s, groups, truths, t), IsScored);
  }

  lemma {:induction false} CountAll(xs: seq<Trial>, p: Trial -> bool)
    requires forall i :: 0 <= i < |xs| ==> p(xs[i])
    ensures Count(xs, p) == |xs|
  {
    if xs != [] {
      CountAll(xs[..|xs| - 1], p);
    }
  }

  /** Totals and curve points of the first `c` cats. */
  ghost predicate Summed(base: Setting, groups: seq<seq<nat>>, truths: seq<nat>, headline: Option<real>,
          ts: seq<real>, c: nat, totals: Leaks, curve: map<real, Leaks>)
    requires WellFormed(base) && AreGroups(base, groups, truths)
  {
    && totals == LeaksTo(base, StrangerTrials(base, groups, truths, headline), c)
    && forall i :: 0 <= i < |ts| ==>
         ts[i] in curve && curve[ts[i]] == PointTo(base, groups, truths, c, ts, ts[i])
  }

  /** The block's inner loop: every listed point is added to its threshold's total. */
  method AddPoints(ts: seq<real>, curve: map<real, Leaks>, points: map<real, Leaks>) returns (sums: map<real, Leaks>)
    requires forall i :: 0 <= i < |ts| ==> ts[i] in curve && ts[i] in points
    ensures sums.Keys == curve.Keys
    ensures forall t :: t in curve && t in points ==> sums[t] == PlusLeaks(curve[t], ManyLeaks(points[t], Often(ts, t)))
  {
    sums := curve;
    var i := 0;
    while i < |ts|
      invariant 0 <= i <= |ts| && sums.Keys == curve.Keys
      invariant forall t :: t in curve && t in points ==>
                  sums[t] == PlusLeaks(curve[t], ManyLeaks(points[t], Often(ts[..i], t)))
    {
      OftenNext(ts, i);
      ManyAddsOn(points[ts[i]], Often(ts[..i], ts[i]));
      sums := sums[ts[i] := PlusLeaks(sums[ts[i]], points[ts[i]])];
      i := i + 1;
    }
    assert ts[..i] == ts;
  }

  method AddPass(base: Setting, groups: seq<seq<nat>>, truths: seq<nat>, c: nat, headline: Option<real>,
          ts: seq<real>, totals: Leaks, curve: map<real, Leaks>)
    returns (row: PassRow, totals': Leaks, curve': map<real, Leaks>)
    requires WellFormed(base) && AreGroups(base, groups, truths) && c < base.nCats
    requires NamesFromSpan(base.rule)
    requires Summed(base, groups, truths, headline, ts, c, totals, curve)
    ensures Summed(base, groups, truths, headline, ts, c + 1, totals', curve')
    ensures row == PassRowOf(base, groups, truths, c, headline)
  {
    var points: map<real, Leaks>;
    row, points := Pass(base, groups, truths, c, headline, ts);
    totals' := PlusLeaks(totals, row.leaks);
    curve' := AddPoints(ts, curve, points);
    NextCat(base, groups, truths, headline, c);
    forall i | 0 <= i < |ts|
      ensures ts[i] in curve'
      ensures curve'[ts[i]] == PointTo(base, groups, truths, c + 1, ts, ts[i])
    {
      NextCat(base, groups, truths, Some(ts[i]), c);
      PointsAddUp(LeaksTo(base, StrangerTrials(base, groups, truths, Some(ts[i])), c),
                  LeaksOf(base.cats, PassTrials(base, groups, truths, c, Some(ts[i]))), Often(ts, ts[i]));
    }
  }

  lemma EmptyPass(base: Setting, groups: seq<seq<nat>>, truths: seq<nat>, c: nat, t: Option<real>)
    requires WellFormed(base) && AreGroups(base, groups, truths) && c < base.nCats && Select(groups, truths, c) == []
    ensures LeaksTo(base, StrangerTrials(base, groups, truths, t), c + 1)
            == LeaksTo(base, StrangerTrials(base, groups, truths, t), c)
  {
    NextCat(base, groups, truths, t, c);
    assert PassTrials(base, groups, truths, c, t) == [];
    assert LeaksOf(base.cats, []) == NO_LEAKS;
  }

  lemma SkippedAddsNothing(base: Setting, groups: seq<seq<nat>>, truths: seq<nat>, c: nat,
          headline: Option<real>, ts: seq<real>, totals: Leaks, curve: map<real, Leaks>)
    requires WellFormed(base) && AreGroups(base, groups, truths) && c < base.nCats && Select(groups, truths, c) == []
    requires Summed(base, groups, truths, headline, ts, c, totals, curve)
    ensures Summed(base, groups, truths, headline, ts, c + 1, totals, curve)
  {
    EmptyPass(base, groups, truths, c, headline);
    forall i | 0 <= i < |ts|
      ensures LeaksTo(base, StrangerTrials(base, groups, truths, Some(ts[i])), c + 1)
              == LeaksTo(base, StrangerTrials(base, groups, truths, Some(ts[i])), c)
    {
      EmptyPass(base, groups, truths, c, Some(ts[i]));
    }
  }

  lemma {:induction false} SelectsIff(groups: seq<seq<nat>>, truths: seq<nat>, c: nat)
    requires |groups| == |truths|
    ensures Select(groups, truths, c) == [] <==> c !in truths
  {
    if groups != [] {
      SelectsIff(groups[..|groups| - 1], truths[..|groups| - 1], c);
      assert truths == truths[..|groups| - 1] + [truths[|groups| - 1]];
    }
  }

  /** One row per cat with visits, one entry in `skipped` per cat without. */
  ghost predicate Listed(base: Setting, groups: seq<seq<nat>>, truths: seq<nat>, headline: Option<real>, c: nat,
          rows: seq<PassRow>, skipped: seq<nat>)
    requires WellFormed(base) && AreGroups(base, groups, truths) && c <= base.nCats
  {
    && |rows| + |skipped| == c
    && (forall i :: 0 <= i < |skipped| ==> skipped[i] < c && skipped[i] !in truths)
    && (forall i :: 0 <= i < |rows| ==> rows[i].cat < c && rows[i].cat in truths)
    && (forall i :: 0 <= i < |rows| ==> rows[i] == PassRowOf(base, groups, truths, rows[i].cat, headline))
    && (forall i, j :: 0 <= i < j < |rows| ==> rows[i].cat < rows[j].cat)
    && (rows == [] <==> forall i :: 0 <= i < |truths| ==> truths[i] >= c)
  }

  lemma ListNext(base: Setting, groups: seq<seq<nat>>, truths: seq<nat>, headline: Option<real>, c: nat,
          rows: seq<PassRow>, skipped: seq<nat>)
    requires WellFormed(base) && AreGroups(base, groups, truths) && c < base.nCats
    requires Listed(base, groups, truths, headline, c, rows, skipped)
    ensures c !in truths ==> Listed(base, groups, truths, headline, c + 1, rows, skipped + [c])
    ensures c in truths ==>
            Listed(base, groups, truths, headline, c + 1,
                   rows + [PassRowOf(base, groups, truths, c, headline)], skipped)
  {
  }

  /** Every threshold has the point of every visit taken as a stranger, with its repetitions. */
  ghost predicate CurveOf(base: Setting, groups: seq<seq<nat>>, truths: seq<nat>, ts: seq<real>,
          curve: map<real, Leaks>)
    requires WellFormed(base) && AreGroups(base, groups, truths)
  {
    forall i :: 0 <= i < |ts| ==>
      var l := LeaksOf(base.cats, StrangerTrials(base, groups, truths, Some(ts[i])));
      ts[i] in curve && curve[ts[i]] == CurvePoint(l, Often(ts, ts[i]))
  }

  /** Thresholds listed once have the plain counts. */
  lemma DistinctCurve(base: Setting, groups: seq<seq<nat>>, truths: seq<nat>, ts: seq<real>,
          curve: map<real, Leaks>, i: nat)
    requires WellFormed(base) && AreGroups(base, groups, truths) && CurveOf(base, groups, truths, ts, curve)
    requires Distinct(ts) && i < |ts|
    ensures curve[ts[i]] == LeaksOf(base.cats, StrangerTrials(base, groups, truths, Some(ts[i])))
  {
    DistinctIsOnce(ts, i);
    PointOfOnce(LeaksOf(base.cats, StrangerTrials(base, groups, truths, Some(ts[i]))));
  }

  /** `_stranger_block`. Totals and curve are those of every visit taken as a stranger, a repeated
      threshold counted as often as it is listed. */
  method StrangerBlock(base: Setting, groups: seq<seq<nat>>, truths: seq<nat>, headline: Option<real>, ts: seq<real>)
    returns (b: Block)
    requires WellFormed(base) && AreGroups(base, groups, truths) && NamesFromSpan(base.rule)
    ensures b.NoCatIndex? <==> base.cats.None? || base.cats.value == []
    ensures b.TooFewCats? <==> !b.NoCatIndex? && base.nCats < MIN_CATS
    ensures b.NoVisits? <==> !b.NoCatIndex? && !b.TooFewCats? && groups == []
    ensures b.Available? ==>
              && b.totals == LeaksOf(base.cats, StrangerTrials(base, groups, truths, headline))
              && CurveOf(base, groups, truths, ts, b.curve)
              && (b.splitKnown <==> b.totals.asUnknown == 0)
              && b.rate == Rate(b.totals.impersonated, |groups|)
              && b.residentRate == (if b.splitKnown then Rate(b.totals.asResident, |groups|) else None)
              && Listed(base, groups, truths, headline, base.nCats, b.rows, b.skipped)
  {
    if base.cats.None? || base.cats.value == [] {
      b := NoCatIndex;
    } else if base.nCats < MIN_CATS {
      b := TooFewCats;
    } else {
      b := HoldOutEach(base, groups, truths, headline, ts);
    }
  }

  method HoldOutEach(base: Setting, groups: seq<seq<nat>>, truths: seq<nat>, headline: Option<real>, ts: seq<real>)
    returns (b: Block)
    requires WellFormed(base) && AreGroups(base, groups, truths) && NamesFromSpan(base.rule)
    ensures if groups == [] then b.NoVisits? else b.Available?
    ensures b.Available? ==>
              && b.totals == LeaksOf(base.cats, StrangerTrials(base, groups, truths, headline))
              && CurveOf(base, groups, truths, ts, b.curve)
              && (b.splitKnown <==> b.totals.asUnknown == 0)
              && b.rate == Rate(b.totals.impersonated, |groups|)
              && b.residentRate == (if b.splitKnown then Rate(b.totals.asResident, |groups|) else None)
              && Listed(base, groups, truths, headline, base.nCats, b.rows, b.skipped)
  {
    var totals, curve, rows, skipped := CatPasses(base, groups, truths, headline, ts);
    if rows == [] {
      b := NoVisits;
    } else {
      AllStrangers(base, groups, truths, headline, ts, totals, curve);
      CountAll(StrangerTrials(base, groups, truths, headline), IsScored);
      var splitKnown := totals.asUnknown == 0;
      b := Available(totals, curve, rows, skipped, splitKnown, Rate(totals.impersonated, totals.nScored),
                     if splitKnown then Rate(totals.asResident, totals.nScored) else None);
    }
  }

  /** The loop over cats. */
  method CatPasses(base: Setting, groups: seq<seq<nat>>, truths: seq<nat>, headline: Option<real>, ts: seq<real>)
    returns (totals: Leaks, curve: map<real, Leaks>, rows: seq<PassRow>, skipped: seq<nat>)
    requires WellFormed(base) && AreGroups(base, groups, truths) && NamesFromSpan(base.rule)
    ensures Summed(base, groups, truths, headline, ts, base.nCats, totals, curve)
    ensures Listed(base, groups, truths, headline, base.nCats, rows, skipped)
  {
    totals, curve, rows, skipped := NO_LEAKS, map t | t in ts :: NO_LEAKS, [], [];
    NothingYet(base, groups, truths, headline, ts, curve);
    var c := 0;
    while c < base.nCats
      invariant 0 <= c <= base.nCats
      invariant Summed(base, groups, truths, headline, ts, c, totals, curve)
      invariant Listed(base, groups, truths, headline, c, rows, skipped)
    {
      totals, curve, rows, skipped := HoldOut(base, groups, truths, c, headline, ts, totals, curve, rows, skipped);
      c := c + 1;
    }
  }

  lemma NothingYet(base: Setting, groups: seq<seq<nat>>, truths: seq<nat>, headline: Option<real>,
          ts: seq<real>, curve: map<real, Leaks>)
    requires WellFormed(base) && AreGroups(base, groups, truths)
    requires forall i :: 0 <= i < |ts| ==> ts[i] in curve && curve[ts[i]] == NO_LEAKS
    ensures Summed(base, groups, truths, headline, ts, 0, NO_LEAKS, curve)
    ensures Listed(base, groups, truths, headline, 0, [], [])
  {
  }

  method HoldOut(base: Setting, groups: seq<seq<nat>>, truths: seq<nat>, c: nat, headline: Option<real>,
          ts: seq<real>, totals: Leaks, curve: map<real, Leaks>, rows: seq<PassRow>, skipped: seq<nat>)
    returns (totals': Leaks, curve': map<real, Leaks>, rows': seq<PassRow>, skipped': seq<nat>)
    requires WellFormed(base) && AreGroups(base, groups, truths) && c < base.nCats
    requires NamesFromSpan(base.rule)
    requires Summed(base, groups, truths, headline, ts, c, totals, curve)
    requires Listed(base, groups, truths, headline, c, rows, skipped)
    ensures Summed(base, groups, truths, headline, ts, c + 1, totals', curve')
    ensures Listed(base, groups, truths, headline, c + 1, rows', skipped')
  {
    SelectsIff(groups, truths, c);
    ListNext(base, groups, truths, headline, c, rows, skipped);
    if Select(groups, truths, c) == [] {
      SkippedAddsNothing(base, groups, truths, c, headline, ts, totals, curve);
      totals', curve', rows', skipped' := totals, curve, rows, skipped + [c];
    } else {
      var row;
      row, totals', curve' := AddPass(base, groups, truths, c, headline, ts, totals, curve);
      rows', skipped' := rows + [row], skipped;
    }
  }

  lemma AllStrangers(base: Setting, groups: seq<seq<nat>>, truths: seq<nat>, headline: Option<real>,
          ts: seq<real>, totals: Leaks, curve: map<real, Leaks>)
    requires WellFormed(base) && AreGroups(base, groups, truths)
    requires Summed(base, groups, truths, headline, ts, base.nCats, totals, curve)
    ensures totals == LeaksOf(base.cats, StrangerTrials(base, groups, truths, headline))
    ensures CurveOf(base, groups, truths, ts, curve)
  {
    AllCats(base, groups, truths, headline);
    forall i | 0 <= i < |ts|
      ensures ts[i] in curve
      ensures curve[ts[i]]
              == CurvePoint(LeaksOf(base.cats, StrangerTrials(base, groups, truths, Some(ts[i]))), Often(ts, ts[i]))
    {
      AllCats(base, groups, truths, Some(ts[i]));
    }
  }

  // --- What the block promises ---------------------------------------------------------

  /** Over all held-out cats every visit is scored, every scored visit is either rejected or an
      impersonation of a cat in exactly one bucket, and none is "correct": each visit is of one cat,
      and some other cat has a crop. */
  lemma StrangersAreConserved(base: Setting, groups: seq<seq<nat>>, truths: seq<nat>, t: Option<real>)
    requires WellFormed(base) && AreGroups(base, groups, truths) && NamesFromSpan(base.rule)
    requires forall i :: 0 <= i < |groups| ==> forall k :: 0 <= k < |groups[i]| ==> base.y[groups[i][k]] == truths[i]
    requires forall c :: 0 <= c < base.nCats ==> AnotherCatHasACrop(base, c)
    ensures var l := LeaksOf(base.cats, StrangerTrials(base, groups, truths, t));
            && l.nScored == |groups|
            && l.rejected + l.asResident + l.asNeighbour + l.asUnknown == l.nScored
            && l.impersonated == l.asResident + l.asNeighbour + l.asUnknown
                == Count(StrangerTrials(base, groups, truths, t), IsWrong)
            && Count(StrangerTrials(base, groups, truths, t), IsCorrect) == 0
  {
    var xs := StrangerTrials(base, groups, truths, t);
    CountAll(xs, IsScored);
    ImpersonationsAreConserved(xs, base.cats);
    VisitsAreConserved(xs);
    forall i | 0 <= i < |xs|
      ensures !IsCorrect(xs[i])
    {
      assert AnotherCatHasACrop(base, truths[i]);
      assert AnotherCatHasACrop(Held(base, truths[i]), truths[i]);
      StrangersAreNeverCorrect(Held(base, truths[i]), [groups[i]], truths[i], t);
      assert [groups[i]][0] == groups[i];
    }
    CountNone(xs, IsCorrect);
  }

  lemma {:induction false} CountNone(xs: seq<Trial>, p: Trial -> bool)
    requires forall i :: 0 <= i < |xs| ==> !p(xs[i])
    ensures Count(xs, p) == 0
  {
    if xs != [] {
      CountNone(xs[..|xs| - 1], p);
    }
  }
}
