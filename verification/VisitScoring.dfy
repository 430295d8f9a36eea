/** Held-out scoring of visits: each visit's own columns, and those outside the gallery side, are
    masked to infinity; each crop votes for its nearest remaining column; an injected rule turns the
    votes into a name or none. */
module VisitScoring {
  import opened Wrappers

  datatype Distance = Finite(d: real) | Infinity

  datatype Vote = Vote(cat: nat, distance: Distance)

  datatype Cat = Cat(id: int, resident: Option<bool>)

  /** The rule Run decides with, injected: a span and a threshold to a cat or "unknown". */
  type Rule = (seq<Vote>, Option<real>) -> Option<nat>

  /** What a pass is over. `y[j]` is the cat index of crop `j`; `gallery` optionally restricts the
      columns that may be voted for. */
  datatype Setting = Setting(dist: seq<seq<real>>, y: seq<nat>, gallery: Option<seq<bool>>,
                             rule: Rule, nCats: nat, cats: Option<seq<Cat>>, stranger: bool)

  ghost predicate WellFormed(s: Setting) {
    && |s.dist| == |s.y|
    && (forall i :: 0 <= i < |s.dist| ==> |s.dist[i]| == |s.y|)
    && (s.gallery.Some? ==> |s.gallery.value| == |s.y|)
    && (forall j :: 0 <= j < |s.y| ==> s.y[j] < s.nCats)
  }

  /** Non-empty, and made of crops. */
  ghost predicate IsGroup(s: Setting, g: seq<nat>) {
    g != [] && forall k :: 0 <= k < |g| ==> g[k] < |s.y|
  }

  /** The rule names a cat some vote in the span is for, or nobody. */
  ghost predicate NamesFromSpan(rule: Rule) {
    forall span: seq<Vote>, t: Option<real> :: rule(span, t).Some? ==>
        exists k :: 0 <= k < |span| && span[k].cat == rule(span, t).value
  }

  // --- Masks and votes -----------------------------------------------------------------

  /** A column a held-out visit may be compared with. */
  predicate LiveColumn(s: Setting, g: seq<nat>, j: nat)
    requires s.gallery.Some? ==> |s.gallery.value| == |s.y|
    requires j < |s.y|
  {
    j !in g && (s.gallery.Some? ==> s.gallery.value[j])
  }

  function MaskedRow(s: Setting, g: seq<nat>, i: nat): (row: seq<Distance>)
    requires WellFormed(s) && i < |s.y|
    ensures |row| == |s.y|
  {
    seq(|s.y|, j requires 0 <= j < |s.y| => if LiveColumn(s, g, j) then Finite(s.dist[i][j]) else Infinity)
  }

  predicate Closer(a: Distance, b: Distance) {
    a.Finite? && (b.Infinity? || a.d < b.d)
  }

  /** `argmin`: the first of the closest. */
  function Argmin(row: seq<Distance>): (r: nat)
    requires row != []
    ensures r < |row|
    ensures forall j :: 0 <= j < |row| ==> !Closer(row[j], row[r])
    ensures forall j :: 0 <= j < r ==> Closer(row[r], row[j])
  {
    if |row| == 1 then 0
    else
      var front := Argmin(row[..|row| - 1]);
      if Closer(row[|row| - 1], row[front]) then |row| - 1 else front
  }

  function VoteOf(s: Setting, g: seq<nat>, i: nat): Vote
    requires WellFormed(s) && i < |s.y|
  {
    var row := MaskedRow(s, g, i);
    Vote(s.y[Argmin(row)], row[Argmin(row)])
  }

  function Span(s: Setting, g: seq<nat>): (span: seq<Vote>)
    requires WellFormed(s) && IsGroup(s, g)
    ensures |span| == |g|
  {
    seq(|g|, k requires 0 <= k < |g| => VoteOf(s, g, g[k]))
  }

  ghost predicate HasLiveColumn(s: Setting, g: seq<nat>)
    requires WellFormed(s)
  {
    exists j :: 0 <= j < |s.y| && LiveColumn(s, g, j)
  }

  /** Every vote is for the nearest column that is neither masked nor one of the visit's own, at its
      true distance, exactly if there is any such column. With none, `argmin` over a row of
      infinities answers column 0. */
  lemma VotesAreForLiveColumns(s: Setting, g: seq<nat>, k: nat)
    requires WellFormed(s) && IsGroup(s, g) && k < |g|
    ensures var j := Argmin(MaskedRow(s, g, g[k]));
            && (LiveColumn(s, g, j) <==> HasLiveColumn(s, g))
            && (HasLiveColumn(s, g) ==>
                  && Span(s, g)[k] == Vote(s.y[j], Finite(s.dist[g[k]][j]))
                  && forall i :: 0 <= i < |s.y| && LiveColumn(s, g, i) ==> s.dist[g[k]][j] <= s.dist[g[k]][i])
            && (!HasLiveColumn(s, g) ==> Span(s, g)[k] == Vote(s.y[0], Infinity))
  {
    var row := MaskedRow(s, g, g[k]);
    var j := Argmin(row);
    if HasLiveColumn(s, g) {
      var i :| 0 <= i < |s.y| && LiveColumn(s, g, i);
      assert !Closer(row[i], row[j]);
      forall i | 0 <= i < |s.y| && LiveColumn(s, g, i)
        ensures s.dist[g[k]][j] <= s.dist[g[k]][i]
      {
        assert !Closer(row[i], row[j]);
      }
    } else {
      assert forall i :: 0 <= i < |row| ==> row[i] == Infinity;
      assert !Closer(row[j], row[0]);
    }
  }

  // --- Trials --------------------------------------------------------------------------

  datatype Verdict = Unscoreable | Scored(named: Option<nat>)

  /** One held-out visit and what was decided about it. */
  datatype Trial = Trial(truth: nat, verdict: Verdict)

  /** Outside stranger mode a visit can be scored only if its own cat has a crop left. */
  ghost predicate Scoreable(s: Setting, g: seq<nat>, truth: nat)
    requires WellFormed(s)
  {
    s.stranger || exists j :: 0 <= j < |s.y| && s.y[j] == truth && LiveColumn(s, g, j)
  }

  ghost function TrialOf(s: Setting, g: seq<nat>, truth: nat, t: Option<real>): Trial
    requires WellFormed(s) && IsGroup(s, g)
  {
    Trial(truth, if Scoreable(s, g, truth) then Scored(s.rule(Span(s, g), t)) else Unscoreable)
  }

  ghost predicate AreGroups(s: Setting, groups: seq<seq<nat>>, truths: seq<nat>) {
    && |groups| == |truths|
    && (forall i :: 0 <= i < |groups| ==> IsGroup(s, groups[i]))
    && (forall i :: 0 <= i < |truths| ==> truths[i] < s.nCats)
  }

  ghost function Trials(s: Setting, groups: seq<seq<nat>>, truths: seq<nat>, t: Option<real>): (r: seq<Trial>)
    requires WellFormed(s) && AreGroups(s, groups, truths)
    ensures |r| == |groups|
  {
    seq(|groups|, i requires 0 <= i < |groups| => TrialOf(s, groups[i], truths[i], t))
  }

  predicate IsScored(x: Trial) { x.verdict.Scored? }
  predicate IsUnscoreable(x: Trial) { x.verdict.Unscoreable? }
  predicate IsCorrect(x: Trial) { x.verdict.Scored? && x.verdict.named.Some? && x.verdict.named.value == x.truth }
  predicate IsUnknown(x: Trial) { x.verdict.Scored? && x.verdict.named.None? }
  predicate IsWrong(x: Trial) { x.verdict.Scored? && x.verdict.named.Some? && x.verdict.named.value != x.truth }

  /** The confusion cell of a trial: its cat's row, and the named cat's column or the last. */
  predicate InCell(x: Trial, row: nat, col: nat, nCats: nat) {
    x.verdict.Scored? && x.truth == row && col == if x.verdict.named.None? then nCats else x.verdict.named.value
  }

  datatype Bucket = AsResident | AsNeighbour | AsUnknown

  /** What the roster says of a cat index, if it says anything. */
  function FlagOf(cats: Option<seq<Cat>>, index: nat): Option<bool> {
    if cats.Some? && index < |cats.value| then cats.value[index].resident else None
  }

  /** `_resident_bucket`. A cat without a roster flag is never counted as a neighbour. */
  function BucketOf(cats: Option<seq<Cat>>, index: nat): (b: Bucket)
    ensures b == AsResident <==> FlagOf(cats, index) == Some(true)
    ensures b == AsNeighbour <==> FlagOf(cats, index) == Some(false)
  {
    if cats.None? || index >= |cats.value| || cats.value[index].resident.None? then AsUnknown
    else if cats.value[index].resident.value then AsResident
    else AsNeighbour
  }

  predicate InBucket(cats: Option<seq<Cat>>, x: Trial, b: Bucket) {
    x.verdict.Scored? && x.verdict.named.Some? && BucketOf(cats, x.verdict.named.value) == b
  }

  function CellIs(row: nat, col: nat, nCats: nat): Trial -> bool {
    (x: Trial) => InCell(x, row, col, nCats)
  }

  function BucketIs(cats: Option<seq<Cat>>, b: Bucket): Trial -> bool {
    (x: Trial) => InBucket(cats, x, b)
  }

  /** The visits given the name of one cat. */
  function Names(c: nat): Trial -> bool {
    (x: Trial) => x.verdict.Scored? && x.verdict.named == Some(c)
  }

  /** The visits of one cat among those with a property. */
  function Of(row: nat, p: Trial -> bool): Trial -> bool {
    (x: Trial) => x.truth == row && p(x)
  }

  function Count(xs: seq<Trial>, p: Trial -> bool): (r: nat)
    ensures r <= |xs|
  {
    if xs == [] then 0 else Count(xs[..|xs| - 1], p) + if p(xs[|xs| - 1]) then 1 else 0
  }

  lemma CountSnoc(xs: seq<Trial>, x: Trial, p: Trial -> bool)
    ensures Count(xs + [x], p) == Count(xs, p) + if p(x) then 1 else 0
  {
    assert (xs + [x])[..|xs|] == xs;
  }

  // --- Conservation --------------------------------------------------------------------

  /** Every visit is scored or unscoreable, and every scored one is exactly one of correct, wrong and
      unknown. */
  lemma {:induction false} VisitsAreConserved(xs: seq<Trial>)
    ensures Count(xs, IsCorrect) + Count(xs, IsWrong) + Count(xs, IsUnknown) == Count(xs, IsScored)
    ensures Count(xs, IsScored) + Count(xs, IsUnscoreable) == |xs|
  {
    if xs != [] {
      VisitsAreConserved(xs[..|xs| - 1]);
    }
  }

  /** Every scored visit is rejected or an impersonation of a cat in exactly one bucket. */
  lemma {:induction false} ImpersonationsAreConserved(xs: seq<Trial>, cats: Option<seq<Cat>>)
    ensures Count(xs, IsUnknown) + Count(xs, BucketIs(cats, AsResident))
            + Count(xs, BucketIs(cats, AsNeighbour)) + Count(xs, BucketIs(cats, AsUnknown))
         == Count(xs, IsScored)
  {
    if xs != [] {
      ImpersonationsAreConserved(xs[..|xs| - 1], cats);
    }
  }

  function Sum(a: seq<nat>): nat {
    if a == [] then 0 else Sum(a[..|a| - 1]) + a[|a| - 1]
  }

  /** One row of the confusion matrix as trials fall into it. */
  function ConfusionRow(xs: seq<Trial>, row: nat, nCats: nat): (r: seq<nat>)
    ensures |r| == nCats + 1
  {
    seq(nCats + 1, c requires 0 <= c < nCats + 1 => Count(xs, CellIs(row, c, nCats)))
  }

  ghost predicate NamedInRange(xs: seq<Trial>, nCats: nat) {
    forall i :: 0 <= i < |xs| && xs[i].verdict.Scored? && xs[i].verdict.named.Some? ==>
        xs[i].verdict.named.value < nCats
  }

  lemma {:induction false} SumBump(a: seq<nat>, b: seq<nat>, k: nat)
    requires |a| == |b| && k < |a| && b[k] == a[k] + 1
    requires forall i :: 0 <= i < |a| && i != k ==> a[i] == b[i]
    ensures Sum(b) == Sum(a) + 1
  {
    if k < |a| - 1 {
      SumBump(a[..|a| - 1], b[..|b| - 1], k);
    } else {
      assert a[..|a| - 1] == b[..|b| - 1];
    }
  }

  lemma {:induction false} SumZero(a: seq<nat>)
    requires forall i :: 0 <= i < |a| ==> a[i] == 0
    ensures Sum(a) == 0
  {
    if a != [] {
      SumZero(a[..|a| - 1]);
    }
  }

  /** The row of the confusion matrix sums to that cat's scored visits. */
  lemma {:induction false} RowSumsToScored(xs: seq<Trial>, row: nat, nCats: nat)
    requires NamedInRange(xs, nCats)
    ensures Sum(ConfusionRow(xs, row, nCats)) == Count(xs, Of(row, IsScored))
  {
    var a := ConfusionRow(xs, row, nCats);
    if xs == [] {
      SumZero(a);
    } else {
      var front, x := xs[..|xs| - 1], xs[|xs| - 1];
      RowSumsToScored(front, row, nCats);
      var b := ConfusionRow(front, row, nCats);
      if x.truth == row && x.verdict.Scored? {
        var k := if x.verdict.named.None? then nCats else x.verdict.named.value;
        SumBump(b, a, k);
      } else {
        assert a == b && !Of(row, IsScored)(x);
      }
    }
  }

  // --- What the trials of a pass look like ---------------------------------------------

  /** A name comes from a vote, and a vote is for a crop of some cat in this run. */
  lemma TrialsNameInRange(s: Setting, groups: seq<seq<nat>>, truths: seq<nat>, t: Option<real>)
    requires WellFormed(s) && AreGroups(s, groups, truths) && NamesFromSpan(s.rule)
    ensures NamedInRange(Trials(s, groups, truths, t), s.nCats)
  {
    var xs := Trials(s, groups, truths, t);
    forall i | 0 <= i < |xs| && xs[i].verdict.Scored? && xs[i].verdict.named.Some?
      ensures xs[i].verdict.named.value < s.nCats
    {
      NameIsInRange(s, groups[i], t);
    }
  }

  lemma NameIsInRange(s: Setting, g: seq<nat>, t: Option<real>)
    requires WellFormed(s) && IsGroup(s, g) && NamesFromSpan(s.rule) && s.rule(Span(s, g), t).Some?
    ensures s.rule(Span(s, g), t).value < s.nCats
  {
    var span := Span(s, g);
    var k :| 0 <= k < |span| && span[k].cat == s.rule(span, t).value;
    assert span[k] == VoteOf(s, g, g[k]);
  }

  /** Outside stranger mode a scored visit has a column to be compared with, so all its votes are
      sound. */
  lemma ScoreableHasLiveColumn(s: Setting, g: seq<nat>, truth: nat)
    requires WellFormed(s) && !s.stranger && Scoreable(s, g, truth)
    ensures HasLiveColumn(s, g)
  {
  }

  ghost predicate AnotherCatHasACrop(s: Setting, c: nat) {
    exists j :: 0 <= j < |s.y| && s.y[j] != c
  }

  /** In a pass that masks out every crop of cat `c`, no visit of `c` comes out "correct", provided
      some other cat has a crop. */
  lemma {:induction false} StrangersAreNeverCorrect(s: Setting, groups: seq<seq<nat>>, c: nat, t: Option<real>)
    requires WellFormed(s) && s.stranger && NamesFromSpan(s.rule)
    requires s.gallery.Some? && forall j :: 0 <= j < |s.y| ==> (s.gallery.value[j] <==> s.y[j] != c)
    requires AnotherCatHasACrop(s, c)
    requires forall i :: 0 <= i < |groups| ==> IsGroup(s, groups[i]) && forall k :: 0 <= k < |groups[i]| ==>
             s.y[groups[i][k]] == c
    ensures forall i :: 0 <= i < |groups| ==>
            !IsCorrect(TrialOf(s, groups[i], c, t)) && IsScored(TrialOf(s, groups[i], c, t))
  {
    var j :| 0 <= j < |s.y| && s.y[j] != c;
    forall i | 0 <= i < |groups|
      ensures !IsCorrect(TrialOf(s, groups[i], c, t))
    {
      var g := groups[i];
      assert LiveColumn(s, g, j);
      var span := Span(s, g);
      if s.rule(span, t).Some? {
        var k :| 0 <= k < |span| && span[k].cat == s.rule(span, t).value;
        VotesAreForLiveColumns(s, g, k);
      }
    }
  }

  // --- Adding up over cats -------------------------------------------------------------

  function PerCat(xs: seq<Trial>, p: Trial -> bool, nCats: nat): (r: seq<nat>)
    ensures |r| == nCats
  {
    seq(nCats, c requires 0 <= c < nCats => Count(xs, Of(c, p)))
  }

  /** Counting cat by cat loses and repeats nothing. */
  lemma {:induction false} CatsAddUp(xs: seq<Trial>, p: Trial -> bool, nCats: nat)
    requires forall i :: 0 <= i < |xs| ==> xs[i].truth < nCats
    ensures Sum(PerCat(xs, p, nCats)) == Count(xs, p)
  {
    var a := PerCat(xs, p, nCats);
    if xs == [] {
      SumZero(a);
    } else {
      var front, x := xs[..|xs| - 1], xs[|xs| - 1];
      CatsAddUp(front, p, nCats);
      var b := PerCat(front, p, nCats);
      if p(x) {
        SumBump(b, a, x.truth);
      } else {
        assert a == b;
      }
    }
  }

  lemma {:induction false} CountSame(xs: seq<Trial>, p: Trial -> bool, q: Trial -> bool)
    requires forall i :: 0 <= i < |xs| ==> (p(xs[i]) <==> q(xs[i]))
    ensures Count(xs, p) == Count(xs, q)
  {
    if xs != [] {
      CountSame(xs[..|xs| - 1], p, q);
    }
  }

  lemma {:induction false} CountSplit(xs: seq<Trial>, a: Trial -> bool, b: Trial -> bool, c: Trial -> bool,
          all: Trial -> bool)
    requires forall i :: 0 <= i < |xs| ==>
             (if all(xs[i]) then 1 else 0) == (if a(xs[i]) then 1 else 0) + (if b(xs[i]) then 1 else 0)
             + (if c(xs[i]) then 1 else 0)
    ensures Count(xs, all) == Count(xs, a) + Count(xs, b) + Count(xs, c)
  {
    if xs != [] {
      CountSplit(xs[..|xs| - 1], a, b, c, all);
    }
  }

  /** In a cat's row of the confusion matrix the diagonal cell is its correct visits, the last cell
      its declined ones, and the rest of the row sum its wrong ones. */
  lemma CellsOfARow(xs: seq<Trial>, row: nat, nCats: nat)
    requires row < nCats && NamedInRange(xs, nCats)
    ensures Count(xs, CellIs(row, row, nCats)) == Count(xs, Of(row, IsCorrect))
    ensures Count(xs, CellIs(row, nCats, nCats)) == Count(xs, Of(row, IsUnknown))
    ensures Sum(ConfusionRow(xs, row, nCats))
            == Count(xs, Of(row, IsCorrect)) + Count(xs, Of(row, IsWrong)) + Count(xs, Of(row, IsUnknown))
  {
    forall i | 0 <= i < |xs|
      ensures CellIs(row, row, nCats)(xs[i]) <==> Of(row, IsCorrect)(xs[i])
      ensures CellIs(row, nCats, nCats)(xs[i]) <==> Of(row, IsUnknown)(xs[i])
    {
      var x := xs[i];
      assert CellIs(row, row, nCats)(x) <==> InCell(x, row, row, nCats);
      assert CellIs(row, nCats, nCats)(x) <==> InCell(x, row, nCats, nCats);
      assert Of(row, IsCorrect)(x) <==> x.truth == row && IsCorrect(x);
      assert Of(row, IsUnknown)(x) <==> x.truth == row && IsUnknown(x);
    }
    CountSame(xs, CellIs(row, row, nCats), Of(row, IsCorrect));
    CountSame(xs, CellIs(row, nCats, nCats), Of(row, IsUnknown));
    RowSumsToScored(xs, row, nCats);
    OutcomesOf(xs, row);
  }

  lemma OutcomesOf(xs: seq<Trial>, row: nat)
    ensures Count(xs, Of(row, IsScored))
            == Count(xs, Of(row, IsCorrect)) + Count(xs, Of(row, IsWrong)) + Count(xs, Of(row, IsUnknown))
  {
    forall i | 0 <= i < |xs|
      ensures Of(row, IsScored)(xs[i]) <==> xs[i].truth == row && IsScored(xs[i])
      ensures Of(row, IsCorrect)(xs[i]) <==> xs[i].truth == row && IsCorrect(xs[i])
      ensures Of(row, IsWrong)(xs[i]) <==> xs[i].truth == row && IsWrong(xs[i])
      ensures Of(row, IsUnknown)(xs[i]) <==> xs[i].truth == row && IsUnknown(xs[i])
    {
    }
    CountSplit(xs, Of(row, IsCorrect), Of(row, IsWrong), Of(row, IsUnknown), Of(row, IsScored));
  }
}
