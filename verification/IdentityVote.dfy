/** The rule Run decides a span with, and that held-out scoring is given: the cat with the most
    votes at or under the threshold, ties by its nearest vote. */
module IdentityVote {
  import opened Wrappers
  import opened VisitScoring

  /** A vote that counts: an infinite distance is under no threshold. */
  predicate Counts(v: Vote, t: real) {
    v.distance.Finite? && v.distance.d <= t
  }

  function Below(span: seq<Vote>, t: real): (r: seq<Vote>)
    ensures forall i :: 0 <= i < |r| ==> r[i] in span && Counts(r[i], t)
  {
    if span == [] then []
    else
      var last := span[|span| - 1];
      Below(span[..|span| - 1], t) + if Counts(last, t) then [last] else []
  }

  lemma {:induction false} BelowKeeps(span: seq<Vote>, t: real, v: Vote)
    requires v in span && Counts(v, t)
    ensures v in Below(span, t)
  {
    if v != span[|span| - 1] {
      BelowKeeps(span[..|span| - 1], t, v);
    }
  }

  function VotesFor(below: seq<Vote>, c: nat): nat {
    if below == [] then 0 else VotesFor(below[..|below| - 1], c) + if below[|below| - 1].cat == c then 1 else 0
  }

  /** The smallest distance among a cat's votes. */
  function NearestFor(below: seq<Vote>, c: nat): Option<real>
    requires forall i :: 0 <= i < |below| ==> below[i].distance.Finite?
  {
    if below == [] then None
    else
      var last := below[|below| - 1];
      var front := NearestFor(below[..|below| - 1], c);
      if last.cat == c && (front.None? || last.distance.d < front.value) then Some(last.distance.d) else front
  }

  lemma {:induction false} VotersHaveANearest(below: seq<Vote>, i: nat)
    requires i < |below| && forall j :: 0 <= j < |below| ==> below[j].distance.Finite?
    ensures VotesFor(below, below[i].cat) > 0
    ensures NearestFor(below, below[i].cat).Some? && NearestFor(below, below[i].cat).value <= below[i].distance.d
  {
    if i < |below| - 1 {
      VotersHaveANearest(below[..|below| - 1], i);
    }
  }

  /** The key `(-count, min distance)` the winner minimises. */
  predicate Beats(below: seq<Vote>, a: nat, b: nat)
    requires forall i :: 0 <= i < |below| ==> below[i].distance.Finite?
    requires NearestFor(below, a).Some? && NearestFor(below, b).Some?
  {
    VotesFor(below, a) > VotesFor(below, b)
    || (VotesFor(below, a) == VotesFor(below, b) && NearestFor(below, a).value < NearestFor(below, b).value)
  }

  /** The winner among the cats of the first `k` votes, in order of first appearance. */
  function Winner(below: seq<Vote>, k: nat): (i: nat)
    requires 0 < k <= |below| && forall i :: 0 <= i < |below| ==> below[i].distance.Finite?
    ensures i < k
    ensures NearestFor(below, below[i].cat).Some?
    ensures forall j :: 0 <= j < k ==>
            NearestFor(below, below[j].cat).Some? && !Beats(below, below[j].cat, below[i].cat)
    ensures forall j ::
              0 <= j < k && below[j].cat != below[i].cat &&
              (forall m :: 0 <= m < k && below[m].cat == below[i].cat ==> j < m) ==>
              Beats(below, below[i].cat, below[j].cat)
  {
    VotersHaveANearest(below, k - 1);
    if k == 1 then 0
    else
      var best := Winner(below, k - 1);
      if Beats(below, below[k - 1].cat, below[best].cat) then k - 1 else best
  }

  /** `_aggregate_identity`'s cat: nobody without a threshold or without a vote under it. */
  function Aggregate(span: seq<Vote>, threshold: Option<real>): Option<nat> {
    if threshold.None? then None
    else
      var below := Below(span, threshold.value);
      if below == [] then None else Some(below[Winner(below, |below|)].cat)
  }

  /** It meets the contract held-out scoring asks of its rule. */
  lemma AggregateNamesFromSpan()
    ensures NamesFromSpan(Aggregate)
  {
    forall span: seq<Vote>, t: Option<real> | Aggregate(span, t).Some?
      ensures exists k :: 0 <= k < |span| && span[k].cat == Aggregate(span, t).value
    {
      var below := Below(span, t.value);
      var v := below[Winner(below, |below|)];
      assert v in span;
    }
  }

  /** Somebody is named exactly if a vote is under the threshold. Then no cat in the span has more
      such votes, and among those with as many none has a nearer one than the winner has; a cat that
      equals it in both was seen later, its first vote comes after one of the winner's. */
  lemma AggregateIsThePlurality(span: seq<Vote>, t: real, v: Vote)
    ensures Aggregate(span, Some(t)).Some? <==>
              exists i :: 0 <= i < |span| && span[i].distance.Finite? && span[i].distance.d <= t
    ensures v in span && v.distance.Finite? && v.distance.d <= t ==>
              && Aggregate(span, Some(t)).Some?
              && var below, c := Below(span, t), Aggregate(span, Some(t)).value;
                 && !Ahead(below, v.cat, c)
                 && (v.cat != c && SeenBefore(below, v, c) ==> Ahead(below, c, v.cat))
  {
    NamedIff(span, t);
    if v in span && Counts(v, t) {
      BelowKeeps(span, t, v);
      var below := Below(span, t);
      var i :| 0 <= i < |below| && below[i] == v;
      var w := Winner(below, |below|);
      VotersHaveANearest(below, i);
      VotersHaveANearest(below, w);
      BeatsIsAhead(below, v.cat, below[w].cat);
      BeatsIsAhead(below, below[w].cat, v.cat);
    }
  }

  lemma NamedIff(span: seq<Vote>, t: real)
    ensures Below(span, t) != [] <==> exists i :: 0 <= i < |span| && Counts(span[i], t)
  {
    if Below(span, t) != [] {
      assert Below(span, t)[0] in span;
    }
    forall i | 0 <= i < |span| && Counts(span[i], t)
      ensures Below(span, t) != []
    {
      BelowKeeps(span, t, span[i]);
    }
  }

  /** Cat `a` comes before cat `b`: with more votes, or with as many and a vote nearer than all of
      the other's. */
  ghost predicate Ahead(votes: seq<Vote>, a: nat, b: nat) {
    || VotesFor(votes, a) > VotesFor(votes, b)
    || (VotesFor(votes, a) == VotesFor(votes, b) &&
        exists n, m :: IsNearest(votes, a, n) && IsNearest(votes, b, m) && n < m)
  }

  lemma BeatsIsAhead(below: seq<Vote>, a: nat, b: nat)
    requires forall i :: 0 <= i < |below| ==> below[i].distance.Finite?
    requires NearestFor(below, a).Some? && NearestFor(below, b).Some?
    ensures Beats(below, a, b) <==> Ahead(below, a, b)
  {
    NearestIsNearest(below, a);
    NearestIsNearest(below, b);
    if n, m :| IsNearest(below, a, n) && IsNearest(below, b, m) && n < m {
      OneNearest(below, a, n, NearestFor(below, a).value);
      OneNearest(below, b, m, NearestFor(below, b).value);
    }
  }

  lemma OneNearest(votes: seq<Vote>, c: nat, n: real, m: real)
    requires IsNearest(votes, c, n) && IsNearest(votes, c, m)
    ensures n == m
  {
  }

  /** `d` is the distance of one of the cat's votes, and none of them is nearer. */
  ghost predicate IsNearest(votes: seq<Vote>, c: nat, d: real) {
    && (exists i :: 0 <= i < |votes| && votes[i].cat == c && votes[i].distance == Finite(d))
    && forall i :: 0 <= i < |votes| && votes[i].cat == c && votes[i].distance.Finite? ==> d <= votes[i].distance.d
  }

  lemma {:induction false} NearestIsNearest(below: seq<Vote>, c: nat)
    requires forall i :: 0 <= i < |below| ==> below[i].distance.Finite?
    ensures NearestFor(below, c).Some? ==> IsNearest(below, c, NearestFor(below, c).value)
    ensures NearestFor(below, c).None? ==> forall i :: 0 <= i < |below| ==> below[i].cat != c
  {
    if below != [] {
      var front, last := below[..|below| - 1], below[|below| - 1];
      NearestIsNearest(front, c);
      if NearestFor(front, c).Some? {
        var i :| 0 <= i < |front| && front[i].cat == c && front[i].distance == Finite(NearestFor(front, c).value);
        assert below[i] == front[i];
      }
      forall i | 0 <= i < |below| && below[i].cat == c
        ensures NearestFor(below, c).Some? && NearestFor(below, c).value <= below[i].distance.d
      {
        if i < |front| {
          assert front[i] == below[i];
        }
      }
    }
  }

  /** The vote comes before every vote for cat `c`. */
  ghost predicate SeenBefore(votes: seq<Vote>, v: Vote, c: nat) {
    exists j :: 0 <= j < |votes| && votes[j] == v && forall m :: 0 <= m < |votes| && votes[m].cat == c ==> j < m
  }
}
