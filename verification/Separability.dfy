/** The two numbers read off the same-cat and different-cat pair distances: an AUC computed by rank
    instead of over all pairs, and a threshold searched over the same-cat distances only. */
module Separability {
  import opened Wrappers

  ghost predicate Sorted(s: seq<real>) {
    forall i, j :: 0 <= i < j < |s| ==> s[i] <= s[j]
  }

  // --- Counting ------------------------------------------------------------------------

  function CountLess(s: seq<real>, t: real): (r: nat)
    ensures r <= |s|
  {
    if s == [] then 0 else CountLess(s[..|s| - 1], t) + if s[|s| - 1] < t then 1 else 0
  }

  function CountAtMost(s: seq<real>, t: real): (r: nat)
    ensures r <= |s|
  {
    if s == [] then 0 else CountAtMost(s[..|s| - 1], t) + if s[|s| - 1] <= t then 1 else 0
  }

  // --- numpy's sort, searchsorted, unique and argmax -----------------------------------

  function Insert(s: seq<real>, x: real): (r: seq<real>)
    ensures multiset(r) == multiset(s) + multiset{x}
  {
    if s == [] || s[|s| - 1] <= x then s + [x]
    else
      assert s == s[..|s| - 1] + [s[|s| - 1]];
      Insert(s[..|s| - 1], x) + [s[|s| - 1]]
  }

  function Sort(s: seq<real>): (r: seq<real>)
    ensures multiset(r) == multiset(s)
  {
    if s == [] then []
    else
      assert s == s[..|s| - 1] + [s[|s| - 1]];
      Insert(Sort(s[..|s| - 1]), s[|s| - 1])
  }

  lemma {:induction false} InsertSorts(s: seq<real>, x: real)
    requires Sorted(s)
    ensures Sorted(Insert(s, x))
  {
    if s != [] && s[|s| - 1] > x {
      var front, last := s[..|s| - 1], s[|s| - 1];
      InsertSorts(front, x);
      forall i | 0 <= i < |Insert(front, x)|
        ensures Insert(front, x)[i] <= last
      {
        assert Insert(front, x)[i] in multiset(front) + multiset{x};
      }
    }
  }

  lemma {:induction false} SortSorts(s: seq<real>)
    ensures Sorted(Sort(s))
  {
    if s != [] {
      SortSorts(s[..|s| - 1]);
      InsertSorts(Sort(s[..|s| - 1]), s[|s| - 1]);
    }
  }

  lemma {:induction false} InsertCounts(s: seq<real>, x: real, t: real)
    ensures CountLess(Insert(s, x), t) == CountLess(s, t) + if x < t then 1 else 0
    ensures CountAtMost(Insert(s, x), t) == CountAtMost(s, t) + if x <= t then 1 else 0
  {
    if s != [] && s[|s| - 1] > x {
      var front := Insert(s[..|s| - 1], x);
      InsertCounts(s[..|s| - 1], x, t);
      assert (front + [s[|s| - 1]])[..|front|] == front;
    } else {
      assert (s + [x])[..|s|] == s;
    }
  }

  lemma {:induction false} SortCounts(s: seq<real>, t: real)
    ensures CountLess(Sort(s), t) == CountLess(s, t) && CountAtMost(Sort(s), t) == CountAtMost(s, t)
  {
    if s != [] {
      SortCounts(s[..|s| - 1], t);
      InsertCounts(Sort(s[..|s| - 1]), s[|s| - 1], t);
    }
  }

  /** `searchsorted(sorted, t, side)`: the insertion point before (left) or after (right) the values
      equal to `t`, by bisection. */
  function Bisect(s: seq<real>, t: real, right: bool, lo: nat, hi: nat): (r: nat)
    requires lo <= hi <= |s|
    ensures lo <= r <= hi
    decreases hi - lo
  {
    if lo == hi then lo
    else
      var mid := (lo + hi) / 2;
      if s[mid] < t || (right && s[mid] == t) then Bisect(s, t, right, mid + 1, hi) else Bisect(s, t, right, lo, mid)
  }

  function Left(s: seq<real>, t: real): nat { Bisect(s, t, false, 0, |s|) }

  function Right(s: seq<real>, t: real): nat { Bisect(s, t, true, 0, |s|) }

  lemma {:induction false} BisectSplits(s: seq<real>, t: real, right: bool, lo: nat, hi: nat)
    requires Sorted(s) && lo <= hi <= |s|
    requires forall i :: 0 <= i < lo ==> s[i] < t || (right && s[i] == t)
    requires forall i :: hi <= i < |s| ==> !(s[i] < t || (right && s[i] == t))
    ensures forall i :: 0 <= i < |s| ==> (i < Bisect(s, t, right, lo, hi) <==> s[i] < t || (right && s[i] == t))
    decreases hi - lo
  {
    if lo < hi {
      var mid := (lo + hi) / 2;
      if s[mid] < t || (right && s[mid] == t) {
        BisectSplits(s, t, right, mid + 1, hi);
      } else {
        BisectSplits(s, t, right, lo, mid);
      }
    }
  }

  lemma {:induction false} CountOfAPrefix(s: seq<real>, t: real, n: nat, m: nat)
    requires n <= |s| && (forall i :: 0 <= i < |s| ==> (i < n <==> s[i] < t))
    requires m <= |s| && (forall i :: 0 <= i < |s| ==> (i < m <==> s[i] <= t))
    ensures CountLess(s, t) == n && CountAtMost(s, t) == m
  {
    if s != [] {
      var k := |s| - 1;
      CountOfAPrefix(s[..k], t, if n <= k then n else k, if m <= k then m else k);
    }
  }

  /** Searching the sorted distances counts the unsorted ones. */
  lemma SearchCounts(s: seq<real>, t: real)
    ensures Left(Sort(s), t) == CountLess(s, t) && Right(Sort(s), t) == CountAtMost(s, t)
  {
    var sorted := Sort(s);
    SortSorts(s);
    BisectSplits(sorted, t, false, 0, |sorted|);
    BisectSplits(sorted, t, true, 0, |sorted|);
    CountOfAPrefix(sorted, t, Left(sorted, t), Right(sorted, t));
    SortCounts(s, t);
  }

  // --- The AUC -------------------------------------------------------------------------

  /** Twice what one same-cat distance earns against the sorted different-cat ones. */
  function RankScore(diffSorted: seq<real>, s: real): int {
    2 * (|diffSorted| - Right(diffSorted, s)) + (Right(diffSorted, s) - Left(diffSorted, s))
  }

  function RankSum(same: seq<real>, diffSorted: seq<real>): int {
    if same == [] then 0 else RankSum(same[..|same| - 1], diffSorted) + RankScore(diffSorted, same[|same| - 1])
  }

  /** `_pairwise_auc`. */
  function RankAuc(same: seq<real>, diff: seq<real>): Option<real> {
    if same == [] || diff == [] then None
    else Some(RankSum(same, Sort(diff)) as real / (2 * |same| * |diff|) as real)
  }

  /** Twice what one pair is worth: the same-cat distance below, equal, or above. */
  function PairWorth(s: real, d: real): nat {
    if s < d then 2 else if s == d then 1 else 0
  }

  function PairsOf(s: real, diff: seq<real>): nat {
    if diff == [] then 0 else PairsOf(s, diff[..|diff| - 1]) + PairWorth(s, diff[|diff| - 1])
  }

  /** The sum over all pairs, in no particular order of either side. */
  function AllPairs(same: seq<real>, diff: seq<real>): nat {
    if same == [] then 0 else AllPairs(same[..|same| - 1], diff) + PairsOf(same[|same| - 1], diff)
  }

  lemma {:induction false} PairsByCounts(s: real, diff: seq<real>)
    ensures PairsOf(s, diff) == 2 * (|diff| - CountAtMost(diff, s)) + (CountAtMost(diff, s) - CountLess(diff, s))
  {
    if diff != [] {
      PairsByCounts(s, diff[..|diff| - 1]);
    }
  }

  lemma {:induction false} RankSumIsAllPairs(same: seq<real>, diff: seq<real>)
    ensures RankSum(same, Sort(diff)) == AllPairs(same, diff)
  {
    if same != [] {
      var s := same[|same| - 1];
      RankSumIsAllPairs(same[..|same| - 1], diff);
      PairsByCounts(s, diff);
      SearchCounts(diff, s);
      SortLength(diff);
    }
  }

  /** The rank formula is the probability over all pairs that a same-cat distance is the smaller,
      ties counting one half, for every two multisets of distances. */
  lemma RankAucIsAllPairs(same: seq<real>, diff: seq<real>)
    ensures RankAuc(same, diff) == if same == [] || diff == [] then None
                                   else Some(AllPairs(same, diff) as real / (2 * |same| * |diff|) as real)
  {
    RankSumIsAllPairs(same, diff);
  }

  /** Swapping the two sides complements it: what one side wins the other loses, ties split. */
  lemma {:induction false} AllPairsComplement(same: seq<real>, diff: seq<real>)
    ensures AllPairs(same, diff) + AllPairs(diff, same) == 2 * |same| * |diff|
  {
    if same == [] {
      NoPairs(diff);
    } else {
      var front, s := same[..|same| - 1], same[|same| - 1];
      AllPairsComplement(front, diff);
      assert same == front + [s];
      AddColumn(diff, front, s);
      assert 2 * |same| * |diff| == 2 * |front| * |diff| + 2 * |diff|;
    }
  }

  lemma AucComplement(same: seq<real>, diff: seq<real>)
    requires same != [] && diff != []
    ensures RankAuc(same, diff).value + RankAuc(diff, same).value == 1.0
  {
    AllPairsComplement(same, diff);
    var pairs := Pairs(|same|, |diff|);
    AucOver(same, diff, pairs);
    AucOver(diff, same, pairs);
    PartsOfOne(AllPairs(same, diff), AllPairs(diff, same), pairs);
  }

  function Pairs(n: nat, m: nat): (p: nat)
    ensures p == 2 * n * m == 2 * m * n
    ensures n > 0 && m > 0 ==> p > 0
  {
    2 * n * m
  }

  lemma AucOver(same: seq<real>, diff: seq<real>, pairs: nat)
    requires same != [] && diff != [] && pairs == 2 * |same| * |diff|
    ensures RankAuc(same, diff).value == AllPairs(same, diff) as real / pairs as real
  {
    RankSumIsAllPairs(same, diff);
  }

  lemma PartsOfOne(a: nat, b: nat, p: nat)
    requires a + b == p && p > 0
    ensures a as real / p as real + b as real / p as real == 1.0
  {
    assert a as real / p as real + b as real / p as real == (a as real + b as real) / p as real;
  }

  lemma {:induction false} NoPairs(diff: seq<real>)
    ensures AllPairs(diff, []) == 0
  {
    if diff != [] {
      NoPairs(diff[..|diff| - 1]);
    }
  }

  lemma {:induction false} AddColumn(diff: seq<real>, front: seq<real>, s: real)
    ensures AllPairs(diff, front + [s]) + PairsOf(s, diff) == AllPairs(diff, front) + 2 * |diff|
  {
    if diff != [] {
      AddColumn(diff[..|diff| - 1], front, s);
      assert (front + [s])[..|front|] == front;
    }
  }

  // --- The threshold -------------------------------------------------------------------

  /** `unique` of a sorted sequence. */
  function Unique(sorted: seq<real>): seq<real> {
    if sorted == [] then []
    else
      var n := |sorted| - 1;
      Unique(sorted[..n]) + if n > 0 && sorted[n - 1] == sorted[n] then [] else [sorted[n]]
  }

  ghost predicate Increasing(s: seq<real>) {
    forall i, j :: 0 <= i < j < |s| ==> s[i] < s[j]
  }

  lemma {:induction false} UniqueIsIncreasing(sorted: seq<real>)
    requires Sorted(sorted)
    ensures Increasing(Unique(sorted))
    ensures sorted != [] ==> Unique(sorted) != [] && Unique(sorted)[|Unique(sorted)| - 1] == sorted[|sorted| - 1]
  {
    if sorted != [] {
      UniqueIsIncreasing(sorted[..|sorted| - 1]);
    }
  }

  lemma {:induction false} UniqueKeepsValues(sorted: seq<real>, v: real)
    ensures v in Unique(sorted) <==> v in sorted
  {
    if sorted != [] {
      var n := |sorted| - 1;
      UniqueKeepsValues(sorted[..n], v);
      assert sorted == sorted[..n] + [sorted[n]];
      if n > 0 && sorted[n - 1] == sorted[n] {
        assert sorted[..n][n - 1] == sorted[n];
      }
    }
  }

  /** The candidates are the distances themselves, each once, ascending. */
  lemma CandidateIff(s: seq<real>, v: real)
    ensures v in Unique(Sort(s)) <==> v in s
  {
    UniqueKeepsValues(Sort(s), v);
    assert v in Sort(s) <==> v in multiset(Sort(s));
    assert v in s <==> v in multiset(s);
  }

  function Half(same: seq<real>, tp: nat, diff: seq<real>, tn: nat): real
    requires same != [] && diff != []
  {
    0.5 * (tp as real / |same| as real + tn as real / |diff| as real)
  }

  /** Balanced accuracy of calling a pair "same" if its distance is at most `t`. */
  function Balanced(same: seq<real>, diff: seq<real>, t: real): real
    requires same != [] && diff != []
  {
    Half(same, CountAtMost(same, t), diff, |diff| - CountAtMost(diff, t))
  }

  /** `argmax`: the first index of the largest. */
  function Argmax(s: seq<real>): (r: nat)
    requires s != []
    ensures r < |s|
    ensures forall i :: 0 <= i < |s| ==> s[i] <= s[r]
    ensures forall i :: 0 <= i < r ==> s[i] < s[r]
  {
    if |s| == 1 then 0
    else
      var front := Argmax(s[..|s| - 1]);
      if s[|s| - 1] > s[front] then |s| - 1 else front
  }

  /** Balanced accuracy of a candidate by search, as the sweep computes it. */
  function Searched(same: seq<real>, diff: seq<real>, t: real): real
    requires same != [] && diff != []
  {
    SortLength(diff);
    Half(same, Right(Sort(same), t), diff, |diff| - Right(Sort(diff), t))
  }

  lemma SortLength(s: seq<real>)
    ensures |Sort(s)| == |s|
  {
    assert |Sort(s)| == |multiset(Sort(s))| == |multiset(s)|;
  }

  lemma SearchedIsBalanced(same: seq<real>, diff: seq<real>, t: real)
    requires same != [] && diff != []
    ensures Searched(same, diff, t) == Balanced(same, diff, t)
  {
    SearchCounts(same, t);
    SearchCounts(diff, t);
  }

  /** The vectorised sweep: every candidate's balanced accuracy, then the first best. */
  function Sweep(cand: seq<real>, same: seq<real>, diff: seq<real>): (real, real)
    requires cand != [] && same != [] && diff != []
  {
    var bal := seq(|cand|, i requires 0 <= i < |cand| => Searched(same, diff, cand[i]));
    (cand[Argmax(bal)], bal[Argmax(bal)])
  }

  lemma UniqueIsNotEmpty(s: seq<real>)
    requires s != []
    ensures Unique(Sort(s)) != []
  {
    CandidateIff(s, s[0]);
  }

  /** `_best_threshold`. */
  function BestThreshold(same: seq<real>, diff: seq<real>): Option<(real, real)> {
    if same == [] || diff == [] then None
    else
      UniqueIsNotEmpty(same);
      Some(Sweep(Unique(Sort(same)), same, diff))
  }

  /** The same search over every observed distance. */
  function FullSearch(same: seq<real>, diff: seq<real>): Option<(real, real)> {
    if same == [] || diff == [] then None
    else
      UniqueIsNotEmpty(same + diff);
      Some(Sweep(Unique(Sort(same + diff)), same, diff))
  }

  /** A sweep returns the first of the values it was given that is best among them. */
  ghost predicate FirstBest(values: seq<real>, same: seq<real>, diff: seq<real>, r: (real, real))
    requires same != [] && diff != []
  {
    && r.0 in values && r.1 == Balanced(same, diff, r.0)
    && forall i :: 0 <= i < |values| ==> NoBetter(same, diff, values[i], r)
  }

  ghost predicate NoBetter(same: seq<real>, diff: seq<real>, v: real, r: (real, real))
    requires same != [] && diff != []
  {
    if v < r.0 then Balanced(same, diff, v) < r.1 else Balanced(same, diff, v) <= r.1
  }

  lemma SweepIsFirstBest(values: seq<real>, same: seq<real>, diff: seq<real>)
    requires values != [] && same != [] && diff != []
    ensures Unique(Sort(values)) != [] && FirstBest(values, same, diff, Sweep(Unique(Sort(values)), same, diff))
  {
    UniqueIsNotEmpty(values);
    var cand := Unique(Sort(values));
    var r := Sweep(cand, same, diff);
    CandidateIff(values, r.0);
    SearchedIsBalanced(same, diff, r.0);
    forall k | 0 <= k < |values|
      ensures NoBetter(same, diff, values[k], r)
    {
      CandidateIff(values, values[k]);
      SearchedIsBalanced(same, diff, values[k]);
      SortSorts(values);
      UniqueIsIncreasing(Sort(values));
      SweepBeats(cand, same, diff, values[k]);
    }
  }

  lemma SweepBeats(cand: seq<real>, same: seq<real>, diff: seq<real>, v: real)
    requires same != [] && diff != [] && Increasing(cand) && v in cand
    ensures var r := Sweep(cand, same, diff);
            if v < r.0 then Searched(same, diff, v) < r.1 else Searched(same, diff, v) <= r.1
  {
    var bal := seq(|cand|, i requires 0 <= i < |cand| => Searched(same, diff, cand[i]));
    var i :| 0 <= i < |cand| && cand[i] == v;
    ArgmaxBeats(cand, bal, i);
  }

  lemma ArgmaxBeats(cand: seq<real>, bal: seq<real>, i: nat)
    requires |bal| == |cand| && Increasing(cand) && i < |cand|
    ensures if cand[i] < cand[Argmax(bal)] then bal[i] < bal[Argmax(bal)] else bal[i] <= bal[Argmax(bal)]
  {
  }

  // --- Nothing is lost by leaving the different-cat distances out ------------------------

  lemma {:induction false} CountsGrow(s: seq<real>, t: real, u: real)
    requires t <= u
    ensures CountAtMost(s, t) <= CountAtMost(s, u)
  {
    if s != [] {
      CountsGrow(s[..|s| - 1], t, u);
    }
  }

  lemma {:induction false} CountsBetween(s: seq<real>, t: real, u: real)
    requires t <= u && forall i :: 0 <= i < |s| && s[i] <= u ==> s[i] <= t
    ensures CountAtMost(s, t) == CountAtMost(s, u)
  {
    if s != [] {
      CountsBetween(s[..|s| - 1], t, u);
    }
  }

  lemma {:induction false} CountsNone(s: seq<real>, t: real, i: nat)
    requires i < |s|
    ensures s[i] <= t ==> CountAtMost(s, t) > 0
    ensures s[i] > t ==> CountAtMost(s, t) < |s|
  {
    if i < |s| - 1 {
      CountsNone(s[..|s| - 1], t, i);
    }
  }

  lemma {:induction false} CountsAll(s: seq<real>, t: real)
    requires forall i :: 0 <= i < |s| ==> s[i] <= t
    ensures CountAtMost(s, t) == |s|
  {
    if s != [] {
      CountsAll(s[..|s| - 1], t);
    }
  }

  lemma HalfGrows(same: seq<real>, tp: nat, diff: seq<real>, tn: nat, tp': nat, tn': nat)
    requires same != [] && diff != [] && tp <= tp' && tn <= tn'
    ensures Half(same, tp, diff, tn) <= Half(same, tp', diff, tn')
  {
  }

  /** A threshold at or above some same-cat distance does no better than the largest such distance. */
  lemma SameValueDominates(same: seq<real>, diff: seq<real>, t: real) returns (k: nat)
    requires same != [] && diff != [] && CountAtMost(same, t) > 0
    ensures k < |same| && same[k] <= t && Balanced(same, diff, t) <= Balanced(same, diff, same[k])
  {
    k := LargestUpTo(same, t);
    var s := same[k];
    CountsBetween(same, s, t);
    CountsGrow(diff, s, t);
    HalfGrows(same, CountAtMost(same, t), diff, |diff| - CountAtMost(diff, t), CountAtMost(same, s),
              |diff| - CountAtMost(diff, s));
  }

  lemma {:induction false} LargestUpTo(same: seq<real>, t: real) returns (k: nat)
    requires CountAtMost(same, t) > 0
    ensures k < |same| && same[k] <= t && forall i :: 0 <= i < |same| && same[i] <= t ==> same[i] <= same[k]
  {
    var front, last := same[..|same| - 1], same[|same| - 1];
    k := |same| - 1;
    if CountAtMost(front, t) > 0 {
      var j := LargestUpTo(front, t);
      assert forall i :: 0 <= i < |front| && same[i] <= t ==> front[i] <= front[j];
      if last > t || front[j] > last {
        k := j;
      }
    } else {
      forall i | 0 <= i < |front| ensures front[i] > t { CountsNone(front, t, i); }
      assert forall i :: 0 <= i < |front| ==> same[i] == front[i];
    }
  }

  /** Below every same-cat distance one half is the most there is, and less than one half if some
      different-cat distance is also not above the threshold. */
  lemma BelowAllIsHalf(same: seq<real>, diff: seq<real>, t: real)
    requires same != [] && diff != [] && CountAtMost(same, t) == 0
    ensures Balanced(same, diff, t) <= 0.5
    ensures Balanced(same, diff, t) == 0.5 <==> CountAtMost(diff, t) == 0
  {
    var m, tn := |diff| as real, (|diff| - CountAtMost(diff, t)) as real;
    AtMostWhole(tn, m);
  }

  lemma AtMostWhole(part: real, whole: real)
    requires whole > 0.0 && part <= whole
    ensures part / whole <= 1.0
    ensures part / whole == 1.0 <==> part == whole
  {
    assert part / whole * whole == part;
  }

  /** And the largest same-cat distance reaches one half. */
  lemma LargestReachesHalf(same: seq<real>, diff: seq<real>) returns (k: nat)
    requires same != [] && diff != []
    ensures k < |same| && Balanced(same, diff, same[k]) >= 0.5
  {
    k := Largest(same);
    CountsAll(same, same[k]);
    var n := |same| as real;
    assert n / n == 1.0;
    var tn := |diff| - CountAtMost(diff, same[k]);
    assert tn as real / |diff| as real >= 0.0;
  }

  lemma {:induction false} Largest(s: seq<real>) returns (k: nat)
    requires s != []
    ensures k < |s| && forall i :: 0 <= i < |s| ==> s[i] <= s[k]
  {
    k := |s| - 1;
    if |s| > 1 {
      var j := Largest(s[..|s| - 1]);
      if s[j] > s[k] { k := j; }
    }
  }

  /** Every threshold is beaten or equalled by some same-cat distance not above it, or is at most one
      half, and then only the thresholds below every distance reach one half. */
  lemma Dominated(same: seq<real>, diff: seq<real>, t: real, r: (real, real))
    requires same != [] && diff != [] && FirstBest(same, same, diff, r)
    ensures Balanced(same, diff, t) <= r.1
    ensures t < r.0 ==> (Balanced(same, diff, t) == r.1 <==>
            r.1 == 0.5 && CountAtMost(same, t) == 0 && CountAtMost(diff, t) == 0)
  {
    if CountAtMost(same, t) > 0 {
      var k := SameValueDominates(same, diff, t);
      assert NoBetter(same, diff, same[k], r);
    } else {
      BelowAllIsHalf(same, diff, t);
      var k := LargestReachesHalf(same, diff);
      assert NoBetter(same, diff, same[k], r);
    }
  }

  /** The threshold found over the same-cat distances is the best of all real thresholds, and no
      smaller one is as good, except those below every distance there is, and these only when one
      half is the best there is. */
  lemma BestThresholdIsGlobal(same: seq<real>, diff: seq<real>, t: real)
    requires same != [] && diff != []
    ensures BestThreshold(same, diff).Some?
    ensures var (best, accuracy) := BestThreshold(same, diff).value;
            && best in same && accuracy == Balanced(same, diff, best)
            && Balanced(same, diff, t) <= accuracy
            && (t < best ==> (Balanced(same, diff, t) == accuracy
                              <==> accuracy == 0.5 && CountAtMost(same, t) == 0 && CountAtMost(diff, t) == 0))
  {
    SweepIsFirstBest(same, same, diff);
    Dominated(same, diff, t, BestThreshold(same, diff).value);
  }

  /** So leaving out the different-cat distances changes neither the threshold nor the accuracy, ties
      included and on every input: also when the two sides are identical and every threshold is worth
      one half. */
  lemma SameCandidatesSuffice(same: seq<real>, diff: seq<real>)
    ensures BestThreshold(same, diff) == FullSearch(same, diff)
  {
    if same != [] && diff != [] {
      SweepIsFirstBest(same, same, diff);
      SweepIsFirstBest(same + diff, same, diff);
      BestsAgree(same, diff, BestThreshold(same, diff).value, FullSearch(same, diff).value);
    }
  }

  lemma BestsAgree(same: seq<real>, diff: seq<real>, a: (real, real), b: (real, real))
    requires same != [] && diff != []
    requires FirstBest(same, same, diff, a) && FirstBest(same + diff, same, diff, b)
    ensures a == b
  {
    Dominated(same, diff, b.0, a);
    var i :| 0 <= i < |same| && same[i] == a.0;
    assert NoBetter(same, diff, (same + diff)[i], b);
    var j :| 0 <= j < |same + diff| && (same + diff)[j] == b.0;
    if j < |same| {
      CountsNone(same, b.0, j);
    } else {
      CountsNone(diff, b.0, j - |same|);
    }
  }
}
