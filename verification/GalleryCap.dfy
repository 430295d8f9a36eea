/** At most so many crops per cat for enrolment: whole grade tiers, best first, while they fit, and
    an even stride over time through the tier that does not. */
module GalleryCap {
  import opened Wrappers

  /** Any other grade, or none, sorts last. */
  datatype Quality = Representative | Ok | Poor | Ungraded

  /** A labelled crop; `id` tells crops apart, `frame` is its place in time. */
  datatype Row = Row(id: nat, cat: int, quality: Quality, frame: int)

  const RANKS: nat := 4

  /** `_GRADE_RANK`. */
  function Rank(q: Quality): (r: nat)
    ensures r < RANKS
  {
    match q
    case Representative => 0
    case Ok => 1
    case Poor => 2
    case Ungraded => 3
  }

  /** The order of preference for enrolment. */
  predicate Better(a: Quality, b: Quality) {
    match a
    case Representative => b != Representative
    case Ok => b == Poor || b == Ungraded
    case Poor => b == Ungraded
    case Ungraded => false
  }

  /** The ranks are the order of preference. */
  lemma RanksAreThePreference(a: Quality, b: Quality)
    ensures Better(a, b) <==> Rank(a) < Rank(b)
  {
  }

  // --- Grouping ------------------------------------------------------------------------

  function RowsOf(labels: seq<Row>, c: int): (r: seq<Row>)
    ensures forall i :: 0 <= i < |r| ==> r[i].cat == c
  {
    if labels == [] then []
    else
      var last := labels[|labels| - 1];
      RowsOf(labels[..|labels| - 1], c) + if last.cat == c then [last] else []
  }

  function Tier(rows: seq<Row>, rank: nat): (r: seq<Row>)
    ensures forall i :: 0 <= i < |r| ==> Rank(r[i].quality) == rank
  {
    if rows == [] then []
    else
      var last := rows[|rows| - 1];
      Tier(rows[..|rows| - 1], rank) + if Rank(last.quality) == rank then [last] else []
  }

  function InsertCat(cats: seq<int>, c: int): seq<int> {
    if cats == [] then [c]
    else
      var last := cats[|cats| - 1];
      if last < c then cats + [c] else if last == c then cats else InsertCat(cats[..|cats| - 1], c) + [last]
  }

  /** `sorted(by_cat)`: the cats there are, once each, ascending. */
  function CatsOf(labels: seq<Row>): seq<int> {
    if labels == [] then [] else InsertCat(CatsOf(labels[..|labels| - 1]), labels[|labels| - 1].cat)
  }

  ghost predicate Ascending(cats: seq<int>) {
    forall i, j :: 0 <= i < j < |cats| ==> cats[i] < cats[j]
  }

  lemma {:induction false} InsertCatAscends(cats: seq<int>, c: int)
    requires Ascending(cats)
    ensures Ascending(InsertCat(cats, c))
    ensures forall k :: k in InsertCat(cats, c) <==> k in cats || k == c
  {
    if cats != [] && cats[|cats| - 1] > c {
      var front, last := cats[..|cats| - 1], cats[|cats| - 1];
      assert cats == front + [last];
      InsertCatAscends(front, c);
      forall i | 0 <= i < |InsertCat(front, c)|
        ensures InsertCat(front, c)[i] < last
      {
        assert InsertCat(front, c)[i] in front || InsertCat(front, c)[i] == c;
      }
    }
  }

  lemma {:induction false} CatsOfAreTheCats(labels: seq<Row>)
    ensures Ascending(CatsOf(labels))
    ensures forall c :: c in CatsOf(labels) <==> RowsOf(labels, c) != []
  {
    if labels != [] {
      CatsOfAreTheCats(labels[..|labels| - 1]);
      InsertCatAscends(CatsOf(labels[..|labels| - 1]), labels[|labels| - 1].cat);
    }
  }

  // --- Ordering by time ----------------------------------------------------------------

  function InsertByFrame(rows: seq<Row>, r: Row): seq<Row> {
    if rows == [] || rows[|rows| - 1].frame <= r.frame then rows + [r]
    else InsertByFrame(rows[..|rows| - 1], r) + [rows[|rows| - 1]]
  }

  /** `sort(key=src_frame_id)`, stable. */
  function ByFrame(rows: seq<Row>): seq<Row> {
    if rows == [] then [] else InsertByFrame(ByFrame(rows[..|rows| - 1]), rows[|rows| - 1])
  }

  lemma {:induction false} InsertKeepsAll(rows: seq<Row>, r: Row)
    ensures multiset(InsertByFrame(rows, r)) == multiset(rows) + multiset{r}
  {
    if rows != [] && rows[|rows| - 1].frame > r.frame {
      InsertKeepsAll(rows[..|rows| - 1], r);
      assert rows == rows[..|rows| - 1] + [rows[|rows| - 1]];
    }
  }

  lemma {:induction false} ByFrameKeepsAll(rows: seq<Row>)
    ensures multiset(ByFrame(rows)) == multiset(rows)
  {
    if rows != [] {
      ByFrameKeepsAll(rows[..|rows| - 1]);
      InsertKeepsAll(ByFrame(rows[..|rows| - 1]), rows[|rows| - 1]);
      assert rows == rows[..|rows| - 1] + [rows[|rows| - 1]];
    }
  }

  ghost predicate InTime(rows: seq<Row>) {
    forall i, j :: 0 <= i < j < |rows| ==> rows[i].frame <= rows[j].frame
  }

  lemma {:induction false} InsertKeepsTime(rows: seq<Row>, r: Row)
    requires InTime(rows)
    ensures InTime(InsertByFrame(rows, r))
  {
    if rows != [] && rows[|rows| - 1].frame > r.frame {
      var front, last := rows[..|rows| - 1], rows[|rows| - 1];
      InsertKeepsTime(front, r);
      InsertKeepsAll(front, r);
      forall i | 0 <= i < |InsertByFrame(front, r)|
        ensures InsertByFrame(front, r)[i].frame <= last.frame
      {
        assert InsertByFrame(front, r)[i] in multiset(InsertByFrame(front, r));
        assert InsertByFrame(front, r)[i] in multiset(front) + multiset{r};
      }
    }
  }

  lemma {:induction false} ByFrameIsInTime(rows: seq<Row>)
    ensures InTime(ByFrame(rows))
  {
    if rows != [] {
      ByFrameIsInTime(rows[..|rows| - 1]);
      InsertKeepsTime(ByFrame(rows[..|rows| - 1]), rows[|rows| - 1]);
    }
  }

  // --- The stride ----------------------------------------------------------------------

  /** `min(int(i * step), len(tier) - 1)` with `step = len / budget`, in exact arithmetic. */
  function Pick(len: nat, budget: nat, i: nat): (r: nat)
    requires 0 < budget
    requires len > 0
    ensures r < len
  {
    if i * len / budget < len - 1 then i * len / budget else len - 1
  }

  function Stride(tier: seq<Row>, budget: nat): (r: seq<Row>)
    requires tier != []
    ensures |r| == budget
  {
    seq(budget, i requires 0 <= i < budget => tier[Pick(|tier|, budget, i)])
  }

  /** The picks of an overflowing tier start at the front, never meet the clamp, and step by the
      tier's length over the budget rounded down or up: strictly forward, evenly spread. */
  lemma StrideIsEven(len: nat, budget: nat, i: nat)
    requires 0 < budget < len && i < budget
    ensures Pick(len, budget, 0) == 0
    ensures Pick(len, budget, i) == i * len / budget
    ensures i + 1 < budget ==>
              var gap := Pick(len, budget, i + 1) - Pick(len, budget, i);
              gap == len / budget || gap == (len + budget - 1) / budget
    ensures i + 1 < budget ==> Pick(len, budget, i) < Pick(len, budget, i + 1)
  {
    PickIsFloor(len, budget, i);
    PickIsFloor(len, budget, 0);
    if i + 1 < budget {
      PickIsFloor(len, budget, i + 1);
      GapIsFloorOrCeiling(len, budget, i);
    }
  }

  lemma PickIsFloor(len: nat, budget: nat, i: nat)
    requires 0 < budget < len && i < budget
    ensures Pick(len, budget, i) == i * len / budget
  {
    var n, q := i * len, i * len / budget;
    Distribute(i, budget - i, len);
    ProductGrows(budget - i, len);
    Quotient(n, budget, q, n % budget);
    Distribute(q - len, len, budget);
    ProductGrows(q - len, budget);
  }

  lemma GapIsFloorOrCeiling(len: nat, budget: nat, i: nat)
    requires 0 < budget < len
    ensures var gap := (i + 1) * len / budget - i * len / budget;
            (gap == len / budget || gap == (len + budget - 1) / budget) && gap > 0
  {
    Distribute(i, 1, len);
    GapOf(i * len, len, budget);
  }

  lemma GapOf(n: nat, len: nat, d: nat)
    requires 0 < d < len
    ensures var gap := (n + len) / d - n / d; (gap == len / d || gap == (len + d - 1) / d) && gap > 0
  {
    AtLeastOne(len, d);
    if n % d + len % d < d {
      NoCarry(n, len, d);
    } else {
      Carry(n, len, d);
    }
  }

  lemma NoCarry(n: nat, m: nat, d: nat)
    requires 0 < d && n % d + m % d < d
    ensures (n + m) / d == n / d + m / d
  {
    Distribute(n / d, m / d, d);
    Quotient(n + m, d, n / d + m / d, n % d + m % d);
  }

  lemma Carry(n: nat, m: nat, d: nat)
    requires 0 < d && n % d + m % d >= d
    ensures (n + m) / d == n / d + m / d + 1
    ensures (m + d - 1) / d == m / d + 1
  {
    Distribute(n / d, m / d, d);
    Distribute(n / d + m / d, 1, d);
    Quotient(n + m, d, n / d + m / d + 1, n % d + m % d - d);
    Distribute(m / d, 1, d);
    Quotient(m + d - 1, d, m / d + 1, m % d - 1);
  }

  lemma AtLeastOne(n: nat, d: nat)
    requires 0 < d <= n
    ensures n / d > 0
  {
  }

  lemma Distribute(a: int, b: int, c: int)
    ensures (a + b) * c == a * c + b * c
  {
  }

  lemma ProductGrows(k: int, d: nat)
    requires d > 0
    ensures k >= 1 ==> k * d >= d
    ensures k >= 0 ==> k * d >= 0
    ensures k <= -1 ==> k * d + d <= 0
  {
  }

  lemma Quotient(n: nat, d: nat, q: nat, r: nat)
    requires 0 < d && n == q * d + r && r < d
    ensures n / d == q
  {
    var k := q - n / d;
    Distribute(k, n / d, d);
    ProductGrows(k, d);
  }

  // --- One cat -------------------------------------------------------------------------

  /** The grade tiers, best first, each in time order. */
  function Tiers(rows: seq<Row>): (r: seq<seq<Row>>)
    ensures |r| == RANKS
  {
    seq(RANKS, k requires 0 <= k < RANKS => ByFrame(Tier(rows, k)))
  }

  /** Spend the budget tier by tier. */
  function Spend(tiers: seq<seq<Row>>, budget: nat): seq<Row> {
    if tiers == [] || budget == 0 then []
    else if |tiers[0]| <= budget then tiers[0] + Spend(tiers[1..], budget - |tiers[0]|)
    else Stride(tiers[0], budget)
  }

  /** What is kept of one cat's crops. */
  function KeepOf(rows: seq<Row>, cap: nat): seq<Row> {
    if |rows| <= cap then rows else ByFrame(Spend(Tiers(rows), cap))
  }

  function Concat(tiers: seq<seq<Row>>): seq<Row> {
    if tiers == [] then [] else tiers[0] + Concat(tiers[1..])
  }

  lemma {:induction false} SpendFillsTheBudget(tiers: seq<seq<Row>>, budget: nat)
    ensures |Spend(tiers, budget)| == if |Concat(tiers)| <= budget then |Concat(tiers)| else budget
  {
    if tiers != [] && budget > 0 && |tiers[0]| <= budget {
      SpendFillsTheBudget(tiers[1..], budget - |tiers[0]|);
    }
  }

  lemma {:induction false} TierCounts(rows: seq<Row>, k: nat, x: Row)
    ensures multiset(Tier(rows, k))[x] == if Rank(x.quality) == k then multiset(rows)[x] else 0
  {
    if rows != [] {
      var front, last := rows[..|rows| - 1], rows[|rows| - 1];
      TierCounts(front, k, x);
      assert rows == front + [last];
      assert multiset(rows)[x] == multiset(front)[x] + multiset([last])[x];
    }
  }

  lemma ConcatOfFour(t: seq<seq<Row>>)
    requires |t| == 4
    ensures Concat(t) == t[0] + (t[1] + (t[2] + t[3]))
  {
    var b, c, d := t[1..], t[1..][1..], t[1..][1..][1..];
    assert b[0] == t[1] && c[0] == t[2] && d[0] == t[3];
    assert d[1..] == [];
    assert Concat(d) == t[3] + Concat(d[1..]) == t[3];
    assert Concat(c) == t[2] + Concat(d);
    assert Concat(b) == t[1] + Concat(c);
  }

  /** The tiers hold every crop of the cat once. */
  lemma TiersHoldAll(rows: seq<Row>)
    ensures multiset(Concat(Tiers(rows))) == multiset(rows) && |Concat(Tiers(rows))| == |rows|
  {
    var t := Tiers(rows);
    ConcatOfFour(t);
    forall k: nat | k < RANKS
      ensures multiset(t[k]) == multiset(Tier(rows, k))
    {
      ByFrameKeepsAll(Tier(rows, k));
    }
    forall x
      ensures multiset(Concat(t))[x] == multiset(rows)[x]
    {
      TierCounts(rows, 0, x);
      TierCounts(rows, 1, x);
      TierCounts(rows, 2, x);
      TierCounts(rows, 3, x);
      CountsOfFour(t[0], t[1], t[2], t[3], x);
    }
    SameLength(Concat(t), rows);
  }

  lemma CountsOfFour(a: seq<Row>, b: seq<Row>, c: seq<Row>, d: seq<Row>, x: Row)
    ensures multiset(a + (b + (c + d)))[x] == multiset(a)[x] + multiset(b)[x] + multiset(c)[x] + multiset(d)[x]
  {
  }

  lemma SameLength(a: seq<Row>, b: seq<Row>)
    requires multiset(a) == multiset(b)
    ensures |a| == |b|
  {
    assert |a| == |multiset(a)| && |b| == |multiset(b)|;
  }

  /** Exactly `min(n, N)` crops of a cat are kept. */
  lemma KeepsTheCap(rows: seq<Row>, cap: nat)
    ensures |KeepOf(rows, cap)| == if |rows| <= cap then |rows| else cap
  {
    if |rows| > cap {
      TiersHoldAll(rows);
      SpendFillsTheBudget(Tiers(rows), cap);
      ByFrameKeepsAll(Spend(Tiers(rows), cap));
      SameLength(ByFrame(Spend(Tiers(rows), cap)), Spend(Tiers(rows), cap));
    }
  }

  lemma {:induction false} StrideIsPart(tier: seq<Row>, budget: nat, i: nat)
    requires 0 < budget < |tier| && i < budget
    ensures multiset(Stride(tier, budget)[..i + 1]) <= multiset(tier[..Pick(|tier|, budget, i) + 1])
  {
    var p, s := Pick(|tier|, budget, i), Stride(tier, budget);
    if i > 0 {
      var q := Pick(|tier|, budget, i - 1);
      PicksAscend(|tier|, budget, i - 1);
      StrideIsPart(tier, budget, i - 1);
      assert s[..i - 1 + 1] == s[..i];
      OneMoreIsPart(tier, s, i, q + 1, p);
    } else {
      OneMoreIsPart(tier, s, i, 0, p);
    }
  }

  lemma PicksAscend(len: nat, budget: nat, i: nat)
    requires 0 < budget < len && i + 1 < budget
    ensures Pick(len, budget, i) < Pick(len, budget, i + 1)
  {
    StrideIsEven(len, budget, i);
  }

  /** One more row, from beyond those already accounted for. */
  lemma OneMoreIsPart(tier: seq<Row>, s: seq<Row>, i: nat, q: nat, p: nat)
    requires i < |s| && q <= p < |tier| && s[i] == tier[p]
    requires multiset(s[..i]) <= multiset(tier[..q])
    ensures multiset(s[..i + 1]) <= multiset(tier[..p + 1])
  {
    assert s[..i + 1] == s[..i] + [tier[p]];
    assert tier[..p + 1] == tier[..p] + [tier[p]];
    assert tier[..p] == tier[..q] + tier[q..p];
  }

  /** Nothing is kept twice and nothing is invented. */
  lemma {:induction false} SpendIsPart(tiers: seq<seq<Row>>, budget: nat)
    ensures multiset(Spend(tiers, budget)) <= multiset(Concat(tiers))
  {
    if tiers != [] && budget > 0 {
      if |tiers[0]| <= budget {
        SpendIsPart(tiers[1..], budget - |tiers[0]|);
      } else {
        WholeStrideIsPart(tiers[0], budget);
      }
    }
  }

  lemma WholeStrideIsPart(tier: seq<Row>, budget: nat)
    requires 0 < budget < |tier|
    ensures multiset(Stride(tier, budget)) <= multiset(tier)
  {
    var s := Stride(tier, budget);
    StrideIsPart(tier, budget, budget - 1);
    assert s[..budget - 1 + 1] == s;
    var p := Pick(|tier|, budget, budget - 1) + 1;
    assert tier == tier[..p] + tier[p..];
  }

  lemma KeepsOnlyItsOwn(rows: seq<Row>, cap: nat)
    ensures multiset(KeepOf(rows, cap)) <= multiset(rows)
  {
    TiersHoldAll(rows);
    SpendIsPart(Tiers(rows), cap);
    ByFrameKeepsAll(Spend(Tiers(rows), cap));
  }

  /** A kept crop comes from a tier no worse than that of any crop left out. */
  lemma {:induction false} SpendPrefersEarlier(tiers: seq<seq<Row>>, budget: nat, a: nat, b: nat, dropped: Row,
          kept: Row)
    requires a < |tiers| && b < |tiers| && dropped in tiers[a] && dropped !in Spend(tiers, budget)
    requires kept in Spend(tiers, budget) && forall k :: 0 <= k < |tiers| ==> (kept in tiers[k] ==> k == b)
    ensures b <= a
  {
    if |tiers[0]| <= budget {
      if b > 0 {
        assert a > 0 && kept !in tiers[0];
        SpendPrefersEarlier(tiers[1..], budget - |tiers[0]|, a - 1, b - 1, dropped, kept);
      }
    } else {
      assert kept in tiers[0];
    }
  }

  /** A better grade is never left out for a worse one. */
  lemma NeverDropsABetterGrade(rows: seq<Row>, cap: nat, kept: Row, dropped: Row)
    requires kept in KeepOf(rows, cap) && dropped in rows && dropped !in KeepOf(rows, cap)
    ensures !Better(dropped.quality, kept.quality)
  {
    var tiers := Tiers(rows);
    KeptIsSpent(Spend(tiers, cap), kept);
    KeptIsSpent(Spend(tiers, cap), dropped);
    TierHas(rows, dropped);
    InTiers(rows, dropped);
    OnlyInItsTier(rows, kept);
    SpendPrefersEarlier(tiers, cap, Rank(dropped.quality), Rank(kept.quality), dropped, kept);
  }

  /** Sorting by time keeps the members. */
  lemma KeptIsSpent(spent: seq<Row>, r: Row)
    ensures r in ByFrame(spent) <==> r in spent
  {
    ByFrameKeepsAll(spent);
    assert r in multiset(ByFrame(spent)) <==> r in multiset(spent);
  }

  lemma OnlyInItsTier(rows: seq<Row>, r: Row)
    ensures forall k :: 0 <= k < |Tiers(rows)| && r in Tiers(rows)[k] ==> k == Rank(r.quality)
  {
    forall k | 0 <= k < |Tiers(rows)| && r in Tiers(rows)[k]
      ensures k == Rank(r.quality)
    {
      KeptIsSpent(Tier(rows, k), r);
    }
  }

  lemma {:induction false} TierHas(rows: seq<Row>, r: Row)
    requires r in rows
    ensures r in Tier(rows, Rank(r.quality))
  {
    if r != rows[|rows| - 1] {
      TierHas(rows[..|rows| - 1], r);
    }
  }

  lemma InTiers(rows: seq<Row>, r: Row)
    requires r in Tier(rows, Rank(r.quality))
    ensures r in Tiers(rows)[Rank(r.quality)]
  {
    KeptIsSpent(Tier(rows, Rank(r.quality)), r);
  }

  // --- What is kept of each grade --------------------------------------------------------

  /** How many crops come in a better tier than `rank`. */
  function Ahead(rows: seq<Row>, rank: nat): nat {
    if rows == [] then 0
    else Ahead(rows[..|rows| - 1], rank) + if Rank(rows[|rows| - 1].quality) < rank then 1 else 0
  }

  /** What is kept of a tier with `room` left for it: all of it, or the positions `i * L / room`. */
  ghost predicate IsSpread(kept: seq<Row>, tier: seq<Row>, room: int) {
    && (|tier| <= room ==> kept == tier)
    && (room <= 0 ==> kept == [])
    && (0 < room < |tier| ==> |kept| == room && forall i :: 0 <= i < room ==> kept[i] == tier[i * |tier| / room])
  }

  lemma {:induction false} AheadNext(rows: seq<Row>, rank: nat)
    ensures Ahead(rows, rank + 1) == Ahead(rows, rank) + |Tier(rows, rank)|
  {
    if rows != [] {
      AheadNext(rows[..|rows| - 1], rank);
    }
  }

  lemma {:induction false} NoneAheadOfTheBest(rows: seq<Row>)
    ensures Ahead(rows, 0) == 0
  {
    if rows != [] {
      NoneAheadOfTheBest(rows[..|rows| - 1]);
    }
  }

  lemma {:induction false} TierConcat(a: seq<Row>, b: seq<Row>, rank: nat)
    ensures Tier(a + b, rank) == Tier(a, rank) + Tier(b, rank)
  {
    if b == [] {
      assert a + b == a;
    } else {
      assert (a + b)[..|a + b| - 1] == a + b[..|b| - 1];
      TierConcat(a, b[..|b| - 1], rank);
    }
  }

  ghost predicate OfRank(rows: seq<Row>, rank: nat) {
    forall i :: 0 <= i < |rows| ==> Rank(rows[i].quality) == rank
  }

  lemma {:induction false} TierOfOneRank(rows: seq<Row>, own: nat, rank: nat)
    requires OfRank(rows, own)
    ensures Tier(rows, rank) == if own == rank then rows else []
  {
    if rows != [] {
      TierOfOneRank(rows[..|rows| - 1], own, rank);
    }
  }

  /** Each tier of the list holds its own rank, counted from `first`. */
  ghost predicate Ranked(tiers: seq<seq<Row>>, first: nat) {
    forall k :: 0 <= k < |tiers| ==> OfRank(tiers[k], first + k)
  }

  lemma {:induction false} SpentTooSoon(tiers: seq<seq<Row>>, first: nat, budget: nat, rank: nat)
    requires Ranked(tiers, first) && rank < first
    ensures Tier(Spend(tiers, budget), rank) == []
  {
    if tiers != [] && budget > 0 {
      if |tiers[0]| <= budget {
        RankedTail(tiers, first);
        SpentTooSoon(tiers[1..], first + 1, budget - |tiers[0]|, rank);
        TierConcat(tiers[0], Spend(tiers[1..], budget - |tiers[0]|), rank);
        TierOfOneRank(tiers[0], first, rank);
      } else {
        TierOfOneRank(Stride(tiers[0], budget), first, rank);
      }
    }
  }

  lemma RankedTail(tiers: seq<seq<Row>>, first: nat)
    requires tiers != [] && Ranked(tiers, first)
    ensures Ranked(tiers[1..], first + 1)
  {
  }

  /** The budget loop gives the `k`-th tier what those before it leave. */
  lemma {:induction false} SpendsOn(tiers: seq<seq<Row>>, first: nat, budget: nat, k: nat, rank: nat, room: int)
    requires Ranked(tiers, first) && k < |tiers|
    requires rank == first + k && room == budget - |Concat(tiers[..k])|
    ensures IsSpread(Tier(Spend(tiers, budget), rank), tiers[k], room)
  {
    if budget == 0 {
      assert Spend(tiers, budget) == [];
      SpreadOfNothing(tiers[k], room);
    } else if budget < |tiers[0]| {
      StridesOnly(tiers, first, budget, k, rank, room);
    } else if k == 0 {
      TakenWhole(tiers, first, budget, rank);
      SpreadOfAll(tiers[0], room);
    } else {
      RankedTail(tiers, first);
      ConcatHead(tiers, k);
      SpendsOn(tiers[1..], first + 1, budget - |tiers[0]|, k - 1, rank, room);
      SpendsOnLater(tiers, first, budget, k, rank, room);
    }
  }

  lemma SpendsOnLater(tiers: seq<seq<Row>>, first: nat, budget: nat, k: nat, rank: nat, room: int)
    requires Ranked(tiers, first) && 0 < k < |tiers| && |tiers[0]| <= budget && budget > 0 && rank > first
    requires IsSpread(Tier(Spend(tiers[1..], budget - |tiers[0]|), rank), tiers[1..][k - 1], room)
    ensures IsSpread(Tier(Spend(tiers, budget), rank), tiers[k], room)
  {
    TakenWhole(tiers, first, budget, rank);
    assert tiers[1..][k - 1] == tiers[k];
  }

  lemma SpreadOfNothing(tier: seq<Row>, room: int)
    requires room <= 0
    ensures IsSpread([], tier, room)
  {
  }

  lemma SpreadOfAll(tier: seq<Row>, room: int)
    requires |tier| <= room
    ensures IsSpread(tier, tier, room)
  {
  }

  lemma ConcatHead(tiers: seq<seq<Row>>, k: nat)
    requires 0 < k < |tiers|
    ensures |Concat(tiers[..k])| == |tiers[0]| + |Concat(tiers[1..][..k - 1])|
    ensures tiers[1..][k - 1] == tiers[k]
  {
    assert tiers[..k][1..] == tiers[1..][..k - 1];
  }

  lemma StridesOnly(tiers: seq<seq<Row>>, first: nat, budget: nat, k: nat, rank: nat, room: int)
    requires Ranked(tiers, first) && k < |tiers| && 0 < budget < |tiers[0]|
    requires rank == first + k && room == budget - |Concat(tiers[..k])|
    ensures IsSpread(Tier(Spend(tiers, budget), rank), tiers[k], room)
  {
    TierOfOneRank(Stride(tiers[0], budget), first, rank);
    if k == 0 {
      StrideIsSpread(tiers[0], budget);
    } else {
      ConcatHead(tiers, k);
      SpreadOfNothing(tiers[k], room);
    }
  }

  lemma TakenWhole(tiers: seq<seq<Row>>, first: nat, budget: nat, rank: nat)
    requires Ranked(tiers, first) && tiers != [] && |tiers[0]| <= budget && budget > 0 && rank >= first
    ensures rank == first ==> Tier(Spend(tiers, budget), rank) == tiers[0]
    ensures rank != first ==> Tier(Spend(tiers, budget), rank) == Tier(Spend(tiers[1..], budget - |tiers[0]|), rank)
  {
    var rest := Spend(tiers[1..], budget - |tiers[0]|);
    TierConcat(tiers[0], rest, rank);
    TierOfOneRank(tiers[0], first, rank);
    if rank == first {
      RankedTail(tiers, first);
      SpentTooSoon(tiers[1..], first + 1, budget - |tiers[0]|, first);
    }
  }

  lemma StrideIsSpread(tier: seq<Row>, budget: nat)
    requires 0 < budget < |tier|
    ensures IsSpread(Stride(tier, budget), tier, budget)
  {
    forall i | 0 <= i < budget
      ensures Stride(tier, budget)[i] == tier[i * |tier| / budget]
    {
      PickIsFloor(|tier|, budget, i);
    }
  }

  lemma {:induction false} ConcatCounts(rows: seq<Row>, k: nat)
    requires k <= RANKS
    ensures |Concat(Tiers(rows)[..k])| == Ahead(rows, k)
  {
    if k == 0 {
      NoneAheadOfTheBest(rows);
    } else {
      ConcatCounts(rows, k - 1);
      AheadNext(rows, k - 1);
      ByFrameKeepsLength(Tier(rows, k - 1));
      ConcatUpTo(Tiers(rows), k - 1);
    }
  }

  lemma ByFrameKeepsLength(rows: seq<Row>)
    ensures |ByFrame(rows)| == |rows|
  {
    ByFrameKeepsAll(rows);
    SameLength(ByFrame(rows), rows);
  }

  lemma ConcatUpTo(tiers: seq<seq<Row>>, k: nat)
    requires k < |tiers|
    ensures |Concat(tiers[..k + 1])| == |Concat(tiers[..k])| + |tiers[k]|
  {
    assert tiers[..k + 1] == tiers[..k] + [tiers[k]];
    ConcatSnoc(tiers[..k], tiers[k]);
  }

  lemma {:induction false} ConcatSnoc(tiers: seq<seq<Row>>, tier: seq<Row>)
    ensures |Concat(tiers + [tier])| == |Concat(tiers)| + |tier|
  {
    if tiers == [] {
      assert [tier][1..] == [];
    } else {
      assert (tiers + [tier])[1..] == tiers[1..] + [tier];
      ConcatSnoc(tiers[1..], tier);
    }
  }

  // Sorting by time is stable, so it does not reorder what is in time order already.

  lemma {:induction false} InTimeStays(rows: seq<Row>)
    requires InTime(rows)
    ensures ByFrame(rows) == rows
  {
    if rows != [] {
      var front, last := rows[..|rows| - 1], rows[|rows| - 1];
      InTimeStays(front);
      ByFrameSnoc(front, last);
      assert front + [last] == rows;
    }
  }

  lemma {:induction false} InsertedInItsTier(rows: seq<Row>, r: Row, rank: nat)
    requires InTime(rows)
    ensures Tier(InsertByFrame(rows, r), rank)
            == if Rank(r.quality) == rank then InsertByFrame(Tier(rows, rank), r) else Tier(rows, rank)
  {
    if rows == [] || rows[|rows| - 1].frame <= r.frame {
      assert InsertByFrame(rows, r) == rows + [r];
      EndsItsTier(rows, r, rank);
    } else {
      var front, last := rows[..|rows| - 1], rows[|rows| - 1];
      assert rows == front + [last];
      InsertedInItsTier(front, r, rank);
      LaterStays(front, last, r, rank);
    }
  }

  lemma EndsItsTier(rows: seq<Row>, r: Row, rank: nat)
    requires InTime(rows) && (rows != [] ==> rows[|rows| - 1].frame <= r.frame)
    ensures Tier(rows + [r], rank)
            == if Rank(r.quality) == rank then InsertByFrame(Tier(rows, rank), r) else Tier(rows, rank)
  {
    if Rank(r.quality) == rank {
      JoinsItsTier(rows, r, rank);
      TierEndsBy(rows, rank, r.frame);
    } else {
      NotItsTier(rows, r, rank);
    }
  }

  lemma LaterStays(front: seq<Row>, last: Row, r: Row, rank: nat)
    requires last.frame > r.frame
    requires Tier(InsertByFrame(front, r), rank)
             == if Rank(r.quality) == rank then InsertByFrame(Tier(front, rank), r) else Tier(front, rank)
    ensures Tier(InsertByFrame(front + [last], r), rank)
            == if Rank(r.quality) == rank then InsertByFrame(Tier(front + [last], rank), r)
               else Tier(front + [last], rank)
  {
    InsertBeforeLast(front, last, r);
    if Rank(last.quality) == rank {
      JoinsItsTier(InsertByFrame(front, r), last, rank);
      JoinsItsTier(front, last, rank);
      InsertBeforeLast(Tier(front, rank), last, r);
    } else {
      NotItsTier(InsertByFrame(front, r), last, rank);
      NotItsTier(front, last, rank);
    }
  }

  lemma JoinsItsTier(rows: seq<Row>, r: Row, rank: nat)
    requires Rank(r.quality) == rank
    ensures Tier(rows + [r], rank) == Tier(rows, rank) + [r]
  {
    TierSnoc(rows, r, rank);
  }

  lemma NotItsTier(rows: seq<Row>, r: Row, rank: nat)
    requires Rank(r.quality) != rank
    ensures Tier(rows + [r], rank) == Tier(rows, rank)
  {
    TierSnoc(rows, r, rank);
  }

  lemma InsertBeforeLast(rows: seq<Row>, last: Row, r: Row)
    requires last.frame > r.frame
    ensures InsertByFrame(rows + [last], r) == InsertByFrame(rows, r) + [last]
  {
    assert (rows + [last])[..|rows|] == rows;
  }

  lemma {:induction false} TierEndsBy(rows: seq<Row>, rank: nat, frame: int)
    requires InTime(rows) && (rows != [] ==> rows[|rows| - 1].frame <= frame)
    ensures Tier(rows, rank) != [] ==> Tier(rows, rank)[|Tier(rows, rank)| - 1].frame <= frame
  {
    if rows != [] && Rank(rows[|rows| - 1].quality) != rank {
      var front := rows[..|rows| - 1];
      TierEndsBy(front, rank, frame);
    }
  }

  lemma {:induction false} SortsInItsTier(rows: seq<Row>, rank: nat)
    ensures Tier(ByFrame(rows), rank) == ByFrame(Tier(rows, rank))
  {
    if rows != [] {
      var front, last := rows[..|rows| - 1], rows[|rows| - 1];
      SortsInItsTier(front, rank);
      SortsOneMore(front, last, rank);
      assert front + [last] == rows;
    }
  }

  lemma SortsOneMore(front: seq<Row>, last: Row, rank: nat)
    requires Tier(ByFrame(front), rank) == ByFrame(Tier(front, rank))
    ensures Tier(ByFrame(front + [last]), rank) == ByFrame(Tier(front + [last], rank))
  {
    ByFrameIsInTime(front);
    ByFrameSnoc(front, last);
    InsertedInItsTier(ByFrame(front), last, rank);
    if Rank(last.quality) == rank {
      JoinsItsTier(front, last, rank);
      ByFrameSnoc(Tier(front, rank), last);
    } else {
      NotItsTier(front, last, rank);
    }
  }

  lemma ByFrameSnoc(rows: seq<Row>, r: Row)
    ensures ByFrame(rows + [r]) == InsertByFrame(ByFrame(rows), r)
  {
    assert (rows + [r])[..|rows|] == rows;
  }

  lemma {:induction false} PositionsAscend(len: nat, budget: nat, i: nat, j: nat)
    requires 0 < budget < len && i <= j < budget
    ensures i * len / budget <= j * len / budget < len
    decreases j
  {
    StrideIsEven(len, budget, j);
    if i < j {
      PositionsAscend(len, budget, i, j - 1);
      StrideIsEven(len, budget, j - 1);
    }
  }

  lemma SpreadIsInTime(kept: seq<Row>, tier: seq<Row>, room: int)
    requires InTime(tier) && IsSpread(kept, tier, room)
    ensures InTime(kept)
  {
    if 0 < room < |tier| {
      forall i, j | 0 <= i < j < |kept|
        ensures kept[i].frame <= kept[j].frame
      {
        PositionsAscend(|tier|, room, i, j);
        EarlierIsBefore(tier, i * |tier| / room, j * |tier| / room);
      }
    }
  }

  lemma EarlierIsBefore(rows: seq<Row>, p: nat, q: nat)
    requires InTime(rows) && p <= q < |rows|
    ensures rows[p].frame <= rows[q].frame
  {
  }

  lemma SpreadSurvivesTheSort(spent: seq<Row>, tier: seq<Row>, room: int, rank: nat)
    requires InTime(tier) && IsSpread(Tier(spent, rank), tier, room)
    ensures IsSpread(Tier(ByFrame(spent), rank), tier, room)
  {
    SpreadIsInTime(Tier(spent, rank), tier, room);
    SortsInItsTier(spent, rank);
    InTimeStays(Tier(spent, rank));
  }

  lemma KeepSpreads(rows: seq<Row>, cap: nat, rank: nat)
    requires |rows| > cap && rank < RANKS
    ensures IsSpread(Tier(KeepOf(rows, cap), rank), ByFrame(Tier(rows, rank)), cap - Ahead(rows, rank))
  {
    ByFrameIsInTime(Tier(rows, rank));
    SpentSpreads(rows, Tiers(rows), cap, rank);
    SpreadSurvivesTheSort(Spend(Tiers(rows), cap), ByFrame(Tier(rows, rank)), cap - Ahead(rows, rank), rank);
  }

  lemma SpentSpreads(rows: seq<Row>, tiers: seq<seq<Row>>, cap: nat, rank: nat)
    requires tiers == Tiers(rows) && rank < RANKS
    ensures IsSpread(Tier(Spend(tiers, cap), rank), ByFrame(Tier(rows, rank)), cap - Ahead(rows, rank))
  {
    TiersAreRanked(rows);
    ConcatCounts(rows, rank);
    SpendsOn(tiers, 0, cap, rank, rank, cap - Ahead(rows, rank));
  }

  lemma TiersAreRanked(rows: seq<Row>)
    ensures Ranked(Tiers(rows), 0)
  {
    forall k: nat | k < RANKS
      ensures OfRank(ByFrame(Tier(rows, k)), k)
    {
      SortedIsOfRank(Tier(rows, k), k);
    }
  }

  lemma SortedIsOfRank(rows: seq<Row>, rank: nat)
    requires OfRank(rows, rank)
    ensures OfRank(ByFrame(rows), rank)
  {
    forall i | 0 <= i < |ByFrame(rows)|
      ensures Rank(ByFrame(rows)[i].quality) == rank
    {
      KeptIsSpent(rows, ByFrame(rows)[i]);
    }
  }

  // --- All cats ------------------------------------------------------------------------

  /** One part per cat, cat after cat. */
  function Gather(cats: seq<int>, part: int -> seq<Row>): seq<Row> {
    if cats == [] then [] else Gather(cats[..|cats| - 1], part) + part(cats[|cats| - 1])
  }

  function Part(labels: seq<Row>, cap: nat): int -> seq<Row> {
    (c: int) => KeepOf(RowsOf(labels, c), cap)
  }

  /** `cap_per_cat`: no cap, or one below 1, changes nothing. */
  function Cap(labels: seq<Row>, maxPerCat: Option<int>): seq<Row> {
    if maxPerCat.None? || maxPerCat.value < 1 then labels else Gather(CatsOf(labels), Part(labels, maxPerCat.value))
  }

  lemma {:induction false} RowsOfConcat(a: seq<Row>, b: seq<Row>, c: int)
    ensures RowsOf(a + b, c) == RowsOf(a, c) + RowsOf(b, c)
  {
    if b == [] {
      assert a + b == a;
    } else {
      assert (a + b)[..|a + b| - 1] == a + b[..|b| - 1];
      RowsOfConcat(a, b[..|b| - 1], c);
    }
  }

  lemma {:induction false} RowsOfOneCat(rows: seq<Row>, d: int, c: int)
    requires forall i :: 0 <= i < |rows| ==> rows[i].cat == d
    ensures RowsOf(rows, c) == if c == d then rows else []
  {
    if rows != [] {
      RowsOfOneCat(rows[..|rows| - 1], d, c);
    }
  }

  lemma KeepIsOfOneCat(labels: seq<Row>, d: int, cap: nat)
    ensures forall i :: 0 <= i < |KeepOf(RowsOf(labels, d), cap)| ==> KeepOf(RowsOf(labels, d), cap)[i].cat == d
  {
    var rows := RowsOf(labels, d);
    KeepsOnlyItsOwn(rows, cap);
    forall i | 0 <= i < |KeepOf(rows, cap)|
      ensures KeepOf(rows, cap)[i].cat == d
    {
      assert KeepOf(rows, cap)[i] in multiset(KeepOf(rows, cap));
      assert KeepOf(rows, cap)[i] in multiset(rows);
    }
  }

  ghost predicate OwnRows(part: int -> seq<Row>) {
    forall c: int, i: int :: 0 <= i < |part(c)| ==> part(c)[i].cat == c
  }

  /** Each cat's rows of the output are its part. */
  lemma {:induction false} GatherByCat(cats: seq<int>, part: int -> seq<Row>, c: int)
    requires Ascending(cats) && OwnRows(part)
    ensures RowsOf(Gather(cats, part), c) == if c in cats then part(c) else []
  {
    if cats != [] {
      var front, d := cats[..|cats| - 1], cats[|cats| - 1];
      assert cats == front + [d];
      GatherByCat(front, part, c);
      RowsOfConcat(Gather(front, part), part(d), c);
      RowsOfOneCat(part(d), d, c);
    }
  }

  lemma PartsAreOwn(labels: seq<Row>, cap: nat)
    ensures OwnRows(Part(labels, cap))
  {
    forall d: int, i: int | 0 <= i < |Part(labels, cap)(d)|
      ensures Part(labels, cap)(d)[i].cat == d
    {
      KeepIsOfOneCat(labels, d, cap);
    }
  }

  lemma CapByCat(labels: seq<Row>, cap: nat, c: int)
    requires cap >= 1
    ensures RowsOf(Cap(labels, Some(cap)), c) == KeepOf(RowsOf(labels, c), cap)
  {
    CatsOfAreTheCats(labels);
    PartsAreOwn(labels, cap);
    GatherByCat(CatsOf(labels), Part(labels, cap), c);
    KeepsTheCap(RowsOf(labels, c), cap);
  }

  /** What the cap promises of every cat: exactly `min(n, N)` of its crops, none invented or
      repeated, no better grade left out for a worse, no cat lost, and what was cut back in time
      order. */
  lemma CapIsFair(labels: seq<Row>, cap: nat, c: int, kept: Row, dropped: Row)
    requires cap >= 1
    ensures var before, after := RowsOf(labels, c), RowsOf(Cap(labels, Some(cap)), c);
            && |after| == (if |before| <= cap then |before| else cap)
            && multiset(after) <= multiset(before)
            && (before != [] <==> after != [])
            && (kept in after && dropped in before && dropped !in after ==> !Better(dropped.quality, kept.quality))
            && (|before| > cap ==> InTime(after))
  {
    var rows := RowsOf(labels, c);
    CapByCat(labels, cap, c);
    KeepsTheCap(rows, cap);
    KeepsOnlyItsOwn(rows, cap);
    if |rows| > cap {
      ByFrameIsInTime(Spend(Tiers(rows), cap));
    }
    if kept in KeepOf(rows, cap) && dropped in rows && dropped !in KeepOf(rows, cap) {
      NeverDropsABetterGrade(rows, cap, kept, dropped);
    }
  }

  /** Exactly which crops of each grade are kept of a cat over the cap. With `L` of them, in time
      order, and room for `b` after all better grades: every one if `L <= b`, none if there is no
      room, and otherwise those at the positions `i * L / b`, evenly spread from the first on. A cat
      within the cap keeps its crops as they are. */
  lemma CapSpreads(labels: seq<Row>, cap: nat, c: int, rank: nat)
    requires cap >= 1 && rank < RANKS
    ensures var before, after := RowsOf(labels, c), RowsOf(Cap(labels, Some(cap)), c);
            && (|before| <= cap ==> after == before)
            && (|before| > cap ==>
                  IsSpread(Tier(after, rank), ByFrame(Tier(before, rank)), cap - Ahead(before, rank)))
  {
    CapByCat(labels, cap, c);
    if |RowsOf(labels, c)| > cap {
      KeepSpreads(RowsOf(labels, c), cap, rank);
    }
  }

  /** Nothing of a cat is lost or made up when the labels are grouped. */
  lemma {:induction false} RowsOfCounts(labels: seq<Row>, c: int, x: Row)
    ensures multiset(RowsOf(labels, c))[x] == if x.cat == c then multiset(labels)[x] else 0
  {
    if labels != [] {
      var front, last := labels[..|labels| - 1], labels[|labels| - 1];
      RowsOfCounts(front, c, x);
      assert labels == front + [last];
      assert multiset(labels)[x] == multiset(front)[x] + multiset([last])[x];
    }
  }

  lemma {:induction false} GatherAscends(cats: seq<int>, part: int -> seq<Row>, i: nat, j: nat)
    requires Ascending(cats) && OwnRows(part) && i <= j < |Gather(cats, part)|
    ensures Gather(cats, part)[i].cat <= Gather(cats, part)[j].cat
    ensures Gather(cats, part)[j].cat in cats
  {
    var front, last := cats[..|cats| - 1], cats[|cats| - 1];
    var n := |Gather(front, part)|;
    assert cats == front + [last];
    if j < n {
      GatherAscends(front, part, i, j);
    } else {
      assert Gather(cats, part)[j] == part(last)[j - n];
      if i < n {
        GatherAscends(front, part, i, i);
      } else {
        assert Gather(cats, part)[i] == part(last)[i - n];
      }
    }
  }

  /** The capped labels come cat by cat, ascending. */
  lemma CapAscends(labels: seq<Row>, cap: nat, i: nat, j: nat)
    requires cap >= 1 && i <= j < |Cap(labels, Some(cap))|
    ensures Cap(labels, Some(cap))[i].cat <= Cap(labels, Some(cap))[j].cat
  {
    CatsOfAreTheCats(labels);
    PartsAreOwn(labels, cap);
    GatherAscends(CatsOf(labels), Part(labels, cap), i, j);
  }

  ghost predicate SameMembers(a: seq<int>, b: seq<int>) {
    forall c :: c in a <==> c in b
  }

  lemma {:induction false} SameCats(a: seq<int>, b: seq<int>)
    requires Ascending(a) && Ascending(b) && SameMembers(a, b)
    ensures a == b
  {
    if a == [] {
      assert forall i :: 0 <= i < |b| ==> b[i] in a;
    } else {
      assert a[0] in a && a[0] in b;
      var f, g := a[..|a| - 1], b[..|b| - 1];
      SameGreatest(a, b);
      assert a == f + [a[|a| - 1]] && b == g + [b[|b| - 1]];
      SameWithoutLast(f, g, a[|a| - 1]);
      SameCats(f, g);
    }
  }

  lemma SameGreatest(a: seq<int>, b: seq<int>)
    requires Ascending(a) && Ascending(b) && SameMembers(a, b) && a != [] && b != []
    ensures a[|a| - 1] == b[|b| - 1]
  {
    assert a[|a| - 1] in a && b[|b| - 1] in b;
    assert a[|a| - 1] in b && b[|b| - 1] in a;
  }

  lemma SameWithoutLast(f: seq<int>, g: seq<int>, x: int)
    requires Ascending(f + [x]) && Ascending(g + [x]) && SameMembers(f + [x], g + [x])
    ensures SameMembers(f, g)
  {
    NotAmongSmaller(f, x);
    NotAmongSmaller(g, x);
    forall c
      ensures c in f <==> c in g
    {
      assert c in f + [x] <==> c in f || c == x;
      assert c in g + [x] <==> c in g || c == x;
    }
  }

  lemma NotAmongSmaller(f: seq<int>, x: int)
    requires Ascending(f + [x])
    ensures x !in f
  {
    forall i | 0 <= i < |f|
      ensures f[i] != x
    {
      assert (f + [x])[i] == f[i] && (f + [x])[|f|] == x;
    }
  }

  lemma {:induction false} GatherSame(cats: seq<int>, p: int -> seq<Row>, q: int -> seq<Row>)
    requires forall c :: p(c) == q(c)
    ensures Gather(cats, p) == Gather(cats, q)
  {
    if cats != [] {
      GatherSame(cats[..|cats| - 1], p, q);
    }
  }

  /** Capping what is already capped changes nothing, order included. */
  lemma CapIsIdempotent(labels: seq<Row>, maxPerCat: Option<int>)
    ensures Cap(Cap(labels, maxPerCat), maxPerCat) == Cap(labels, maxPerCat)
  {
    if maxPerCat.Some? && maxPerCat.value >= 1 {
      var cap: nat := maxPerCat.value;
      var capped := Cap(labels, maxPerCat);
      forall c
        ensures RowsOf(capped, c) == KeepOf(RowsOf(labels, c), cap) == KeepOf(RowsOf(capped, c), cap)
        ensures RowsOf(capped, c) != [] <==> RowsOf(labels, c) != []
      {
        CapByCat(labels, cap, c);
        KeepsTheCap(RowsOf(labels, c), cap);
      }
      CatsOfAreTheCats(labels);
      CatsOfAreTheCats(capped);
      SameCats(CatsOf(labels), CatsOf(capped));
      GatherSame(CatsOf(labels), Part(labels, cap), Part(capped, cap));
    }
  }

  // --- The loops -----------------------------------------------------------------------

  function Lookup<K>(m: map<K, seq<Row>>, k: K): seq<Row> {
    if k in m then m[k] else []
  }

  lemma TierSnoc(rows: seq<Row>, r: Row, k: nat)
    ensures Tier(rows + [r], k) == Tier(rows, k) + if Rank(r.quality) == k then [r] else []
  {
    assert (rows + [r])[..|rows|] == rows;
  }

  /** `_tier_by_grade`: a dictionary filled row by row. */
  method TierByGrade(rows: seq<Row>) returns (tiers: map<nat, seq<Row>>)
    ensures forall k: nat :: Lookup(tiers, k) == Tier(rows, k)
  {
    tiers := map[];
    var i := 0;
    while i < |rows|
      invariant 0 <= i <= |rows|
      invariant forall k: nat :: Lookup(tiers, k) == Tier(rows[..i], k)
    {
      var rank := Rank(rows[i].quality);
      ghost var was := tiers;
      tiers := tiers[rank := Lookup(tiers, rank) + [rows[i]]];
      assert rows[..i + 1] == rows[..i] + [rows[i]];
      forall k: nat
        ensures Lookup(tiers, k) == Tier(rows[..i + 1], k)
      {
        TierSnoc(rows[..i], rows[i], k);
        assert Lookup(was, k) == Tier(rows[..i], k);
      }
      i := i + 1;
    }
    assert rows[..i] == rows;
  }

  lemma SpendNext(tiers: seq<seq<Row>>, rank: nat, budget: nat)
    requires rank < |tiers| && budget > 0
    ensures Spend(tiers[rank..], budget)
            == if |tiers[rank]| <= budget then tiers[rank] + Spend(tiers[rank + 1..], budget - |tiers[rank]|)
               else Stride(tiers[rank], budget)
  {
    assert tiers[rank..][1..] == tiers[rank + 1..];
  }

  /** The tier loop for a cat over the cap: `tiers` in rank order, each sorted by time. */
  method SpendTiers(tiers: seq<seq<Row>>, cap: nat) returns (kept: seq<Row>)
    ensures kept == Spend(tiers, cap)
  {
    var budget: nat, k: nat := cap, 0;
    kept := [];
    assert tiers[0..] == tiers;
    while k < |tiers| && budget > 0
      invariant k <= |tiers|
      invariant kept + Spend(tiers[k..], budget) == Spend(tiers, cap)
    {
      SpendNext(tiers, k, budget);
      if |tiers[k]| <= budget {
        Regroup(kept, tiers[k], Spend(tiers[k + 1..], budget - |tiers[k]|));
        kept := kept + tiers[k];
        budget := budget - |tiers[k]|;
      } else {
        kept := kept + Stride(tiers[k], budget);
        budget := 0;
      }
      k := k + 1;
    }
    assert kept + [] == kept;
  }

  lemma Regroup(a: seq<Row>, b: seq<Row>, c: seq<Row>)
    ensures a + (b + c) == (a + b) + c
  {
  }

  method KeepCat(rows: seq<Row>, cap: nat) returns (kept: seq<Row>)
    ensures kept == KeepOf(rows, cap)
  {
    if |rows| <= cap {
      kept := rows;
    } else {
      var tiers := TierByGrade(rows);
      var sorted := seq(RANKS, k requires 0 <= k < RANKS => ByFrame(Lookup(tiers, k)));
      assert sorted == Tiers(rows);
      kept := SpendTiers(sorted, cap);
      kept := ByFrame(kept);
    }
  }

  /** `cap_per_cat`. */
  method CapPerCat(labels: seq<Row>, maxPerCat: Option<int>) returns (out: seq<Row>)
    ensures out == Cap(labels, maxPerCat)
    ensures maxPerCat.None? || maxPerCat.value < 1 ==> out == labels
  {
    if maxPerCat.None? || maxPerCat.value < 1 {
      out := labels;
    } else {
      out := CapCats(labels, maxPerCat.value);
    }
  }

  lemma GatherNext(cats: seq<int>, k: nat, part: int -> seq<Row>)
    requires k < |cats|
    ensures Gather(cats[..k + 1], part) == Gather(cats[..k], part) + part(cats[k])
  {
    assert cats[..k + 1][..k] == cats[..k];
  }

  /** The loop over `sorted(by_cat)`. */
  method CapCats(labels: seq<Row>, cap: nat) returns (out: seq<Row>)
    ensures out == Gather(CatsOf(labels), Part(labels, cap))
  {
    var byCat := GroupByCat(labels);
    var cats := CatsOf(labels);
    out := [];
    var k := 0;
    while k < |cats|
      invariant 0 <= k <= |cats|
      invariant out == Gather(cats[..k], Part(labels, cap))
    {
      GatherNext(cats, k, Part(labels, cap));
      var kept := KeepCat(Lookup(byCat, cats[k]), cap);
      out := out + kept;
      k := k + 1;
    }
    assert cats[..k] == cats;
  }

  lemma RowsOfSnoc(labels: seq<Row>, r: Row, c: int)
    ensures RowsOf(labels + [r], c) == RowsOf(labels, c) + if r.cat == c then [r] else []
  {
    assert (labels + [r])[..|labels|] == labels;
  }

  lemma GroupsOneMore(labels: seq<Row>, i: nat, byCat: map<int, seq<Row>>, next: map<int, seq<Row>>)
    requires i < |labels| && forall c :: Lookup(byCat, c) == RowsOf(labels[..i], c)
    requires next == byCat[labels[i].cat := Lookup(byCat, labels[i].cat) + [labels[i]]]
    ensures forall c :: Lookup(next, c) == RowsOf(labels[..i + 1], c)
  {
    assert labels[..i + 1] == labels[..i] + [labels[i]];
    forall c
      ensures Lookup(next, c) == RowsOf(labels[..i + 1], c)
    {
      RowsOfSnoc(labels[..i], labels[i], c);
      assert Lookup(byCat, c) == RowsOf(labels[..i], c);
    }
  }

  /** `by_cat.setdefault(...).append(row)` row by row. */
  method GroupByCat(labels: seq<Row>) returns (byCat: map<int, seq<Row>>)
    ensures forall c :: Lookup(byCat, c) == RowsOf(labels, c)
  {
    byCat := map[];
    var i := 0;
    while i < |labels|
      invariant 0 <= i <= |labels|
      invariant forall c :: Lookup(byCat, c) == RowsOf(labels[..i], c)
    {
      var next := byCat[labels[i].cat := Lookup(byCat, labels[i].cat) + [labels[i]]];
      GroupsOneMore(labels, i, byCat, next);
      byCat := next;
      i := i + 1;
    }
    assert labels[..i] == labels;
  }
}
