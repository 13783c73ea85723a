/** The ranking is a sorted permutation, does not depend on input order, and adjusts within bounds. */
module RankingProofs {
  import opened Prelude
  import opened Ranking
  import Sorting

  // ---------------------------------------------------------------------------------------------
  // Sorting

  lemma ComparatorIsOrder()
    ensures Sorting.StrictWeakOrder(Before)
  {
  }

  /** The ranked list is a permutation of the candidates' rows, in comparator order, ranked 1, 2, ... */
  lemma RankIsSortedPermutation(all: seq<Candidate>, p: Policy, seed: string)
    ensures |Rank(all, p, seed)| == |all|
    ensures multiset(SortedRows(Rows(all, p, seed))) == multiset(Rows(all, p, seed))
    ensures forall i, j :: 0 <= i < j < |all| ==> !Before(Rank(all, p, seed)[j].row, Rank(all, p, seed)[i].row)
    ensures forall i :: 0 <= i < |all| ==> Rank(all, p, seed)[i].rank == i + 1
  {
    var rows := Rows(all, p, seed);
    ComparatorIsOrder();
    Sorting.SortedSorts(Before, rows);
    assert |SortedRows(rows)| == |multiset(SortedRows(rows))| == |multiset(rows)| == |rows|;
  }

  /** The place of a ranked row among the rows it was sorted from. */
  lemma RankedRowOf(all: seq<Candidate>, p: Policy, seed: string, i: nat) returns (k: nat)
    requires i < |Rank(all, p, seed)|
    ensures k < |all| && Rank(all, p, seed)[i].row == RowFor(all[k], CapacitySum(all), CapacityCount(all), p, seed)
    ensures Rank(all, p, seed)[i].row.candidate == all[k]
  {
    var rows := Rows(all, p, seed);
    var sorted := SortedRows(rows);
    ComparatorIsOrder();
    Sorting.SortedSorts(Before, rows);
    assert sorted[i] in multiset(sorted);
    assert sorted[i] in rows;
    k :| 0 <= k < |rows| && rows[k] == sorted[i];
  }

  /** The first of the ranked list is the recommendation; it is one of the candidates. */
  lemma RecommendationIsCandidate(all: seq<Candidate>, p: Policy, seed: string)
    requires all != []
    ensures Rank(all, p, seed) != [] && Rank(all, p, seed)[0].row.candidate in all
  {
    RankIsSortedPermutation(all, p, seed);
    var k := RankedRowOf(all, p, seed, 0);
  }

  // ---------------------------------------------------------------------------------------------
  // Permutations

  lemma {:induction false} SumsAfterRemoval(all: seq<Candidate>, k: nat)
    requires k < |all|
    ensures CapacitySum(all) == CapacitySum(all[..k] + all[k + 1..]) + if "capacity" in all[k].signals then all[k].signals["capacity"] else 0.0
    ensures CapacityCount(all) == CapacityCount(all[..k] + all[k + 1..]) + if "capacity" in all[k].signals then 1 else 0
  {
    var n := |all| - 1;
    var rest := all[..k] + all[k + 1..];
    if k == n {
      assert rest == all[..n];
    } else {
      SumsAfterRemoval(all[..n], k);
      assert rest[..|rest| - 1] == all[..n][..k] + all[..n][k + 1..];
      assert rest[|rest| - 1] == all[n];
    }
  }

  /** The last element of one arrangement, found and taken out of another. */
  lemma RemoveLast<T>(a: seq<T>, b: seq<T>) returns (k: nat)
    requires multiset(a) == multiset(b) && a != []
    ensures k < |b| && b[k] == a[|a| - 1]
    ensures multiset(b[..k] + b[k + 1..]) == multiset(a[..|a| - 1])
  {
    var n := |a| - 1;
    assert a == a[..n] + [a[n]];
    assert a[n] in multiset(b);
    k :| 0 <= k < |b| && b[k] == a[n];
    assert b == b[..k] + [b[k]] + b[k + 1..];
    assert multiset(b) == multiset(b[..k] + b[k + 1..]) + multiset{b[k]};
    assert multiset(b[..k] + b[k + 1..]) == multiset(b) - multiset{b[k]};
    assert multiset(a[..n]) == multiset(a) - multiset{a[n]};
  }

  /** The capacities a candidate is compared with do not depend on the order of the candidates. */
  lemma {:induction false} SumsOfPermutation(a: seq<Candidate>, b: seq<Candidate>)
    requires multiset(a) == multiset(b)
    ensures CapacitySum(a) == CapacitySum(b) && CapacityCount(a) == CapacityCount(b)
    decreases |a|
  {
    if a == [] {
      assert |multiset(b)| == 0;
    } else {
      var k := RemoveLast(a, b);
      SumsOfPermutation(a[..|a| - 1], b[..k] + b[k + 1..]);
      SumsAfterRemoval(b, k);
    }
  }

  ghost predicate StrictlyInOrder(rows: seq<Row>) {
    forall i, j :: 0 <= i < j < |rows| ==> Before(rows[i], rows[j])
  }

  /** Two strictly ordered lists of the same rows are equal. */
  lemma {:induction false} StrictOrderUnique(a: seq<Row>, b: seq<Row>)
    requires StrictlyInOrder(a) && StrictlyInOrder(b)
    requires forall r :: r in a <==> r in b
    ensures a == b
  {
    if b != [] { assert b[0] in a; }
    if a != [] {
      assert a[0] in b;
      assert a[0] == b[0];
      forall r ensures r in a[1..] <==> r in b[1..] {
        TailOf(a, r);
        TailOf(b, r);
      }
      StrictOrderUnique(a[1..], b[1..]);
      assert a == [a[0]] + a[1..] && b == [b[0]] + b[1..];
    }
  }

  lemma TailOf(a: seq<Row>, r: Row)
    requires StrictlyInOrder(a) && a != []
    ensures r in a[1..] <==> r in a && r != a[0]
  {
    assert a == [a[0]] + a[1..];
    if r in a[1..] {
      var i :| 0 <= i < |a[1..]| && a[1..][i] == r;
      assert Before(a[0], a[i + 1]);
    }
  }

  ghost predicate NoRepeats<T>(s: seq<T>) {
    forall i, j :: 0 <= i < j < |s| ==> s[i] != s[j]
  }

  lemma {:induction false} NoRepeatsCounts<T>(s: seq<T>, x: T)
    requires NoRepeats(s)
    ensures multiset(s)[x] <= 1
  {
    if s != [] {
      var n := |s| - 1;
      assert s == s[..n] + [s[n]];
      NoRepeatsCounts(s[..n], x);
      if s[n] == x { assert x !in s[..n]; }
    }
  }

  /** A rearrangement of a list without repeats has no repeats. */
  lemma PermutedNoRepeats<T>(a: seq<T>, b: seq<T>)
    requires NoRepeats(a) && multiset(a) == multiset(b)
    ensures NoRepeats(b)
  {
    forall i, j | 0 <= i < j < |b| ensures b[i] != b[j] {
      NoRepeatsCounts(a, b[i]);
      assert b == b[..i] + [b[i]] + b[i + 1..j] + [b[j]] + b[j + 1..];
    }
  }

  /** With distinct ties the sorted rows are strictly ordered. */
  lemma SortedStrictly(rows: seq<Row>)
    requires forall i, j :: 0 <= i < j < |rows| ==> rows[i].tie != rows[j].tie
    ensures StrictlyInOrder(SortedRows(rows))
    ensures forall r :: r in SortedRows(rows) <==> r in rows
  {
    ComparatorIsOrder();
    Sorting.SortedSorts(Before, rows);
    PermutedNoRepeats(rows, SortedRows(rows));
    var sorted := SortedRows(rows);
    forall r ensures r in sorted <==> r in rows {
      assert r in multiset(sorted) <==> r in multiset(rows);
    }
    forall i, j | 0 <= i < j < |sorted| ensures Before(sorted[i], sorted[j]) {
      DifferentTies(rows, sorted[i], sorted[j]);
    }
  }

  lemma DifferentTies(rows: seq<Row>, r: Row, t: Row)
    requires forall i, j :: 0 <= i < j < |rows| ==> rows[i].tie != rows[j].tie
    requires r in rows && t in rows && r != t
    ensures r.tie != t.tie
  {
    var k :| 0 <= k < |rows| && rows[k] == r;
    var l :| 0 <= l < |rows| && rows[l] == t;
  }

  lemma PermutedTies(a: seq<Candidate>, b: seq<Candidate>, seed: string)
    requires multiset(a) == multiset(b) && DistinctTies(a, seed)
    ensures DistinctTies(b, seed)
  {
    PermutedNoRepeats(a, b);
    forall i, j | 0 <= i < j < |b| ensures Tie(seed, b[i].actorId) != Tie(seed, b[j].actorId) {
      assert b[i] in multiset(a) && b[j] in multiset(a);
      var k :| 0 <= k < |a| && a[k] == b[i];
      var l :| 0 <= l < |a| && a[l] == b[j];
      assert k != l;
    }
  }

  /** Every arrangement of the same candidates gives the same ranked list, when tie hashes are distinct. */
  lemma RankIgnoresInputOrder(a: seq<Candidate>, b: seq<Candidate>, p: Policy, seed: string)
    requires multiset(a) == multiset(b) && DistinctTies(a, seed)
    ensures Rank(a, p, seed) == Rank(b, p, seed)
  {
    SumsOfPermutation(a, b);
    PermutedTies(a, b, seed);
    var ra, rb := Rows(a, p, seed), Rows(b, p, seed);
    SortedStrictly(ra);
    SortedStrictly(rb);
    forall r ensures r in ra <==> r in rb {
      SameRow(a, b, p, seed, r);
      SameRow(b, a, p, seed, r);
    }
    StrictOrderUnique(SortedRows(ra), SortedRows(rb));
  }

  lemma SameRow(a: seq<Candidate>, b: seq<Candidate>, p: Policy, seed: string, r: Row)
    requires multiset(a) == multiset(b) && CapacitySum(a) == CapacitySum(b) && CapacityCount(a) == CapacityCount(b)
    ensures r in Rows(a, p, seed) ==> r in Rows(b, p, seed)
  {
    if r in Rows(a, p, seed) {
      var i :| 0 <= i < |a| && Rows(a, p, seed)[i] == r;
      assert a[i] in multiset(b);
      var j :| 0 <= j < |b| && b[j] == a[i];
      assert Rows(b, p, seed)[j] == r;
    }
  }

  // ---------------------------------------------------------------------------------------------
  // Bounded influence

  lemma QualityBounded(s: Signals)
    ensures 0.0 <= SpatialQuality(s) <= 1.0
  {
    if "etaMinutes" in s {
      InverseBounded(1.0 + MaxR(0.0, s["etaMinutes"]) / 30.0);
    } else if "distanceMiles" in s {
      InverseBounded(1.0 + MaxR(0.0, s["distanceMiles"]) / 15.0);
    }
  }

  lemma InverseBounded(d: real)
    requires d >= 1.0
    ensures 0.0 < 1.0 / d <= 1.0
  {
    var q := 1.0 / d;
    assert q * d == 1.0;
    if q <= 0.0 { ProductMonotone(d, q, 0.0); }
    if q > 1.0 { ProductMonotone(q, 1.0, d); }
  }

  lemma ProductMonotone(x: real, lo: real, hi: real)
    requires x >= 0.0 && lo <= hi
    ensures x * lo <= x * hi
  {
    assert x * (hi - lo) >= 0.0;
  }

  lemma BoostBounded(choice: Option<real>, default: real, cap: real)
    requires cap >= 0.0
    ensures 0.0 <= Boost(choice, default, cap) <= cap
  {
  }

  lemma ProximityBounded(s: Signals, p: Policy)
    ensures 0.0 <= ProximityBoost(s, p) <= 0.08
  {
    QualityBounded(s);
    BoostBounded(p.spatialBoost, 0.04, 0.08);
    ScaledBounded(Boost(p.spatialBoost, 0.04, 0.08), SpatialQuality(s), 0.08);
  }

  /** The four boosts together stay below the sum of their caps. */
  lemma RawBounded(s: Signals, rel: seq<Relationship>, p: Policy)
    ensures 0.0 <= RawAdjustment(s, rel, p) <= 0.28
  {
    hide Boost, ProximityBoost;
    ProximityBounded(s, p);
    BoostBounded(p.continuityBoost, 0.035, 0.08);
    BoostBounded(p.balanceBoost, 0.025, 0.06);
    BoostBounded(p.reliabilityBoost, 0.025, 0.06);
  }

  /** For every policy and candidate the adjustment lies between zero and a maximum of at most 0.25. */
  lemma AdjustmentBounded(s: Signals, rel: seq<Relationship>, p: Policy)
    ensures 0.0 <= Adjustment(s, rel, p) <= MaxAdjustment(p) <= 0.25
  {
    hide RawAdjustment;
    RawBounded(s, rel, p);
  }

  lemma ScaledBounded(boost: real, quality: real, cap: real)
    requires 0.0 <= boost <= cap && 0.0 <= quality <= 1.0
    ensures 0.0 <= boost * quality <= cap
  {
    ProductMonotone(boost, 0.0, quality);
    ProductMonotone(boost, quality, 1.0);
  }

  lemma RoundStep(x: real, y: real)
    requires x >= y + 0.0001
    ensures Round(x) >= Round(y) + 1
  {
  }

  lemma NeverShrinks(base: real, factor: real)
    requires base >= 0.0 && factor >= 1.0
    ensures base * factor >= base
  {
    ProductMonotone(base, 1.0, factor);
  }

  lemma NeverNegative(base: real, factor: real)
    requires base >= 0.0 && factor >= 0.0
    ensures base * factor >= 0.0
  {
    ProductMonotone(base, 0.0, factor);
  }

  lemma AdjustedApart(baseA: real, baseB: real, adjA: real, adjB: real, max: real)
    requires 0.0 <= adjA && 0.0 <= adjB <= max
    requires baseB >= 0.0 && baseA >= baseB * (1.0 + max) + 0.0001
    ensures baseA * (1.0 + adjA) >= baseB * (1.0 + adjB) + 0.0001
  {
    NeverNegative(baseB, 1.0 + max);
    NeverShrinks(baseA, 1.0 + adjA);
    ProductMonotone(baseB, 1.0 + adjB, 1.0 + max);
  }

  lemma RoundedApart(baseA: real, baseB: real, adjA: real, adjB: real, max: real)
    requires 0.0 <= adjA && 0.0 <= adjB <= max
    requires baseB >= 0.0 && baseA >= baseB * (1.0 + max) + 0.0001
    ensures Round(Raised(baseA, adjA)) > Round(Raised(baseB, adjB))
  {
    hide Round;
    AdjustedApart(baseA, baseB, adjA, adjB, max);
    RoundStep(Raised(baseA, adjA), Raised(baseB, adjB));
  }

  ghost predicate Dominates(a: Candidate, b: Candidate, p: Policy) {
    var baseA, baseB := Score(a.signals, p.defaults, p.weights), Score(b.signals, p.defaults, p.weights);
    baseB >= 0.0 && baseA >= baseB * (1.0 + MaxAdjustment(p)) + 0.0001
  }

  /**
   * A candidate whose base score exceeds another's, raised by the largest adjustment, by one
   * rounding unit or more sorts strictly ahead of it, whatever the relationships say.
   */
  lemma BaseScoreDominates(a: Candidate, b: Candidate, sum: real, count: nat, p: Policy, seed: string)
    requires Dominates(a, b, p)
    ensures Before(RowFor(a, sum, count, p, seed), RowFor(b, sum, count, p, seed))
    ensures !Before(RowFor(b, sum, count, p, seed), RowFor(a, sum, count, p, seed))
  {
    hide Adjustment, MaxAdjustment, Relationships, Score, Tie, Round, Raised;
    var baseA, baseB := Score(a.signals, p.defaults, p.weights), Score(b.signals, p.defaults, p.weights);
    var adjA := Adjustment(a.signals, Relationships(a.signals, sum, count), p);
    var adjB := Adjustment(b.signals, Relationships(b.signals, sum, count), p);
    AdjustmentBounded(a.signals, Relationships(a.signals, sum, count), p);
    AdjustmentBounded(b.signals, Relationships(b.signals, sum, count), p);
    RoundedApart(baseA, baseB, adjA, adjB, MaxAdjustment(p));
  }

  /** In the ranked list such a candidate stands ahead. */
  lemma DominantRanksAhead(all: seq<Candidate>, p: Policy, seed: string, i: nat, j: nat)
    requires i < |Rank(all, p, seed)| && j < |Rank(all, p, seed)|
    requires Dominates(Rank(all, p, seed)[i].row.candidate, Rank(all, p, seed)[j].row.candidate, p)
    ensures Rank(all, p, seed)[i].rank < Rank(all, p, seed)[j].rank
  {
    hide Dominates, RowFor;
    RankIsSortedPermutation(all, p, seed);
    var k := RankedRowOf(all, p, seed, i);
    var l := RankedRowOf(all, p, seed, j);
    BaseScoreDominates(all[k], all[l], CapacitySum(all), CapacityCount(all), p, seed);
  }

  /** Only below-mean candidates get the fairness boost: no candidate is both above and below the mean. */
  lemma FairnessTargetsBelowMean(s: Signals, sum: real, count: nat)
    ensures Counterweight in Relationships(s, sum, count) <==> count > 1 && "capacity" in s && s["capacity"] < sum / (count as real)
    ensures !(Balance in Relationships(s, sum, count) && Counterweight in Relationships(s, sum, count))
  {
  }
}
