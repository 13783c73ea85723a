/** What a score is made of, and what moves a candidate up the list. */
module RankingScores {
  import opened Prelude
  import opened Ranking
  import opened RankingProofs

  // ---------------------------------------------------------------------------------------------
  // Base scores

  /** One weight alone counts the signal, or its default, or nothing. */
  lemma OneWeight(signals: Signals, defaults: Signals, k: string, w: real)
    ensures k in signals ==> Score(signals, defaults, [(k, w)]) == signals[k] * w
    ensures k !in signals && k in defaults ==> Score(signals, defaults, [(k, w)]) == defaults[k] * w
    ensures k !in signals && k !in defaults ==> Score(signals, defaults, [(k, w)]) == 0.0
  {
    assert [(k, w)][..0] == [];
    assert Score(signals, defaults, []) == 0.0;
    assert Score(signals, defaults, [(k, w)]) == Weighted(signals, defaults, (k, w));
  }

  /** The scores of weight lists add up. */
  lemma {:induction false} ScoresAdd(signals: Signals, defaults: Signals, v: seq<(string, real)>, w: seq<(string, real)>)
    ensures Score(signals, defaults, v + w) == Score(signals, defaults, v) + Score(signals, defaults, w)
  {
    if w == [] {
      assert v + w == v;
    } else {
      var n := |w| - 1;
      hide Weighted;
      ScoresAdd(signals, defaults, v, w[..n]);
      assert (v + w)[..|v + w| - 1] == v + w[..n];
    }
  }

  /** What a signal is worth before it is weighted. */
  function Worth(s: Signals, defaults: Signals, k: string): real {
    if k in s then s[k] else if k in defaults then defaults[k] else 0.0
  }

  predicate Listed(weights: seq<(string, real)>, k: string) { exists i :: 0 <= i < |weights| && weights[i].0 == k }

  /** Two candidates with the same signals but one. */
  ghost predicate DifferOnlyIn(a: Signals, b: Signals, k: string) {
    forall j: string :: j != k ==> (j in a <==> j in b) && (j in a ==> a[j] == b[j])
  }

  lemma {:induction false} UnlistedIsIgnored(a: Signals, b: Signals, defaults: Signals, weights: seq<(string, real)>, k: string)
    requires DifferOnlyIn(a, b, k) && !Listed(weights, k)
    ensures Score(a, defaults, weights) == Score(b, defaults, weights)
  {
    if weights != [] {
      var n := |weights| - 1;
      assert weights[n].0 != k;
      assert forall i :: 0 <= i < n ==> weights[..n][i] == weights[i];
      UnlistedIsIgnored(a, b, defaults, weights[..n], k);
    }
  }

  /** The score is what comes before one weight, that weight's share, and what comes after. */
  lemma ScoreSplits(s: Signals, defaults: Signals, weights: seq<(string, real)>, m: nat)
    requires m < |weights|
    ensures Score(s, defaults, weights)
         == Score(s, defaults, weights[..m]) + Worth(s, defaults, weights[m].0) * weights[m].1 + Score(s, defaults, weights[m + 1..])
  {
    hide Score;
    var one := [(weights[m].0, weights[m].1)];
    assert weights == weights[..m] + one + weights[m + 1..];
    ScoresAdd(s, defaults, weights[..m] + one, weights[m + 1..]);
    ScoresAdd(s, defaults, weights[..m], one);
    OneWeight(s, defaults, weights[m].0, weights[m].1);
  }

  /** A signal that is listed once moves the score by its weight. */
  lemma SignalMovesScore(a: Signals, b: Signals, defaults: Signals, weights: seq<(string, real)>, m: nat)
    requires m < |weights| && DifferOnlyIn(a, b, weights[m].0)
    requires !Listed(weights[..m], weights[m].0) && !Listed(weights[m + 1..], weights[m].0)
    ensures Score(a, defaults, weights) - Score(b, defaults, weights)
         == Worth(a, defaults, weights[m].0) * weights[m].1 - Worth(b, defaults, weights[m].0) * weights[m].1
  {
    hide Score, Worth, Listed, DifferOnlyIn;
    ScoreSplits(a, defaults, weights, m);
    ScoreSplits(b, defaults, weights, m);
    UnlistedIsIgnored(a, b, defaults, weights[..m], weights[m].0);
    UnlistedIsIgnored(a, b, defaults, weights[m + 1..], weights[m].0);
  }

  lemma PlainRow(c: Candidate, sum: real, count: nat, p: Policy, seed: string)
    requires p.enabled == Some(false)
    ensures RowFor(c, sum, count, p, seed).score == Round(Score(c.signals, p.defaults, p.weights))
    ensures RowFor(c, sum, count, p, seed).adjustment == 0
  {
    hide Score, Relationships, RawAdjustment, Tie, MaxAdjustment;
    assert Raised(Score(c.signals, p.defaults, p.weights), 0.0) == Score(c.signals, p.defaults, p.weights);
    RoundZero();
  }

  lemma RoundZero()
    ensures Round(0.0) == 0
  {
  }

  /** `a` has the better value of the signal weighted at `m`, by a rounding unit or more, and is like `b` otherwise. */
  ghost predicate BetterAt(a: Signals, b: Signals, p: Policy, m: nat)
    requires m < |p.weights|
  {
    var k := p.weights[m].0;
    && !Listed(p.weights[..m], k) && !Listed(p.weights[m + 1..], k) && DifferOnlyIn(a, b, k)
    && Worth(a, p.defaults, k) * p.weights[m].1 >= Worth(b, p.defaults, k) * p.weights[m].1 + 0.0001
  }

  lemma BetterSignalScoresMore(a: Candidate, b: Candidate, sum: real, count: nat, p: Policy, seed: string, m: nat)
    requires p.enabled == Some(false) && m < |p.weights| && BetterAt(a.signals, b.signals, p, m)
    ensures Before(RowFor(a, sum, count, p, seed), RowFor(b, sum, count, p, seed))
  {
    hide Score, RowFor, Round, Worth, Listed, DifferOnlyIn;
    PlainRow(a, sum, count, p, seed);
    PlainRow(b, sum, count, p, seed);
    SignalMovesScore(a.signals, b.signals, p.defaults, p.weights, m);
    var x, y := Worth(a.signals, p.defaults, p.weights[m].0) * p.weights[m].1, Worth(b.signals, p.defaults, p.weights[m].0) * p.weights[m].1;
    assert x >= y + 0.0001;
    assert Score(a.signals, p.defaults, p.weights) - Score(b.signals, p.defaults, p.weights) == x - y;
    RoundStep(Score(a.signals, p.defaults, p.weights), Score(b.signals, p.defaults, p.weights));
  }

  /**
   * Without coordination, of two candidates that differ in one signal, listed once, the one whose
   * weighted value is a rounding unit larger or more stands ahead. A positive weight thus prefers the
   * larger signal and a negative one, as for a price, the smaller.
   */
  lemma BetterSignalRanksAhead(all: seq<Candidate>, p: Policy, seed: string, i: nat, j: nat, m: nat)
    requires p.enabled == Some(false) && m < |p.weights|
    requires i < |Rank(all, p, seed)| && j < |Rank(all, p, seed)|
    requires BetterAt(Rank(all, p, seed)[i].row.candidate.signals, Rank(all, p, seed)[j].row.candidate.signals, p, m)
    ensures Rank(all, p, seed)[i].rank < Rank(all, p, seed)[j].rank
  {
    hide BetterAt, RowFor;
    RankIsSortedPermutation(all, p, seed);
    var k := RankedRowOf(all, p, seed, i);
    var l := RankedRowOf(all, p, seed, j);
    BetterSignalScoresMore(all[k], all[l], CapacitySum(all), CapacityCount(all), p, seed, m);
  }

  /** Rounding is to the nearest unit of 1/10000, a half upwards. */
  lemma RoundIsNearest(v: real)
    ensures Round(v) as real - 0.5 <= v * 10000.0 < Round(v) as real + 0.5
  {
  }

  // ---------------------------------------------------------------------------------------------
  // The list

  /** The list is by score, then by base score, then by tie hash; ranks count from one. */
  lemma RankedByThreeLevels(all: seq<Candidate>, p: Policy, seed: string, i: nat, j: nat)
    requires i < j < |Rank(all, p, seed)|
    ensures
      var a, b := Rank(all, p, seed)[i], Rank(all, p, seed)[j];
      && a.rank == i + 1 && b.rank == j + 1 && a.row.score >= b.row.score
      && (a.row.score == b.row.score ==> a.row.baseScore >= b.row.baseScore)
      && (a.row.score == b.row.score && a.row.baseScore == b.row.baseScore ==> a.row.tie <= b.row.tie)
  {
    RankIsSortedPermutation(all, p, seed);
  }

  /** A ranked row carries its candidate's own figures: score and base in units of 1/10000, and the tie hash. */
  lemma RankedFigures(all: seq<Candidate>, p: Policy, seed: string, i: nat)
    requires i < |Rank(all, p, seed)|
    ensures
      var row := Rank(all, p, seed)[i].row;
      var base := Score(row.candidate.signals, p.defaults, p.weights);
      var adjustment := Adjustment(row.candidate.signals, Relationships(row.candidate.signals, CapacitySum(all), CapacityCount(all)), p);
      && row.baseScore == Round(base) && row.adjustment == Round(adjustment)
      && row.score == Round(Raised(base, adjustment)) && row.tie == Tie(seed, row.candidate.actorId)
  {
    hide Score, Adjustment, Relationships, Tie, Round;
    var k := RankedRowOf(all, p, seed, i);
  }

  /** An adjustment of a tenth raises a score by a tenth, and none leaves it. */
  lemma RaisedMeans(base: real, adjustment: real)
    ensures Raised(base, adjustment) - base == base * adjustment
    ensures Raised(base, 0.0) == base
  {
  }

  /** The capacities that candidates are compared with: their number and their sum, whoever has one. */
  lemma {:induction false} CapacitiesAdd(a: seq<Candidate>, b: seq<Candidate>)
    ensures CapacitySum(a + b) == CapacitySum(a) + CapacitySum(b)
    ensures CapacityCount(a + b) == CapacityCount(a) + CapacityCount(b)
  {
    if b == [] {
      assert a + b == a;
    } else {
      CapacitiesAdd(a, b[..|b| - 1]);
      assert (a + b)[..|a + b| - 1] == a + b[..|b| - 1];
    }
  }

  lemma OneCapacity(c: Candidate)
    ensures "capacity" in c.signals ==> CapacitySum([c]) == c.signals["capacity"] && CapacityCount([c]) == 1
    ensures "capacity" !in c.signals ==> CapacitySum([c]) == 0.0 && CapacityCount([c]) == 0
  {
    assert [c][..0] == [];
  }

  // ---------------------------------------------------------------------------------------------
  // Coordination

  /** Below the mean of at least two known capacities. */
  predicate BelowMean(s: Signals, sum: real, count: nat) {
    count > 1 && "capacity" in s && s["capacity"] < sum / (count as real)
  }

  predicate Reliable(s: Signals) { ("rating" in s && s["rating"] >= 4.0) || ("onTime" in s && s["onTime"] >= 0.9) }

  predicate Continuing(s: Signals) { "continuity" in s && s["continuity"] > 0.0 }

  /** How near a candidate is, between nothing known and one at the door. */
  function Nearness(s: Signals): real {
    if "etaMinutes" in s then (if s["etaMinutes"] <= 0.0 then 1.0 else 30.0 / (30.0 + s["etaMinutes"]))
    else if "distanceMiles" in s then (if s["distanceMiles"] <= 0.0 then 1.0 else 15.0 / (15.0 + s["distanceMiles"]))
    else 0.0
  }

  lemma QuotientScales(x: real, d: real)
    requires x > 0.0 && d > 0.0
    ensures 1.0 / (1.0 + x / d) == d / (d + x)
  {
    var q, r := x / d, 1.0 / (1.0 + x / d);
    assert q * d == x && r * (1.0 + q) == 1.0;
    Rearranged(r, 1.0 + q, d);
    assert r * (d + x) == d;
    QuotientIs(d, d + x, r);
  }

  lemma Rearranged(r: real, f: real, d: real)
    requires r * f == 1.0
    ensures r * (f * d) == d
  {
    assert r * (f * d) == (r * f) * d;
  }

  lemma QuotientIs(x: real, y: real, r: real)
    requires y > 0.0 && r * y == x
    ensures x / y == r
  {
  }

  lemma NearnessIsQuality(s: Signals)
    ensures SpatialQuality(s) == Nearness(s)
  {
    if "etaMinutes" in s {
      if s["etaMinutes"] > 0.0 { QuotientScales(s["etaMinutes"], 30.0); }
    } else if "distanceMiles" in s {
      if s["distanceMiles"] > 0.0 { QuotientScales(s["distanceMiles"], 15.0); }
    }
  }

  /**
   * The adjustment of a policy that sets no boosts, from the signals alone: 0.035 for continuity, 0.025
   * below the mean capacity, 0.025 for reliability, up to 0.04 for being near, and 0.12 at most in all.
   */
  lemma DefaultAdjustment(s: Signals, sum: real, count: nat, p: Policy)
    requires p.enabled != Some(false) && p.maxAdjustment.None?
    requires p.continuityBoost.None? && p.balanceBoost.None? && p.spatialBoost.None? && p.reliabilityBoost.None?
    ensures
      var total := (if Continuing(s) then 0.035 else 0.0) + (if BelowMean(s, sum, count) then 0.025 else 0.0)
        + (if Reliable(s) then 0.025 else 0.0) + 0.04 * Nearness(s);
      Adjustment(s, Relationships(s, sum, count), p) == if total <= 0.12 then total else 0.12
  {
    RawFromSignals(s, sum, count, p);
    RawBounded(s, Relationships(s, sum, count), p);
    hide Nearness, Relationships, RawAdjustment, Continuing, BelowMean, Reliable;
  }

  /** The boosts that apply, added up. */
  lemma RawFromSignals(s: Signals, sum: real, count: nat, p: Policy)
    ensures RawAdjustment(s, Relationships(s, sum, count), p)
         == (if Continuing(s) then Boost(p.continuityBoost, 0.035, 0.08) else 0.0)
          + (if BelowMean(s, sum, count) then Boost(p.balanceBoost, 0.025, 0.06) else 0.0)
          + (if Reliable(s) then Boost(p.reliabilityBoost, 0.025, 0.06) else 0.0)
          + Boost(p.spatialBoost, 0.04, 0.08) * Nearness(s)
  {
    hide SpatialQuality, Nearness, Relationships, Continuing, BelowMean, Reliable, Boost;
    NearnessIsQuality(s);
    LabelsMean(s, sum, count);
    NoPlaceNoQuality(s);
  }

  lemma NoPlaceNoQuality(s: Signals)
    ensures "distanceMiles" !in s && "etaMinutes" !in s ==> SpatialQuality(s) == 0.0
  {
  }

  /** The labels that matter, told from the signals. */
  lemma LabelsMean(s: Signals, sum: real, count: nat)
    ensures Continuity in Relationships(s, sum, count) <==> Continuing(s)
    ensures Counterweight in Relationships(s, sum, count) <==> BelowMean(s, sum, count)
    ensures Reliability in Relationships(s, sum, count) <==> Reliable(s)
    ensures Proximity in Relationships(s, sum, count) <==> "distanceMiles" in s || "etaMinutes" in s
    ensures Fit in Relationships(s, sum, count) <==> "capacity" in s && s["capacity"] > 0.0
  {
  }

  /** A policy's own boosts count as set, between zero and the cap of each; the whole between zero and its maximum. */
  lemma AdjustmentOfPolicy(s: Signals, sum: real, count: nat, p: Policy)
    requires p.enabled != Some(false)
    requires p.continuityBoost.Some? && p.balanceBoost.Some? && p.spatialBoost.Some? && p.reliabilityBoost.Some? && p.maxAdjustment.Some?
    requires 0.0 <= p.continuityBoost.value <= 0.08 && 0.0 <= p.balanceBoost.value <= 0.06 && 0.0 <= p.spatialBoost.value <= 0.08
    requires 0.0 <= p.reliabilityBoost.value <= 0.06 && 0.0 <= p.maxAdjustment.value <= 0.25
    ensures
      var total := (if Continuing(s) then p.continuityBoost.value else 0.0) + (if BelowMean(s, sum, count) then p.balanceBoost.value else 0.0)
        + (if Reliable(s) then p.reliabilityBoost.value else 0.0) + p.spatialBoost.value * Nearness(s);
      Adjustment(s, Relationships(s, sum, count), p) == if total <= p.maxAdjustment.value then total else p.maxAdjustment.value
  {
    RawFromSignals(s, sum, count, p);
    RawBounded(s, Relationships(s, sum, count), p);
    hide Nearness, Relationships, RawAdjustment, Continuing, BelowMean, Reliable;
  }

  lemma InverseFalls(d: real, x: real, y: real)
    requires d > 0.0 && 0.0 <= x < y
    ensures d / (d + x) > d / (d + y)
  {
    var q, r := d / (d + x), d / (d + y);
    assert q * (d + x) == d && r * (d + y) == d;
    SmallerFactor(q, d + x, r, d + y);
  }

  lemma SmallerFactor(q: real, x: real, r: real, y: real)
    requires 0.0 < x < y && q * x == r * y > 0.0
    ensures q > r
  {
    if r >= q {
      PositiveFactor(q, x);
      ProductStrict(q, x, y);
      ProductMonotone(y, q, r);
    }
  }

  lemma PositiveFactor(q: real, x: real)
    requires x > 0.0 && q * x > 0.0
    ensures q > 0.0
  {
  }

  lemma ProductStrict(r: real, x: real, y: real)
    requires r > 0.0 && x < y
    ensures r * x < r * y
  {
    assert r * (y - x) > 0.0;
  }

  /** Of two travel times the shorter is the nearer. */
  lemma SoonerIsNearer(a: Signals, b: Signals)
    requires "etaMinutes" in a && "etaMinutes" in b && 0.0 <= a["etaMinutes"] < b["etaMinutes"]
    ensures Nearness(a) > Nearness(b) > 0.0
  {
    InverseFalls(30.0, a["etaMinutes"], b["etaMinutes"]);
    assert 30.0 / (30.0 + 0.0) == 1.0;
    var r := 30.0 / (30.0 + b["etaMinutes"]);
    assert r * (30.0 + b["etaMinutes"]) == 30.0;
  }

  // ---------------------------------------------------------------------------------------------
  // The tie hash

  /** Published values of the 32-bit FNV-1a hash. */
  lemma FnvVectors()
    ensures Fnv("") == 0x811C9DC5
    ensures Fnv("a") == 0xE40C292C
    ensures Fnv("b") == 0xE70C2DE5
  {
    assert "a"[..0] == "" && "b"[..0] == "";
  }

  /** The hash of a longer text goes on from the hash of the shorter one. */
  lemma FnvGoesOn(text: string, c: char)
    ensures Fnv(text + [c]) == FnvStep(Fnv(text), c)
  {
    hide FnvStep;
    assert (text + [c])[..|text|] == text;
  }
}
