/** The engine's loops, each proved to compute the specification function of the same meaning. */
module RankingEngine {
  import opened Prelude
  import opened Ranking
  import Sorting

  /** The ranked list of the candidates under a policy and a seed. */
  method RankCoordinationCandidates(all: seq<Candidate>, p: Policy, seed: string) returns (ranked: seq<Ranked>)
    ensures ranked == Rank(all, p, seed)
  {
    hide RowFor, SortedRows;
    var sum, count := MeanCapacity(all);
    var rows: seq<Row> := [];
    for i := 0 to |all|
      invariant rows == Rows(all, p, seed)[..i]
    {
      var row := ScoreCandidate(all[i], sum, count, p, seed);
      rows := rows + [row];
    }
    assert Rows(all, p, seed)[..|all|] == Rows(all, p, seed);
    var sorted := SortRows(rows);
    ranked := [];
    for i := 0 to |sorted|
      invariant ranked == Rank(all, p, seed)[..i]
    {
      ranked := ranked + [Ranked(sorted[i], i + 1)];
    }
    assert Rank(all, p, seed)[..|sorted|] == Rank(all, p, seed);
  }

  method ScoreCandidate(c: Candidate, sum: real, count: nat, p: Policy, seed: string) returns (row: Row)
    ensures row == RowFor(c, sum, count, p, seed)
  {
    hide Adjustment, Relationships, Score, Tie;
    var base := ScoreWithPolicy(c.signals, p);
    var relationships := Relationships(c.signals, sum, count);
    var adjustment := BoundedAdjustment(c.signals, relationships, p);
    var tie := DeterministicTie(seed, c.actorId);
    row := Row(c, Round(base * (1.0 + adjustment)), Round(base), Round(adjustment), relationships, tie);
  }

  method MeanCapacity(all: seq<Candidate>) returns (sum: real, count: nat)
    ensures sum == CapacitySum(all) && count == CapacityCount(all)
  {
    sum, count := 0.0, 0;
    for i := 0 to |all|
      invariant sum == CapacitySum(all[..i]) && count == CapacityCount(all[..i])
    {
      assert all[..i + 1][..i] == all[..i];
      if "capacity" in all[i].signals {
        sum, count := sum + all[i].signals["capacity"], count + 1;
      }
    }
    assert all[..|all|] == all;
  }

  method ScoreWithPolicy(signals: Signals, p: Policy) returns (score: real)
    ensures score == Score(signals, p.defaults, p.weights)
  {
    score := 0.0;
    for i := 0 to |p.weights|
      invariant score == Score(signals, p.defaults, p.weights[..i])
    {
      assert p.weights[..i + 1][..i] == p.weights[..i];
      var signal, weight := p.weights[i].0, p.weights[i].1;
      var fallback := if signal in p.defaults then p.defaults[signal] else 0.0;
      var value := if signal in signals then signals[signal] else fallback;
      score := score + value * weight;
    }
    assert p.weights[..|p.weights|] == p.weights;
  }

  method BoundedAdjustment(s: Signals, relationships: seq<Relationship>, p: Policy) returns (adjustment: real)
    ensures adjustment == Adjustment(s, relationships, p)
  {
    if !Or(p.enabled, true) { return 0.0; }
    hide Boost, SpatialQuality, MaxAdjustment;
    adjustment := 0.0;
    if Continuity in relationships { adjustment := adjustment + Boost(p.continuityBoost, 0.035, 0.08); }
    if Counterweight in relationships { adjustment := adjustment + Boost(p.balanceBoost, 0.025, 0.06); }
    if Reliability in relationships { adjustment := adjustment + Boost(p.reliabilityBoost, 0.025, 0.06); }
    if Proximity in relationships { adjustment := adjustment + ProximityBoost(s, p); }
    adjustment := Clamp(adjustment, -MaxAdjustment(p), MaxAdjustment(p));
  }

  method DeterministicTie(seed: string, actorId: ActorId) returns (tie: nat)
    ensures tie == Tie(seed, actorId)
  {
    hide FnvStep;
    var text := seed + ":" + actorId;
    var hash := FNV_OFFSET;
    for i := 0 to |text|
      invariant hash == Fnv(text[..i])
    {
      assert text[..i + 1][..i] == text[..i];
      hash := FnvStep(hash, text[i]);
    }
    assert text[..|text|] == text;
    tie := hash as nat;
  }

  method SortRows(rows: seq<Row>) returns (sorted: seq<Row>)
    ensures sorted == SortedRows(rows)
  {
    sorted := [];
    for i := 0 to |rows|
      invariant sorted == Sorting.Sorted(Before, rows[..i])
    {
      assert rows[..i + 1][..i] == rows[..i];
      sorted := Sorting.Insert(Before, rows[i], sorted);
    }
    assert rows[..|rows|] == rows;
  }
}
