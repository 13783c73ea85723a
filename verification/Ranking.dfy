/**
 * The coordination engine of src/services/coordination-engine.ts over exact arithmetic. Rounded
 * scores are kept as whole numbers of 1/10000, which is what the engine compares.
 */
module Ranking {
  import opened Prelude
  import Sorting

  /** The finite signals of a candidate; an absent key is a missing or non-finite signal. */
  type Signals = map<string, real>

  datatype Candidate = Candidate(actorId: ActorId, signals: Signals)

  datatype Policy = Policy(
    weights: seq<(string, real)>, defaults: Signals, enabled: Option<bool>, maxAdjustment: Option<real>,
    continuityBoost: Option<real>, balanceBoost: Option<real>, spatialBoost: Option<real>, reliabilityBoost: Option<real>)

  datatype Relationship = Fit | Proximity | Continuity | Reliability | Balance | Counterweight

  datatype Row = Row(candidate: Candidate, score: int, baseScore: int, adjustment: int, relationships: seq<Relationship>, tie: nat)

  datatype Ranked = Ranked(row: Row, rank: nat)

  // ---------------------------------------------------------------------------------------------
  // Arithmetic

  function Or<T>(o: Option<T>, default: T): T { if o.Some? then o.value else default }

  function MinR(a: real, b: real): real { if a <= b then a else b }

  function MaxR(a: real, b: real): real { if a >= b then a else b }

  function Clamp(v: real, lo: real, hi: real): real { MinR(hi, MaxR(lo, v)) }

  /** Rounding half up to a whole number of 1/10000. */
  function Round(v: real): int { (v * 10000.0 + 0.5).Floor }

  // ---------------------------------------------------------------------------------------------
  // Scores

  function Score(signals: Signals, defaults: Signals, weights: seq<(string, real)>): real {
    if weights == [] then 0.0
    else
      var n := |weights| - 1;
      Score(signals, defaults, weights[..n]) + Weighted(signals, defaults, weights[n])
  }

  function Weighted(signals: Signals, defaults: Signals, w: (string, real)): real {
    (if w.0 in signals then signals[w.0] else if w.0 in defaults then defaults[w.0] else 0.0) * w.1
  }

  function CapacitySum(all: seq<Candidate>): real {
    if all == [] then 0.0
    else
      var n := |all| - 1;
      CapacitySum(all[..n]) + if "capacity" in all[n].signals then all[n].signals["capacity"] else 0.0
  }

  function CapacityCount(all: seq<Candidate>): nat {
    if all == [] then 0
    else
      var n := |all| - 1;
      CapacityCount(all[..n]) + if "capacity" in all[n].signals then 1 else 0
  }

  predicate Above(s: Signals, signal: string, bound: real, strict: bool) {
    signal in s && (if strict then s[signal] > bound else s[signal] >= bound)
  }

  /** The labels of a candidate among candidates with the given capacities. */
  function Relationships(s: Signals, sum: real, count: nat): seq<Relationship> {
    (if Above(s, "capacity", 0.0, true) then [Fit] else [])
    + (if "distanceMiles" in s || "etaMinutes" in s then [Proximity] else [])
    + (if Above(s, "continuity", 0.0, true) then [Continuity] else [])
    + (if Above(s, "rating", 4.0, false) || Above(s, "onTime", 0.9, false) then [Reliability] else [])
    + (if count > 1 && "capacity" in s
       then (if s["capacity"] >= sum / (count as real) then [Balance] else [Counterweight])
       else [])
  }

  function SpatialQuality(s: Signals): real {
    if "etaMinutes" in s then 1.0 / (1.0 + MaxR(0.0, s["etaMinutes"]) / 30.0)
    else if "distanceMiles" in s then 1.0 / (1.0 + MaxR(0.0, s["distanceMiles"]) / 15.0)
    else 0.0
  }

  function MaxAdjustment(p: Policy): real { Clamp(Or(p.maxAdjustment, 0.12), 0.0, 0.25) }

  /** A boost the policy may set, kept between zero and its own cap. */
  function Boost(choice: Option<real>, default: real, cap: real): real { Clamp(Or(choice, default), 0.0, cap) }

  /** What being near adds: the spatial boost in proportion to how near. */
  function ProximityBoost(s: Signals, p: Policy): real { Boost(p.spatialBoost, 0.04, 0.08) * SpatialQuality(s) }

  function RawAdjustment(s: Signals, rel: seq<Relationship>, p: Policy): real {
    (if Continuity in rel then Boost(p.continuityBoost, 0.035, 0.08) else 0.0)
    + (if Counterweight in rel then Boost(p.balanceBoost, 0.025, 0.06) else 0.0)
    + (if Reliability in rel then Boost(p.reliabilityBoost, 0.025, 0.06) else 0.0)
    + (if Proximity in rel then ProximityBoost(s, p) else 0.0)
  }

  function Adjustment(s: Signals, rel: seq<Relationship>, p: Policy): real {
    if Or(p.enabled, true) then Clamp(RawAdjustment(s, rel, p), -MaxAdjustment(p), MaxAdjustment(p)) else 0.0
  }

  // ---------------------------------------------------------------------------------------------
  // The tie hash: FNV-1a over the seed and the actor, in 32 bits

  const FNV_OFFSET: bv32 := 2166136261

  function FnvStep(hash: bv32, c: char): bv32 { (hash ^ (c as int as bv32)) * 16777619 }

  function Fnv(text: string): bv32 {
    if text == [] then FNV_OFFSET else FnvStep(Fnv(text[..|text| - 1]), text[|text| - 1])
  }

  function Tie(seed: string, actorId: ActorId): nat { Fnv(seed + ":" + actorId) as nat }

  // ---------------------------------------------------------------------------------------------
  // Rows and their order

  /** A base score raised by an adjustment. */
  function Raised(base: real, adjustment: real): real { base * (1.0 + adjustment) }

  function RowFor(c: Candidate, sum: real, count: nat, p: Policy, seed: string): Row {
    var base := Score(c.signals, p.defaults, p.weights);
    var rel := Relationships(c.signals, sum, count);
    var adjustment := Adjustment(c.signals, rel, p);
    Row(c, Round(Raised(base, adjustment)), Round(base), Round(adjustment), rel, Tie(seed, c.actorId))
  }

  function Rows(all: seq<Candidate>, p: Policy, seed: string): (rows: seq<Row>)
    ensures |rows| == |all|
    ensures forall i :: 0 <= i < |all| ==> rows[i] == RowFor(all[i], CapacitySum(all), CapacityCount(all), p, seed)
  {
    seq(|all|, i requires 0 <= i < |all| => RowFor(all[i], CapacitySum(all), CapacityCount(all), p, seed))
  }

  /** The comparator is negative: `a` sorts strictly before `b`. */
  predicate Before(a: Row, b: Row) {
    a.score > b.score || (a.score == b.score && (a.baseScore > b.baseScore || (a.baseScore == b.baseScore && a.tie < b.tie)))
  }

  function SortedRows(rows: seq<Row>): seq<Row> { Sorting.Sorted(Before, rows) }

  /** The ranked list the engine returns. */
  function Rank(all: seq<Candidate>, p: Policy, seed: string): (ranked: seq<Ranked>)
    ensures |ranked| == |SortedRows(Rows(all, p, seed))|
    ensures forall i :: 0 <= i < |ranked| ==> ranked[i] == Ranked(SortedRows(Rows(all, p, seed))[i], i + 1)
  {
    var sorted := SortedRows(Rows(all, p, seed));
    seq(|sorted|, i requires 0 <= i < |sorted| => Ranked(sorted[i], i + 1))
  }

  ghost predicate DistinctTies(all: seq<Candidate>, seed: string) {
    forall i, j :: 0 <= i < j < |all| ==> Tie(seed, all[i].actorId) != Tie(seed, all[j].actorId)
  }
}
