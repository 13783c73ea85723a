/** Technician standing and head starts (src/services/open-jobs.ts), over exact arithmetic. */
module Standing {

  datatype Tier = Gold | Silver | Bronze

  datatype JobRank = Premium | Standard | Basic

  // ---------------------------------------------------------------------------------------------
  // Standing

  function RatingBayes(ratingSum: nat, ratingCount: nat): real {
    (ratingSum as real + 22.5) / (ratingCount as real + 5.0)
  }

  function CompletionBayes(completed: nat, settled: nat): real {
    (completed as real + 4.5) / (settled as real + 5.0)
  }

  function Experience(completed: nat): real {
    if completed >= 20 then 1.0 else completed as real / 20.0
  }

  function RawScore(ratingSum: nat, ratingCount: nat, completed: nat, settled: nat): real {
    45.0 * ((RatingBayes(ratingSum, ratingCount) - 1.0) / 4.0)
    + 35.0 * CompletionBayes(completed, settled) + 20.0 * Experience(completed)
  }

  function Score(ratingSum: nat, ratingCount: nat, completed: nat, settled: nat): int {
    (RawScore(ratingSum, ratingCount, completed, settled) + 0.5).Floor
  }

  function TierOf(score: int): Tier { if score >= 80 then Gold else if score >= 60 then Silver else Bronze }

  /** Histories that can occur: stars between one and five, and no more finished than settled jobs. */
  predicate History(ratingSum: nat, ratingCount: nat, completed: nat, settled: nat) {
    ratingCount <= ratingSum <= 5 * ratingCount && completed <= settled
  }

  // ---------------------------------------------------------------------------------------------
  // Quotients

  lemma ProductMonotone(x: real, lo: real, hi: real)
    requires x >= 0.0 && lo <= hi
    ensures x * lo <= x * hi
  {
    assert x * (hi - lo) >= 0.0;
  }

  lemma Sign(d: real, b: real)
    requires b > 0.0
    ensures d > 0.0 <==> d * b > 0.0
    ensures d < 0.0 <==> d * b < 0.0
  {
  }

  /** A quotient is at most `v` when its numerator is at most `v` times its denominator, and so on. */
  lemma QuotientBound(a: real, b: real, v: real)
    requires b > 0.0
    ensures a <= v * b ==> a / b <= v
    ensures a >= v * b ==> a / b >= v
    ensures a < v * b ==> a / b < v
  {
    var q := a / b;
    assert q * b == a;
    assert (q - v) * b == a - v * b;
    Sign(q - v, b);
  }

  lemma LargerNumerator(a: real, c: real, b: real)
    requires b > 0.0 && a <= c
    ensures a / b <= c / b
  {
    var q := c / b;
    assert q * b == c;
    QuotientBound(a, b, q);
  }

  /** One more sample of value `v` moves an average towards `v`. */
  lemma SampleMoves(a: real, b: real, v: real)
    requires b > 0.0
    ensures a <= v * b ==> (a + v) / (b + 1.0) >= a / b
    ensures a >= v * b ==> (a + v) / (b + 1.0) <= a / b
  {
    var q := a / b;
    assert q * b == a;
    assert q * (b + 1.0) == a + q;
    QuotientBound(a, b, v);
    QuotientBound(a + v, b + 1.0, q);
  }

  // ---------------------------------------------------------------------------------------------
  // Fairness

  lemma RatingBounds(ratingSum: nat, ratingCount: nat)
    requires ratingCount <= ratingSum <= 5 * ratingCount
    ensures 1.0 <= RatingBayes(ratingSum, ratingCount) < 5.0
  {
    QuotientBound(ratingSum as real + 22.5, ratingCount as real + 5.0, 1.0);
    QuotientBound(ratingSum as real + 22.5, ratingCount as real + 5.0, 5.0);
  }

  lemma CompletionBounds(completed: nat, settled: nat)
    requires completed <= settled
    ensures 0.0 <= CompletionBayes(completed, settled) <= 1.0
  {
    QuotientBound(completed as real + 4.5, settled as real + 5.0, 0.0);
    QuotientBound(completed as real + 4.5, settled as real + 5.0, 1.0);
  }

  /** The score stays within 0..100. */
  lemma ScoreInRange(ratingSum: nat, ratingCount: nat, completed: nat, settled: nat)
    requires History(ratingSum, ratingCount, completed, settled)
    ensures 0 <= Score(ratingSum, ratingCount, completed, settled) <= 100
  {
    hide RatingBayes, CompletionBayes;
    RatingBounds(ratingSum, ratingCount);
    CompletionBounds(completed, settled);
  }

  /**
   * Finishing a job never lowers the score: neither a job that settles by being finished, nor one
   * that had already settled unfinished, two days after it was accepted.
   */
  lemma FinishingNeverLowers(ratingSum: nat, ratingCount: nat, completed: nat, settled: nat)
    requires History(ratingSum, ratingCount, completed, settled)
    ensures Score(ratingSum, ratingCount, completed + 1, settled + 1) >= Score(ratingSum, ratingCount, completed, settled)
    ensures completed < settled ==>
      Score(ratingSum, ratingCount, completed + 1, settled) >= Score(ratingSum, ratingCount, completed, settled)
  {
    hide RatingBayes;
    SampleMoves(completed as real + 4.5, settled as real + 5.0, 1.0);
    assert CompletionBayes(completed + 1, settled + 1) == (completed as real + 4.5 + 1.0) / (settled as real + 5.0 + 1.0);
    assert CompletionBayes(completed + 1, settled + 1) >= CompletionBayes(completed, settled);
    if completed < settled {
      LargerNumerator(completed as real + 4.5, (completed + 1) as real + 4.5, settled as real + 5.0);
      assert CompletionBayes(completed + 1, settled) >= CompletionBayes(completed, settled);
    }
    hide CompletionBayes;
  }

  /** A settled job that was not finished never raises it. */
  lemma UnfinishedNeverRaises(ratingSum: nat, ratingCount: nat, completed: nat, settled: nat)
    requires History(ratingSum, ratingCount, completed, settled)
    ensures Score(ratingSum, ratingCount, completed, settled + 1) <= Score(ratingSum, ratingCount, completed, settled)
  {
    hide RatingBayes;
    SampleMoves(completed as real + 4.5, settled as real + 5.0, 0.0);
    assert CompletionBayes(completed, settled + 1) == (completed as real + 4.5 + 0.0) / (settled as real + 5.0 + 1.0);
  }

  /** Five stars never lower it. */
  lemma FiveStarsNeverLower(ratingSum: nat, ratingCount: nat, completed: nat, settled: nat)
    requires History(ratingSum, ratingCount, completed, settled)
    ensures Score(ratingSum + 5, ratingCount + 1, completed, settled) >= Score(ratingSum, ratingCount, completed, settled)
  {
    hide CompletionBayes;
    SampleMoves(ratingSum as real + 22.5, ratingCount as real + 5.0, 5.0);
    assert RatingBayes(ratingSum + 5, ratingCount + 1) == (ratingSum as real + 22.5 + 5.0) / (ratingCount as real + 5.0 + 1.0);
  }

  /** One star never raises it. */
  lemma OneStarNeverRaises(ratingSum: nat, ratingCount: nat, completed: nat, settled: nat)
    requires History(ratingSum, ratingCount, completed, settled)
    ensures Score(ratingSum + 1, ratingCount + 1, completed, settled) <= Score(ratingSum, ratingCount, completed, settled)
  {
    hide CompletionBayes;
    SampleMoves(ratingSum as real + 22.5, ratingCount as real + 5.0, 1.0);
    assert RatingBayes(ratingSum + 1, ratingCount + 1) == (ratingSum as real + 22.5 + 1.0) / (ratingCount as real + 5.0 + 1.0);
  }

  lemma Distributes(a: real, b: real, c: real, d: real)
    requires d == b + c
    ensures a * d == a * b + a * c
  {
  }

  lemma ShareAtMost(a: real, v: real)
    requires a <= 1.0 && v >= 0.0
    ensures a * v <= v
  {
    ProductMonotone(v, a, 1.0);
  }

  lemma CapCovers(c: real, s: real, m: real, cap: real)
    requires 0.0 <= c <= m && c <= s && 0.0 <= cap <= 1.0
    requires cap * (m + 5.0) == m + 4.5
    ensures c + 4.5 <= cap * (s + 5.0)
  {
    var done, left, all := c + 5.0, m - c, m + 5.0;
    Distributes(cap, done, left, all);
    ShareAtMost(cap, left);
    assert cap * done >= c + 4.5;
    ProductMonotone(cap, done, s + 5.0);
  }

  lemma QuotientTimes(a: real, b: real)
    requires b > 0.0
    ensures (a / b) * b == a
  {
  }

  /** With at most `most` jobs finished, the completion share is at most what finishing every settled job gives. */
  lemma CompletionCap(completed: nat, settled: nat, most: nat)
    requires completed <= settled && completed <= most
    ensures CompletionBayes(completed, settled) <= (most as real + 4.5) / (most as real + 5.0)
  {
    var c, s, m := completed as real, settled as real, most as real;
    var cap := (m + 4.5) / (m + 5.0);
    QuotientBound(m + 4.5, m + 5.0, 1.0);
    QuotientBound(m + 4.5, m + 5.0, 0.0);
    QuotientTimes(m + 4.5, m + 5.0);
    CapCovers(c, s, m, cap);
    QuotientBound(c + 4.5, s + 5.0, cap);
  }

  /** No rating history makes a technician gold before the third finished job. */
  lemma GoldNeedsThreeJobs(ratingSum: nat, ratingCount: nat, completed: nat, settled: nat)
    requires History(ratingSum, ratingCount, completed, settled)
    requires TierOf(Score(ratingSum, ratingCount, completed, settled)) == Gold
    ensures completed >= 3
  {
    hide RatingBayes, CompletionBayes;
    if completed < 3 {
      RatingBounds(ratingSum, ratingCount);
      CompletionCap(completed, settled, 2);
      assert false;
    }
  }

  /** Three finished jobs and a hundred five-star ratings do make gold: the bound is exact. */
  lemma ThreeJobsCanMakeGold()
    ensures History(500, 100, 3, 3) && TierOf(Score(500, 100, 3, 3)) == Gold
  {
    assert RatingBayes(500, 100) == 522.5 / 105.0;
    assert CompletionBayes(3, 3) == 7.5 / 8.0;
  }

  /** A technician nobody knows yet starts as silver. */
  lemma NewcomerIsSilver()
    ensures TierOf(Score(0, 0, 0, 0)) == Silver
  {
    assert RatingBayes(0, 0) == 4.5;
    assert CompletionBayes(0, 0) == 0.9;
  }

  /** Scores of some histories: nobody known, five good jobs, twenty, a poor rating, and unfinished work. */
  lemma KnownScores()
    ensures Score(0, 0, 0, 0) == 71 && Score(25, 5, 5, 5) == 80 && Score(75, 15, 20, 20) == 98
    ensures Score(5, 5, 0, 0) == 51 && Score(0, 0, 0, 5) == 55 && Score(0, 0, 10, 20) == 70
  {
    assert RatingBayes(0, 0) == 4.5 && RatingBayes(25, 5) == 4.75 && RatingBayes(75, 15) == 4.875 && RatingBayes(5, 5) == 2.75;
    assert CompletionBayes(0, 0) == 0.9 && CompletionBayes(5, 5) == 0.95 && CompletionBayes(20, 20) == 0.98;
    assert CompletionBayes(0, 5) == 0.45 && CompletionBayes(10, 20) == 0.58;
  }

  /** Gold from eighty points, silver from sixty. */
  lemma TierBounds(score: int)
    ensures TierOf(score) == Gold <==> 80 <= score
    ensures TierOf(score) == Silver <==> 60 <= score < 80
    ensures TierOf(score) == Bronze <==> score < 60
  {
  }

  // ---------------------------------------------------------------------------------------------
  // Head starts

  function BaseDelay(rank: JobRank, tier: Tier): nat {
    match rank
    case Premium => (match tier case Gold => 0 case Silver => 120 case Bronze => 300)
    case Standard => (match tier case Gold => 0 case Silver => 45 case Bronze => 120)
    case Basic => 0
  }

  /** Seconds before a tier sees a job; an emergency halves them, rounding half up. */
  function ReleaseDelay(rank: JobRank, tier: Tier, emergency: bool): nat {
    if emergency then (BaseDelay(rank, tier) + 1) / 2 else BaseDelay(rank, tier)
  }

  /** The head starts in seconds, and what an emergency leaves of them. */
  lemma HeadStarts(rank: JobRank, tier: Tier)
    ensures tier == Gold || rank == Basic ==> ReleaseDelay(rank, tier, false) == 0 == ReleaseDelay(rank, tier, true)
    ensures ReleaseDelay(Premium, Silver, false) == 120 && ReleaseDelay(Premium, Bronze, false) == 300
    ensures ReleaseDelay(Standard, Silver, false) == 45 && ReleaseDelay(Standard, Bronze, false) == 120
    ensures ReleaseDelay(Premium, Silver, true) == 60 && ReleaseDelay(Premium, Bronze, true) == 150
    ensures ReleaseDelay(Standard, Silver, true) == 23 && ReleaseDelay(Standard, Bronze, true) == 60
  {
    assert BaseDelay(Premium, Silver) == 120 && BaseDelay(Premium, Bronze) == 300;
  }

  function Order(tier: Tier): nat { match tier case Gold => 0 case Silver => 1 case Bronze => 2 }

  lemma BetterTierSooner(rank: JobRank, better: Tier, worse: Tier, emergency: bool)
    requires Order(better) <= Order(worse)
    ensures ReleaseDelay(rank, better, emergency) <= ReleaseDelay(rank, worse, emergency)
  {
  }
}
