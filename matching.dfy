/**
 * calculateMatchScore of the Express API: a weighted similarity of two spice vectors.
 * Each axis contributes 100 minus its absolute difference; the weights are 0.35, 0.35
 * and 0.30. The model works in exact integers: the weighted sum scaled by 100 is
 * S = 35(100 - d1) + 35(100 - d2) + 30(100 - d3), and Math.round(S / 100), which rounds
 * halves upwards, is floor((S + 50) / 100).
 */
module Matching {
  import opened Domain

  function Abs(x: int): nat {
    if x < 0 then -x else x
  }

  predicate InRange(v: SpiceVector) {
    0 <= v.spiciness <= 100 && 0 <= v.stimulation <= 100 && 0 <= v.aroma <= 100
  }

  /** One hundred times the weighted similarity for the three axis differences. */
  function WeightedSum(d1: int, d2: int, d3: int): int {
    35 * (100 - d1) + 35 * (100 - d2) + 30 * (100 - d3)
  }

  /** Math.round(s / 100): Dafny's division by a positive number rounds down. */
  function RoundHundredths(s: int): int {
    (s + 50) / 100
  }

  function ScoreOfDiffs(d1: int, d2: int, d3: int): int {
    RoundHundredths(WeightedSum(d1, d2, d3))
  }

  function MatchScore(user: SpiceVector, shop: SpiceVector): (r: int)
    ensures InRange(user) && InRange(shop) ==> 0 <= r <= 100
  {
    ScoreOfDiffs(Abs(user.spiciness - shop.spiciness),
                 Abs(user.stimulation - shop.stimulation),
                 Abs(user.aroma - shop.aroma))
  }

  /** RoundHundredths is rounding to the nearest integer with halves going up, as Math.round does. */
  lemma RoundIsNearest(s: int)
    ensures 100 * RoundHundredths(s) - 50 <= s < 100 * RoundHundredths(s) + 50
  {
  }

  /** Between in-range vectors the score stays in 0..100. */
  lemma ScoreBounds(user: SpiceVector, shop: SpiceVector)
    requires InRange(user) && InRange(shop)
    ensures 0 <= MatchScore(user, shop) <= 100
  {
  }

  lemma IdenticalScoresHundred(v: SpiceVector)
    ensures MatchScore(v, v) == 100
  {
  }

  lemma OppositeCornersScoreZero()
    ensures MatchScore(SpiceVector(0, 0, 0), SpiceVector(100, 100, 100)) == 0
  {
  }

  /** round(31.5 + 31.5 + 24.0) == 87. */
  lemma WorkedExample()
    ensures MatchScore(SpiceVector(50, 50, 50), SpiceVector(60, 40, 70)) == 87
  {
  }

  lemma Symmetric(a: SpiceVector, b: SpiceVector)
    ensures MatchScore(a, b) == MatchScore(b, a)
  {
  }

  /** Larger differences on the axes, none smaller, never raise the score. */
  lemma {:induction false} MonotoneInDiffs(d1: int, d2: int, d3: int, e1: int, e2: int, e3: int)
    requires d1 <= e1 && d2 <= e2 && d3 <= e3
    ensures ScoreOfDiffs(e1, e2, e3) <= ScoreOfDiffs(d1, d2, d3)
  {
    DivMonotone(WeightedSum(e1, e2, e3) + 50, WeightedSum(d1, d2, d3) + 50);
  }

  lemma DivMonotone(a: int, b: int)
    requires a <= b
    ensures a / 100 <= b / 100
  {
  }

  /** A shop that is, on every axis, at least as far from the user as another scores no higher. */
  lemma FartherShopScoresNoHigher(user: SpiceVector, shop: SpiceVector, farther: SpiceVector)
    requires Abs(user.spiciness - farther.spiciness) >= Abs(user.spiciness - shop.spiciness)
    requires Abs(user.stimulation - farther.stimulation) >= Abs(user.stimulation - shop.stimulation)
    requires Abs(user.aroma - farther.aroma) >= Abs(user.aroma - shop.aroma)
    ensures MatchScore(user, farther) <= MatchScore(user, shop)
  {
    MonotoneInDiffs(Abs(user.spiciness - shop.spiciness), Abs(user.stimulation - shop.stimulation),
                    Abs(user.aroma - shop.aroma), Abs(user.spiciness - farther.spiciness),
                    Abs(user.stimulation - farther.stimulation), Abs(user.aroma - farther.aroma));
  }
}
