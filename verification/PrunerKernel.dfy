/** The weighted similarity of a window of turns, and when it reaches the pruning threshold. */
module PrunerKernel {
  import opened Binomials

  const WINDOW := 5

  /** 1 - (1/3)^2 */
  const MAX_CONFIDENCE := 8.0 / 9.0

  /** (8/9 + 2/3) / 2 */
  const SEMANTIC_THRESHOLD := 7.0 / 9.0

  function Distance(i: nat, j: nat): nat {
    if i <= j then j - i else i - j
  }

  /** The weight of a pair: `decay` stands for exp(-1/f) = exp(-3). */
  function Weight(decay: real, i: nat, j: nat): real {
    if i == j then 0.0 else Pow(decay, Distance(i, j))
  }

  /** A pair counts in full when `all` is set, and otherwise only when its two signatures are equal. */
  function PairValue(s: seq<string>, decay: real, all: bool, i: nat, j: nat): real
    requires i < |s| && j < |s|
  {
    if all || s[i] == s[j] then Weight(decay, i, j) else 0.0
  }

  function RowSum(s: seq<string>, decay: real, all: bool, i: nat, j: nat): real
    requires i < |s| && j <= |s|
  {
    if j == 0 then 0.0 else RowSum(s, decay, all, i, j - 1) + PairValue(s, decay, all, i, j - 1)
  }

  function PairSum(s: seq<string>, decay: real, all: bool, i: nat): real
    requires i <= |s|
  {
    if i == 0 then 0.0 else PairSum(s, decay, all, i - 1) + RowSum(s, decay, all, i - 1, |s|)
  }

  /** The share of the weight of all pairs that pairs of equal signatures have. */
  function WindowScore(s: seq<string>, decay: real): real {
    var total := PairSum(s, decay, true, |s|);
    if |s| < 2 || total <= 0.0 then 0.0 else PairSum(s, decay, false, |s|) / total
  }

  method CalculateWindowStr(s: seq<string>, decay: real) returns (score: real)
    ensures score == WindowScore(s, decay)
  {
    if |s| < 2 {
      return 0.0;
    }
    var numerator, denominator := 0.0, 0.0;
    for i := 0 to |s|
      invariant numerator == PairSum(s, decay, false, i) && denominator == PairSum(s, decay, true, i)
    {
      ghost var n0, d0 := numerator, denominator;
      for j := 0 to |s|
        invariant numerator == n0 + RowSum(s, decay, false, i, j)
        invariant denominator == d0 + RowSum(s, decay, true, i, j)
      {
        if i == j {
          continue;
        }
        var weight := Pow(decay, Distance(i, j));
        var kernel := if s[i] == s[j] then 1.0 else 0.0;
        numerator := numerator + kernel * weight;
        denominator := denominator + weight;
      }
    }
    return if denominator > 0.0 then numerator / denominator else 0.0;
  }

  ghost predicate AllEqual(s: seq<string>) {
    forall i :: 0 <= i < |s| ==> s[i] == s[0]
  }

  /******* Weights are positive; a missing pair costs its weight *******/

  predicate IsDecay(decay: real) {
    0.0 < decay <= 0.5
  }

  lemma WeightNonNegative(decay: real, i: nat, j: nat)
    requires IsDecay(decay)
    ensures Weight(decay, i, j) >= 0.0
  {
    PowNonNegative(decay, Distance(i, j));
  }

  /** What a row loses by unequal signatures: nothing less than nothing, and at least the weight of any one
      unequal pair in it. */
  lemma {:induction false} RowLoss(s: seq<string>, decay: real, i: nat, j: nat, k: nat)
    requires IsDecay(decay) && i < |s| && j <= |s| && k < |s|
    ensures RowSum(s, decay, false, i, j) <= RowSum(s, decay, true, i, j)
    ensures k < j && s[i] != s[k] ==>
              RowSum(s, decay, false, i, j) + Weight(decay, i, k) <= RowSum(s, decay, true, i, j)
  {
    if j == 0 {
    } else {
      RowLoss(s, decay, i, j - 1, k);
      WeightNonNegative(decay, i, j - 1);
    }
  }

  /** The two rows of an unequal neighbouring pair each lose the weight of the pair. */
  lemma {:induction false} PairLoss(s: seq<string>, decay: real, i: nat, k: nat)
    requires IsDecay(decay) && i <= |s| && k + 1 < |s| && s[k] != s[k + 1]
    ensures PairSum(s, decay, false, i) + (if k + 1 < i then decay + decay else if k < i then decay else 0.0)
            <= PairSum(s, decay, true, i)
  {
    if i == 0 {
    } else {
      PairLoss(s, decay, i - 1, k);
      assert Pow(decay, 0) == 1.0;
      assert Pow(decay, 1) == decay;
      if i - 1 == k {
        RowLoss(s, decay, k, |s|, k + 1);
        assert Weight(decay, k, k + 1) == decay;
      } else if i - 1 == k + 1 {
        RowLoss(s, decay, k + 1, |s|, k);
        assert Weight(decay, k + 1, k) == decay;
      } else {
        RowLoss(s, decay, i - 1, |s|, k);
      }
    }
  }

  lemma {:induction false} EqualRowsAreFull(s: seq<string>, decay: real, i: nat, j: nat)
    requires AllEqual(s) && i < |s| && j <= |s|
    ensures RowSum(s, decay, false, i, j) == RowSum(s, decay, true, i, j)
  {
    if j == 0 {
    } else {
      EqualRowsAreFull(s, decay, i, j - 1);
    }
  }

  lemma {:induction false} EqualSumsAreFull(s: seq<string>, decay: real, i: nat)
    requires AllEqual(s) && i <= |s|
    ensures PairSum(s, decay, false, i) == PairSum(s, decay, true, i)
  {
    if i == 0 {
    } else {
      EqualSumsAreFull(s, decay, i - 1);
      EqualRowsAreFull(s, decay, i - 1, |s|);
    }
  }

  /** The weight of all pairs in a window of five. */
  function FullWeight(d: real): real {
    8.0 * d + 6.0 * (d * d) + 4.0 * (d * (d * d)) + 2.0 * (d * (d * (d * d)))
  }

  lemma SmallPowers(d: real)
    ensures Pow(d, 0) == 1.0 && Pow(d, 1) == d && Pow(d, 2) == d * d && Pow(d, 3) == d * (d * d)
    ensures Pow(d, 4) == d * (d * (d * d))
  {
    assert Pow(d, 0) == 1.0;
    assert Pow(d, 1) == d;
    assert Pow(d, 2) == d * d;
    assert Pow(d, 3) == d * (d * d);
    assert Pow(d, 4) == d * (d * (d * d));
  }

  lemma FiveInRow(s: seq<string>, d: real, i: nat)
    requires |s| == WINDOW && i < WINDOW
    ensures RowSum(s, d, true, i, WINDOW) ==
            Weight(d, i, 0) + Weight(d, i, 1) + Weight(d, i, 2) + Weight(d, i, 3) + Weight(d, i, 4)
  {
    hide Weight;
    assert RowSum(s, d, true, i, 0) == 0.0;
    assert RowSum(s, d, true, i, 1) == Weight(d, i, 0);
    assert RowSum(s, d, true, i, 2) == RowSum(s, d, true, i, 1) + Weight(d, i, 1);
    assert RowSum(s, d, true, i, 3) == RowSum(s, d, true, i, 2) + Weight(d, i, 2);
    assert RowSum(s, d, true, i, 4) == RowSum(s, d, true, i, 3) + Weight(d, i, 3);
  }

  lemma FiveRows(s: seq<string>, d: real)
    requires |s| == WINDOW
    ensures PairSum(s, d, true, WINDOW) ==
            RowSum(s, d, true, 0, WINDOW) + RowSum(s, d, true, 1, WINDOW) + RowSum(s, d, true, 2, WINDOW)
            + RowSum(s, d, true, 3, WINDOW) + RowSum(s, d, true, 4, WINDOW)
  {
    hide RowSum;
    assert PairSum(s, d, true, 0) == 0.0;
    assert PairSum(s, d, true, 1) == RowSum(s, d, true, 0, WINDOW);
    assert PairSum(s, d, true, 2) == PairSum(s, d, true, 1) + RowSum(s, d, true, 1, WINDOW);
    assert PairSum(s, d, true, 3) == PairSum(s, d, true, 2) + RowSum(s, d, true, 2, WINDOW);
    assert PairSum(s, d, true, 4) == PairSum(s, d, true, 3) + RowSum(s, d, true, 3, WINDOW);
  }

  lemma FullWeightOfFive(s: seq<string>, d: real)
    requires |s| == WINDOW
    ensures PairSum(s, d, true, WINDOW) == FullWeight(d)
  {
    hide RowSum, PairSum, Pow;
    SmallPowers(d);
    FiveRows(s, d);
    FiveInRow(s, d, 0);
    FiveInRow(s, d, 1);
    FiveInRow(s, d, 2);
    FiveInRow(s, d, 3);
    FiveInRow(s, d, 4);
  }

  lemma Halves(d: real, x: real) returns (y: real)
    requires IsDecay(d) && x > 0.0
    ensures y == d * x && 0.0 < y <= x / 2.0
  {
    y := d * x;
    assert (0.5 - d) * x >= 0.0;
    assert (0.5 - d) * x == x / 2.0 - d * x;
  }

  /** One neighbouring pair, counted both ways, is more than a ninth of the weight. */
  lemma PairIsNoticeable(d: real)
    requires IsDecay(d)
    ensures 0.0 < FullWeight(d) < 18.0 * d
  {
    var d2 := Halves(d, d);
    var d3 := Halves(d, d2);
    var d4 := Halves(d, d3);
    assert FullWeight(d) == 8.0 * d + 6.0 * d2 + 4.0 * d3 + 2.0 * d4;
  }

  lemma QuotientAgainst(x: real, total: real, bound: real)
    requires total > 0.0
    ensures x / total >= bound <==> x >= bound * total
  {
    var q := x / total;
    assert q * total == x;
    if q >= bound {
      assert (q - bound) * total >= 0.0;
      assert (q - bound) * total == q * total - bound * total;
    } else {
      assert (bound - q) * total > 0.0;
      assert (bound - q) * total == bound * total - q * total;
    }
  }

  lemma {:induction false} UnequalNeighbours(s: seq<string>, i: nat) returns (k: nat)
    requires i < |s| && s[i] != s[0]
    ensures k + 1 < |s| && s[k] != s[k + 1]
  {
    if s[i - 1] != s[i] {
      k := i - 1;
    } else {
      k := UnequalNeighbours(s, i - 1);
    }
  }

  /** The threshold collapses: a window of five passes exactly when its five signatures are equal. */
  lemma WindowPassesIffAllEqual(s: seq<string>, decay: real)
    requires IsDecay(decay) && |s| == WINDOW
    ensures WindowScore(s, decay) >= MAX_CONFIDENCE <==> AllEqual(s)
    ensures WINDOW == 5 && MAX_CONFIDENCE == 8.0 / 9.0
  {
    hide PairSum, FullWeight;
    var equal, total := PairSum(s, decay, false, WINDOW), PairSum(s, decay, true, WINDOW);
    FullWeightOfFive(s, decay);
    PairIsNoticeable(decay);
    QuotientAgainst(equal, total, MAX_CONFIDENCE);
    if AllEqual(s) {
      EqualSumsAreFull(s, decay, WINDOW);
    } else {
      var i :| 0 <= i < |s| && s[i] != s[0];
      var k := UnequalNeighbours(s, i);
      PairLoss(s, decay, WINDOW, k);
    }
  }
}
