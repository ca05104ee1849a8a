/** Exact binomial tails, the exclusion bound, sample sizes and futility boundaries for paired outcomes. */
module Power {
  import opened Binomials

  /** A value, or the exception that refuses the arguments. */
  datatype Outcome<+T> = Value(value: T) | ValueError

  /** P(X <= k) for X binomial with `n` trials at rate `p`. */
  function Tail(k: int, n: nat, p: real): real {
    if k < 0 then 0.0 else Below(k + 1, n, p)
  }

  lemma TailIsProbability(k: int, n: nat, p: real)
    requires IsRate(p)
    ensures 0.0 <= Tail(k, n, p) <= 1.0
    ensures k >= n ==> Tail(k, n, p) == 1.0
  {
    if k >= 0 {
      BelowGrows(0, k + 1, n, p);
      BelowAll(k + 1 + n, n, p);
      BelowGrows(k + 1, k + 1 + n, n, p);
      if k >= n {
        BelowAll(k + 1, n, p);
      }
    }
  }

  lemma TailGrowsWithCount(j: int, k: int, n: nat, p: real)
    requires IsRate(p) && j <= k
    ensures Tail(j, n, p) <= Tail(k, n, p)
  {
    TailIsProbability(k, n, p);
    if j >= 0 {
      BelowGrows(j + 1, k + 1, n, p);
    }
  }

  lemma TailFallsWithRate(k: int, n: nat, p: real, p': real)
    requires IsRate(p) && IsRate(p') && p <= p'
    ensures Tail(k, n, p) >= Tail(k, n, p')
  {
    if k >= 0 {
      BelowFallsWithRate(k + 1, n, p, p');
    }
  }

  lemma TailFallsWithTrials(k: int, n: nat, p: real)
    requires IsRate(p)
    ensures Tail(k, n + 1, p) <= Tail(k, n, p)
  {
    if k >= 0 {
      BelowFallsWithTrials(k + 1, n, p);
    }
  }

  lemma {:induction false} OnePow(k: nat)
    ensures Pow(1.0, k) == 1.0
  {
    if k == 0 {
    } else {
      OnePow(k - 1);
    }
  }

  /** At rate zero no success is certain. */
  lemma {:induction false} BelowAtZero(m: nat, n: nat)
    requires m >= 1
    ensures Below(m, n, 0.0) == 1.0
  {
    if m > 1 {
      BelowAtZero(m - 1, n);
      if m - 1 <= n {
        assert Pow(0.0, m - 1) == 0.0 * Pow(0.0, m - 2) == 0.0;
      }
    } else {
      OnePow(n);
      NothingBelowZero(n, 0.0);
      FirstTerm(n, 0.0);
    }
  }

  function Min(x: real, y: real): real {
    if x <= y then x else y
  }

  lemma TermWritten(n: nat, i: nat, p: real, q: real)
    requires i <= n && q == 1.0 - p
    ensures Comb(n, i) as real * Pow(p, i) * Pow(q, n - i) == Term(n, i, p)
  {
    hide Pow, Comb;
  }

  /** The sum of the code, with its guards, is the tail; the cap at 1 never changes anything. */
  method ExactBinomialTail(k: int, n: int, p: real) returns (r: Outcome<real>)
    ensures r == if n < 0 || !IsRate(p) then ValueError else Value(Tail(k, n, p))
  {
    hide Term, Pow, Comb;
    if n < 0 || !(0.0 <= p <= 1.0) {
      return ValueError;
    }
    NothingBelowZero(n, p);
    TailIsProbability(k, n, p);
    if k < 0 {
      return Value(0.0);
    }
    if k >= n {
      return Value(1.0);
    }
    var q := 1.0 - p;
    var total := 0.0;
    for i := 0 to k + 1
      invariant total == Below(i, n, p)
    {
      TermWritten(n, i, p, q);
      var term := Comb(n, i) as real * Pow(p, i) * Pow(q, n - i);
      assert term == Term(n, i, p);
      total := total + term;
    }
    return Value(Min(1.0, total));
  }

  /******* The largest effect that is not excluded *******/

  function HalfPow(k: nat): (h: real)
    ensures h > 0.0
  {
    if k == 0 then 1.0 else HalfPow(k - 1) / 2.0
  }

  function Times(x: real, y: real): real {
    x * y
  }

  predicate OnGrid(p: real, m: int, h: real) {
    p == Times(m as real, h)
  }

  /** A rate that bisection can reach: a multiple of 2^-200. */
  ghost predicate IsMultiple(p: real) {
    exists m: int :: OnGrid(p, m, HalfPow(200))
  }

  /** The documented bound: the largest rate that is not excluded. */
  ghost predicate IsLargestKept(p: real, pairs: nat, uplift: int, alpha: real) {
    && IsRate(p) && Tail(uplift, pairs, p) >= alpha
    && forall q :: p < q <= 1.0 ==> Tail(uplift, pairs, q) < alpha
  }

  lemma ScaleOrder(x: real, y: real, h: real)
    requires h > 0.0
    ensures x < y ==> x * h < y * h
    ensures x <= y ==> x * h <= y * h
  {
  }

  lemma StepScaled(x: real, y: real, h: real)
    requires h > 0.0 && x + 1.0 <= y
    ensures Times(x, h) + h <= Times(y, h)
  {
    ScaleOrder(x + 1.0, y, h);
    assert (x + 1.0) * h == x * h + h;
  }

  lemma GridStep(p: real, q: real, m: int, n: int, h: real)
    requires h > 0.0 && OnGrid(p, m, h) && OnGrid(q, n, h)
    ensures m < n ==> p + h <= q
    ensures m == n ==> p == q
  {
    hide Times;
    if m < n {
      StepScaled(m as real, n as real, h);
    }
  }

  /** Between neighbours of a grid lies no other point of it. */
  lemma NextOnGrid(p: real, q: real, m: int, n: int, h: real)
    requires h > 0.0 && OnGrid(p, m, h) && OnGrid(q, n, h) && p <= q < p + h
    ensures m == n && p == q
  {
    hide OnGrid;
    GridStep(p, q, m, n, h);
    GridStep(q, p, n, m, h);
  }

  /** The largest rate that is not excluded, next to the end of the bisection. */
  lemma LargestKeptIsFound(p: real, pairs: nat, uplift: nat, alpha: real, lo: real, hi: real, m: int, h: real)
    requires IsLargestKept(p, pairs, uplift, alpha)
    requires 0.0 <= lo < hi <= 1.0 && hi - lo == h && OnGrid(lo, m, h) && h == HalfPow(200)
    requires lo == 0.0 || Tail(uplift, pairs, lo) >= alpha
    requires hi == 1.0 || Tail(uplift, pairs, hi) < alpha
    ensures lo == p <==> p < 1.0 && IsMultiple(p)
  {
    hide Tail, HalfPow, OnGrid;
    if lo == p {
      assert OnGrid(p, m, HalfPow(200));
    }
    assert lo <= p;
    if p < 1.0 && IsMultiple(p) {
      var n: int :| OnGrid(p, n, HalfPow(200));
      if p >= hi {
        TailFallsWithRate(uplift, pairs, hi, p);
        assert false;
      }
      NextOnGrid(lo, p, m, n, h);
    }
  }

  /** Where bisection to an interval of length `h` has ended. */
  lemma BisectionEnds(pairs: nat, uplift: int, alpha: real, lo: real, hi: real, m: int, h: real)
    requires uplift < pairs && 0.0 <= lo < hi <= 1.0 && hi - lo == h && OnGrid(lo, m, h) && h == HalfPow(200)
    requires lo == 0.0 || Tail(uplift, pairs, lo) >= alpha
    requires hi == 1.0 || Tail(uplift, pairs, hi) < alpha
    ensures forall p :: lo + h < p <= 1.0 ==> Tail(uplift, pairs, p) < alpha
    ensures uplift >= 0 ==> forall p :: IsLargestKept(p, pairs, uplift, alpha) ==>
              (lo == p <==> p < 1.0 && IsMultiple(p))
  {
    hide Tail, HalfPow, OnGrid, IsMultiple, IsLargestKept;
    forall p | lo + h < p <= 1.0
      ensures Tail(uplift, pairs, p) < alpha
    {
      TailFallsWithRate(uplift, pairs, hi, p);
    }
    forall p | 0 <= uplift && IsLargestKept(p, pairs, uplift, alpha)
      ensures lo == p <==> p < 1.0 && IsMultiple(p)
    {
      LargestKeptIsFound(p, pairs, uplift, alpha, lo, hi, m, h);
    }
  }

  lemma TailAtZero(uplift: nat, pairs: nat)
    ensures Tail(uplift, pairs, 0.0) == 1.0
  {
    BelowAtZero(uplift + 1, pairs);
  }

  lemma GridRefined(p: real, m: int, h: real, half: real)
    requires h == 2.0 * half && OnGrid(p, m, h)
    ensures OnGrid(p, 2 * m, half) && OnGrid(p + half, 2 * m + 1, half)
  {
    assert (2 * m) as real == 2.0 * m as real;
    assert (2 * m + 1) as real == 2.0 * m as real + 1.0;
  }

  /**
    Bisection for the exclusion bound. The result is a rate that is not excluded, or zero; every rate
    more than 2^-200 above it is excluded. In exact arithmetic, which is the one used here, it is the largest
    rate that is not excluded if and only if that rate is below one and a multiple of 2^-200; rounding may
    reach others.
   */
  method MaxEffectExcluded(pairs: int, uplift: int, confidence: real) returns (r: real)
    ensures IsRate(r)
    ensures pairs <= 0 || uplift >= pairs ==> r == 1.0
    ensures 0 < pairs && uplift < pairs ==> r == 0.0 || Tail(uplift, pairs, r) >= 1.0 - confidence
    ensures pairs > 0 && confidence >= 0.0 && uplift >= 0 ==> Tail(uplift, pairs, r) >= 1.0 - confidence
    ensures pairs > 0 ==> forall p :: r + HalfPow(200) < p <= 1.0 ==> Tail(uplift, pairs, p) < 1.0 - confidence
    ensures 0 <= uplift < pairs ==> forall p :: IsLargestKept(p, pairs, uplift, 1.0 - confidence) ==>
              (r == p <==> p < 1.0 && IsMultiple(p))
  {
    if pairs <= 0 {
      return 1.0;
    }
    if uplift >= pairs {
      TailIsProbability(uplift, pairs, 1.0);
      return 1.0;
    }
    hide Tail, HalfPow, OnGrid, IsLargestKept, IsMultiple;
    var alpha := 1.0 - confidence;
    var lo, hi := 0.0, 1.0;
    ghost var m := 0;
    for i := 0 to 200
      invariant 0.0 <= lo < hi <= 1.0 && hi - lo == HalfPow(i)
      invariant lo == 0.0 || Tail(uplift, pairs, lo) >= alpha
      invariant hi == 1.0 || Tail(uplift, pairs, hi) < alpha
      invariant OnGrid(lo, m, HalfPow(i))
    {
      GridRefined(lo, m, HalfPow(i), HalfPow(i + 1));
      var mid := (lo + hi) / 2.0;
      TailIsProbability(uplift, pairs, mid);
      var tail := ExactBinomialTail(uplift, pairs, mid);
      if tail.value >= alpha {
        lo := mid;
        m := 2 * m + 1;
      } else {
        hi := mid;
        m := 2 * m;
      }
    }
    if uplift >= 0 {
      TailAtZero(uplift, pairs);
    }
    BisectionEnds(pairs, uplift, alpha, lo, hi, m, HalfPow(200));
    return lo;
  }

  /******* Sample sizes *******/

  /** P(X >= 1), as the code computes upper tails. */
  function AtLeastOne(n: nat, p: real): real {
    1.0 - Tail(0, n, p)
  }

  /** The chance of at least one success is one minus that of none. */
  lemma AtLeastOneIs(n: nat, p: real)
    ensures AtLeastOne(n, p) == 1.0 - Pow(1.0 - p, n)
  {
    NothingBelowZero(n, p);
    FirstTerm(n, p);
    hide Term, Pow;
  }

  datatype SampleSize = SampleSize(effectivePairs: nat, totalPairs: int)

  const SEARCH_LIMIT := 100_000

  function Ceil(x: real): int {
    -((-x).Floor)
  }

  /** With `n` pairs, the chance of at least one uplift reaches the power. */
  predicate Reaches(n: nat, target: real, power: real) {
    1.0 - Pow(1.0 - target, n) >= power
  }

  /** `total` is the least number of pairs of which the given share is at least `n`. */
  predicate IsLeastTotal(total: int, n: nat, hitRate: real) {
    (total as real - 1.0) * hitRate < n as real <= total as real * hitRate
  }

  lemma CeilingIsLeastTotal(n: nat, hitRate: real)
    requires hitRate > 0.0
    ensures IsLeastTotal(Ceil(n as real / hitRate), n, hitRate)
  {
    var q := n as real / hitRate;
    var c := Ceil(q) as real;
    assert c - 1.0 < q <= c;
    assert q * hitRate == n as real;
    ScaleOrder(c - 1.0, q, hitRate);
    ScaleOrder(q, c, hitRate);
  }

  /** The effective number is the least one that reaches the power, unless none up to the search limit
      does; the total is the least number that yields so many at the given hit rate. */
  method RequiredPairs(target: real, hitRate: real, power: real) returns (r: Outcome<SampleSize>)
    ensures r.ValueError? <==> !(0.0 < target <= 1.0) || !(0.0 < hitRate <= 1.0) || !(0.0 < power < 1.0)
    ensures r.Value? ==> 1 <= r.value.effectivePairs <= 100_001
    ensures r.Value? ==> forall n :: 1 <= n < r.value.effectivePairs ==> !Reaches(n, target, power)
    ensures r.Value? && r.value.effectivePairs <= 100_000 ==> Reaches(r.value.effectivePairs, target, power)
    ensures r.Value? ==> IsLeastTotal(r.value.totalPairs, r.value.effectivePairs, hitRate)
  {
    if !(0.0 < target <= 1.0) || !(0.0 < hitRate <= 1.0) || !(0.0 < power < 1.0) {
      return ValueError;
    }
    hide Tail, Pow, IsLeastTotal;
    var n := 1;
    AtLeastOneIs(1, target);
    while AtLeastOne(n, target) < power
      invariant 1 <= n <= SEARCH_LIMIT
      invariant AtLeastOne(n, target) == 1.0 - Pow(1.0 - target, n)
      invariant forall m :: 1 <= m < n ==> !Reaches(m, target, power)
      decreases SEARCH_LIMIT + 1 - n
    {
      assert !Reaches(n, target, power);
      n := n + 1;
      AtLeastOneIs(n, target);
      if n > SEARCH_LIMIT {
        break;
      }
    }
    CeilingIsLeastTotal(n, hitRate);
    return Value(SampleSize(n, Ceil(n as real / hitRate)));
  }

  /******* Futility boundaries *******/

  /** `v` successes in `k` trials are few enough to give up. */
  predicate Futile(v: int, k: nat, target: real, alpha: real) {
    Tail(v, k, target) <= alpha
  }

  /** `b` is the largest futile count among 0..k, or 0 when there is none. */
  predicate IsBoundary(b: int, k: nat, target: real, alpha: real) {
    && 0 <= b <= k
    && (forall v :: 0 <= v <= k && Futile(v, k, target, alpha) ==> v <= b)
    && (b == 0 || Futile(b, k, target, alpha))
  }

  /** The number 0 has two meanings: the boundary is a futile count exactly when observing nothing at all is
      futile at this checkpoint. */
  lemma BoundaryFutileIff(b: int, k: nat, target: real, alpha: real)
    requires IsRate(target) && IsBoundary(b, k, target, alpha)
    ensures Futile(b, k, target, alpha) <==> Pow(1.0 - target, k) <= alpha
  {
    hide Tail, Pow;
    AtLeastOneIs(k, target);
    TailGrowsWithCount(0, b, k, target);
    assert Futile(0, k, target, alpha) <==> Pow(1.0 - target, k) <= alpha;
  }

  /** At a target rate of 0.3 and the default level the first boundary is 0, and 0 is not a futile count. */
  lemma FirstBoundaryIsNotFutile()
    ensures IsBoundary(0, 1, 0.3, 0.1) && !Futile(0, 1, 0.3, 0.1)
  {
    AtLeastOneIs(1, 0.3);
    assert Pow(0.7, 1) == 0.7 * Pow(0.7, 0) == 0.7;
    assert Tail(0, 1, 0.3) == 0.7;
    TailGrowsWithCount(0, 1, 1, 0.3);
    hide Tail;
  }

  /** What is futile after `k` trials is still futile after one more. */
  lemma StaysFutile(v: int, k: nat, target: real, alpha: real)
    requires IsRate(target) && Futile(v, k, target, alpha)
    ensures Futile(v, k + 1, target, alpha)
  {
    TailFallsWithTrials(v, k, target);
  }

  /** The search that stops at the first count that is not futile finds the largest futile one. */
  method LargestFutile(k: nat, target: real, alpha: real) returns (boundary: int)
    requires IsRate(target)
    ensures -1 <= boundary <= k
    ensures forall v :: 0 <= v <= k ==> (Futile(v, k, target, alpha) <==> v <= boundary)
  {
    boundary := -1;
    for v := 0 to k + 1
      invariant boundary == v - 1
      invariant forall u :: 0 <= u < v ==> Futile(u, k, target, alpha)
    {
      var tail := ExactBinomialTail(v, k, target);
      if tail.value <= alpha {
        boundary := v;
      } else {
        forall u | v <= u <= k ensures !Futile(u, k, target, alpha) {
          TailGrowsWithCount(v, u, k, target);
        }
        break;
      }
    }
  }

  /** One boundary a checkpoint. Each is decided at its own checkpoint alone: forcing the sequence to be
      monotone never changes a boundary beyond the floor at zero. */
  method FutilityBoundary(planned: int, target: real, alpha: real) returns (r: Outcome<seq<int>>)
    ensures r.ValueError? <==> planned > 0 && !IsRate(target)
    ensures r.Value? ==> |r.value| == if planned <= 0 then 0 else planned
    ensures r.Value? ==> forall k :: 0 <= k < |r.value| ==> IsBoundary(r.value[k], k + 1, target, alpha)
    ensures r.Value? ==> forall k :: 0 <= k < |r.value| ==>
              (Futile(r.value[k], k + 1, target, alpha) <==> Pow(1.0 - target, k + 1) <= alpha)
    ensures r.Value? ==> forall i, j :: 0 <= i < j < |r.value| ==> r.value[i] <= r.value[j]
  {
    if planned <= 0 {
      return Value([]);
    }
    if !(0.0 <= target <= 1.0) {
      return ValueError;
    }
    var checkpoints: seq<int> := [];
    var prev := 0;
    for k := 1 to planned + 1
      invariant |checkpoints| == k - 1
      invariant prev == if k == 1 then 0 else checkpoints[k - 2]
      invariant forall i :: 0 <= i < |checkpoints| ==> IsBoundary(checkpoints[i], i + 1, target, alpha)
      invariant forall i, j :: 0 <= i < j < |checkpoints| ==> checkpoints[i] <= checkpoints[j]
    {
      var boundary := LargestFutile(k, target, alpha);
      if k > 1 && prev > 0 {
        assert IsBoundary(checkpoints[k - 2], k - 1, target, alpha);
        StaysFutile(prev, k - 1, target, alpha);
        assert prev <= boundary;
      }
      boundary := if boundary >= prev then boundary else prev;
      assert IsBoundary(boundary, k, target, alpha);
      prev := boundary;
      checkpoints := checkpoints + [boundary];
    }
    forall k | 0 <= k < |checkpoints|
      ensures Futile(checkpoints[k], k + 1, target, alpha) <==> Pow(1.0 - target, k + 1) <= alpha
    {
      BoundaryFutileIff(checkpoints[k], k + 1, target, alpha);
    }
    return Value(checkpoints);
  }
}
