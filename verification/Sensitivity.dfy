/** Instrument sensitivity: Fisher's exact test on one positive-control cell and its classification. */
module Sensitivity {
  import opened Binomials
  import opened Power

  function MinNat(a: nat, b: nat): nat { if a <= b then a else b }

  function MaxInt(a: int, b: int): int { if a >= b then a else b }

  /** The number of tables, with the margins fixed, that have fewer than `treatmentResolved` resolved
      outcomes in the treatment arm. */
  function TablesBelow(controlTotal: nat, treatmentTotal: nat, margin: nat, treatmentResolved: nat): nat
    requires treatmentResolved <= margin
  {
    Convolution(treatmentTotal, controlTotal, margin, treatmentResolved)
  }

  /** The number of tables with exactly `k` of the `m` resolved outcomes among `a` and the others among `b`. */
  function TablesAt(a: nat, b: nat, m: nat, k: nat): int
    requires k <= m
  {
    Comb(a, k) * Comb(b, m - k)
  }

  function AllTables(controlTotal: nat, treatmentTotal: nat, margin: nat): nat {
    Comb(controlTotal + treatmentTotal, margin)
  }

  predicate ValidCell(cr: int, ct: int, tr: int, tt: int) {
    ct >= 0 && tt > 0 && 0 <= cr <= ct && 0 <= tr <= tt
  }

  function Quotient(x: int, d: int): real
    requires d > 0
  {
    x as real / d as real
  }

  /** The share of tables with at least `tr` resolved outcomes in the treatment arm. */
  function UpperShare(cr: nat, ct: nat, tr: nat, tt: nat): real
    requires ValidCell(cr, ct, tr, tt)
  {
    CombPositive(ct + tt, cr + tr);
    var all := AllTables(ct, tt, cr + tr);
    Quotient(all - TablesBelow(ct, tt, cr + tr, tr), all)
  }

  /** Tables outside the margin bounds do not exist. */
  lemma {:induction false} NoTablesAbove(a: nat, b: nat, m: nat, i: nat, j: nat)
    requires MinNat(a, m) + 1 <= i <= j <= m + 1
    ensures Convolution(a, b, m, j) == Convolution(a, b, m, i)
    decreases j
  {
    if i < j {
      NoTablesAbove(a, b, m, i, j - 1);
      CombAbove(a, j - 1);
    }
  }

  lemma {:induction false} NoTablesBelow(a: nat, b: nat, m: nat, j: nat)
    requires j <= MaxInt(0, m - b)
    ensures Convolution(a, b, m, j) == 0
  {
    if j == 0 {
    } else {
      NoTablesBelow(a, b, m, j - 1);
      CombAbove(b, m - (j - 1));
    }
  }

  lemma AddQuotients(x: int, y: int, d: int)
    requires d > 0
    ensures Quotient(x, d) + Quotient(y, d) == Quotient(x + y, d)
    ensures Quotient(0, d) == 0.0
  {
    assert (x + y) as real == x as real + y as real;
  }

  /** Summing up to the margin bound reaches all tables. */
  lemma SummedShare(cr: nat, ct: nat, tr: nat, tt: nat)
    requires ValidCell(cr, ct, tr, tt)
    ensures var m := cr + tr;
            && AllTables(ct, tt, m) > 0
            && Quotient(Convolution(tt, ct, m, MinNat(tt, m) + 1) - TablesBelow(ct, tt, m, tr), AllTables(ct, tt, m))
               == UpperShare(cr, ct, tr, tt)
  {
    hide Quotient, Comb, Convolution;
    var m := cr + tr;
    NoTablesAbove(tt, ct, m, MinNat(tt, m) + 1, m + 1);
    Vandermonde(tt, ct, m);
    CombPositive(ct + tt, m);
  }

  lemma NothingSummed(cr: nat, ct: nat, tr: nat, tt: nat)
    requires ValidCell(cr, ct, tr, tt) && AllTables(ct, tt, cr + tr) > 0
    ensures var m := cr + tr;
            Quotient(Convolution(tt, ct, m, tr) - TablesBelow(ct, tt, m, tr), AllTables(ct, tt, m)) == 0.0
  {
    hide Convolution, AllTables;
  }

  lemma OneMoreTable(a: nat, b: nat, m: nat, k: nat)
    requires k <= m
    ensures Convolution(a, b, m, k + 1) == Convolution(a, b, m, k) + TablesAt(a, b, m, k)
  {
  }

  lemma QuotientBounds(x: int, d: int)
    requires 0 <= x <= d && d > 0
    ensures 0.0 <= Quotient(x, d) <= 1.0
    ensures Quotient(x, d) == 1.0 <==> x == d
    ensures x > 0 ==> Quotient(x, d) > 0.0
  {
    var q := x as real / d as real;
    assert q * d as real == x as real;
  }

  /** A table that the margins allow counts for something. */
  lemma TableAdded(a: nat, b: nat, m: nat, k: nat)
    requires k <= a && k <= m && m - k <= b
    ensures Convolution(a, b, m, k + 1) > Convolution(a, b, m, k)
  {
    CombPositive(a, k);
    CombPositive(b, m - k);
  }

  /** The p-value is a positive probability, and it is one exactly when the observed table has the least
      count the margins allow: no control outcome is unresolved, or no treatment outcome is resolved. */
  lemma ShareIsProbability(cr: nat, ct: nat, tr: nat, tt: nat)
    requires ValidCell(cr, ct, tr, tt)
    ensures 0.0 < UpperShare(cr, ct, tr, tt) <= 1.0
    ensures UpperShare(cr, ct, tr, tt) == 1.0 <==> tr == MaxInt(0, cr + tr - ct)
  {
    hide Comb, Convolution;
    var m := cr + tr;
    Vandermonde(tt, ct, m);
    ConvolutionMonotone(tt, ct, m, tr + 1, m + 1);
    TableAdded(tt, ct, m, tr);
    CombPositive(ct + tt, m);
    QuotientBounds(AllTables(ct, tt, m) - TablesBelow(ct, tt, m, tr), AllTables(ct, tt, m));
    if tr == MaxInt(0, m - ct) {
      NoTablesBelow(tt, ct, m, tr);
    } else {
      TableAdded(tt, ct, m, tr - 1);
    }
  }

  /** The sum of the code over the tables from the observed one up to the margin bound is the upper share;
      the skipped tables and the cap at 1 make no difference. */
  method FisherExactOneSided(cr: int, ct: int, tr: int, tt: int) returns (r: Outcome<real>)
    ensures r == if ValidCell(cr, ct, tr, tt) then Value(UpperShare(cr, ct, tr, tt)) else ValueError
  {
    hide Quotient, Comb, Convolution, TablesAt, TablesBelow, UpperShare, AllTables;
    if ct < 0 || tt <= 0 || !(0 <= cr <= ct) || !(0 <= tr <= tt) {
      return ValueError;
    }
    var margin := cr + tr;
    var lo := MaxInt(0, margin - ct);
    var hi := MinNat(tt, margin);
    SummedShare(cr, ct, tr, tt);
    NothingSummed(cr, ct, tr, tt);
    var all := AllTables(ct, tt, margin);
    ghost var skipped: int := TablesBelow(ct, tt, margin, tr);
    var p := 0.0;
    for k := tr to hi + 1
      invariant p == Quotient(Convolution(tt, ct, margin, k) - skipped, all)
    {
      if k < lo {
        continue;
      }
      ghost var before: int := Convolution(tt, ct, margin, k);
      var tables := TablesAt(tt, ct, margin, k);
      OneMoreTable(tt, ct, margin, k);
      AddQuotients(before - skipped, tables, all);
      p := p + Quotient(tables, all);
    }
    ShareIsProbability(cr, ct, tr, tt);
    return Value(Min(1.0, p));
  }

  /** Counting tables by the resolved outcomes of the other arm takes them in the opposite order. */
  lemma {:induction false} TablesReflected(a: nat, b: nat, m: nat, j: nat)
    requires j <= m + 1
    ensures Convolution(a, b, m, j) + Convolution(b, a, m, m + 1 - j) == Comb(a + b, m)
  {
    hide Comb;
    if j == 0 {
      Vandermonde(b, a, m);
    } else {
      TablesReflected(a, b, m, j - 1);
      OneMoreTable(b, a, m, m + 1 - j);
      assert TablesAt(b, a, m, m + 1 - j) == Comb(a, j - 1) * Comb(b, m - (j - 1));
    }
  }

  /** The p-value and that of the arms exchanged, for one outcome less, add up to one: the tables counted are
      just those with at least the observed number in the treatment arm. */
  lemma ArmsExchanged(cr: nat, ct: nat, tr: nat, tt: nat)
    requires ValidCell(cr, ct, tr, tt) && cr < ct && 0 < tr
    ensures UpperShare(cr, ct, tr, tt) + UpperShare(tr - 1, tt, cr + 1, ct) == 1.0
  {
    hide Comb, Convolution, Quotient;
    var m := cr + tr;
    CombPositive(ct + tt, m);
    TablesReflected(tt, ct, m, tr);
    var all := AllTables(ct, tt, m);
    AddQuotients(all - TablesBelow(ct, tt, m, tr), all - TablesBelow(tt, ct, m, cr + 1), all);
    QuotientBounds(all, all);
  }

  lemma QuotientOrder(x: int, y: int, d: int)
    requires x <= y && d > 0
    ensures Quotient(x, d) <= Quotient(y, d)
  {
  }

  /** With the same margins, more resolved treatment outcomes never give a larger p-value. */
  lemma ShareFalls(cr: nat, ct: nat, tr: nat, tt: nat, cr': nat, tr': nat)
    requires ValidCell(cr, ct, tr, tt) && ValidCell(cr', ct, tr', tt)
    requires cr + tr == cr' + tr' && tr <= tr'
    ensures UpperShare(cr, ct, tr, tt) >= UpperShare(cr', ct, tr', tt)
  {
    hide Comb, Convolution, Quotient;
    var m := cr + tr;
    CombPositive(ct + tt, m);
    ConvolutionMonotone(tt, ct, m, tr, tr');
    var all := AllTables(ct, tt, m);
    QuotientOrder(all - TablesBelow(ct, tt, m, tr'), all - TablesBelow(ct, tt, m, tr), all);
  }

  /** Perfect separation: every treatment outcome resolved, no control outcome. */
  lemma PerfectSeparation(n: nat)
    requires n >= 1
    ensures Comb(2 * n, n) > 0
    ensures UpperShare(0, n, n, n) == 1.0 / Comb(2 * n, n) as real
  {
    CombPositive(2 * n, n);
    Vandermonde(n, n, n);
    CombDiagonal(n);
    assert Convolution(n, n, n, n + 1) == Convolution(n, n, n, n) + Comb(n, n) * Comb(n, 0);
  }

  /******* Classification *******/

  datatype Label = Detected | FlipObservedUnderpowered | NotDetected

  function CountTrue(outcomes: seq<bool>): (n: nat)
    ensures n <= |outcomes|
  {
    if outcomes == [] then 0
    else CountTrue(outcomes[..|outcomes| - 1]) + if outcomes[|outcomes| - 1] then 1 else 0
  }

  /** Counted wherever they stand. */
  lemma {:induction false} CountTrueIs(outcomes: seq<bool>)
    ensures CountTrue(outcomes) == multiset(outcomes)[true]
  {
    if outcomes != [] {
      var n := |outcomes| - 1;
      CountTrueIs(outcomes[..n]);
      assert outcomes == outcomes[..n] + [outcomes[n]];
    }
  }

  const TOLERANCE := 0.000000001

  method ClassifySensitivity(control: seq<bool>, treatment: seq<bool>, alpha: real) returns (r: Outcome<Label>)
    ensures treatment == [] <==> r.ValueError?
    ensures treatment != [] ==>
              var resolved := CountTrue(treatment);
              var p := UpperShare(CountTrue(control), |control|, resolved, |treatment|);
              && (r.value.NotDetected? <==> resolved == 0)
              && (r.value.Detected? <==> resolved > 0 && p < alpha - 0.000000001)
  {
    var controlResolved, treatmentResolved := CountTrue(control), CountTrue(treatment);
    var p := FisherExactOneSided(controlResolved, |control|, treatmentResolved, |treatment|);
    if p.ValueError? {
      return ValueError;
    }
    if treatmentResolved > 0 && p.value < alpha - TOLERANCE {
      return Value(Detected);
    } else if treatmentResolved > 0 {
      return Value(FlipObservedUnderpowered);
    }
    return Value(NotDetected);
  }

  lemma {:induction false} CountAll(n: nat, value: bool)
    ensures CountTrue(seq(n, i => value)) == if value then n else 0
  {
    var all := seq(n, i => value);
    if n == 0 {
    } else {
      CountAll(n - 1, value);
      assert all[..n - 1] == seq(n - 1, i => value);
    }
  }

  lemma Pascal(n: nat, k: nat)
    ensures Comb(n + 1, k + 1) == Comb(n, k) + Comb(n, k + 1)
    ensures Comb(n, 0) == 1
  {
  }

  lemma SmallCentral()
    ensures Comb(2, 1) == 2 && Comb(4, 2) == 6 && Comb(6, 3) == 20 && Comb(8, 4) == 70
  {
    hide Comb;
    Pascal(0, 0); CombAbove(0, 1); CombAbove(1, 2); CombAbove(2, 3); CombAbove(3, 4);
    Pascal(1, 0); Pascal(1, 1); CombDiagonal(1);
    Pascal(2, 0); Pascal(2, 1); Pascal(2, 2);
    Pascal(3, 0); Pascal(3, 1); Pascal(3, 2); Pascal(3, 3);
    Pascal(4, 0); Pascal(4, 1); Pascal(4, 2); Pascal(4, 3);
    Pascal(5, 1); Pascal(5, 2); Pascal(5, 3);
    Pascal(6, 2); Pascal(6, 3);
    Pascal(7, 3);
  }

  lemma {:induction false} CentralFromFour(n: nat)
    requires n >= 4
    ensures Comb(2 * n, n) >= 70
  {
    if n == 4 {
      SmallCentral();
    } else {
      CentralFromFour(n - 1);
    }
  }

  lemma Reciprocal(x: real, y: real)
    requires 0.0 < x <= y
    ensures 1.0 / x >= 1.0 / y
  {
    assert (1.0 / x) * x == 1.0 && (1.0 / y) * y == 1.0;
  }

  /** At the level 0.05 a balanced cell with a perfect effect is detected exactly from four pairs on. */
  lemma PerfectCellDetectedIff(n: nat)
    requires n >= 1
    ensures UpperShare(0, n, n, n) < 0.05 - TOLERANCE <==> n >= 4
  {
    PerfectSeparation(n);
    var c := Comb(2 * n, n) as real;
    SmallCentral();
    if n >= 4 {
      CentralFromFour(n);
      Reciprocal(70.0, c);
    } else {
      assert n == 1 || n == 2 || n == 3;
      Reciprocal(c, 20.0);
    }
  }

  /** The classification of the pre-registered perfect cell, for every size. */
  method ClassifyPerfectCell(n: nat) returns (r: Outcome<Label>)
    requires n >= 1
    ensures r == Value(if n >= 4 then Detected else FlipObservedUnderpowered)
  {
    CountAll(n, true);
    CountAll(n, false);
    PerfectCellDetectedIff(n);
    r := ClassifySensitivity(seq(n, i => false), seq(n, i => true), 0.05);
  }
}
