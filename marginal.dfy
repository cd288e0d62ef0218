/** Two reference definitions of progressive tax, independent of the engine's
    walk: the textbook sum over brackets of rate times the part of the income
    inside the bracket, and the sum over each dollar of the rate of the
    bracket that dollar falls in. Dollars are counted from 1: the income
    `income` consists of the dollars 1, 2, ..., income. */
module Marginal {
  import opened Schedule

  /** The number of the dollars 1..income that lie in [b.min, b.max]. */
  function Portion(b: Bracket, income: int): nat {
    var lo := if b.min < 1 then 1 else b.min;
    var hi := if income < b.max then income else b.max;
    if hi < lo then 0 else hi - lo + 1
  }

  /** The tax on n dollars at one rate: the rate once for every dollar. */
  function DollarsAt(n: nat, rate: real): real {
    if n == 0 then 0.0 else DollarsAt(n - 1, rate) + rate
  }

  /** Sum of rate times portion over the brackets s[i..]. */
  function MarginalFrom(s: seq<Bracket>, i: nat, income: int): real
    decreases |s| - i
  {
    if i >= |s| then 0.0
    else DollarsAt(Portion(s[i], income), s[i].rate) + MarginalFrom(s, i + 1, income)
  }

  /** Textbook marginal tax: each bracket's rate on the part of the income
      inside that bracket. */
  function MarginalSum(s: seq<Bracket>, income: int): real {
    MarginalFrom(s, 0, income)
  }

  /** The rate of the first bracket, from index i down, that holds dollar d,
      or 0 when none does. */
  function RateFrom(s: seq<Bracket>, i: nat, d: int): real
    decreases |s| - i
  {
    if i >= |s| then 0.0
    else if Contains(s[i], d) then s[i].rate
    else RateFrom(s, i + 1, d)
  }

  /** Each dollar taxed at the rate of the bracket it occupies. */
  function DollarTax(s: seq<Bracket>, income: int): real
    decreases income
  {
    if income <= 0 then 0.0 else DollarTax(s, income - 1) + RateFrom(s, 0, income)
  }

  // ---------------------------------------------------------------------
  // Lemmas

  /** Adding dollar x adds one to the portion of exactly the brackets holding x. */
  lemma PortionIncrement(b: Bracket, x: int)
    requires 1 <= x
    ensures Portion(b, x) == Portion(b, x - 1) + (if Contains(b, x) then 1 else 0)
  {
  }

  /** n dollars at a rate cost n times the rate. */
  lemma {:induction false} DollarsAtIsProduct(n: nat, rate: real)
    ensures DollarsAt(n, rate) == n as real * rate
  {
    if n > 0 {
      DollarsAtIsProduct(n - 1, rate);
      assert n as real * rate == (n - 1) as real * rate + rate;
    }
  }

  /** No income, or a negative one, has no dollars in any bracket. */
  lemma {:induction false} MarginalNonPositive(s: seq<Bracket>, i: nat, income: int)
    requires income <= 0
    ensures MarginalFrom(s, i, income) == 0.0
    decreases |s| - i
  {
    if i < |s| {
      assert Portion(s[i], income) == 0;
      MarginalNonPositive(s, i + 1, income);
    }
  }

  /** Once the income fills bracket k, income beyond it changes nothing in
      s[k..]: every lower bracket is full too. */
  lemma {:induction false} MarginalSaturated(s: seq<Bracket>, k: nat, x: int, y: int)
    requires WellFormed(s)
    requires k < |s|
    requires s[k].max <= x && s[k].max <= y
    ensures MarginalFrom(s, k, x) == MarginalFrom(s, k, y)
    decreases |s| - k
  {
    assert Portion(s[k], x) == Portion(s[k], y);
    if k + 1 < |s| {
      assert s[k + 1].max == s[k].min - 1;
      MarginalSaturated(s, k + 1, x, y);
    }
  }

  /** Adding dollar x to the income adds the rate of the bracket holding x. */
  lemma {:induction false} MarginalIncrement(s: seq<Bracket>, i: nat, x: int)
    requires WellFormed(s)
    requires i <= |s| && 1 <= x
    ensures MarginalFrom(s, i, x) == MarginalFrom(s, i, x - 1) + RateFrom(s, i, x)
    decreases |s| - i
  {
    if i < |s| {
      var b := s[i];
      var p, q := Portion(b, x), Portion(b, x - 1);
      var restP, restQ := MarginalFrom(s, i + 1, x), MarginalFrom(s, i + 1, x - 1);
      PortionIncrement(b, x);
      if Contains(b, x) {
        assert restP == restQ by {
          if i + 1 < |s| {
            assert s[i + 1].max == b.min - 1;
            MarginalSaturated(s, i + 1, x, x - 1);
          }
        }
      } else {
        MarginalIncrement(s, i + 1, x);
      }
    }
  }

  /** The per-bracket sum and the per-dollar sum agree for every income. */
  lemma {:induction false} MarginalIsDollarTax(s: seq<Bracket>, income: int)
    requires WellFormed(s)
    ensures MarginalSum(s, income) == DollarTax(s, income)
    decreases income
  {
    if income <= 0 {
      MarginalNonPositive(s, 0, income);
    } else {
      MarginalIncrement(s, 0, income);
      MarginalIsDollarTax(s, income - 1);
    }
  }

  lemma {:induction false} RateBounds(s: seq<Bracket>, i: nat, d: int)
    requires WellFormed(s)
    ensures 0.0 <= RateFrom(s, i, d) <= 1.0
    decreases |s| - i
  {
    if i < |s| && !Contains(s[i], d) {
      RateBounds(s, i + 1, d);
    }
  }

  /** Tax is never negative and never more than the income. */
  lemma {:induction false} DollarTaxBounds(s: seq<Bracket>, income: int)
    requires WellFormed(s)
    ensures 0.0 <= DollarTax(s, income)
    ensures 0 <= income ==> DollarTax(s, income) <= income as real
    decreases income
  {
    if income > 0 {
      RateBounds(s, 0, income);
      DollarTaxBounds(s, income - 1);
    }
  }

  /** More income never means less tax. */
  lemma {:induction false} DollarTaxMonotone(s: seq<Bracket>, x: int, y: int)
    requires WellFormed(s)
    requires x <= y
    ensures DollarTax(s, x) <= DollarTax(s, y)
    decreases y - x
  {
    if x < y {
      DollarTaxMonotone(s, x, y - 1);
      if y > 0 {
        RateBounds(s, 0, y);
      } else {
        assert DollarTax(s, y - 1) == 0.0 == DollarTax(s, y);
      }
    }
  }

  /** The marginal sum is monotone, non-negative and at most the income. */
  lemma MarginalSumMonotone(s: seq<Bracket>, x: int, y: int)
    requires WellFormed(s)
    requires x <= y
    ensures 0.0 <= MarginalSum(s, x) <= MarginalSum(s, y)
    ensures 0 <= y ==> MarginalSum(s, y) <= y as real
  {
    MarginalIsDollarTax(s, x);
    MarginalIsDollarTax(s, y);
    DollarTaxMonotone(s, x, y);
    DollarTaxBounds(s, x);
    DollarTaxBounds(s, y);
  }
}
