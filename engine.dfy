/** The bracket engine: one pass over the table from the highest bracket to
    the lowest, keeping the income still to be taxed and the tax so far. */
module Engine {
  import opened Schedule
  import opened Marginal

  /** What the pass carries from bracket to bracket: the accumulated tax and
      the part of the salary not yet taxed. */
  datatype State = State(taxes: real, remaining: int)

  /** The pass's work at position index of a table of n brackets: a bracket
      holding the remainder taxes it down to one dollar below the bracket's
      minimum, or, for the last bracket, taxes all of it. */
  function Step(st: State, b: Bracket, index: nat, n: nat): State {
    if b.min <= st.remaining <= b.max then
      var taxable := if index < n - 1 then st.remaining - (b.min - 1) else st.remaining;
      State(st.taxes + taxable as real * b.rate, st.remaining - taxable)
    else st
  }

  /** The pass over s[i..], starting from st. */
  function FoldFrom(s: seq<Bracket>, i: nat, st: State): State
    requires i <= |s|
    decreases |s| - i
  {
    if i == |s| then st else FoldFrom(s, i + 1, Step(st, s[i], i, |s|))
  }

  /** The state after the first i brackets: what the accumulator and the
      remainder hold when the pass reaches index i. */
  function FoldUpTo(s: seq<Bracket>, i: nat, st: State): State
    requires i <= |s|
  {
    if i == 0 then st else Step(FoldUpTo(s, i - 1, st), s[i - 1], i - 1, |s|)
  }

  /** The whole pass: no tax yet, the full salary remaining. */
  function TotalTaxes(s: seq<Bracket>, grossSalary: int): real {
    FoldFrom(s, 0, State(0.0, grossSalary)).taxes
  }

  /** The reduce callback: if the bracket holds the remainder, tax the
      slice of it that lies in the bracket and take that slice off. This is
      the statement form of `Step`, which the loop calls and the lemmas
      below reason about. */
  method ApplyBracket(taxes: real, salaryRemaining: int, currentBracket: Bracket, index: nat, numBrackets: nat)
    returns (newTaxes: real, newRemaining: int)
    ensures State(newTaxes, newRemaining) == Step(State(taxes, salaryRemaining), currentBracket, index, numBrackets)
    ensures 0 <= currentBracket.min && 0.0 <= currentBracket.rate ==> taxes <= newTaxes
  {
    newTaxes, newRemaining := taxes, salaryRemaining;
    if currentBracket.min <= salaryRemaining <= currentBracket.max {
      var taxableIncome := 0;
      if index < numBrackets - 1 {
        taxableIncome := salaryRemaining - (currentBracket.min - 1);
      } else {
        taxableIncome := salaryRemaining;
      }
      newTaxes := taxes + taxableIncome as real * currentBracket.rate;
      newRemaining := salaryRemaining - taxableIncome;
    }
    if 0 <= currentBracket.min && 0.0 <= currentBracket.rate {
      StepNeverDecreases(State(taxes, salaryRemaining), currentBracket, index, numBrackets);
    }
  }

  /** Walks the table top-down, taxing the slice of the remainder inside each
      bracket that holds it. */
  method BracketCalculations(taxBrackets: seq<Bracket>, grossSalary: int) returns (totalTaxes: real)
    ensures totalTaxes == TotalTaxes(taxBrackets, grossSalary)
    ensures NonNegative(taxBrackets) ==> 0.0 <= totalTaxes
    ensures WellFormed(taxBrackets) && grossSalary <= taxBrackets[0].max ==>
              totalTaxes == MarginalSum(taxBrackets, grossSalary)
  {
    var numBrackets := |taxBrackets|;
    var salaryRemaining := grossSalary;
    var taxes := 0.0;
    var index := 0;
    while index < numBrackets
      invariant 0 <= index <= numBrackets
      invariant State(taxes, salaryRemaining) == FoldUpTo(taxBrackets, index, State(0.0, grossSalary))
      invariant NonNegative(taxBrackets) ==> 0.0 <= taxes
    {
      taxes, salaryRemaining := ApplyBracket(taxes, salaryRemaining, taxBrackets[index], index, numBrackets);
      index := index + 1;
    }
    totalTaxes := taxes;
    FoldSplit(taxBrackets, numBrackets, State(0.0, grossSalary));
    if WellFormed(taxBrackets) && grossSalary <= taxBrackets[0].max {
      EngineIsMarginalSum(taxBrackets, grossSalary);
    }
  }

  // ---------------------------------------------------------------------
  // One step

  /** A bracket that does not hold the remainder adds no tax and leaves the
      remainder as it was. */
  lemma StepOutside(st: State, b: Bracket, index: nat, n: nat)
    requires !Contains(b, st.remaining)
    ensures Step(st, b, index, n) == st
  {
  }

  /** A matching bracket above the lowest taxes the remainder's dollars from
      its minimum up and leaves exactly the maximum of the next bracket down,
      which that bracket therefore holds. */
  lemma StepUpper(s: seq<Bracket>, i: nat, st: State)
    requires WellFormed(s)
    requires i < |s| - 1 && Contains(s[i], st.remaining)
    ensures Step(st, s[i], i, |s|).remaining == s[i].min - 1 == s[i + 1].max
    ensures Contains(s[i + 1], Step(st, s[i], i, |s|).remaining)
    ensures Step(st, s[i], i, |s|).taxes
         == st.taxes + (st.remaining - s[i].min + 1) as real * s[i].rate
  {
  }

  /** The lowest bracket, when it matches, taxes the whole remainder and
      leaves nothing. */
  lemma StepLowest(s: seq<Bracket>, st: State)
    requires WellFormed(s)
    requires Contains(s[|s| - 1], st.remaining)
    ensures Step(st, s[|s| - 1], |s| - 1, |s|) == State(st.taxes + st.remaining as real * s[|s| - 1].rate, 0)
  {
  }

  /** With non-negative minimums and rates a step never lowers the tax. */
  lemma StepNeverDecreases(st: State, b: Bracket, index: nat, n: nat)
    requires 0 <= b.min && 0.0 <= b.rate
    ensures st.taxes <= Step(st, b, index, n).taxes
  {
    var taxable := if index < n - 1 then st.remaining - (b.min - 1) else st.remaining;
    if Contains(b, st.remaining) {
      assert 0 <= taxable;
      assert 0.0 <= taxable as real * b.rate;
    }
  }

  // ---------------------------------------------------------------------
  // The whole pass

  /** Running the first i brackets and then the rest is the whole pass. */
  lemma {:induction false} FoldSplit(s: seq<Bracket>, i: nat, st: State)
    requires i <= |s|
    ensures FoldFrom(s, i, FoldUpTo(s, i, st)) == FoldFrom(s, 0, st)
  {
    if i > 0 {
      FoldSplit(s, i - 1, st);
    }
  }

  /** For a salary from 0 up to the top maximum, the brackets above the one
      holding it leave it untouched; from that bracket down every bracket
      matches in turn, each below it receiving exactly its own maximum. */
  lemma {:induction false} MatchesInOrder(s: seq<Bracket>, grossSalary: int, j: nat)
    requires WellFormed(s)
    requires 0 <= grossSalary <= s[0].max
    requires j < |s|
    ensures j <= BracketIndex(s, grossSalary) ==> FoldUpTo(s, j, State(0.0, grossSalary)) == State(0.0, grossSalary)
    ensures BracketIndex(s, grossSalary) <= j ==> Contains(s[j], FoldUpTo(s, j, State(0.0, grossSalary)).remaining)
    ensures BracketIndex(s, grossSalary) < j ==> FoldUpTo(s, j, State(0.0, grossSalary)).remaining == s[j].max
  {
    var k := BracketIndex(s, grossSalary);
    if j > 0 {
      MatchesInOrder(s, grossSalary, j - 1);
      var prev := FoldUpTo(s, j - 1, State(0.0, grossSalary));
      if j - 1 < k {
        StepOutside(prev, s[j - 1], j - 1, |s|);
      } else {
        StepUpper(s, j - 1, prev);
      }
    }
  }

  /** The pass's tax grows linearly with the tax it starts from. */
  lemma {:induction false} FoldShift(s: seq<Bracket>, i: nat, t: real, c: real, r: int)
    requires i <= |s|
    ensures FoldFrom(s, i, State(t + c, r)) == State(FoldFrom(s, i, State(t, r)).taxes + c, FoldFrom(s, i, State(t, r)).remaining)
    decreases |s| - i
  {
    if i < |s| {
      var a := Step(State(t, r), s[i], i, |s|);
      var b := Step(State(t + c, r), s[i], i, |s|);
      assert b == State(a.taxes + c, a.remaining);
      FoldShift(s, i + 1, a.taxes, c, a.remaining);
    }
  }

  /** Two tables of the same length that agree from index i on give the same
      pass from i on. */
  lemma {:induction false} FoldAgree(s: seq<Bracket>, u: seq<Bracket>, i: nat, st: State)
    requires |s| == |u| && i <= |s|
    requires s[i..] == u[i..]
    ensures FoldFrom(s, i, st) == FoldFrom(u, i, st)
    decreases |s| - i
  {
    if i < |s| {
      assert s[i] == s[i..][0] == u[i..][0] == u[i];
      assert s[i + 1..] == s[i..][1..];
      assert u[i + 1..] == u[i..][1..];
      FoldAgree(s, u, i + 1, Step(st, s[i], i, |s|));
    }
  }

  /** From bracket i on, with a remainder no higher than that bracket's
      maximum, every bracket from the one holding the remainder down to the
      lowest matches in turn: the tax added is the marginal sum over s[i..]
      and nothing of a non-negative remainder is left untaxed. */
  lemma {:induction false} FoldIsMarginal(s: seq<Bracket>, i: nat, t: real, r: int)
    requires WellFormed(s)
    requires i < |s| && r <= s[i].max
    ensures FoldFrom(s, i, State(t, r)).taxes == t + MarginalFrom(s, i, r)
    ensures FoldFrom(s, i, State(t, r)).remaining == if r < 0 then r else 0
    decreases |s| - i
  {
    var b := s[i];
    var next := Step(State(t, r), b, i, |s|);
    var p := Portion(b, r);
    assert FoldFrom(s, i, State(t, r)) == FoldFrom(s, i + 1, next);
    assert MarginalFrom(s, i, r) == DollarsAt(p, b.rate) + MarginalFrom(s, i + 1, r);
    if i == |s| - 1 {
      assert MarginalFrom(s, i + 1, r) == 0.0;
      if r < 0 {
        assert p == 0 && next == State(t, r);
      } else {
        assert p == r;
        DollarsAtIsProduct(p, b.rate);
        assert next == State(t + DollarsAt(p, b.rate), 0);
      }
    } else {
      UpperMinsPositive(s, i);
      assert s[i + 1].max == b.min - 1;
      if r < b.min {
        assert p == 0 && next == State(t, r);
        FoldIsMarginal(s, i + 1, t, r);
      } else {
        assert p == r - b.min + 1;
        DollarsAtIsProduct(p, b.rate);
        assert next == State(t + DollarsAt(p, b.rate), b.min - 1);
        FoldIsMarginal(s, i + 1, next.taxes, b.min - 1);
        MarginalSaturated(s, i + 1, r, b.min - 1);
      }
    }
  }

  /** For a well-formed table and any whole-dollar salary up to the top
      bracket's maximum, the engine computes the marginal sum. */
  lemma EngineIsMarginalSum(s: seq<Bracket>, grossSalary: int)
    requires WellFormed(s)
    requires grossSalary <= s[0].max
    ensures TotalTaxes(s, grossSalary) == MarginalSum(s, grossSalary)
    ensures TotalTaxes(s, grossSalary) == DollarTax(s, grossSalary)
  {
    FoldIsMarginal(s, 0, 0.0, grossSalary);
    MarginalIsDollarTax(s, grossSalary);
  }

  /** Under the same conditions the engine's tax is monotone in the salary,
      never negative and never above the salary. */
  lemma EngineMonotone(s: seq<Bracket>, x: int, y: int)
    requires WellFormed(s)
    requires x <= y <= s[0].max
    ensures 0.0 <= TotalTaxes(s, x) <= TotalTaxes(s, y)
    ensures 0 <= y ==> TotalTaxes(s, y) <= y as real
  {
    EngineIsMarginalSum(s, x);
    EngineIsMarginalSum(s, y);
    MarginalSumMonotone(s, x, y);
  }

  /** A salary of zero, or a negative one, is taxed nothing. */
  lemma EngineNonPositive(s: seq<Bracket>, grossSalary: int)
    requires WellFormed(s)
    requires grossSalary <= 0
    ensures TotalTaxes(s, grossSalary) == 0.0
  {
    WellFormedIsNonNegative(s);
    EngineIsMarginalSum(s, grossSalary);
    MarginalNonPositive(s, 0, grossSalary);
  }

  /** A remainder above every bracket's maximum is never matched. */
  lemma {:induction false} FoldAboveAll(s: seq<Bracket>, i: nat, st: State)
    requires i <= |s|
    requires forall j :: i <= j < |s| ==> s[j].max < st.remaining
    ensures FoldFrom(s, i, st) == st
    decreases |s| - i
  {
    if i < |s| {
      FoldAboveAll(s, i + 1, st);
    }
  }

  /** A salary above the top bracket's maximum falls in no bracket and is
      taxed nothing: the top maximum must really be unreachable. */
  lemma EngineAboveTop(s: seq<Bracket>, grossSalary: int)
    requires WellFormed(s)
    requires s[0].max < grossSalary
    ensures TotalTaxes(s, grossSalary) == 0.0
  {
    Descending(s);
    FoldAboveAll(s, 0, State(0.0, grossSalary));
  }
}
