/** Federal income tax for 2020: the seven-bracket table and the one call of
    the engine on it. */
module Federal {
  import opened Schedule
  import opened Marginal
  import opened Engine

  /** The largest integer a double represents exactly; the top bracket's
      maximum, standing for "no upper bound". */
  const MaxSafeInteger: int := 9007199254740991

  /** The table exactly as the source writes it, row by row. Its top row has
      no rate, and its minimum repeats the maximum of the row below. */
  function AsWrittenFederalRows(): seq<seq<real>> {
    [ [518400.0, 9007199254740991.0],
      [207351.0, 518400.0, 0.35],
      [163301.0, 207350.0, 0.32],
      [85526.0, 163300.0, 0.24],
      [40126.0, 85525.0, 0.22],
      [9876.0, 40125.0, 0.12],
      [0.0, 9875.0, 0.10] ]
  }

  /** The table the engine is given: the written rows with the top bracket
      starting one dollar above 518400 and taxed at 37%. */
  function FederalSchedule(): seq<Bracket> {
    [ Bracket(518401, MaxSafeInteger, 0.37),
      Bracket(207351, 518400, 0.35),
      Bracket(163301, 207350, 0.32),
      Bracket(85526, 163300, 0.24),
      Bracket(40126, 85525, 0.22),
      Bracket(9876, 40125, 0.12),
      Bracket(0, 9875, 0.10) ]
  }

  /** The corrected table is well formed and its top maximum is the sentinel. */
  lemma FederalScheduleWellFormed()
    ensures WellFormed(FederalSchedule())
    ensures FederalSchedule()[0].max == MaxSafeInteger
  {
    var s := FederalSchedule();
    assert forall i :: 1 <= i < |s| ==> s[i].max == s[i - 1].min - 1;
  }

  /** Below the top bracket the corrected table is exactly the written rows. */
  lemma FederalMatchesWrittenRows()
    ensures ParseRows(AsWrittenFederalRows()[1..]) == Some(FederalSchedule()[1..])
  {
    ParseToRows(FederalSchedule()[1..]);
    assert ToRows(FederalSchedule()[1..]) == AsWrittenFederalRows()[1..];
  }

  /** Federal tax on a whole-dollar salary. */
  method CalculateFederalTaxes(grossSalary: int) returns (fedTaxes: real)
    ensures fedTaxes == TotalTaxes(FederalSchedule(), grossSalary)
    ensures 0.0 <= fedTaxes
    ensures grossSalary <= MaxSafeInteger ==> fedTaxes == MarginalSum(FederalSchedule(), grossSalary)
    ensures 0 <= grossSalary <= MaxSafeInteger ==> fedTaxes <= grossSalary as real
  {
    FederalScheduleWellFormed();
    WellFormedIsNonNegative(FederalSchedule());
    fedTaxes := BracketCalculations(FederalSchedule(), grossSalary);
    if 0 <= grossSalary <= MaxSafeInteger {
      EngineMonotone(FederalSchedule(), grossSalary, grossSalary);
    }
  }

  /** Worked values: nothing on nothing, 10% of the whole first bracket, and
      the whole second bracket at 12% on top of that. */
  lemma FederalWorkedValues()
    ensures TotalTaxes(FederalSchedule(), 0) == 0.0
    ensures forall j :: 0 <= j < 6 ==> !Contains(FederalSchedule()[j], 0)
    ensures Contains(FederalSchedule()[6], 0)
    ensures TotalTaxes(FederalSchedule(), 9875) == 987.5
    ensures TotalTaxes(FederalSchedule(), 40125) == 4617.5
  {
    var s := FederalSchedule();
    FederalScheduleWellFormed();
    EngineNonPositive(s, 0);
    assert TotalTaxes(s, 9875) == 987.5 by {
      EngineIsMarginalSum(s, 9875);
      DollarsAtIsProduct(9875, 0.10);
      assert MarginalFrom(s, 5, 9875) == 987.5;
    }
    assert TotalTaxes(s, 40125) == 4617.5 by {
      EngineIsMarginalSum(s, 40125);
      DollarsAtIsProduct(9875, 0.10);
      DollarsAtIsProduct(30250, 0.12);
      assert MarginalFrom(s, 5, 40125) == 4617.5;
    }
  }

  /** Federal tax is monotone in the salary. */
  lemma FederalMonotone(x: int, y: int)
    requires x <= y <= MaxSafeInteger
    ensures 0.0 <= TotalTaxes(FederalSchedule(), x) <= TotalTaxes(FederalSchedule(), y)
  {
    FederalScheduleWellFormed();
    EngineMonotone(FederalSchedule(), x, y);
  }

  // ---------------------------------------------------------------------
  // The top row as written

  /** The written top row has no rate, so the table cannot be read as
      brackets; yet its bounds hold every salary from 518400 up to the
      sentinel, each of which would make the engine read the missing rate. */
  lemma AsWrittenTopRowHasNoRate(grossSalary: int)
    requires 518400 <= grossSalary <= MaxSafeInteger
    ensures |AsWrittenFederalRows()[0]| == 2
    ensures ParseRows(AsWrittenFederalRows()) == None
    ensures AsWrittenFederalRows()[0][0] <= grossSalary as real <= AsWrittenFederalRows()[0][1]
  {
    assert !IsRow(AsWrittenFederalRows()[0]);
  }

  /** The written bounds with a 37% rate supplied for the top row. */
  function AsWrittenBounds(): seq<Bracket> {
    [Bracket(518400, MaxSafeInteger, 0.37)] + FederalSchedule()[1..]
  }

  /** The written rows, with 0.37 appended to the top one, read back as
      AsWrittenBounds. */
  lemma AsWrittenBoundsRows()
    ensures ParseRows(AsWrittenFederalRows()[0 := AsWrittenFederalRows()[0] + [0.37]]) == Some(AsWrittenBounds())
  {
    var t, s := AsWrittenBounds(), FederalSchedule();
    ParseToRows(t);
    var rows := AsWrittenFederalRows()[0 := AsWrittenFederalRows()[0] + [0.37]];
    assert ToRows(t)[0] == ToRow(t[0]) == [518400.0, 9007199254740991.0, 0.37] == rows[0];
    assert ToRows(t)[1..] == ToRows(s[1..]) == rows[1..] by {
      FederalMatchesWrittenRows();
    }
    assert ToRows(t) == [ToRows(t)[0]] + ToRows(t)[1..];
  }

  /** At a salary of 518400 the written bounds tax one dollar at the top
      rate where the corrected table taxes it at 35%. */
  lemma AsWrittenTaxAt518400()
    ensures TotalTaxes(AsWrittenBounds(), 518400) == TotalTaxes(FederalSchedule(), 518400) + 0.02
  {
    var t, s := AsWrittenBounds(), FederalSchedule();
    // both passes reach 207350 after two brackets, with different tax
    var x := 0.37 + 311049 as real * 0.35;
    var y := 311050 as real * 0.35;
    var t1 := Step(State(0.0, 518400), t[0], 0, |t|);
    assert t1 == State(0.37, 518399);
    assert Step(t1, t[1], 1, |t|) == State(x, 207350);
    var s1 := Step(State(0.0, 518400), s[0], 0, |s|);
    assert s1 == State(0.0, 518400);
    assert Step(s1, s[1], 1, |s|) == State(y, 207350);
    assert FoldFrom(t, 0, State(0.0, 518400)) == FoldFrom(t, 2, State(x, 207350));
    assert FoldFrom(s, 0, State(0.0, 518400)) == FoldFrom(s, 2, State(y, 207350));
    assert t[2..] == s[2..];
    FoldAgree(t, s, 2, State(x, 207350));
    FoldShift(s, 2, 0.0, x, 207350);
    FoldShift(s, 2, 0.0, y, 207350);
  }

  /** Even with the rate supplied, the written top minimum 518400 equals the
      maximum of the 35% bracket: the dollar 518400 lies in two brackets,
      the table is not well formed, and a salary of exactly 518400 has one
      dollar taxed at 37% instead of 35%, two cents more than the marginal
      sum. */
  lemma AsWrittenOverlap()
    ensures ParseRows(AsWrittenFederalRows()[0 := AsWrittenFederalRows()[0] + [0.37]]) == Some(AsWrittenBounds())
    ensures Contains(AsWrittenBounds()[0], 518400) && Contains(AsWrittenBounds()[1], 518400)
    ensures !WellFormed(AsWrittenBounds())
    ensures TotalTaxes(AsWrittenBounds(), 518400) == MarginalSum(FederalSchedule(), 518400) + 0.02
  {
    AsWrittenBoundsRows();
    assert AsWrittenBounds()[1].max != AsWrittenBounds()[0].min - 1;
    AsWrittenTaxAt518400();
    FederalScheduleWellFormed();
    EngineIsMarginalSum(FederalSchedule(), 518400);
  }
}
