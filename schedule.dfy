/** Bracket tables: the `[bracketMinimum, bracketMaximum, taxRate]` rows the
    engine walks, the shape a usable table must have, and the reading of a
    literal table of numbers into brackets. */
module Schedule {

  datatype Option<T> = None | Some(value: T)

  /** One bracket. Both bounds are whole dollars and both are inclusive. */
  datatype Bracket = Bracket(min: int, max: int, rate: real)

  predicate Contains(b: Bracket, amount: int) {
    b.min <= amount <= b.max
  }

  /** A table the engine can use: highest bracket first, the lowest starting
      at 0, every bracket non-empty, each bracket's maximum exactly one dollar
      below the minimum of the bracket above it, and every rate in [0, 1]. */
  predicate WellFormed(s: seq<Bracket>) {
    && |s| > 0
    && s[|s| - 1].min == 0
    && (forall i :: 0 <= i < |s| ==> s[i].min <= s[i].max && 0.0 <= s[i].rate <= 1.0)
    && (forall i :: 1 <= i < |s| ==> s[i].max == s[i - 1].min - 1)
  }

  /** Every minimum is non-negative and every rate is non-negative. */
  predicate NonNegative(s: seq<Bracket>) {
    forall i :: 0 <= i < |s| ==> 0 <= s[i].min && 0.0 <= s[i].rate
  }

  /** A lower bracket lies wholly below every bracket above it. */
  lemma {:induction false} BelowEarlier(s: seq<Bracket>, i: nat, j: nat)
    requires WellFormed(s)
    requires i < j < |s|
    ensures s[j].max < s[i].min
    decreases j - i
  {
    if j > i + 1 {
      BelowEarlier(s, i + 1, j);
    }
  }

  /** The minimums strictly descend, and so do the maximums. */
  lemma Descending(s: seq<Bracket>)
    requires WellFormed(s)
    ensures forall i, j :: 0 <= i < j < |s| ==> s[j].max < s[i].min
    ensures forall i, j :: 0 <= i < j < |s| ==> s[j].min < s[i].min && s[j].max < s[i].max
  {
    forall i, j | 0 <= i < j < |s|
      ensures s[j].max < s[i].min && s[j].min < s[i].min && s[j].max < s[i].max
    {
      BelowEarlier(s, i, j);
    }
  }

  /** Every bracket above the lowest starts at one dollar or more. */
  lemma UpperMinsPositive(s: seq<Bracket>, i: nat)
    requires WellFormed(s)
    requires i < |s| - 1
    ensures 1 <= s[i].min
  {
    BelowEarlier(s, i, |s| - 1);
  }

  /** A well-formed table has only non-negative minimums and rates. */
  lemma WellFormedIsNonNegative(s: seq<Bracket>)
    requires WellFormed(s)
    ensures NonNegative(s)
  {
    forall i | 0 <= i < |s|
      ensures 0 <= s[i].min
    {
      if i < |s| - 1 {
        UpperMinsPositive(s, i);
      }
    }
  }

  /** The bracket, searching downwards from index k, that holds the amount.
      The table partitions [0, s[0].max]: the bracket found is the only one. */
  function IndexFrom(s: seq<Bracket>, k: nat, amount: int): (i: nat)
    requires WellFormed(s)
    requires k < |s| && 0 <= amount <= s[k].max
    ensures k <= i < |s| && Contains(s[i], amount)
    ensures forall j :: 0 <= j < |s| && Contains(s[j], amount) ==> j == i
    decreases |s| - k
  {
    Descending(s);
    if s[k].min <= amount then k else IndexFrom(s, k + 1, amount)
  }

  /** Every amount from 0 up to the top bracket's maximum lies in exactly one
      bracket, so an amount on a bracket edge is never counted twice. */
  function BracketIndex(s: seq<Bracket>, amount: int): (i: nat)
    requires WellFormed(s)
    requires 0 <= amount <= s[0].max
    ensures i < |s| && Contains(s[i], amount)
    ensures forall j :: 0 <= j < |s| && Contains(s[j], amount) ==> j == i
  {
    IndexFrom(s, 0, amount)
  }

  // ---------------------------------------------------------------------
  // The table as written: rows of numbers read by position

  predicate IsWhole(x: real) {
    x.Floor as real == x
  }

  /** A row the engine can read: a minimum, a maximum and a rate in its
      first three positions, the two bounds in whole dollars. Entries past
      the third are never read. */
  predicate IsRow(row: seq<real>) {
    |row| >= 3 && IsWhole(row[0]) && IsWhole(row[1])
  }

  function ToRow(b: Bracket): (row: seq<real>)
    ensures IsRow(row)
  {
    [b.min as real, b.max as real, b.rate]
  }

  function ToRows(s: seq<Bracket>): (rows: seq<seq<real>>)
    ensures |rows| == |s|
    ensures forall k :: 0 <= k < |s| ==> rows[k] == ToRow(s[k])
  {
    if s == [] then [] else [ToRow(s[0])] + ToRows(s[1..])
  }

  /** Reads a literal table row by row, each row by position; fails when
      some row lacks a minimum, a maximum or a rate. */
  function ParseRows(rows: seq<seq<real>>): (r: Option<seq<Bracket>>)
    ensures r.Some? <==> forall k :: 0 <= k < |rows| ==> IsRow(rows[k])
    ensures r.Some? ==> |r.value| == |rows| && forall k :: 0 <= k < |rows| ==> ToRow(r.value[k]) == rows[k][..3]
  {
    if rows == [] then Some([])
    else if !IsRow(rows[0]) then None
    else
      var rest := ParseRows(rows[1..]);
      if rest.None? then
        assert !forall k :: 0 <= k < |rows[1..]| ==> IsRow(rows[1..][k]);
        None
      else
        var row := rows[0];
        var b := Bracket(row[0].Floor, row[1].Floor, row[2]);
        assert ToRow(b) == row[..3];
        Some([b] + rest.value)
  }

  /** Writing a table out as rows and reading it back gives the same table. */
  lemma {:induction false} ParseToRows(s: seq<Bracket>)
    ensures ParseRows(ToRows(s)) == Some(s)
  {
    var r := ParseRows(ToRows(s));
    assert |r.value| == |s|;
    forall k | 0 <= k < |s|
      ensures r.value[k] == s[k]
    {
      assert ToRow(r.value[k]) == ToRows(s)[k][..3] == ToRow(s[k]);
      assert r.value[k].min as real == s[k].min as real;
      assert r.value[k].max as real == s[k].max as real;
    }
    assert r.value == s;
  }
}
