/**
 * The derived time columns of the historical table: Year and Month are taken
 * from the parsed Date, once after loading and, for Year, once more before the
 * yearly revenue chart.
 */
module TimeColumns {
  import opened Rows

  /** The row with both derived columns taken from its date. */
  function WithTimeColumns(h: HistRow): HistRow
  {
    h.(year := h.date.year, month := h.date.month)
  }

  /** The derived columns of every row agree with its date. */
  predicate TimeColumnsDerived(rows: seq<HistRow>)
  {
    forall k :: 0 <= k < |rows| ==> rows[k].year == rows[k].date.year && rows[k].month == rows[k].date.month
  }

  /** Lines 14-15: the Year and Month columns are filled in from the Date column. */
  method DeriveTimeColumns(t: array<HistRow>)
    modifies t
    ensures forall i :: 0 <= i < t.Length ==> t[i] == WithTimeColumns(old(t[i]))
    ensures TimeColumnsDerived(t[..])
  {
    var k := 0;
    while k < t.Length
      invariant 0 <= k <= t.Length
      invariant forall i :: 0 <= i < k ==> t[i] == WithTimeColumns(old(t[i]))
      invariant forall i :: k <= i < t.Length ==> t[i] == old(t[i])
    {
      t[k] := WithTimeColumns(t[k]);
      k := k + 1;
    }
  }

  /**
   * Line 84: the Year column is computed again from the Date column. On a table
   * whose columns were already derived this changes nothing.
   */
  method RecomputeYear(t: array<HistRow>)
    modifies t
    ensures forall i :: 0 <= i < t.Length ==> t[i] == old(t[i]).(year := old(t[i]).date.year)
    ensures TimeColumnsDerived(old(t[..])) ==> t[..] == old(t[..])
  {
    var k := 0;
    while k < t.Length
      invariant 0 <= k <= t.Length
      invariant forall i :: 0 <= i < k ==> t[i] == old(t[i]).(year := old(t[i]).date.year)
      invariant forall i :: k <= i < t.Length ==> t[i] == old(t[i])
    {
      t[k] := t[k].(year := t[k].date.year);
      k := k + 1;
    }
  }
}
