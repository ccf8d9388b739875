/**
 * The yearly revenue view: the historical rows split at the year 2020, each part
 * grouped by year with its earnings summed and expressed in millions.
 */
module Revenue {
  import opened Rows
  import opened YearTotals

  /** The first year of the second era. */
  const Threshold: int := 2020

  /** Earnings are shown in millions. */
  const Scale: real := 1000000.0

  /** One bar of the revenue chart. */
  datatype Bar = Bar(year: int, value: real)

  /** The era a year belongs to: false for before the threshold, true from it on. */
  predicate InEra(year: int, after: bool)
  {
    (year >= Threshold) == after
  }

  /** Year < 2020 (after = false) or Year >= 2020 (after = true): the boolean-mask selection. */
  function EraRows(rows: seq<HistRow>, after: bool): seq<HistRow>
  {
    if |rows| == 0 then []
    else (if InEra(rows[0].year, after) then [rows[0]] else []) + EraRows(rows[1..], after)
  }

  /** An era keeps every copy of the rows of its years and no other row. */
  lemma {:induction false} EraRowsMultiset(rows: seq<HistRow>, after: bool)
    ensures forall h :: multiset(EraRows(rows, after))[h] == if InEra(h.year, after) then multiset(rows)[h] else 0
  {
    if |rows| > 0 {
      EraRowsMultiset(rows[1..], after);
      assert rows == [rows[0]] + rows[1..];
    }
  }

  /** The two eras split the table: every row lands in exactly one of them. */
  lemma EraPartition(rows: seq<HistRow>)
    ensures multiset(EraRows(rows, false)) + multiset(EraRows(rows, true)) == multiset(rows)
  {
    EraRowsMultiset(rows, false);
    EraRowsMultiset(rows, true);
  }

  /** A year's sum within an era is its sum in the whole table, or 0 outside the era. */
  lemma {:induction false} EraSumFor(rows: seq<HistRow>, after: bool, y: int, c: Column)
    ensures SumFor(EraRows(rows, after), y, c) == if InEra(y, after) then SumFor(rows, y, c) else 0
  {
    if |rows| > 0 {
      EraSumFor(rows[1..], after, y, c);
      var head := if InEra(rows[0].year, after) then [rows[0]] else [];
      SumForConcat(head, EraRows(rows[1..], after), y, c);
      assert EraRows(rows, after) == head + EraRows(rows[1..], after);
      if InEra(rows[0].year, after) {
        assert head[1..] == [];
      }
    }
  }

  /** The two eras' sums add up to the sum over the whole table. */
  lemma {:induction false} EraSumAll(rows: seq<HistRow>, c: Column)
    ensures SumAll(EraRows(rows, false), c) + SumAll(EraRows(rows, true), c) == SumAll(rows, c)
  {
    if |rows| > 0 {
      EraSumAll(rows[1..], c);
      var early := if InEra(rows[0].year, false) then [rows[0]] else [];
      var late := if InEra(rows[0].year, true) then [rows[0]] else [];
      SumAllConcat(early, EraRows(rows[1..], false), c);
      SumAllConcat(late, EraRows(rows[1..], true), c);
      assert EraRows(rows, false) == early + EraRows(rows[1..], false);
      assert EraRows(rows, true) == late + EraRows(rows[1..], true);
      assert SumAll(early, c) + SumAll(late, c) == Value(rows[0], c) by {
        if InEra(rows[0].year, false) {
          assert early[1..] == [] && late == [];
        } else {
          assert late[1..] == [] && early == [];
        }
      }
    }
  }

  /** The years observed in an era are the table's observed years on that side of 2020. */
  lemma {:induction false} EraYears(rows: seq<HistRow>, after: bool)
    ensures ObservedYears(EraRows(rows, after)) == set y | y in ObservedYears(rows) && InEra(y, after)
  {
    if |rows| > 0 {
      EraYears(rows[1..], after);
      ObservedYearsCons(rows);
      var r := EraRows(rows, after);
      if InEra(rows[0].year, after) {
        assert r == [rows[0]] + EraRows(rows[1..], after);
        ObservedYearsCons(r);
        assert r[1..] == EraRows(rows[1..], after);
      } else {
        assert r == [] + EraRows(rows[1..], after);
        assert r == EraRows(rows[1..], after);
        assert ObservedYears(r) == ObservedYears(EraRows(rows[1..], after));
        assert (set y | y in ObservedYears(rows) && InEra(y, after))
          == (set y | y in ObservedYears(rows[1..]) && InEra(y, after));
      }
    }
  }

  lemma {:induction false} SumForConcat(a: seq<HistRow>, b: seq<HistRow>, y: int, c: Column)
    ensures SumFor(a + b, y, c) == SumFor(a, y, c) + SumFor(b, y, c)
  {
    if |a| == 0 {
      assert a + b == b;
    } else {
      assert (a + b)[1..] == a[1..] + b;
      SumForConcat(a[1..], b, y, c);
    }
  }

  lemma {:induction false} SumAllConcat(a: seq<HistRow>, b: seq<HistRow>, c: Column)
    ensures SumAll(a + b, c) == SumAll(a, c) + SumAll(b, c)
  {
    if |a| == 0 {
      assert a + b == b;
    } else {
      assert (a + b)[1..] == a[1..] + b;
      SumAllConcat(a[1..], b, c);
    }
  }

  /** Division by 1E6, group by group; the years are kept. */
  function Millions(g: seq<YearTotal>): (r: seq<Bar>)
    ensures |r| == |g|
    ensures forall k :: 0 <= k < |g| ==> r[k].year == g[k].year && r[k].value * Scale == g[k].total as real
  {
    if |g| == 0 then [] else [Bar(g[0].year, g[0].total as real / Scale)] + Millions(g[1..])
  }

  /** The years that have a bar. */
  function RevenueYears(bars: seq<Bar>): set<int>
  {
    set k | 0 <= k < |bars| :: bars[k].year
  }

  /** The sum of the bar heights. */
  function SumBars(bars: seq<Bar>): real
  {
    if |bars| == 0 then 0.0 else bars[0].value + SumBars(bars[1..])
  }

  /** Scaling each total scales their sum: the bars add up to the total in millions. */
  lemma {:induction false} SumMillions(g: seq<YearTotal>)
    ensures SumBars(Millions(g)) == SumTotals(g) as real / Scale
  {
    if |g| > 0 {
      SumMillions(g[1..]);
      assert Millions(g)[1..] == Millions(g[1..]);
    }
  }

  /** Lines 87-97: the bars of one era, ascending by year. */
  function RevenueBars(rows: seq<HistRow>, after: bool): seq<Bar>
  {
    Millions(GroupSum(EraRows(rows, after), EarningsColumn))
  }

  /**
   * Each era's bars are sorted by year, lie on their side of 2020, cover exactly
   * the years observed on that side (no zero-filled years), and each bar is that
   * year's earnings over the whole table divided by one million.
   */
  lemma RevenueBarsSpec(rows: seq<HistRow>, after: bool)
    ensures var bars := RevenueBars(rows, after);
      && (forall i, j :: 0 <= i < j < |bars| ==> bars[i].year < bars[j].year)
      && RevenueYears(bars) == (set y | y in ObservedYears(rows) && InEra(y, after))
      && (forall k :: 0 <= k < |bars| ==> InEra(bars[k].year, after))
      && (forall k :: 0 <= k < |bars| ==> bars[k].value * Scale == SumFor(rows, bars[k].year, EarningsColumn) as real)
  {
    var part := EraRows(rows, after);
    var g := GroupSum(part, EarningsColumn);
    var bars := Millions(g);
    EraYears(rows, after);
    GroupEntries(part, EarningsColumn);
    assert RevenueYears(bars) == Years(g) by {
      assert forall k :: 0 <= k < |g| ==> bars[k].year == g[k].year;
    }
    forall k | 0 <= k < |bars|
      ensures InEra(bars[k].year, after)
      ensures bars[k].value * Scale == SumFor(rows, bars[k].year, EarningsColumn) as real
    {
      assert g[k].year in ObservedYears(part);
      EraSumFor(rows, after, g[k].year, EarningsColumn);
    }
  }

  /**
   * The two eras' key sets are disjoint, their union is the set of observed years,
   * the bars together show the total earnings in millions, and scaling back by
   * one million gives the unscaled total.
   */
  lemma EraSplitConserves(rows: seq<HistRow>)
    ensures RevenueYears(RevenueBars(rows, false)) !! RevenueYears(RevenueBars(rows, true))
    ensures RevenueYears(RevenueBars(rows, false)) + RevenueYears(RevenueBars(rows, true)) == ObservedYears(rows)
    ensures SumBars(RevenueBars(rows, false)) + SumBars(RevenueBars(rows, true)) == SumAll(rows, EarningsColumn) as real / Scale
    ensures (SumBars(RevenueBars(rows, false)) + SumBars(RevenueBars(rows, true))) * Scale == SumAll(rows, EarningsColumn) as real
  {
    RevenueBarsSpec(rows, false);
    RevenueBarsSpec(rows, true);
    SumMillions(GroupSum(EraRows(rows, false), EarningsColumn));
    SumMillions(GroupSum(EraRows(rows, true), EarningsColumn));
    EraSumAll(rows, EarningsColumn);
  }

  /** A row of 2019 or earlier shows only in the first era, one of 2020 or later only in the second. */
  lemma RowInOneEra(rows: seq<HistRow>, h: HistRow)
    requires h in rows
    ensures h.year < Threshold ==> h.year in RevenueYears(RevenueBars(rows, false)) && h.year !in RevenueYears(RevenueBars(rows, true))
    ensures h.year >= Threshold ==> h.year in RevenueYears(RevenueBars(rows, true)) && h.year !in RevenueYears(RevenueBars(rows, false))
  {
    RevenueBarsSpec(rows, false);
    RevenueBarsSpec(rows, true);
    var k :| 0 <= k < |rows| && rows[k] == h;
    assert h.year in ObservedYears(rows);
  }
}
