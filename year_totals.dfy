/**
 * groupby('Year')[column].sum(): the historical rows grouped by their Year
 * column, one total per observed year, keyed in ascending year order as the
 * library's sorted group index is.
 */
module YearTotals {
  import opened Rows

  /** The numeric column being summed. */
  datatype Column = EarningsColumn | TournamentsColumn

  /** One group of the result: a year and the sum of the column over its rows. */
  datatype YearTotal = YearTotal(year: int, total: int)

  function Value(h: HistRow, c: Column): int
  {
    match c
    case EarningsColumn => h.earnings
    case TournamentsColumn => h.tournaments
  }

  /** The group keys strictly increase: sorted, one entry per year. */
  predicate Ascending(g: seq<YearTotal>)
  {
    forall i, j :: 0 <= i < j < |g| ==> g[i].year < g[j].year
  }

  /** The years that have a group. */
  function Years(g: seq<YearTotal>): set<int>
  {
    set k | 0 <= k < |g| :: g[k].year
  }

  /** The total of a year's group, 0 for a year without one. */
  function Lookup(g: seq<YearTotal>, y: int): int
  {
    if |g| == 0 then 0 else if g[0].year == y then g[0].total else Lookup(g[1..], y)
  }

  /** The sum of all group totals. */
  function SumTotals(g: seq<YearTotal>): int
  {
    if |g| == 0 then 0 else g[0].total + SumTotals(g[1..])
  }

  /** The years that occur in the Year column of the rows. */
  function ObservedYears(rows: seq<HistRow>): set<int>
  {
    set k | 0 <= k < |rows| :: rows[k].year
  }

  /** Reference definition: the sum of the column over the rows of year y. */
  function SumFor(rows: seq<HistRow>, y: int, c: Column): int
  {
    if |rows| == 0 then 0
    else (if rows[0].year == y then Value(rows[0], c) else 0) + SumFor(rows[1..], y, c)
  }

  /** Reference definition: the sum of the column over all rows. */
  function SumAll(rows: seq<HistRow>, c: Column): int
  {
    if |rows| == 0 then 0 else Value(rows[0], c) + SumAll(rows[1..], c)
  }

  /** Add v to the group of year y, creating the group in its sorted place if missing. */
  function AddToGroup(g: seq<YearTotal>, y: int, v: int): seq<YearTotal>
  {
    if |g| == 0 || y < g[0].year then [YearTotal(y, v)] + g
    else if y == g[0].year then [YearTotal(y, g[0].total + v)] + g[1..]
    else [g[0]] + AddToGroup(g[1..], y, v)
  }

  /** Adding to a group creates at most the group of y. */
  lemma {:induction false} AddToGroupYears(g: seq<YearTotal>, y: int, v: int)
    ensures Years(AddToGroup(g, y, v)) == Years(g) + {y}
  {
    if |g| == 0 || y < g[0].year {
      YearsCons(YearTotal(y, v), g);
    } else {
      assert g == [g[0]] + g[1..];
      YearsCons(g[0], g[1..]);
      if y == g[0].year {
        YearsCons(YearTotal(y, g[0].total + v), g[1..]);
      } else {
        AddToGroupYears(g[1..], y, v);
        YearsCons(g[0], AddToGroup(g[1..], y, v));
      }
    }
  }

  /** Adding to a group keeps the groups sorted by year. */
  lemma {:induction false} AddToGroupAscending(g: seq<YearTotal>, y: int, v: int)
    requires Ascending(g)
    ensures Ascending(AddToGroup(g, y, v))
  {
    if |g| > 0 && y > g[0].year {
      var rest := AddToGroup(g[1..], y, v);
      AddToGroupAscending(g[1..], y, v);
      AddToGroupYears(g[1..], y, v);
      forall k | 0 <= k < |rest|
        ensures g[0].year < rest[k].year
      {
        assert rest[k].year in Years(rest);
        if rest[k].year != y {
          var j :| 0 <= j < |g[1..]| && g[1..][j].year == rest[k].year;
          assert g[j + 1].year == rest[k].year;
        }
      }
      AscendingCons(g[0], rest);
    } else if |g| > 0 && y == g[0].year {
      assert Ascending(g[1..]) && forall k :: 0 <= k < |g[1..]| ==> g[1..][k] == g[k + 1];
      AscendingCons(YearTotal(y, g[0].total + v), g[1..]);
    } else {
      AscendingCons(YearTotal(y, v), g);
    }
  }

  /** A year below every key can be put in front of a sorted group list. */
  lemma AscendingCons(e: YearTotal, g: seq<YearTotal>)
    requires Ascending(g)
    requires forall k :: 0 <= k < |g| ==> e.year < g[k].year
    ensures Ascending([e] + g)
  {
    var r := [e] + g;
    assert forall k :: 1 <= k < |r| ==> r[k] == g[k - 1];
  }

  /** Adding v to the group of y raises that year's total by v and no other. */
  lemma {:induction false} AddToGroupLookup(g: seq<YearTotal>, y: int, v: int, z: int)
    requires Ascending(g)
    ensures Lookup(AddToGroup(g, y, v), z) == Lookup(g, z) + (if z == y then v else 0)
  {
    if |g| == 0 || y < g[0].year {
      var r := [YearTotal(y, v)] + g;
      assert r[1..] == g;
      if z == y {
        LookupAbsent(g, y);
      }
    } else if y == g[0].year {
      var r := [YearTotal(y, g[0].total + v)] + g[1..];
      assert r[1..] == g[1..];
    } else {
      var r := [g[0]] + AddToGroup(g[1..], y, v);
      assert r[1..] == AddToGroup(g[1..], y, v);
      AddToGroupLookup(g[1..], y, v, z);
    }
  }

  /** Adding v to a group adds v to the sum of all totals. */
  lemma {:induction false} AddToGroupSum(g: seq<YearTotal>, y: int, v: int)
    ensures SumTotals(AddToGroup(g, y, v)) == SumTotals(g) + v
  {
    if |g| == 0 || y < g[0].year {
      assert ([YearTotal(y, v)] + g)[1..] == g;
    } else if y == g[0].year {
      assert ([YearTotal(y, g[0].total + v)] + g[1..])[1..] == g[1..];
    } else {
      assert ([g[0]] + AddToGroup(g[1..], y, v))[1..] == AddToGroup(g[1..], y, v);
      AddToGroupSum(g[1..], y, v);
    }
  }

  lemma YearsCons(e: YearTotal, g: seq<YearTotal>)
    ensures Years([e] + g) == {e.year} + Years(g)
  {
    var r := [e] + g;
    forall x | x in Years(r)
      ensures x == e.year || x in Years(g)
    {
      var k :| 0 <= k < |r| && r[k].year == x;
      if k > 0 {
        assert g[k - 1].year == x;
      }
    }
    forall x | x in Years(g)
      ensures x in Years(r)
    {
      var k :| 0 <= k < |g| && g[k].year == x;
      assert r[k + 1].year == x;
    }
    assert r[0].year == e.year;
  }

  /** A sorted group list starting above y has no group for y. */
  lemma {:induction false} LookupAbsent(g: seq<YearTotal>, y: int)
    requires Ascending(g)
    requires |g| == 0 || y < g[0].year
    ensures Lookup(g, y) == 0
  {
    if |g| > 0 {
      assert g[0].year != y;
      if |g| > 1 {
        assert g[1..][0] == g[1] && g[0].year < g[1].year;
      }
      LookupAbsent(g[1..], y);
    }
  }

  /**
   * The grouped sum: sorted by year, one group for each observed year and no
   * other, each holding the sum of the column over its year's rows, and all
   * groups together holding the sum over the whole table.
   */
  function GroupSum(rows: seq<HistRow>, c: Column): (r: seq<YearTotal>)
    ensures Ascending(r)
    ensures Years(r) == ObservedYears(rows)
    ensures forall y :: Lookup(r, y) == SumFor(rows, y, c)
    ensures SumTotals(r) == SumAll(rows, c)
  {
    if |rows| == 0 then []
    else
      ObservedYearsCons(rows);
      var rest := GroupSum(rows[1..], c);
      AddToGroupYears(rest, rows[0].year, Value(rows[0], c));
      AddToGroupAscending(rest, rows[0].year, Value(rows[0], c));
      AddToGroupSum(rest, rows[0].year, Value(rows[0], c));
      forall y
        ensures Lookup(AddToGroup(rest, rows[0].year, Value(rows[0], c)), y) == SumFor(rows, y, c)
      {
        AddToGroupLookup(rest, rows[0].year, Value(rows[0], c), y);
      }
      AddToGroup(rest, rows[0].year, Value(rows[0], c))
  }

  /** The observed years of a table are its first row's year and those of the rest. */
  lemma ObservedYearsCons(rows: seq<HistRow>)
    requires |rows| > 0
    ensures ObservedYears(rows) == {rows[0].year} + ObservedYears(rows[1..])
  {
    assert forall k :: 1 <= k < |rows| ==> rows[1..][k - 1] == rows[k];
  }

  /** In a sorted group list, an entry's total is what Lookup finds for its year. */
  lemma {:induction false} LookupEntry(g: seq<YearTotal>, k: nat)
    requires Ascending(g) && k < |g|
    ensures Lookup(g, g[k].year) == g[k].total
  {
    if k > 0 {
      assert g[0].year < g[k].year;
      assert g[1..][k - 1] == g[k];
      LookupEntry(g[1..], k - 1);
    }
  }

  /** A year without rows sums to zero. */
  lemma {:induction false} SumForUnobserved(rows: seq<HistRow>, y: int, c: Column)
    requires y !in ObservedYears(rows)
    ensures SumFor(rows, y, c) == 0
  {
    if |rows| > 0 {
      ObservedYearsCons(rows);
      SumForUnobserved(rows[1..], y, c);
    }
  }

  /**
   * Entry by entry: the k-th group of the grouped sum is the k-th observed year in
   * increasing order, and its total is that year's sum.
   */
  lemma GroupEntries(rows: seq<HistRow>, c: Column)
    ensures var r := GroupSum(rows, c);
      forall k :: 0 <= k < |r| ==> r[k].year in ObservedYears(rows) && r[k].total == SumFor(rows, r[k].year, c)
    ensures |GroupSum(rows, c)| == |ObservedYears(rows)|
  {
    var r := GroupSum(rows, c);
    forall k | 0 <= k < |r|
      ensures r[k].year in ObservedYears(rows) && r[k].total == SumFor(rows, r[k].year, c)
    {
      LookupEntry(r, k);
      assert r[k].year in Years(r);
    }
    AscendingYearsCount(r);
  }

  /** A strictly ascending list has as many entries as distinct years. */
  lemma {:induction false} AscendingYearsCount(g: seq<YearTotal>)
    requires Ascending(g)
    ensures |Years(g)| == |g|
  {
    if |g| > 0 {
      var t := g[1..];
      assert Ascending(t);
      AscendingYearsCount(t);
      assert g == [g[0]] + t;
      YearsCons(g[0], t);
      forall k | 0 <= k < |t|
        ensures t[k].year != g[0].year
      {
        assert t[k] == g[k + 1];
      }
    }
  }
}
