/**
 * The tournament-count view: tournaments summed per year, with a flag marking
 * the year 2020 and a marker colour chosen from that flag.
 */
module Tournaments {
  import opened Rows
  import opened YearTotals

  /** The year the Condition column singles out. */
  const MarkedYear: int := 2020

  /** One row of the per-year table after reset_index, with its Condition column. */
  datatype TournamentBar = TournamentBar(year: int, tournaments: int, condition: bool)

  /** Line 118: the Condition column is true exactly for the year 2020. */
  function WithCondition(g: seq<YearTotal>): (r: seq<TournamentBar>)
    ensures |r| == |g|
    ensures forall k :: 0 <= k < |g| ==>
      r[k].year == g[k].year && r[k].tournaments == g[k].total && (r[k].condition <==> g[k].year == MarkedYear)
  {
    if |g| == 0 then []
    else [TournamentBar(g[0].year, g[0].total, g[0].year == MarkedYear)] + WithCondition(g[1..])
  }

  /** Lines 115-118: the per-year tournament totals with the Condition column. */
  function TournamentsPerYear(rows: seq<HistRow>): seq<TournamentBar>
  {
    WithCondition(GroupSum(rows, TournamentsColumn))
  }

  /** Line 123: the flag is mapped to a colour, and both flag values map to the same one. */
  function MarkerColour(condition: bool): (colour: string)
    ensures colour == "lightblue"
  {
    if condition then "lightblue" else "lightblue"
  }

  /** The years that have a bar. */
  function TournamentYears(bars: seq<TournamentBar>): set<int>
  {
    set k | 0 <= k < |bars| :: bars[k].year
  }

  /** The sum of the tournament column of the bars. */
  function SumTournaments(bars: seq<TournamentBar>): int
  {
    if |bars| == 0 then 0 else bars[0].tournaments + SumTournaments(bars[1..])
  }

  lemma {:induction false} SumWithCondition(g: seq<YearTotal>)
    ensures SumTournaments(WithCondition(g)) == SumTotals(g)
  {
    if |g| > 0 {
      SumWithCondition(g[1..]);
      assert WithCondition(g)[1..] == WithCondition(g[1..]);
    }
  }

  /**
   * One bar per observed year, in ascending year order, each holding that year's
   * tournament sum, flagged exactly when the year is 2020; the bars add up to the
   * number of tournaments over the whole table.
   */
  lemma TournamentsPerYearSpec(rows: seq<HistRow>)
    ensures var bars := TournamentsPerYear(rows);
      && (forall i, j :: 0 <= i < j < |bars| ==> bars[i].year < bars[j].year)
      && |bars| == |ObservedYears(rows)|
      && TournamentYears(bars) == ObservedYears(rows)
      && (forall k :: 0 <= k < |bars| ==> bars[k].tournaments == SumFor(rows, bars[k].year, TournamentsColumn))
      && (forall k :: 0 <= k < |bars| ==> (bars[k].condition <==> bars[k].year == MarkedYear))
      && SumTournaments(bars) == SumAll(rows, TournamentsColumn)
  {
    var g := GroupSum(rows, TournamentsColumn);
    assert |WithCondition(g)| == |ObservedYears(rows)| by {
      GroupEntries(rows, TournamentsColumn);
    }
    BarsPerYear(rows);
    SumWithCondition(g);
  }

  /** The bars' years are the observed years, and each bar holds its year's sum. */
  lemma BarsPerYear(rows: seq<HistRow>)
    ensures var bars := TournamentsPerYear(rows);
      && TournamentYears(bars) == ObservedYears(rows)
      && (forall k :: 0 <= k < |bars| ==> bars[k].tournaments == SumFor(rows, bars[k].year, TournamentsColumn))
  {
    var g := GroupSum(rows, TournamentsColumn);
    var bars := WithCondition(g);
    assert bars == TournamentsPerYear(rows);
    GroupEntries(rows, TournamentsColumn);
    assert TournamentYears(bars) == Years(g) by {
      assert forall k :: 0 <= k < |g| ==> bars[k].year == g[k].year;
    }
    forall k | 0 <= k < |bars|
      ensures bars[k].tournaments == SumFor(rows, bars[k].year, TournamentsColumn)
    {
      assert bars[k].year == g[k].year && bars[k].tournaments == g[k].total;
    }
  }
}
