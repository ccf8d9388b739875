/**
 * The dashboard script from top to bottom: the in-place cleanup passes over the
 * two tables, then the data handed to the four charts. Loading the files, the
 * figure styling and the page layout are outside the model; the tables arrive
 * as arrays of rows and the result is the chart data.
 */
module Dashboard {
  import opened Rows
  import opened Genre
  import opened TimeColumns
  import opened TopGames
  import opened PrizePool
  import opened Revenue
  import opened Tournaments

  /** The data of the four charts. */
  datatype Charts = Charts(
    prizePool: seq<Trace>,
    annotations: seq<Annotation>,
    before: seq<Bar>,
    after: seq<Bar>,
    tournaments: seq<TournamentBar>,
    colours: seq<string>)

  /**
   * The script: after it the Genre column is normalised, the time columns are
   * derived, and each chart holds the data its source lines compute. The
   * prize-pool traces come out as the per-game rows of the whole historical table,
   * each annotation sits on the same game as the trace of the same rank, and every
   * tournament bar is light blue.
   */
  method Run(gen: array<GameRow>, hist: array<HistRow>) returns (charts: Charts)
    modifies gen, hist
    ensures forall i :: 0 <= i < gen.Length ==> gen[i] == old(gen[i]).(genre := Normalise(old(gen[i]).genre))
    ensures forall i :: 0 <= i < hist.Length ==> hist[i] == WithTimeColumns(old(hist[i]))
    ensures var top := TopEarners(gen[..]);
      && |charts.prizePool| == |top|
      && (forall i :: 0 <= i < |top| ==>
            charts.prizePool[i] == TraceOf(Alias(top[i].game), RowsOfGame(hist[..], top[i].game)))
      && |charts.annotations| == |top|
      && (forall i :: 0 <= i < |top| ==>
            charts.annotations[i] == Annotation(top[i].releaseDate, top[i].totalEarnings, top[i].game))
    ensures forall i :: 0 <= i < |charts.annotations| ==>
      i < |charts.prizePool| && Alias(charts.annotations[i].text) == charts.prizePool[i].name
    ensures charts.before == RevenueBars(hist[..], false) && charts.after == RevenueBars(hist[..], true)
    ensures charts.tournaments == TournamentsPerYear(hist[..])
    ensures |charts.colours| == |charts.tournaments|
    ensures forall k :: 0 <= k < |charts.colours| ==> charts.colours[k] == "lightblue"
  {
    // Lines 11-15; the date parsing itself is not modelled.
    DeriveTimeColumns(hist);
    // Lines 18-24.
    NormaliseGenres(gen);

    // Lines 29-46.
    var top5 := TopEarners(gen[..]);
    var gameNames := DisplayNames(top5);
    var filtered := FilteredData(hist[..], top5);
    var traces := BuildPrizePoolTraces(filtered, top5, gameNames);

    // Lines 68-73: the same selection, computed again on the unchanged table.
    var topEarnings := TopEarners(gen[..]);
    assert topEarnings == top5;
    var notes := BuildAnnotations(topEarnings);

    // Line 84: recomputing Year leaves the derived table as it is.
    RecomputeYear(hist);

    // Lines 87-97.
    var before := RevenueBars(hist[..], false);
    var after := RevenueBars(hist[..], true);

    // Lines 115-123.
    var perYear := TournamentsPerYear(hist[..]);
    var colours := seq(|perYear|, k requires 0 <= k < |perYear| => MarkerColour(perYear[k].condition));

    forall i | 0 <= i < |top5|
      ensures traces[i] == TraceOf(Alias(top5[i].game), RowsOfGame(hist[..], top5[i].game))
    {
      assert GameNames(top5)[i] == top5[i].game;
      SeriesIgnoresFilter(hist[..], GameNames(top5), top5[i].game);
    }
    charts := Charts(traces, notes, before, after, perYear, colours);
  }
}
