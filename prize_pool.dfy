/**
 * The prize-pool view: the historical table restricted to the five top earners,
 * one earnings-over-time trace per ranked game, and the annotations that point
 * at the same five games on the revenue-versus-release-date scatter.
 */
module PrizePool {
  import opened Rows
  import opened TopGames

  /** One trace of the prize-pool figure: its label and the points it plots. */
  datatype Trace = Trace(name: string, dates: seq<Date>, earnings: seq<int>)

  /** One arrow on the scatter: placed at (release date, total earnings), labelled by text. */
  datatype Annotation = Annotation(x: int, y: int, text: string)

  /**
   * The membership filter (isin): the rows whose game is one of names, in their
   * original order; every other row is dropped.
   */
  function KeepGames(rows: seq<HistRow>, names: seq<string>): (r: seq<HistRow>)
    ensures forall h :: multiset(r)[h] == if h.game in names then multiset(rows)[h] else 0
    ensures forall k :: 0 <= k < |r| ==> r[k].game in names
  {
    if |rows| == 0 then []
    else
      assert rows == [rows[0]] + rows[1..];
      (if rows[0].game in names then [rows[0]] else []) + KeepGames(rows[1..], names)
  }

  /** Filtering distributes over concatenation, so the kept rows stay in table order. */
  lemma {:induction false} KeepGamesConcat(a: seq<HistRow>, b: seq<HistRow>, names: seq<string>)
    ensures KeepGames(a + b, names) == KeepGames(a, names) + KeepGames(b, names)
    decreases |a|
  {
    if |a| == 0 {
      assert a + b == b;
    } else {
      assert (a + b)[1..] == a[1..] + b;
      KeepGamesConcat(a[1..], b, names);
    }
  }

  /** Line 34: the historical rows of the top-ranked games. */
  function FilteredData(hist: seq<HistRow>, top: seq<GameRow>): seq<HistRow>
  {
    KeepGames(hist, GameNames(top))
  }

  /** Line 44: the rows of one game, in table order. */
  function RowsOfGame(rows: seq<HistRow>, game: string): seq<HistRow>
  {
    KeepGames(rows, [game])
  }

  /** A game has an empty series exactly when the table holds no row for it. */
  lemma {:induction false} RowsOfGameEmpty(rows: seq<HistRow>, game: string)
    ensures RowsOfGame(rows, game) == [] <==> forall k :: 0 <= k < |rows| ==> rows[k].game != game
  {
    var r := RowsOfGame(rows, game);
    if r == [] {
      forall k | 0 <= k < |rows|
        ensures rows[k].game != game
      {
        assert multiset(rows)[rows[k]] > 0;
        assert multiset(r)[rows[k]] == 0;
      }
    } else {
      assert r[0] in multiset(r);
      assert r[0] in multiset(rows);
    }
  }

  /**
   * Splitting the filtered table by game gives the same series as splitting the
   * whole table: the membership filter only drops games that get no slot.
   */
  lemma {:induction false} SeriesIgnoresFilter(hist: seq<HistRow>, names: seq<string>, game: string)
    requires game in names
    ensures KeepGames(KeepGames(hist, names), [game]) == KeepGames(hist, [game])
    decreases |hist|
  {
    if |hist| > 0 {
      SeriesIgnoresFilter(hist[1..], names, game);
      var head := if hist[0].game in names then [hist[0]] else [];
      KeepGamesConcat(head, KeepGames(hist[1..], names), [game]);
      if hist[0].game !in names {
        assert KeepGames(head, [game]) == [];
      } else {
        assert head == [hist[0]] + [];
      }
    }
  }

  /** Every row the filter keeps is plotted in the slot of some ranked game. */
  lemma FilteredRowsPlotted(hist: seq<HistRow>, top: seq<GameRow>, h: HistRow)
    requires h in FilteredData(hist, top)
    ensures h in hist
    ensures exists i :: 0 <= i < |top| && top[i].game == h.game && h in RowsOfGame(FilteredData(hist, top), top[i].game)
  {
    var f := FilteredData(hist, top);
    assert h in multiset(f);
    var names := GameNames(top);
    assert h.game in names;
    var i :| 0 <= i < |names| && names[i] == h.game;
    assert multiset(RowsOfGame(f, top[i].game))[h] == multiset(f)[h];
  }

  /** The points of one trace: the dates and earnings of the given rows, in order. */
  function TraceOf(name: string, rows: seq<HistRow>): (t: Trace)
    ensures t.name == name && |t.dates| == |rows| && |t.earnings| == |rows|
    ensures forall k :: 0 <= k < |rows| ==> t.dates[k] == rows[k].date && t.earnings[k] == rows[k].earnings
  {
    Trace(name,
      seq(|rows|, k requires 0 <= k < |rows| => rows[k].date),
      seq(|rows|, k requires 0 <= k < |rows| => rows[k].earnings))
  }

  /**
   * Lines 43-46: one trace per ranked game, in rank order. Trace i is labelled by
   * the display name at index i and plots the filtered rows of the i-th game;
   * a game without rows still gets its slot, with an empty trace.
   */
  method BuildPrizePoolTraces(filtered: seq<HistRow>, top: seq<GameRow>, names: seq<string>)
    returns (traces: seq<Trace>)
    requires |names| == |top|
    ensures |traces| == |names|
    ensures forall i :: 0 <= i < |names| ==> traces[i] == TraceOf(names[i], RowsOfGame(filtered, top[i].game))
  {
    traces := [];
    var i := 0;
    while i < |names|
      invariant 0 <= i <= |names|
      invariant |traces| == i
      invariant forall k :: 0 <= k < i ==> traces[k] == TraceOf(names[k], RowsOfGame(filtered, top[k].game))
    {
      var gameData := RowsOfGame(filtered, top[i].game);
      traces := traces + [TraceOf(names[i], gameData)];
      i := i + 1;
    }
  }

  /**
   * Lines 69-73: one annotation per selected game, in rank order, at its release
   * date and total earnings, labelled with its full name (not its alias).
   */
  method BuildAnnotations(top: seq<GameRow>) returns (notes: seq<Annotation>)
    ensures |notes| == |top|
    ensures forall i :: 0 <= i < |top| ==>
      notes[i] == Annotation(top[i].releaseDate, top[i].totalEarnings, top[i].game)
  {
    notes := [];
    var i := 0;
    while i < |top|
      invariant 0 <= i <= |top|
      invariant |notes| == i
      invariant forall k :: 0 <= k < i ==>
        notes[k] == Annotation(top[k].releaseDate, top[k].totalEarnings, top[k].game)
    {
      var game := top[i].game;
      var earnings := top[i].totalEarnings;
      var releaseDate := top[i].releaseDate;
      notes := notes + [Annotation(releaseDate, earnings, game)];
      i := i + 1;
    }
  }
}
