/** The two input tables of the dashboard, one datatype per row kind. */
module Rows {

  /** A calendar date after parsing; the textual format of the CSV files is not modelled. */
  datatype Date = Date(year: int, month: int, day: int)

  /**
   * One row of the general table: lifetime totals per game.
   * The release date is never parsed by the program, so it is carried as the plain
   * number it is read as and only passed through to the chart.
   */
  datatype GameRow = GameRow(
    game: string,
    genre: string,
    releaseDate: int,
    totalEarnings: int,
    totalTournaments: int)

  /**
   * One row of the historical table: one observation of one game on one date.
   * year and month are the derived columns; they hold whatever the table holds
   * until the derivation pass has run over it.
   */
  datatype HistRow = HistRow(
    game: string,
    date: Date,
    earnings: int,
    tournaments: int,
    year: int,
    month: int)
}
