# Esports dashboard: table pipeline

This project models the data pipeline of a one-file esports dashboard script. The
script loads two tables. The general table has one row per game: name, genre,
release date, total earnings and total tournaments. The historical table has one
row per game and date: earnings and tournaments on that date. The script cleans
the tables and derives the data behind four charts:

- the prize-pool evolution of the five top-earning games;
- annotations on the five top earners in the revenue-versus-release-date scatter;
- yearly revenue in millions, split into "Before 2020" and "After 2020";
- tournaments per year, with a flag for the year 2020.

The modules follow the script's steps:

| module | file | what it models |
|---|---|---|
| `Rows` | rows.dfy | the row types of the two tables |
| `Genre` | genre.dfy | the " Game" removal and the four-entry relabelling, as pure functions and as in-place passes over an `array<GameRow>` |
| `TimeColumns` | time_columns.dfy | the Year/Month columns derived in place from the Date column, and the second Year computation |
| `TopGames` | top_games.dfy | the descending sort on total earnings, the first five rows, and the two display aliases |
| `PrizePool` | prize_pool.dfy | the `isin` filter, the per-rank trace loop, and the annotation loop |
| `YearTotals` | year_totals.dfy | `groupby('Year')[col].sum()`: one total per observed year, in ascending year order |
| `Revenue` | revenue.dfy | the era split at 2020 and the division by 1E6 |
| `Tournaments` | tournaments.dfy | tournaments per year, the `Condition` flag, and the marker colour |
| `Dashboard` | dashboard.dfy | the whole script in source order, from the two tables to the chart data |

The table steps that rewrite a column (`Genre`, `TimeColumns`) are methods with loops
over arrays. The whole-column expressions (sort, filter, group-by) are functions on
sequences. The two loops that append traces and annotations are methods that build
sequences.

The cleanup at src/app.py:18 is a plain substring replace: it removes every occurrence
of " Game" anywhere in the label, and it strips no whitespace. Stripping only a
trailing " Game" would give different results. `Genre.SuffixCanSurvive` shows a label
that ends in " Game" and still normalises to " Game", because removing its two
occurrences joins the remaining pieces into a new one.

Pandas' default sort is not stable, so the order among equal earnings is not fixed.
`TopGames.SortByEarnings` picks one order. The top-5 properties are stated for every
descending arrangement (`TopGames.TopPrefix`). `TopGames.TopEarningsDetermined`
proves that the selected earnings values never depend on how ties are broken.

Earnings and tournament counts are `int`. The /1E6 scaling is exact `real` division.

## Model

| member | source | states |
|---|---|---|
| `Genre.StripGame` | src/app.py:18 | the cleanup never lengthens a label; the scan is left to right and non-overlapping |
| `Genre.StripGameLength` | src/app.py:18 | the cleaned label is exactly 5 characters shorter for each removed occurrence |
| `Genre.RemovedIffOccurrence` | src/app.py:18 | the scan removes at least one occurrence exactly when the label contains " Game" somewhere |
| `Genre.StripGameUnchangedIff` | src/app.py:18 | a label is unchanged by the cleanup if and only if it contains no " Game" |
| `Genre.CleanPrefix` | src/app.py:18 | a prefix in which no occurrence starts is copied unchanged, and the scan resumes right after it |
| `Genre.LeftmostRemoved` | src/app.py:18 | the leftmost occurrence is the one removed: a + " Game" + b cleans to a followed by the cleanup of b |
| `Genre.CleanBeforeSuffix` | src/app.py:18 | appending " Game" to a label without one creates no occurrence that starts inside the label |
| `Genre.TrailingSuffixRemoved` | src/app.py:18 | a label without " Game", followed by " Game", cleans back to itself |
| `Genre.SuffixCanSurvive` | src/app.py:18 | " G Gameame Game" ends in " Game" yet cleans and normalises to " Game", so the result is not always free of it |
| `Genre.Relabel` | src/app.py:19-24 | the result is never a table key; it is either the input or the code the table gives the input |
| `Genre.RelabelTable` | src/app.py:19-24 | exactly the four long names (and the codes themselves) map to MOBA, RPG, TPS and FPS; every other label is returned unchanged |
| `Genre.RelabelIdempotent` | src/app.py:19-24 | relabelling twice equals relabelling once |
| `Genre.Normalise` | src/app.py:18-24 | the genre after both steps, Relabel(StripGame(g)); its properties are stated by `Genre.NormaliseVocabulary`, `Genre.NormaliseWithSuffix` and `Genre.SuffixCanSurvive` |
| `Genre.NormaliseVocabulary` | src/app.py:18-24 | a normalised genre is a short code or the cleaned label, and a change by relabelling happens only on a table key |
| `Genre.NormaliseWithSuffix` | src/app.py:18-24 | the cleanup runs first, so "Role-Playing Game" becomes RPG, the MOBA long name plus " Game" becomes MOBA, and "Fighting Game" becomes "Fighting" |
| `Genre.CleanGenres` | src/app.py:18 | in place: each row's genre becomes its cleaned label, and every other field is kept |
| `Genre.RelabelGenres` | src/app.py:19-24 | in place: each row's genre is relabelled, and every other field is kept |
| `Genre.NormaliseGenres` | src/app.py:18-24 | in place: each row's genre becomes Relabel(StripGame(genre)), and every other field is kept |
| `TimeColumns.WithTimeColumns` | src/app.py:14-15 | one row with Year and Month taken from its Date; `TimeColumns.DeriveTimeColumns` states the column-wide result |
| `TimeColumns.DeriveTimeColumns` | src/app.py:14-15 | in place: each row's Year and Month come from its Date, and every other field is kept |
| `TimeColumns.RecomputeYear` | src/app.py:84 | in place: Year is recomputed from Date; on a table whose columns were already derived, nothing changes |
| `TopGames.InsertDesc` | src/app.py:29 | inserting into a descending table keeps it descending and adds exactly one copy of the row |
| `TopGames.SortByEarnings` | src/app.py:29 | the result is a permutation of the table, in non-increasing total earnings |
| `TopGames.TopEarners` | src/app.py:29 | min(5, n) rows, non-increasing in earnings, a sub-multiset of the table, and every row left out earns no more than any selected row |
| `TopGames.TopPrefix` | src/app.py:29 | for any descending arrangement, a prefix is sorted, comes from the table, and dominates every row it leaves out |
| `TopGames.StrictlyLowestLeftOut` | src/app.py:29 | with more than five games, a game that occurs once and earns strictly less than all other rows is not selected |
| `TopGames.TopEarningsDetermined` | src/app.py:29 | any two descending arrangements of the table have the same earnings column, and so the same top-5 earnings |
| `TopGames.TopEarnersEarningsDetermined` | src/app.py:68 | the top-5 earnings shown equal those of any other tie order the sort could produce |
| `TopGames.Alias` | src/app.py:30-31 | maps exactly "Counter-Strike: Global Offensive" to CS:GO and "League of Legends" to LoL; any other name is kept |
| `TopGames.DisplayNames` | src/app.py:30-31 | same length and order as the selected rows; entry i is the alias of game i |
| `TopGames.AliasIdempotent` | src/app.py:30-31 | aliasing an alias changes nothing |
| `TopGames.AliasInjective` | src/app.py:30-31 | distinct names get distinct labels, unless one is already spelled like an alias |
| `TopGames.DisplayNamesUnchanged` | src/app.py:30-31 | without either long name among the selected games, the labels are the game names |
| `TopGames.GameNames` | src/app.py:34 | the Game column of the selected rows, in rank order |
| `PrizePool.KeepGames` | src/app.py:34 | each row is kept with its full multiplicity if its game is one of the names, and dropped otherwise |
| `PrizePool.FilteredData` | src/app.py:34 | the historical rows whose game is among the selected games; its contract is that of `PrizePool.KeepGames` applied to the Game column of the selection |
| `PrizePool.KeepGamesConcat` | src/app.py:34 | the filter distributes over concatenation, so kept rows stay in table order |
| `PrizePool.RowsOfGame` | src/app.py:44 | the rows of one game, in table order; stated by `PrizePool.KeepGames` with a one-name list and by `PrizePool.RowsOfGameEmpty` |
| `PrizePool.RowsOfGameEmpty` | src/app.py:44 | a game's series is empty exactly when no historical row names it |
| `PrizePool.SeriesIgnoresFilter` | src/app.py:34-44 | for a ranked game, its rows in the filtered table are its rows in the whole table |
| `PrizePool.FilteredRowsPlotted` | src/app.py:34-45 | each kept row comes from the table and is plotted in the series of some ranked game |
| `PrizePool.TraceOf` | src/app.py:45 | a trace carries its label and, row by row, the Date and Earnings of the game's rows in table order |
| `PrizePool.BuildPrizePoolTraces` | src/app.py:43-46 | one trace per display name, in rank order; trace i carries label i and the dates and earnings of game i's filtered rows |
| `PrizePool.BuildAnnotations` | src/app.py:68-73 | one annotation per selected game, in rank order, at (release date, total earnings), labelled with the full game name |
| `YearTotals.AddToGroup` | src/app.py:88 | adds one row's value to its year's group; stated by the four `YearTotals.AddToGroup*` lemmas below |
| `YearTotals.AddToGroupYears` | src/app.py:88 | adding to a year's group adds at most that year to the key set |
| `YearTotals.AddToGroupAscending` | src/app.py:88 | adding to a group keeps the keys strictly ascending |
| `YearTotals.AddToGroupLookup` | src/app.py:88 | adding v to year y raises y's total by v and leaves every other year's total alone |
| `YearTotals.AddToGroupSum` | src/app.py:88 | adding v to a group adds v to the grand total |
| `YearTotals.GroupSum` | src/app.py:88-95 | the keys ascend strictly and are exactly the observed years; each year's total is its column sum; the totals add up to the sum over all rows |
| `YearTotals.GroupEntries` | src/app.py:115 | one group per observed year; the k-th group's total is the sum for its year |
| `YearTotals.SumForUnobserved` | src/app.py:88-95 | a year with no rows sums to zero, so no year is zero-filled into the groups |
| `Revenue.EraRows` | src/app.py:88-94 | the boolean masks Year < 2020 and Year >= 2020; stated by `Revenue.EraRowsMultiset` and `Revenue.EraPartition` |
| `Revenue.EraRowsMultiset` | src/app.py:88 | an era keeps every copy of the rows of its years and no other row |
| `Revenue.EraPartition` | src/app.py:88-94 | the two eras together hold exactly the table's rows: each row is in exactly one |
| `Revenue.EraSumFor` | src/app.py:88-95 | a year's sum within its era equals its sum in the whole table, and is 0 in the other era |
| `Revenue.EraSumAll` | src/app.py:88-95 | the two eras' earnings add up to the total earnings |
| `Revenue.EraYears` | src/app.py:88-95 | an era's observed years are the table's observed years on its side of 2020 |
| `Revenue.Millions` | src/app.py:89-95 | the years are kept, and each value times 1E6 is the unscaled total |
| `Revenue.SumMillions` | src/app.py:89-95 | the scaled values add up to the unscaled sum divided by 1E6 |
| `Revenue.RevenueBars` | src/app.py:87-97 | the bars of one era: grouped earnings divided by 1E6; stated by `Revenue.RevenueBarsSpec` and `Revenue.EraSplitConserves` |
| `Revenue.RevenueBarsSpec` | src/app.py:87-97 | each era's bars ascend by year, cover exactly the observed years on their side of 2020, and each bar is that year's earnings / 1E6 |
| `Revenue.EraSplitConserves` | src/app.py:87-97 | the two key sets are disjoint, their union is the set of observed years, the bars sum to total earnings / 1E6, and times 1E6 they give the total back |
| `Revenue.RowInOneEra` | src/app.py:87-97 | a row of year < 2020 shows only in "Before 2020", and a row of year >= 2020 only in "After 2020" |
| `Tournaments.TournamentsPerYear` | src/app.py:115-118 | the per-year tournament table with its Condition column; stated by `Tournaments.TournamentsPerYearSpec` |
| `Tournaments.WithCondition` | src/app.py:118 | keeps each year and its total; Condition is true exactly when the year is 2020 |
| `Tournaments.SumWithCondition` | src/app.py:115-118 | adding the flag keeps the sum of the tournament column |
| `Tournaments.TournamentsPerYearSpec` | src/app.py:115-118 | one bar per observed year in ascending order, holding that year's tournament sum and flagged exactly for 2020; the bars sum to all tournaments |
| `Tournaments.MarkerColour` | src/app.py:123 | both flag values map to lightblue |
| `Dashboard.Run` | src/app.py:11-123 | the script: genres normalised and time columns derived in place; trace i holds the whole table's rows of ranked game i under its alias; annotation i is on the same game; the revenue and tournament data are as above; every marker is lightblue |

## Left out

- Reading the two CSV files (src/app.py:7-8) is file I/O. The tables are the inputs of `Dashboard.Run`.
- Date parsing (src/app.py:11) follows the library's format rules. A Date is an already-parsed (year, month, day) value, so a malformed date, which aborts the script, is not modelled.
- The second date conversion (src/app.py:37) runs on a column that is already a date. It is taken to leave the dates unchanged, and the model has no step for it.
- `ReleaseDate` is never parsed by the script. It is carried as an opaque number and only passed through to the annotations.
- The `print` of the distinct genres (src/app.py:27) is console output.
- Figure construction and styling (src/app.py:40-133) are left out, apart from the data handed to the traces and annotations. This covers subplot geometry, layouts, templates, hover text, tick values, the scatter of every game (src/app.py:63-65) and the empty annotation of the tournament chart.
- The relabel at src/app.py:19-24 is a `replace(..., inplace=True)` called on the selected column. The model assumes it writes back into the general table, as the library does without copy-on-write. Under copy-on-write, the chained in-place call would leave the table unchanged.
- The web application and page layout (src/app.py:136-171) belong to the hosting runtime.
- Floating point is not modelled: earnings and tournaments are integers, and the division by 1E6 is exact.
- Missing values and library type coercion are not modelled. Every row is complete and well typed.
- `TopGames.SortByEarnings`: it fixes one tie order, while the library's unstable sort may pick another. The top-5 properties and `TopGames.TopEarningsDetermined` hold for every tie order, but which of several equally-earning games is shown is not determined.
