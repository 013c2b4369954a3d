# Bybit candles reporter: breakout scan model

The reporter downloads ten days of half-hour klines for every spot pair of
BTC quoted in USDT. It turns each symbol's provider list into chronological
candles. It then scans every window of 48 consecutive candles for a
"breakout": a final bar whose positive body `close - open` is strictly larger
than the absolute body of every earlier bar of the window. Each breakout
becomes a pattern with a strength: the final body divided by the largest
earlier absolute body, or infinity when all earlier bodies are flat. The
patterns are ranked strongest first by a stable sort. Every pattern whose
final bar is its symbol's most recent bar is charted and sent to a chat.

This project models that core in Dafny and proves its properties:

- `Bars` (`bars.dfy`): provider records, normalised candles, and the
  insert-at-front normalisation loop with its floor division of the
  millisecond start time.
- `Strengths` (`strengths.dfy`): strengths as `Finite(ratio) | Infinite`.
  The comparison puts infinity on top, as Python's float comparison does.
- `Scanner` (`scanner.dfy`): the window predicate and the pattern record. It
  holds the scan of one symbol and of the whole candle map, and the error
  raised when a qualifying final bar opens at 0.
- `Ranking` (`ranking.dfy`): the stable descending sort as an insertion
  sort. It is proved to be the only ordering that is both non-increasing and
  stable.
- `Reporting` (`reporting.dfy`): normalising every symbol and the "current"
  filter over the ranked list. It also holds the chart slice arithmetic and
  the whole run.
- `Scenarios` (`scenarios.dfy`): concrete four-bar windows whose outcomes
  are worked out in full.

The candle map, a Python dict, is a sequence of (symbol, candles) pairs in
insertion order with distinct symbols.

Facts about `main.py` that shape the model:

- `main.py` fixes the window length at `24 * 2` and has no invalid-length
  error. The model takes the length as a parameter with `winLen >= 2`: with
  length 1, `max` over an empty window raises. `Reporting.RunCharts` states
  the charts produced with the fixed length 48.
- Within the scan, the only data-dependent failure is the division
  `close / open` for a qualifying window whose final bar opens at 0.0. That
  raises ZeroDivisionError and ends the run. The model returns
  `Err(ZeroOpenPrice(symbol, j))` there. The timestamp conversion during
  normalisation can also raise; see "## Left out".
- The timestamp conversion is floor division (`//`), not truncation. The two
  differ only for negative times.
- `main.py` does not require unique timestamps. Times are non-decreasing for
  a newest-first provider list. They are strictly increasing if records are
  at least a second apart.

## Model

| member | source | states |
|---|---|---|
| Bars.PrependAllReverses | main.py:98-108 | The insert-at-front loop leaves the records consumed reversed in front of the list built so far, and keeps that list unchanged behind them |
| Bars.Normalize | main.py:96-108 | Normalised candles have as many entries as records. Entry k comes from record n-1-k: its time in seconds is the floor of the record's milliseconds over 1000, and its prices and volume are copied |
| Bars.NormalizeAscending | main.py:97-108 | A newest-first provider list yields candles whose times never decrease |
| Bars.NormalizeStrictlyAscending | main.py:97-108 | Records at least 1000 ms apart yield strictly increasing candle times |
| Strengths.StrengthOf | main.py:118-120 | The strength is finite exactly when the largest earlier body is positive. It is then the body ratio and above 1 |
| Strengths.AtLeastTotalOrder | main.py:135 | The sort key comparison is a total order: reflexive, total, antisymmetric and transitive, with "greater" meaning "at least and different" |
| Strengths.InfiniteIsTop | main.py:120 | Infinity is at least every strength, and only infinity is at least infinity |
| Scanner.MaxAbsBody | main.py:117 | The maximum absolute body bounds every bar of the slice and is attained by one of them |
| Scanner.Qualifies | main.py:114-118 | main.py's two tests hold exactly when the final body is positive and strictly above every earlier absolute body of the window |
| Scanner.NewPattern | main.py:119-133 | A recorded pattern copies the final bar's open and close. Its j is i + winLen - 1, its price change is close / open, and it stores the final and largest earlier bodies and the strength derived from them |
| Scanner.ScanFromShape | main.py:113-133 | Every pattern found from start i on carries the symbol scanned and a start at or after i, and starts strictly increase |
| Scanner.ScanFromDescribed | main.py:113-133 | Every pattern found from start i on describes a breakout of the symbol's candles, field by field |
| Scanner.ScanFromSound | main.py:113-133 | Every pattern found from start i on describes a breakout at or after i, and starts strictly increase |
| Scanner.ScanFromComplete | main.py:113-133 | Every breakout at or after start i is found |
| Scanner.ScanFromFailsIff | main.py:116-119 | The scan fails exactly when some breakout at or after i has a final bar opening at 0 |
| Scanner.ScanFromFailsFirst | main.py:113-119 | A failure names the first such breakout's final bar; every earlier breakout has a non-zero open |
| Scanner.ScanSymbolSound | main.py:113-133 | All of a symbol's patterns are breakouts of its candles, described field by field, in increasing start order |
| Scanner.DescribesBreakout | main.py:114-118 | A recorded pattern's window satisfies the breakout condition |
| Scanner.PatternStrength | main.py:117-120 | A pattern's strength is infinite exactly when every earlier bar of its window is flat; a finite strength is above 1 |
| Scanner.ScanSymbolExact | main.py:113-118 | A start appears among the patterns if and only if its window is a breakout |
| Scanner.ScanSymbolFails | main.py:113-119 | The scan of a symbol fails exactly when a breakout's final bar opens at 0, and the error names the earliest one |
| Scanner.ScanSymbolBoundary | main.py:113 | Fewer candles than the window give no pattern; exactly one window's worth gives at most one, starting at 0 |
| Scanner.LookupFindsEntry | main.py:143 | With distinct keys, looking a symbol up returns that symbol's candles |
| Scanner.KeyIndex | main.py:112 | The position of a symbol in the dict's insertion order: its entry holds that symbol and no earlier entry does |
| Scanner.ScanAllDescribed | main.py:112-133 | Every pattern found over all symbols names a symbol of the map and describes a breakout of that symbol's candles |
| Scanner.ScanAllOrder | main.py:112-133 | Patterns found over all symbols are listed by the symbol's position in the dict and, within one symbol, by increasing start: this is the discovery order ranking keeps among equal strengths |
| Scanner.InMapOrderConcat | main.py:112-133 | One symbol's patterns by increasing start, followed by the later symbols' patterns in dict order, are in dict order |
| Scanner.ScanAllSound | main.py:112-133 | Every pattern found over all symbols names a symbol of the map and describes a breakout of that symbol's candles; no (symbol, final bar) pair repeats |
| Scanner.ScanAllComplete | main.py:112-133 | Every breakout of every symbol is found |
| Scanner.ScanAllFails | main.py:112-119 | The run over all symbols fails exactly when some symbol's scan fails |
| Ranking.InsertPermutes | main.py:135 | Inserting one pattern adds exactly that pattern |
| Ranking.InsertSorted | main.py:135 | Inserting into a list sorted by strength keeps it sorted |
| Ranking.InsertOfStrength | main.py:135 | Insertion puts the new pattern in front of its own strength level and changes no other level |
| Ranking.RankPermutes | main.py:135 | The ranked list is a permutation of the patterns found |
| Ranking.RankSorted | main.py:135 | The ranked list is non-increasing in strength |
| Ranking.RankStable | main.py:135 | Patterns of equal strength keep their discovery order |
| Ranking.RankInfiniteFirst | main.py:120-135 | Patterns of infinite strength come before all others |
| Ranking.RankIsTheStableSort | main.py:135 | Any list that is sorted by strength and stable with respect to the patterns found equals the ranked list |
| Ranking.SortedStableUnique | main.py:135 | Two sorted lists with the same patterns at every strength level, in the same order, are equal |
| Reporting.NormalizeAll | main.py:96-108 | Every symbol's records are normalised; keys, their order and their distinctness are kept |
| Reporting.SelectAtPositions | main.py:142-143 | The k-th kept pattern is the pattern at the k-th recorded position, and that position lies in the list |
| Reporting.PositionsIncrease | main.py:142-143 | The recorded positions strictly increase, so the loop keeps the ranked order |
| Reporting.PositionsExact | main.py:142-143 | A position is recorded exactly when the pattern there passes the test |
| Reporting.CurrentExactly | main.py:142-143 | Every pattern the loop acts on is current, and every current pattern is acted on |
| Reporting.CurrentSorted | main.py:135-143 | The patterns acted on remain strongest first |
| Reporting.CurrentOnePerSymbol | main.py:142-143 | With unique (symbol, final bar) pairs, no symbol is acted on twice |
| Reporting.DisplaySliceInside | main.py:59-65 | The chart slice lies inside the candles and starts at i. The highlight offset is winLen - 1 and shows the final bar. The slice holds min(n - i, 2 winLen - 1) candles |
| Reporting.CurrentChart | main.py:59-65 | A current pattern's chart ends at the symbol's latest candle and holds exactly one window, with the final bar highlighted last |
| Reporting.PermutationKnown | main.py:135 | Reordering keeps every pattern's symbol in the map |
| Reporting.PermutationUnique | main.py:135 | Reordering keeps (symbol, final bar) pairs unique |
| Reporting.PermutationDescribed | main.py:135 | Reordering keeps every pattern a breakout of its symbol |
| Reporting.RunSteps | main.py:110-143 | In a successful run every pattern found, and every ranked pattern, names a symbol of the candle map, and no (symbol, final bar) pair is found twice |
| Reporting.RunRanked | main.py:135 | The ranked list is a permutation of the patterns found, sorted, with equal strengths in discovery order |
| Reporting.CurrentDescribed | main.py:142-143 | Filtering described patterns keeps only described patterns whose final bar is their symbol's latest candle |
| Reporting.RunCurrentSound | main.py:112-143 | Every reported pattern is a breakout of its own symbol whose final bar is that symbol's most recent candle |
| Reporting.RunCharts | main.py:59-65 | With the fixed window of 48, every chart sent shows the 48 candles ending at the symbol's latest one, with the highlight at offset 47 |
| Reporting.RunCurrentOrder | main.py:135-143 | Reports go out strongest first, at most one per symbol |
| Reporting.LatestBreakoutsReported | main.py:112-143 | After ranking, the filter keeps a pattern for every symbol whose latest candle completes a breakout |
| Reporting.RunCurrentComplete | main.py:112-143 | Every symbol whose most recent candle completes a breakout is reported |
| Scenarios.BreakoutFound | main.py:113-133 | Earlier bodies 0.5, -0.3, -0.1 and a final body 1.9 give one pattern of strength 3.8 and price change 12 / 10.1 |
| Scenarios.SmallFinalBodyRejected | main.py:116-118 | A final body 0.2 below the earlier 0.5 gives no pattern |
| Scenarios.DownwardFinalBarRejected | main.py:116 | A falling final bar gives no pattern |
| Scenarios.FlatWindowIsInfinite | main.py:117-120 | Flat earlier bars give an infinite strength |
| Scenarios.ZeroOpenFails | main.py:119 | A breakout whose final bar opens at 0 fails the run at that bar |

## Left out

- Network access is not modelled. Fetching instruments and klines from the exchange, and sending photos to Telegram, are I/O. The model starts from the provider lists already fetched.
- The clock is not modelled. The ten-day request range and the caption's time stamp come from it.
- The `.env` loading, the progress bar and the caption text are not modelled.
- Chart rendering (`plot_candles`) is not modelled. Only the slice handed to it is.
- Bars.Normalize: does not model the ValueError that `datetime.fromtimestamp` (main.py:101) raises for a start time outside the years 1 to 9999. Any integer start time is accepted, because the model keeps seconds and does not build calendar dates.
- Text parsing of the provider's records is not modelled: `int(...)` and `float(...)`, and the IndexError or ValueError a malformed record raises. Records arrive as six named numeric fields.
- IEEE-754 floating point is not modelled. Prices are exact reals, so rounding, NaN and signed zeros are out. Infinity appears only as the strength of a window with flat earlier bars.
- The commented-out threshold filter (main.py:136) is not modelled. It is not executed.
- The instrument filter by quote coin (main.py:75-76) is not modelled. It is part of the request, not of the scan.
