# OHLCV data handler of kate-backtest, in Dafny

This project models `pkg/data_handler.go` of kate-backtest, the part of the
backtester that feeds price data to a simulation. It has two halves.

- **Ingestion** (`Ingest`, `ingest.dfy`): `PricesFromCSV` checks the CSV header
  (`isCSVHeaderValid`: open, high, low, close, volume, case-insensitive, in that
  order, extra columns ignored). It then converts cells 0..4 of every data row
  with `strToFloat` into a `DataPoint` and appends them in source order. The
  first cell that is not a number aborts the whole ingestion with an error that
  names that token. On success it returns a handler with window size 5.
- **Window stream** (`Stream`, `stream.dfy`): a `DataHandler` holds the series,
  a window size W and a cursor `counter`, which starts at W. `nextValues`
  returns `prices[counter-W : counter]` and advances the cursor while
  `counter < len(prices)`. After that it returns nil, for good.

The class `Stream.DataHandler` keeps the Go struct's three fields. Its method
`NextValues` updates `counter` in place. It is proved against the pure
transition `Stream.Next` over a `HandlerState` value. `Stream.Run` gives the
results of n successive calls. The lemmas about `Run` state the properties of
the whole stream. The row loop and the five-cell loop of `PricesFromCSV` are
imperative methods (`Ingest.PricesFromCSV`, `Ingest.ConvertRow`). They are proved
equal to the pure specification `Ingest.LoadSeries` / `Ingest.ParseRow`, and the
lemmas characterise those functions.

Modelling choices:
- The CSV reader's output is the input: a `seq<seq<string>>` whose first record
  is the header. An empty sequence stands for a reader that hit end of file
  before the header. Go returns the header error for that.
- `strconv.ParseFloat(s, 64)` is a function parameter
  `parse: string -> Option<Float64>`, where `None` is its error. A float64 is
  carried as its 64-bit IEEE 754 pattern (`Prices.Float64 = bv64`). No
  arithmetic is done on prices, so only equality matters.
- `strings.ToLower` is modelled rune by rune (`Ingest.ToLowerRune`) for every
  rune whose lower-case form is ASCII: A-Z, U+0130 (to `i`) and U+212A (to `k`).
  Other runes are left unchanged. Their Go lower-case forms are not ASCII, so no
  header cell containing one can match a required column either way.
- Go's nil handler and nil window are `null` and `None`. `(value, error)`
  results are `Result` values.
- The window count follows the code's strict `counter < len(prices)`
  (pkg/data_handler.go:61). A series of N bars yields max(0, N−W) windows,
  not N−W+1. The last bar is never the newest bar of a window. With three bars
  and W = 2, the stream yields one window, `[bar0, bar1]`, and then nil
  (`Stream.ThreeBarsWindowTwo`). A reading of the stream as "N−W+1 windows"
  does not match the code.
- The code accepts a header with more than five columns and ignores the extra
  ones. It also accepts any window size. The model takes W as a `nat`, because
  a negative W makes Go's slice expression panic on the first window.

## Model

| member | source | states |
|---|---|---|
| `Stream.DataHandler.constructor` | pkg/data_handler.go:50-56 | `newDataHandler` stores the series unchanged, sets windowSize = W and counter = W, and establishes the handler invariant |
| `Stream.DataHandler.NextValues` | pkg/data_handler.go:60-69 | while counter < len(prices): returns exactly `prices[counter-W .. counter)` and increments counter by one; otherwise returns nil and changes nothing; prices and windowSize never change; the invariant W <= counter <= max(W, N) is kept |
| `Stream.Init` | pkg/data_handler.go:50-56 | the state a fresh handler starts in satisfies the invariant, with counter = windowSize and the series as given |
| `Stream.Next` | pkg/data_handler.go:60-69 | one call returns a window iff counter < N; that window has length W and its i-th bar is `prices[counter-W+i]`; the cursor moves by exactly one; a nil call leaves the state unchanged; the invariant is preserved |
| `Stream.RunAt` | pkg/data_handler.go:61-68 | from any valid state, call k returns the window ending before counter + k while counter + k < N, and nil from then on |
| `Stream.FreshHandlerWindows` | pkg/data_handler.go:54-68 | from a fresh handler, call k returns `prices[k .. k+W)` exactly when k + W < N, else nil; every window's newest bar comes before the series' last bar; if N <= W the first call returns nil |
| `Stream.ExhaustionIsTerminal` | pkg/data_handler.go:61-68 | once a call returns nil, every later call returns nil |
| `Stream.WindowCountFrom` | pkg/data_handler.go:61-66 | from any valid state, n calls yield min(n, max(0, N − counter)) windows |
| `Stream.FreshHandlerWindowCount` | pkg/data_handler.go:54-66 | a fresh handler yields exactly max(0, N − W) windows in total |
| `Stream.ThreeBarsWindowTwo` | pkg/data_handler.go:54-68 | three bars with W = 2 yield the window [bar0, bar1] and then nil twice |
| `Ingest.ToLowerRuneFolds` | pkg/data_handler.go:126 | a rune lower-cases to an ASCII lower-case letter l iff it is l, its capital, or (for `i`, `k`) U+0130 / U+212A |
| `Ingest.ToLowerMatchesWord` | pkg/data_handler.go:126 | a cell lower-cases to a lower-case ASCII word t iff it has t's length and each rune is t's letter, its capital, or U+0130 / U+212A where t has `i` / `k` |
| `Ingest.ColumnsMatchFrom` | pkg/data_handler.go:125-130 | the loop from column i on, defined whenever it does not index past a short header, returns true iff the header has five cells and every remaining column lower-cases to the required name |
| `Ingest.IsCSVHeaderValid` | pkg/data_handler.go:124-131 | on every header the Go loop does not panic on, valid iff it has at least five cells and lower(h[i]) is the i-th required name (open, high, low, close, volume, fixed at pkg/data_handler.go line 47) for i in 0..4 |
| `Ingest.HeaderIgnoresExtraColumns` | pkg/data_handler.go:125-130 | cells after the fifth never change the verdict |
| `Ingest.HeaderCaseInsensitive` | pkg/data_handler.go:126 | changing the case of any ASCII letters in any header cells keeps the check panic-free and keeps its verdict |
| `Ingest.CapitalisedHeaderAccepted` | pkg/data_handler.go:124-131 | `Open,High,Low,Close,Volume` is accepted |
| `Ingest.ReversedHeaderRejected` | pkg/data_handler.go:124-131 | `volume,close,low,high,open` is rejected (the check is order-sensitive) |
| `Ingest.ShortHeaderRejected` | pkg/data_handler.go:124-131 | the two-cell header `date,price` is rejected at its first cell, without indexing past its end |
| `Ingest.ShortHeaderLoadFails` | pkg/data_handler.go:77-80 | a `date,price` header makes ingestion return the header error whatever rows follow, none of which is looked at |
| `Ingest.StrToFloat` | pkg/data_handler.go:114-120 | succeeds iff the parse succeeds, with the parsed value; on failure the error names the token |
| `Ingest.ParseRow` | pkg/data_handler.go:92-107 | a row converts iff its cells 0..4 all parse, into Open/High/Low/Close/Volume = the parses of cells 0..4; otherwise the error names the first bad cell |
| `Ingest.ConvertRow` | pkg/data_handler.go:92-99 | the five-slot `numbers` loop returns exactly what `ParseRow` specifies |
| `Ingest.ParseRows` | pkg/data_handler.go:83-108 | defined whenever every row the loop reads has five cells (rows after the first bad one are unconstrained); all rows convert iff every row's cells 0..4 parse; then one bar per row, in order; otherwise the error is the first bad cell of the first bad row |
| `Ingest.FullRowsReached` | pkg/data_handler.go:83-95 | when every data row has five cells or more, as the CSV reader guarantees for the rows it returns behind a valid header, every row the loop reads is safe to index |
| `Ingest.LoadSeriesSucceeds` | pkg/data_handler.go:77-110 | ingestion succeeds iff the header exists and is valid and every data row converts; the series then has one bar per data row, in source order, built from that row's cells |
| `Ingest.LoadSeriesParseError` | pkg/data_handler.go:77-95 | a header error occurs iff the header is missing or invalid, so no row is looked at; a parse error names the first bad cell of the first bad data row, after a valid header |
| `Ingest.BadCellNamed` | pkg/data_handler.go:92-120 | a data row `1.0,2.0,abc,3.0,100` after good rows makes the whole ingestion fail with an error naming `abc`, with no requirement on the rows after it, which are never read |
| `Ingest.RaggedRowAfterBadCell` | pkg/data_handler.go:83-95 | records `open,high,low,close,volume` / `1,2,abc,3,4` / `1,2` are accepted input and fail with the error naming `abc`; the two-cell row after it is never read |
| `Ingest.PricesFromCSV` | pkg/data_handler.go:72-111 | returns a fresh handler over exactly the specified series with window size 5 and counter 5 and no error, or no handler and the specified error |

## Left out

- Opening the file, `bufio` and the `encoding/csv` tokeniser, including quoting (pkg/data_handler.go:73-74,84): these are I/O and library behaviour. The input is the reader's records.
- The ignored `os.Open` error (pkg/data_handler.go:73): with a nil file, the header read fails. This is the same as an empty record sequence here.
- The `log.Fatal` on reader errors (pkg/data_handler.go:87-88): this is a process exit on I/O failure. The reader's field-count check means that every data row the reader returns behind a valid header (five cells or more) has as many cells as the header; a ragged row makes it return an error, and Go exits. `RecordsWellFormed` therefore asks for five cells only of the rows the loop actually reads: none behind an invalid header, and none after the first row with a bad cell.
- Ingest.IsCSVHeaderValid: requires `HeaderCheckSafe`, excluding only headers shorter than five cells all of whose cells match the leading column names (such as `open,high`): on those Go indexes `firstLine[i]` past the end and panics. A short header with a mismatch is modelled and rejected.
- The internals of `strconv.ParseFloat` and float64 semantics: no arithmetic is done on the values. The parse is a parameter.
- The exact text of the error messages (pkg/data_handler.go:78-79,118-119). Only the kind of error and the offending token are kept. `strToFloat`'s placeholder value -1 on error is discarded by its only caller, so it is not modelled.
- `Position`, the embedded `Event` and `AggregatedDataPoints.Event` (pkg/data_handler.go:22,26-38,42): these are declarations for trading logic outside this file.
- Whether a window aliases the series or copies it: windows are values.
