/** OHLCV ingestion of pkg/data_handler.go (`PricesFromCSV`, `isCSVHeaderValid`,
    `strToFloat`). The CSV reader's output is the input here: a sequence of
    records, each a sequence of cells, the first one the header. Go's
    `strconv.ParseFloat(str, 64)` is the parameter `parse`, None where it
    reports an error. */
module Ingest {
  import opened Wrappers
  import opened Prices
  import Stream

  /** The required header, in order (`csvColumns`). */
  const CsvColumns: seq<string> := ["open", "high", "low", "close", "volume"]

  /** Why ingestion produced no handler: the header could not be read or does
      not name the OHLCV columns, or a cell is not a number (the token is kept). */
  datatype LoadError = HeaderError | ParseError(token: string)

  /** `unicode.ToLower` on one rune, for every rune whose lower-case form is
      ASCII: the letters A-Z, LATIN CAPITAL LETTER I WITH DOT ABOVE and KELVIN
      SIGN. Other runes are returned unchanged. */
  function ToLowerRune(c: char): (l: char)
    ensures 'A' <= c <= 'Z' ==> l as int == c as int + 32
    ensures !('A' <= c <= 'Z') && c != '\U{0130}' && c != '\U{212A}' ==> l == c
  {
    if 'A' <= c <= 'Z' then (c as int + 32) as char
    else if c == '\U{0130}' then 'i'
    else if c == '\U{212A}' then 'k'
    else c
  }

  /** `strings.ToLower`, rune by rune. */
  function ToLower(s: string): (r: string)
    ensures |r| == |s|
    ensures forall i :: 0 <= i < |s| ==> r[i] == ToLowerRune(s[i])
  {
    seq(|s|, i requires 0 <= i < |s| => ToLowerRune(s[i]))
  }

  /** The runes that lower-case to the ASCII lower-case letter l: l itself,
      its capital, and for `i` and `k` the two non-ASCII runes that fold to them. */
  predicate FoldsTo(c: char, l: char) {
    c == l || c as int + 32 == l as int
    || (l == 'i' && c == '\U{0130}') || (l == 'k' && c == '\U{212A}')
  }

  /** A word of ASCII lower-case letters, such as each required column name. */
  predicate IsLowerWord(t: string) {
    forall i :: 0 <= i < |t| ==> 'a' <= t[i] <= 'z'
  }

  lemma ToLowerRuneFolds(c: char, l: char)
    requires 'a' <= l <= 'z'
    ensures ToLowerRune(c) == l <==> FoldsTo(c, l)
  {
  }

  /** A cell lower-cases to a lower-case ASCII word t exactly when it has the
      length of t and each of its runes is t's letter, its capital, or (for `i`
      and `k`) the dotted capital I or the Kelvin sign. */
  lemma {:induction false} ToLowerMatchesWord(s: string, t: string)
    requires IsLowerWord(t)
    ensures ToLower(s) == t <==> |s| == |t| && forall i :: 0 <= i < |s| ==> FoldsTo(s[i], t[i])
  {
    if |s| == |t| {
      forall i | 0 <= i < |s|
        ensures ToLower(s)[i] == t[i] <==> FoldsTo(s[i], t[i])
      {
        ToLowerRuneFolds(s[i], t[i]);
      }
      if forall i :: 0 <= i < |s| ==> FoldsTo(s[i], t[i]) {
        assert ToLower(s) == t;
      }
    }
  }

  /** Go's loop indexes `firstLine[i]` for i = 0..4 and stops at the first
      mismatch, so it panics only on a header shorter than five cells all of
      whose cells match the leading column names. This is the other case. */
  predicate HeaderCheckSafe(firstLine: seq<string>) {
    |firstLine| >= |CsvColumns|
    || exists m :: 0 <= m < |firstLine| && ToLower(firstLine[m]) != CsvColumns[m]
  }

  /** The loop of `isCSVHeaderValid` from column i on: false at the first
      column whose lower-cased name differs from the required one. */
  function ColumnsMatchFrom(firstLine: seq<string>, i: nat): (ok: bool)
    requires i <= |CsvColumns|
    requires |firstLine| >= |CsvColumns|
             || exists m :: i <= m < |firstLine| && ToLower(firstLine[m]) != CsvColumns[m]
    ensures ok <==> |firstLine| >= |CsvColumns| &&
                    forall m :: i <= m < |CsvColumns| ==> ToLower(firstLine[m]) == CsvColumns[m]
    decreases |CsvColumns| - i
  {
    if i == |CsvColumns| then true
    else if ToLower(firstLine[i]) != CsvColumns[i] then false
    else ColumnsMatchFrom(firstLine, i + 1)
  }

  /** `isCSVHeaderValid`: the header has the five columns open, high, low,
      close, volume first, case-insensitively and in this order; later cells
      are not looked at. */
  predicate IsCSVHeaderValid(firstLine: seq<string>)
    requires HeaderCheckSafe(firstLine)
    ensures IsCSVHeaderValid(firstLine) <==>
              |firstLine| >= |CsvColumns| &&
              forall i :: 0 <= i < |CsvColumns| ==> ToLower(firstLine[i]) == CsvColumns[i]
  {
    ColumnsMatchFrom(firstLine, 0)
  }

  /** Columns after the fifth never change the verdict. */
  lemma HeaderIgnoresExtraColumns(firstLine: seq<string>, extra: seq<string>)
    requires |firstLine| >= |CsvColumns|
    ensures IsCSVHeaderValid(firstLine + extra) == IsCSVHeaderValid(firstLine)
  {
    assert forall i :: 0 <= i < |CsvColumns| ==> (firstLine + extra)[i] == firstLine[i];
  }

  /** Two runes equal up to the case of an ASCII letter. */
  predicate CaseVariant(c1: char, c2: char) {
    c1 == c2
    || ('A' <= c1 <= 'Z' && c2 as int == c1 as int + 32)
    || ('a' <= c1 <= 'z' && c2 as int == c1 as int - 32)
  }

  /** Two header cells equal up to the case of their ASCII letters. */
  predicate CellCaseVariant(s1: string, s2: string) {
    |s1| == |s2| && forall i :: 0 <= i < |s1| ==> CaseVariant(s1[i], s2[i])
  }

  /** Changing the case of any ASCII letters in any header cells changes
      neither whether the check can run nor its verdict. */
  lemma HeaderCaseInsensitive(h1: seq<string>, h2: seq<string>)
    requires |h1| == |h2| && forall j :: 0 <= j < |h1| ==> CellCaseVariant(h1[j], h2[j])
    requires HeaderCheckSafe(h1)
    ensures HeaderCheckSafe(h2)
    ensures IsCSVHeaderValid(h1) == IsCSVHeaderValid(h2)
  {
    forall j | 0 <= j < |h1|
      ensures ToLower(h1[j]) == ToLower(h2[j])
    {
      assert forall i :: 0 <= i < |h1[j]| ==> ToLowerRune(h1[j][i]) == ToLowerRune(h2[j][i]);
    }
  }

  /** The capitalised header is accepted. */
  lemma CapitalisedHeaderAccepted()
    ensures IsCSVHeaderValid(["Open", "High", "Low", "Close", "Volume"])
  {
    assert ToLower("Open") == "open";
    assert ToLower("High") == "high";
    assert ToLower("Low") == "low";
    assert ToLower("Close") == "close";
    assert ToLower("Volume") == "volume";
  }

  /** The right names in the wrong order are rejected. */
  lemma ReversedHeaderRejected()
    ensures !IsCSVHeaderValid(["volume", "close", "low", "high", "open"])
  {
    assert ToLower("volume")[0] == 'v' != CsvColumns[0][0];
  }

  /** A short header whose cells do not match is rejected without a panic. */
  lemma ShortHeaderRejected()
    ensures HeaderCheckSafe(["date", "price"])
    ensures !IsCSVHeaderValid(["date", "price"])
  {
    assert ToLower("date")[0] == 'd' != CsvColumns[0][0];
  }

  /** `strToFloat`: the parsed number, or an error that names the token. */
  function StrToFloat(str: string, parse: string -> Option<Float64>): (r: Result<Float64, LoadError>)
    ensures r.Success? <==> parse(str).Some?
    ensures r.Success? ==> r.value == parse(str).value
    ensures r.Failure? ==> r.error == ParseError(str)
  {
    match parse(str)
    case Some(number) => Success(number)
    case None => Failure(ParseError(str))
  }

  /** Every one of the first five cells of a row is a number. */
  predicate RowParses(line: seq<string>, parse: string -> Option<Float64>)
    requires |line| >= 5
  {
    forall i :: 0 <= i < 5 ==> parse(line[i]).Some?
  }

  /** The bar a row stands for: cells 0..4 are Open, High, Low, Close, Volume. */
  function PointOf(line: seq<string>, parse: string -> Option<Float64>): DataPoint
    requires |line| >= 5 && RowParses(line, parse)
  {
    DataPoint(parse(line[0]).value, parse(line[1]).value, parse(line[2]).value,
              parse(line[3]).value, parse(line[4]).value)
  }

  /** The failure a row causes: the first of its five cells that is not a number. */
  predicate FirstBadCell(line: seq<string>, parse: string -> Option<Float64>, e: LoadError)
    requires |line| >= 5
  {
    exists i :: 0 <= i < 5 && e == ParseError(line[i]) && parse(line[i]).None?
                && forall m :: 0 <= m < i ==> parse(line[m]).Some?
  }

  /** The conversion of one data row (the inner loop of `PricesFromCSV`),
      stopping at the first cell that is not a number. */
  function ParseRow(line: seq<string>, parse: string -> Option<Float64>): (r: Result<DataPoint, LoadError>)
    requires |line| >= 5
    ensures r.Success? <==> RowParses(line, parse)
    ensures r.Success? ==> r.value == PointOf(line, parse)
    ensures r.Failure? ==> FirstBadCell(line, parse, r.error)
  {
    var open :- StrToFloat(line[0], parse);
    var high :- StrToFloat(line[1], parse);
    var low :- StrToFloat(line[2], parse);
    var close :- StrToFloat(line[3], parse);
    var volume :- StrToFloat(line[4], parse);
    Success(DataPoint(open, high, low, close, volume))
  }

  /** Every data row the row loop reads has at least five cells: the CSV
      reader hands out only records with as many cells as the header, and the
      loop reads no row after the first one that fails to convert. */
  predicate RowsReached(rows: seq<seq<string>>, parse: string -> Option<Float64>)
    decreases |rows|
  {
    rows != [] ==> |rows[0]| >= 5 && (RowParses(rows[0], parse) ==> RowsReached(rows[1..], parse))
  }

  /** Rows that all have five cells or more are all reached safely. */
  lemma {:induction false} FullRowsReached(rows: seq<seq<string>>, parse: string -> Option<Float64>)
    requires forall j :: 0 <= j < |rows| ==> |rows[j]| >= 5
    ensures RowsReached(rows, parse)
    decreases |rows|
  {
    if rows != [] {
      assert forall j :: 0 <= j < |rows[1..]| ==> rows[1..][j] == rows[j + 1];
      FullRowsReached(rows[1..], parse);
    }
  }

  /** The conversion of all data rows in order (the outer loop of
      `PricesFromCSV`): all-or-nothing, the first bad row decides the error. */
  function ParseRows(rows: seq<seq<string>>, parse: string -> Option<Float64>): (r: Result<seq<DataPoint>, LoadError>)
    requires RowsReached(rows, parse)
    ensures r.Success? <==> forall j :: 0 <= j < |rows| ==> |rows[j]| >= 5 && RowParses(rows[j], parse)
    ensures r.Success? ==> |r.value| == |rows|
    ensures r.Success? ==> forall j :: 0 <= j < |rows| ==> |rows[j]| >= 5 && RowParses(rows[j], parse)
                                                           && r.value[j] == PointOf(rows[j], parse)
    ensures r.Failure? ==> exists j :: 0 <= j < |rows| && |rows[j]| >= 5 && FirstBadCell(rows[j], parse, r.error)
                                       && forall m :: 0 <= m < j ==> |rows[m]| >= 5 && RowParses(rows[m], parse)
    decreases |rows|
  {
    if rows == [] then Success([])
    else
      var point :- ParseRow(rows[0], parse);
      var rest :- ParseRows(rows[1..], parse);
      Success([point] + rest)
  }

  /** Records as the CSV reader delivers them: a header the check can run on
      and, behind a valid header, five cells or more in every data row the row
      loop reads. */
  predicate RecordsWellFormed(records: seq<seq<string>>, parse: string -> Option<Float64>) {
    |records| > 0 ==>
      HeaderCheckSafe(records[0]) && (IsCSVHeaderValid(records[0]) ==> RowsReached(records[1..], parse))
  }

  /** What `PricesFromCSV` computes: the series, or the error it returns. A
      missing or invalid header fails before any row is looked at. */
  function LoadSeries(records: seq<seq<string>>, parse: string -> Option<Float64>): (r: Result<seq<DataPoint>, LoadError>)
    requires RecordsWellFormed(records, parse)
  {
    if |records| == 0 || !IsCSVHeaderValid(records[0]) then Failure(HeaderError)
    else ParseRows(records[1..], parse)
  }

  /** Ingestion succeeds exactly when there is a valid header and every cell
      0..4 of every data row is a number; then the series has one bar per data
      row, in source order, made of that row's parsed cells. */
  lemma LoadSeriesSucceeds(records: seq<seq<string>>, parse: string -> Option<Float64>)
    requires RecordsWellFormed(records, parse)
    ensures LoadSeries(records, parse).Success? <==>
              |records| > 0 && IsCSVHeaderValid(records[0]) &&
              forall j :: 1 <= j < |records| ==> |records[j]| >= 5 && RowParses(records[j], parse)
    ensures LoadSeries(records, parse).Success? ==>
              |LoadSeries(records, parse).value| == |records| - 1 &&
              forall j :: 1 <= j < |records| ==>
                |records[j]| >= 5 && RowParses(records[j], parse) &&
                LoadSeries(records, parse).value[j - 1] == PointOf(records[j], parse)
  {
    if |records| > 0 && IsCSVHeaderValid(records[0]) {
      var rows := records[1..];
      assert forall j :: 1 <= j < |records| ==> records[j] == rows[j - 1];
    }
  }

  /** Ingestion fails with a parse error exactly at the first bad cell of the
      first data row that has one, and only when the header is valid. */
  lemma LoadSeriesParseError(records: seq<seq<string>>, parse: string -> Option<Float64>)
    requires RecordsWellFormed(records, parse)
    requires LoadSeries(records, parse).Failure?
    ensures LoadSeries(records, parse).error.ParseError? ==>
              |records| > 0 && IsCSVHeaderValid(records[0]) &&
              exists j :: 1 <= j < |records| && |records[j]| >= 5
                          && FirstBadCell(records[j], parse, LoadSeries(records, parse).error)
                          && forall m :: 1 <= m < j ==> |records[m]| >= 5 && RowParses(records[m], parse)
    ensures LoadSeries(records, parse).error.HeaderError? <==>
              |records| == 0 || !IsCSVHeaderValid(records[0])
  {
    var e := LoadSeries(records, parse).error;
    if e.ParseError? {
      var rows := records[1..];
      var j :| 0 <= j < |rows| && |rows[j]| >= 5 && FirstBadCell(rows[j], parse, e)
               && forall m :: 0 <= m < j ==> |rows[m]| >= 5 && RowParses(rows[m], parse);
      assert records[j + 1] == rows[j];
      assert forall m :: 1 <= m < j + 1 ==> records[m] == rows[m - 1];
    }
  }

  /** A header `date,price` makes ingestion fail with the header error,
      whatever rows follow it, however malformed. */
  lemma ShortHeaderLoadFails(rows: seq<seq<string>>, parse: string -> Option<Float64>)
    ensures RecordsWellFormed([["date", "price"]] + rows, parse)
    ensures LoadSeries([["date", "price"]] + rows, parse) == Failure(HeaderError)
  {
    ShortHeaderRejected();
    assert ([["date", "price"]] + rows)[0] == ["date", "price"];
  }

  /** A data row `1.0,2.0,abc,3.0,100` after a valid header and rows that
      convert fails the whole ingestion with an error naming `abc`, whatever
      the rows after it hold, ragged ones included: none of them is read. */
  lemma BadCellNamed(records: seq<seq<string>>, j: nat, parse: string -> Option<Float64>)
    requires 1 <= j < |records|
    requires HeaderCheckSafe(records[0]) && IsCSVHeaderValid(records[0])
    requires forall m :: 1 <= m < j ==> |records[m]| >= 5 && RowParses(records[m], parse)
    requires records[j] == ["1.0", "2.0", "abc", "3.0", "100"]
    requires parse("1.0").Some? && parse("2.0").Some? && parse("abc").None?
    ensures RecordsWellFormed(records, parse)
    ensures LoadSeries(records, parse) == Failure(ParseError("abc"))
  {
    var rows := records[1..];
    var before, rest := rows[..j - 1], rows[j - 1..];
    assert rows == before + rest;
    assert rest[0] == records[j];
    assert forall m :: 0 <= m < |before| ==> before[m] == records[m + 1];
    BadRow(parse);
    assert !RowParses(rest[0], parse);
    assert RowsReached(rest, parse);
    ParseRowsStep(rest, parse);
    GoodRowsReached(before, rest, parse);
    SkipGoodRows(before, rest, parse);
  }

  /** The records of a file whose second data row is ragged, behind a first
      data row with a bad cell: ingestion reports the bad cell and never reads
      the ragged row. */
  lemma RaggedRowAfterBadCell(parse: string -> Option<Float64>)
    requires parse("1").Some? && parse("2").Some? && parse("abc").None?
    ensures RecordsWellFormed([CsvColumns, ["1", "2", "abc", "3", "4"], ["1", "2"]], parse)
    ensures LoadSeries([CsvColumns, ["1", "2", "abc", "3", "4"], ["1", "2"]], parse) == Failure(ParseError("abc"))
  {
    var records := [CsvColumns, ["1", "2", "abc", "3", "4"], ["1", "2"]];
    assert IsCSVHeaderValid(CsvColumns);
    assert records[1..][0][2] == "abc";
    assert !RowParses(records[1..][0], parse);
    assert RowsReached(records[1..], parse);
  }

  lemma BadRow(parse: string -> Option<Float64>)
    requires parse("1.0").Some? && parse("2.0").Some? && parse("abc").None?
    ensures ParseRow(["1.0", "2.0", "abc", "3.0", "100"], parse) == Failure(ParseError("abc"))
  {
    var bad := ["1.0", "2.0", "abc", "3.0", "100"];
    assert bad[0] == "1.0" && bad[1] == "2.0" && bad[2] == "abc";
  }

  /** Rows that all convert, in front of rows the loop reaches safely, are
      reached safely too. */
  lemma {:induction false} GoodRowsReached(before: seq<seq<string>>, rest: seq<seq<string>>,
                                           parse: string -> Option<Float64>)
    requires RowsReached(rest, parse)
    requires forall j :: 0 <= j < |before| ==> |before[j]| >= 5 && RowParses(before[j], parse)
    ensures RowsReached(before + rest, parse)
    decreases |before|
  {
    if before != [] {
      var later := before[1..];
      assert forall j :: 0 <= j < |later| ==> later[j] == before[j + 1];
      GoodRowsReached(later, rest, parse);
      assert (before + rest)[1..] == later + rest;
    } else {
      assert before + rest == rest;
    }
  }

  /** Rows that all convert do not change the error of the rows after them. */
  lemma {:induction false} SkipGoodRows(before: seq<seq<string>>, rest: seq<seq<string>>,
                                        parse: string -> Option<Float64>)
    requires RowsReached(rest, parse)
    requires forall j :: 0 <= j < |before| ==> |before[j]| >= 5 && RowParses(before[j], parse)
    requires RowsReached(before + rest, parse)
    ensures ParseRows(rest, parse).Failure? ==> ParseRows(before + rest, parse) == ParseRows(rest, parse)
    decreases |before|
  {
    if before == [] {
      assert before + rest == rest;
    } else if ParseRows(rest, parse).Failure? {
      var later, all := before[1..], before + rest;
      forall j | 0 <= j < |later|
        ensures |later[j]| >= 5 && RowParses(later[j], parse)
      {
        assert later[j] == before[j + 1];
      }
      assert all[1..] == later + rest && all[0] == before[0];
      SkipGoodRows(later, rest, parse);
      SkipGoodRow(all, parse);
    }
  }

  /** A first row that converts does not change the error of the rows after it. */
  lemma SkipGoodRow(rows: seq<seq<string>>, parse: string -> Option<Float64>)
    requires RowsReached(rows, parse) && rows != []
    requires |rows[0]| >= 5 && RowParses(rows[0], parse)
    requires ParseRows(rows[1..], parse).Failure?
    ensures ParseRows(rows, parse) == ParseRows(rows[1..], parse)
  {
    ParseRowsStep(rows, parse);
  }

  /** The inner loop of `PricesFromCSV`: fills the five-slot `numbers` array
      cell by cell and returns at the first cell that is not a number. */
  method ConvertRow(line: seq<string>, parse: string -> Option<Float64>) returns (r: Result<DataPoint, LoadError>)
    requires |line| >= 5
    ensures r == ParseRow(line, parse)
  {
    var numbers := new Float64[5];
    for i := 0 to 5
      invariant forall m :: 0 <= m < i ==> parse(line[m]) == Some(numbers[m])
    {
      var value := StrToFloat(line[i], parse);
      if value.Failure? {
        return Failure(value.error);
      }
      numbers[i] := value.value;
    }
    r := Success(DataPoint(numbers[0], numbers[1], numbers[2], numbers[3], numbers[4]));
  }

  /** `PricesFromCSV`: checks the header, converts the data rows in order, and
      returns a handler with window size 5 over the series, or no handler and
      the first error. */
  method PricesFromCSV(records: seq<seq<string>>, parse: string -> Option<Float64>)
    returns (handler: Stream.DataHandler?, err: Option<LoadError>)
    requires RecordsWellFormed(records, parse)
    ensures LoadSeries(records, parse).Success? ==>
              err.None? && handler != null && fresh(handler) && handler.Valid() &&
              handler.prices == LoadSeries(records, parse).value &&
              handler.windowSize == 5 && handler.counter == 5
    ensures LoadSeries(records, parse).Failure? ==>
              handler == null && err == Some(LoadSeries(records, parse).error)
  {
    if |records| == 0 || !IsCSVHeaderValid(records[0]) {
      return null, Some(HeaderError);
    }
    var prices: seq<DataPoint> := [];
    var j := 1;
    PrependNothing(ParseRows(records[1..], parse));
    while j < |records|
      invariant 1 <= j <= |records|
      invariant RowsReached(records[j..], parse)
      invariant ParseRows(records[1..], parse) == Prepend(prices, ParseRows(records[j..], parse))
    {
      var line := records[j];
      ParseRowsStep(records[j..], parse);
      assert records[j..][0] == line && records[j..][1..] == records[j + 1..];
      var point := ConvertRow(line, parse);
      if point.Failure? {
        return null, Some(point.error);
      }
      PrependTwice(prices, [point.value], ParseRows(records[j + 1..], parse));
      prices := prices + [point.value];
      j := j + 1;
    }
    handler := new Stream.DataHandler(prices, 5);
    err := None;
  }

  /** The rows converted so far, in front of the outcome for the rest. */
  function Prepend(done: seq<DataPoint>, rest: Result<seq<DataPoint>, LoadError>): Result<seq<DataPoint>, LoadError> {
    match rest
    case Success(points) => Success(done + points)
    case Failure(e) => Failure(e)
  }

  lemma PrependNothing(r: Result<seq<DataPoint>, LoadError>)
    ensures Prepend([], r) == r
  {
    if r.Success? {
      assert [] + r.value == r.value;
    }
  }

  lemma PrependTwice(a: seq<DataPoint>, b: seq<DataPoint>, r: Result<seq<DataPoint>, LoadError>)
    ensures Prepend(a, Prepend(b, r)) == Prepend(a + b, r)
  {
    if r.Success? {
      assert a + (b + r.value) == (a + b) + r.value;
    }
  }

  /** One step of the row loop: the first row's outcome, then the rest. */
  lemma ParseRowsStep(rows: seq<seq<string>>, parse: string -> Option<Float64>)
    requires RowsReached(rows, parse) && rows != []
    ensures ParseRow(rows[0], parse).Failure? ==>
              ParseRows(rows, parse) == Failure(ParseRow(rows[0], parse).error)
    ensures ParseRow(rows[0], parse).Success? ==>
              ParseRows(rows, parse) == Prepend([ParseRow(rows[0], parse).value], ParseRows(rows[1..], parse))
  {
  }
}
