/** `parseCsv`: the date/close table of a price feed. The numeral grammar of
    JavaScript's `Number(...)` is a parameter; the trimming and the empty-field
    rule around it are modelled. */
module Csv {
  import opened Wrappers
  import opened Sequences
  import opened Strings

  datatype PriceRow = PriceRow(date: string, close: real)

  /** A parser for the StringNumericLiteral grammar applied to trimmed,
      non-empty text: the finite value, or None for `NaN` and ±`Infinity`. */
  type Numeral = string -> Option<real>

  /** `Number(s)` filtered by `Number.isFinite`: the field is trimmed and an
      empty (or all-whitespace) field is 0. */
  function FiniteNumber(s: string, numeral: Numeral): (r: Option<real>)
    ensures AllWhitespace(s) ==> r == Some(0.0)
    ensures !AllWhitespace(s) ==> r == numeral(Trim(s))
  {
    TrimEmptyIff(s);
    var t := Trim(s);
    if t == "" then Some(0.0) else numeral(t)
  }

  /** `cols[i]`: the field, or None (`undefined`) past the end of a short line. */
  function Field(cols: seq<string>, i: nat): (r: Option<string>)
    ensures r.Some? <==> i < |cols|
    ensures r.Some? ==> r.value == cols[i]
  {
    if i < |cols| then Some(cols[i]) else None
  }

  /** One data line read at the located columns: a row when the date field is
      present and non-empty and the close field is present and finite. */
  function RowOf(line: string, dateIdx: nat, closeIdx: nat, numeral: Numeral): (r: Option<PriceRow>)
    ensures r.Some? ==> r.value.date != ""
  {
    var cols := Split(line, ',');
    var date := Field(cols, dateIdx);
    var close := if closeIdx < |cols| then FiniteNumber(cols[closeIdx], numeral) else None;
    if date.Some? && date.value != "" && close.Some? then Some(PriceRow(date.value, close.value))
    else None
  }

  /** The lines of the trimmed text. */
  function Lines(csv: string): seq<string> {
    SplitLines(Trim(csv))
  }

  /** The header fields: the first line split on commas. */
  function Header(csv: string): seq<string> {
    Split(Lines(csv)[0], ',')
  }

  /** `parseCsv(csv)`. Empty when the trimmed text has fewer than two lines or
      the header has no exact `Date` or `Close` field; otherwise the rows of
      the data lines that have a non-empty date and a finite close, in order. */
  function ParseCsv(csv: string, numeral: Numeral): (rows: seq<PriceRow>)
    ensures '\n' !in Trim(csv) ==> rows == []
    ensures "Date" !in Header(csv) || "Close" !in Header(csv) ==> rows == []
    ensures |rows| <= multiset(Trim(csv))['\n']
    ensures forall k :: 0 <= k < |rows| ==> rows[k].date != ""
  {
    var lines := Lines(csv);
    if |lines| < 2 then []
    else
      var header := Split(lines[0], ',');
      var closeIdx := IndexOf(header, "Close");
      var dateIdx := IndexOf(header, "Date");
      if closeIdx == -1 || dateIdx == -1 then []
      else
        DataRows(lines[1..], dateIdx, closeIdx, numeral)
  }

  /** The accepted rows of the data lines, in line order. */
  function DataRows(lines: seq<string>, dateIdx: nat, closeIdx: nat, numeral: Numeral): (rows: seq<PriceRow>)
    ensures |rows| <= |lines|
    ensures forall k :: 0 <= k < |rows| ==> rows[k].date != ""
  {
    var rows := FilterMap(lines, line => RowOf(line, dateIdx, closeIdx, numeral));
    assert forall k :: 0 <= k < |rows| ==> rows[k].date != "" by {
      forall k | 0 <= k < |rows| ensures rows[k].date != "" {
        assert rows[k] in rows;
        var i :| 0 <= i < |lines| && RowOf(lines[i], dateIdx, closeIdx, numeral) == Some(rows[k]);
      }
    }
    rows
  }

  /** The data lines and the located columns of a usable table. */
  predicate IsTable(csv: string, dateIdx: nat, closeIdx: nat) {
    var lines := Lines(csv);
    && 2 <= |lines|
    && IndexOf(Split(lines[0], ','), "Date") == dateIdx
    && IndexOf(Split(lines[0], ','), "Close") == closeIdx
  }

  /** For a usable table the rows are the accepted data lines after the header. */
  lemma ParseCsvRows(csv: string, numeral: Numeral, dateIdx: nat, closeIdx: nat)
    requires IsTable(csv, dateIdx, closeIdx)
    ensures ParseCsv(csv, numeral) == DataRows(Lines(csv)[1..], dateIdx, closeIdx, numeral)
  {
  }

  /** End to end: a CRLF text with no surrounding whitespace, whose header
      has `Date` and `Close` at the given columns, parses to the accepted rows
      of the lines after the header. */
  lemma ParseCrLfTable(lines: seq<string>, numeral: Numeral, d: nat, c: nat)
    requires 2 <= |lines| && forall k :: 0 <= k < |lines| ==> '\n' !in lines[k]
    requires Trim(JoinCrLf(lines)) == JoinCrLf(lines)
    requires IndexOf(Split(lines[0], ','), "Date") == d && IndexOf(Split(lines[0], ','), "Close") == c
    ensures ParseCsv(JoinCrLf(lines), numeral) == DataRows(lines[1..], d, c, numeral)
  {
    SplitLinesCrLf(lines);
    ParseCsvRows(JoinCrLf(lines), numeral, d, c);
  }

  /** The header of a Stooq daily download: `Date` first and `Close` fifth. */
  const StooqFields: seq<string> := ["Date", "Open", "High", "Low", "Close", "Volume"]
  const StooqHeader: string := Join(StooqFields, ',')

  /** A CRLF download under a header with `Date` first and `Close` fifth, such
      as `StooqHeader`, holding one complete line and one line that ends before
      the close column, parses to exactly the complete line's row. */
  lemma ParseDownload(h: string, good: seq<string>, short: seq<string>, numeral: Numeral)
    requires h != "" && !IsWhitespace(h[0]) && '\n' !in h
    requires IndexOf(Split(h, ','), "Date") == 0 && IndexOf(Split(h, ','), "Close") == 4
    requires |good| == 6 && 1 <= |short| <= 4
    requires forall k :: 0 <= k < |good| ==> ',' !in good[k] && '\n' !in good[k]
    requires forall k :: 0 <= k < |short| ==> ',' !in short[k] && '\n' !in short[k]
    requires good[0] != "" && FiniteNumber(good[4], numeral).Some?
    requires Join(short, ',') != "" && IsTrimmed(Join(short, ','))
    ensures ParseCsv(JoinCrLf([h, Join(good, ','), Join(short, ',')]), numeral)
         == [PriceRow(good[0], FiniteNumber(good[4], numeral).value)]
  {
    var g, s := Join(good, ','), Join(short, ',');
    JoinAvoids(good, ',', '\n');
    JoinAvoids(short, ',', '\n');
    DownloadLines(h, g, s);
    ParseCrLfTable([h, g, s], numeral, 0, 4);
    DownloadRows(h, good, short, numeral);
  }

  /** Of the two data lines only the complete one gives a row. */
  lemma DownloadRows(h: string, good: seq<string>, short: seq<string>, numeral: Numeral)
    requires |good| == 6 && 1 <= |short| <= 4
    requires forall k :: 0 <= k < |good| ==> ',' !in good[k]
    requires forall k :: 0 <= k < |short| ==> ',' !in short[k]
    requires good[0] != "" && FiniteNumber(good[4], numeral).Some?
    ensures var lines := [h, Join(good, ','), Join(short, ',')];
            DataRows(lines[1..], 0, 4, numeral) == [PriceRow(good[0], FiniteNumber(good[4], numeral).value)]
  {
    var g, s := Join(good, ','), Join(short, ',');
    var lines := [h, g, s];
    assert lines[1..] == [g] + [s];
    RowOfFields(good, 0, 4, numeral);
    RowOfFields(short, 0, 4, numeral);
    DataRowsAppend([g], [s], 0, 4, numeral);
    DataRowsSingle(g, 0, 4, numeral);
    DataRowsSingle(s, 0, 4, numeral);
  }

  /** The Stooq header locates `Date` at column 0 and `Close` at column 4. */
  lemma StooqHeaderColumns()
    ensures '\n' !in StooqHeader && StooqHeader[0] == 'D'
    ensures IndexOf(Split(StooqHeader, ','), "Date") == 0
    ensures IndexOf(Split(StooqHeader, ','), "Close") == 4
  {
    var xs := StooqFields;
    HeaderFieldsFree();
    SplitJoin(xs, ',');
    JoinAvoids(xs, ',', '\n');
    JoinCons(xs[0], xs[1..], ',');
    assert xs == [xs[0]] + xs[1..];
    FieldColumns();
  }

  lemma HeaderFieldsFree()
    ensures forall k :: 0 <= k < |StooqFields| ==> ',' !in StooqFields[k] && '\n' !in StooqFields[k]
  {
  }

  lemma FieldColumns()
    ensures IndexOf(StooqFields, "Date") == 0 && IndexOf(StooqFields, "Close") == 4
  {
    var xs := StooqFields;
    assert xs[0] == "Date" && xs[4] == "Close";
    assert |xs[0]| == 4 && |xs[1]| == 4 && |xs[2]| == 4 && |xs[3]| == 3;
    assert forall k :: 0 <= k < 4 ==> xs[k] != "Close";
  }

  /** The three lines hold no LF, and their CRLF join has no whitespace to trim. */
  lemma DownloadLines(h: string, g: string, s: string)
    requires h != "" && !IsWhitespace(h[0]) && '\n' !in h && '\n' !in g && '\n' !in s
    requires s != "" && IsTrimmed(s)
    ensures var lines := [h, g, s];
            && (forall k :: 0 <= k < |lines| ==> '\n' !in lines[k])
            && Trim(JoinCrLf(lines)) == JoinCrLf(lines)
  {
    DownloadTrimmed(h, g, s);
  }

  lemma DownloadTrimmed(h: string, g: string, s: string)
    requires h != "" && !IsWhitespace(h[0])
    requires s != "" && IsTrimmed(s)
    ensures var text := JoinCrLf([h, g, s]);
            Trim(text) == text
  {
    var lines := [h, g, s];
    assert lines[1..] == [g, s] && [g, s][1..] == [s];
    var text := JoinCrLf(lines);
    assert JoinCrLf([s]) == s;
    assert JoinCrLf([g, s]) == g + "\r\n" + s;
    assert text == h + "\r\n" + (g + "\r\n" + s);
    assert text[0] == h[0] && text[|text| - 1] == s[|s| - 1];
    TrimmedUnchanged(text);
  }

  /** Row selection is order-preserving: the rows of two blocks of lines are
      the rows of the first block followed by those of the second. */
  lemma DataRowsAppend(a: seq<string>, b: seq<string>, dateIdx: nat, closeIdx: nat, numeral: Numeral)
    ensures DataRows(a + b, dateIdx, closeIdx, numeral)
         == DataRows(a, dateIdx, closeIdx, numeral) + DataRows(b, dateIdx, closeIdx, numeral)
  {
    FilterMapAppend(a, b, line => RowOf(line, dateIdx, closeIdx, numeral));
  }

  /** One line yields one row when it is accepted and none otherwise. */
  lemma DataRowsSingle(line: string, dateIdx: nat, closeIdx: nat, numeral: Numeral)
    ensures DataRows([line], dateIdx, closeIdx, numeral)
         == if RowOf(line, dateIdx, closeIdx, numeral).Some? then [RowOf(line, dateIdx, closeIdx, numeral).value] else []
  {
    FilterMapSingleton(line, line => RowOf(line, dateIdx, closeIdx, numeral));
  }

  /** No accepted line is lost. */
  lemma DataRowsComplete(lines: seq<string>, i: nat, dateIdx: nat, closeIdx: nat, numeral: Numeral)
    requires i < |lines| && RowOf(lines[i], dateIdx, closeIdx, numeral).Some?
    ensures RowOf(lines[i], dateIdx, closeIdx, numeral).value in DataRows(lines, dateIdx, closeIdx, numeral)
  {
    FilterMapComplete(lines, line => RowOf(line, dateIdx, closeIdx, numeral), i);
  }

  /** A data line `date,` with an empty close field is kept with close 0, as
      `Number("")` is 0. */
  lemma EmptyCloseIsZero(date: string, numeral: Numeral)
    requires date != "" && ',' !in date
    ensures RowOf(date + ",", 0, 1, numeral) == Some(PriceRow(date, 0.0))
  {
    assert date + "," == Join([date, ""], ',');
    SplitJoin([date, ""], ',');
  }

  /** A line with too few commas to reach the date column or the close column
      is dropped, whatever it holds: the missing field reads as `undefined`. */
  lemma ShortLineDropped(line: string, dateIdx: nat, closeIdx: nat, numeral: Numeral)
    requires multiset(line)[','] < dateIdx || multiset(line)[','] < closeIdx
    ensures RowOf(line, dateIdx, closeIdx, numeral) == None
  {
    SplitCount(line, ',');
  }

  /** A line whose fields are exactly a non-empty date and a finite numeral is
      read back as that row. */
  lemma RowOfJoinedFields(date: string, close: string, numeral: Numeral)
    requires date != "" && ',' !in date && ',' !in close
    requires !AllWhitespace(close) && numeral(Trim(close)).Some?
    ensures RowOf(Join([date, close], ','), 0, 1, numeral) == Some(PriceRow(date, numeral(Trim(close)).value))
  {
    SplitJoin([date, close], ',');
  }

  /** A line of comma-free fields is kept exactly when the field at the date
      column exists and is non-empty and the field at the close column exists
      and reads as a finite number; the row holds those two values. */
  lemma RowOfFields(cols: seq<string>, dateIdx: nat, closeIdx: nat, numeral: Numeral)
    requires 1 <= |cols| && forall k :: 0 <= k < |cols| ==> ',' !in cols[k]
    ensures RowOf(Join(cols, ','), dateIdx, closeIdx, numeral)
         == if dateIdx < |cols| && cols[dateIdx] != "" && closeIdx < |cols| && FiniteNumber(cols[closeIdx], numeral).Some?
            then Some(PriceRow(cols[dateIdx], FiniteNumber(cols[closeIdx], numeral).value))
            else None
  {
    SplitJoin(cols, ',');
  }

  /** The usual Stooq layout `Date,Open,High,Low,Close,Volume`: the row is the
      first and fifth field. */
  lemma StooqLineRead(date: string, open: string, high: string, low: string, close: string, volume: string, numeral: Numeral)
    requires date != "" && FiniteNumber(close, numeral).Some?
    requires ',' !in date && ',' !in open && ',' !in high && ',' !in low && ',' !in close && ',' !in volume
    ensures RowOf(Join([date, open, high, low, close, volume], ','), 0, 4, numeral)
         == Some(PriceRow(date, FiniteNumber(close, numeral).value))
  {
    var cols := [date, open, high, low, close, volume];
    assert cols[0] == date && cols[4] == close;
    RowOfFields(cols, 0, 4, numeral);
  }
}
