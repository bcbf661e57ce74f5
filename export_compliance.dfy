/**
 * The "Export Report" button of the compliance page: the CSV text `handleExport`
 * builds from the certificates on the page. Cells are joined with "," and lines
 * with "\n", with no quoting, so a comma or a line break inside a cell moves the
 * columns or the lines of the report.
 */
module ExportCompliance {
  import opened Common
  import opened Text
  import opened Dates

  /** The certificate fields the export reads. */
  datatype CertificateData = CertificateData(
    vendorName: string,
    coverageType: string,
    expirationDate: Option<int>,
    complianceStatus: string)

  /** The header row. */
  const Header: seq<string> := ["Vendor", "Coverage Type", "Expiration Date", "Days Remaining", "Status"]

  /** `formatDate`: "N/A" without a date; `localeDate` stands for the
      `toLocaleDateString("en-US", ...)` rendering of a present one. */
  function FormatDate(d: Option<int>, localeDate: int -> string): string {
    if d.None? then "N/A" else localeDate(d.value)
  }

  /** The five cells of a certificate's row; `now` stands for the clock `daysUntil` reads. */
  function CsvRow(c: CertificateData, now: int, localeDate: int -> string): (cells: seq<string>)
    ensures |cells| == |Header|
  {
    [c.vendorName, c.coverageType, FormatDate(c.expirationDate, localeDate),
     DaysCell(DaysUntil(c.expirationDate, now)), c.complianceStatus]
  }

  /** The header, then one row per certificate in the order given. */
  function CsvRows(cs: seq<CertificateData>, now: int, localeDate: int -> string): (rows: seq<seq<string>>)
    ensures |rows| == |cs| + 1 && rows[0] == Header
    ensures forall k :: 0 <= k < |cs| ==> rows[k + 1] == CsvRow(cs[k], now, localeDate)
  {
    [Header] + seq(|cs|, i requires 0 <= i < |cs| => CsvRow(cs[i], now, localeDate))
  }

  /** `.map((row) => row.join(','))`. */
  function CsvLines(rows: seq<seq<string>>): (lines: seq<string>)
    ensures |lines| == |rows|
    ensures forall k :: 0 <= k < |rows| ==> lines[k] == Join(rows[k], ",")
  {
    seq(|rows|, i requires 0 <= i < |rows| => Join(rows[i], ","))
  }

  /** `csvData`: the lines joined with "\n". */
  function Csv(cs: seq<CertificateData>, now: int, localeDate: int -> string): string {
    Join(CsvLines(CsvRows(cs, now, localeDate)), "\n")
  }

  // ---------------------------------------------------------------- lines

  /** No cell of the certificate's row holds a line break. */
  predicate SingleLine(c: CertificateData, localeDate: int -> string) {
    '\n' !in c.vendorName && '\n' !in c.coverageType && '\n' !in c.complianceStatus
    && (c.expirationDate.Some? ==> '\n' !in localeDate(c.expirationDate.value))
  }

  lemma DaysCellSingleLine(days: Option<int>)
    ensures '\n' !in DaysCell(days) && ',' !in DaysCell(days)
  {
    var s := DaysCell(days);
    if days.Some? {
      var digits := NatToString(if days.value < 0 then -days.value else days.value);
      var tail := if days.value < 0 then " days overdue" else " days";
      assert s == digits + tail;
      assert forall i :: 0 <= i < |digits| ==> s[i] == digits[i];
      assert forall i :: |digits| <= i < |s| ==> s[i] == tail[i - |digits|];
    }
  }

  lemma RowSingleLine(c: CertificateData, now: int, localeDate: int -> string)
    requires SingleLine(c, localeDate)
    ensures '\n' !in Join(CsvRow(c, now, localeDate), ",")
  {
    DaysCellSingleLine(DaysUntil(c.expirationDate, now));
    JoinAvoids(CsvRow(c, now, localeDate), ",", '\n');
  }

  /** The first line of the report names the five columns, in order, separated by commas. */
  lemma HeaderText()
    ensures Join(Header, ",") == "Vendor" + "," + "Coverage Type" + "," + "Expiration Date" + ","
                                 + "Days Remaining" + "," + "Status"
  {
    var h := Header;
    assert h[1..][1..] == h[2..] && h[2..][1..] == h[3..] && h[3..][1..] == h[4..];
    assert Join(h[3..], ",") == h[3] + "," + h[4];
    assert Join(h[2..], ",") == h[2] + "," + (h[3] + "," + h[4]);
    assert Join(h[1..], ",") == h[1] + "," + (h[2] + "," + (h[3] + "," + h[4]));
  }

  /** The header line holds no line break. */
  lemma HeaderSingleLine()
    ensures '\n' !in Join(Header, ",")
  {
    JoinAvoids(Header, ",", '\n');
  }

  /** When no cell holds a line break, the report reads back, line by line, as the
      header line and one line per certificate, in order. */
  lemma LinesOfReport(cs: seq<CertificateData>, now: int, localeDate: int -> string)
    requires forall k :: 0 <= k < |cs| ==> SingleLine(cs[k], localeDate)
    ensures var lines := Split(Csv(cs, now, localeDate), '\n');
      |lines| == |cs| + 1
      && lines[0] == Join(Header, ",")
      && forall k :: 0 <= k < |cs| ==> lines[k + 1] == Join(CsvRow(cs[k], now, localeDate), ",")
  {
    var lines := CsvLines(CsvRows(cs, now, localeDate));
    HeaderSingleLine();
    forall k | 0 <= k < |lines|
      ensures '\n' !in lines[k]
    {
      if k > 0 {
        RowSingleLine(cs[k - 1], now, localeDate);
      }
    }
    JoinSplit(lines, '\n');
  }

  /** A line break inside any cell gives the report more lines than certificates plus header. */
  lemma LineBreakAddsLines(cs: seq<CertificateData>, now: int, localeDate: int -> string, k: int, j: int)
    requires 0 <= k < |cs| && 0 <= j < |Header|
    requires '\n' in CsvRow(cs[k], now, localeDate)[j]
    ensures |Split(Csv(cs, now, localeDate), '\n')| > |cs| + 1
  {
    var row := CsvRow(cs[k], now, localeDate);
    var lines := CsvLines(CsvRows(cs, now, localeDate));
    JoinContains(row, ",", j, '\n');
    assert '\n' in lines[k + 1];
    CountPositive(lines[k + 1], '\n');
    JoinCountAtLeast(lines, '\n', k + 1);
    SplitCount(Csv(cs, now, localeDate), '\n');
  }

  // ---------------------------------------------------------------- columns

  /** No cell of the certificate's row holds a comma. */
  predicate CommaFree(c: CertificateData, localeDate: int -> string) {
    ',' !in c.vendorName && ',' !in c.coverageType && ',' !in c.complianceStatus
    && (c.expirationDate.Some? ==> ',' !in localeDate(c.expirationDate.value))
  }

  /** Without commas in the cells a row reads back as its five cells. */
  lemma ColumnsOfRow(c: CertificateData, now: int, localeDate: int -> string)
    requires CommaFree(c, localeDate)
    ensures Split(Join(CsvRow(c, now, localeDate), ","), ',') == CsvRow(c, now, localeDate)
  {
    DaysCellSingleLine(DaysUntil(c.expirationDate, now));
    JoinSplit(CsvRow(c, now, localeDate), ',');
  }

  /** A comma inside any cell, as in an en-US date such as "Jan 5, 2026", splits the
      row into more than five fields. */
  lemma CommaShiftsColumns(c: CertificateData, now: int, localeDate: int -> string, j: int)
    requires 0 <= j < |Header| && ',' in CsvRow(c, now, localeDate)[j]
    ensures |Split(Join(CsvRow(c, now, localeDate), ","), ',')| > |Header|
  {
    var row := CsvRow(c, now, localeDate);
    CountPositive(row[j], ',');
    JoinCountAtLeast(row, ',', j);
    SplitCount(Join(row, ","), ',');
  }

  /** The date column: "N/A" without a date, the locale rendering otherwise; a rendering
      with a comma always shifts the row. */
  lemma DateColumn(c: CertificateData, now: int, localeDate: int -> string)
    ensures c.expirationDate.None? ==> CsvRow(c, now, localeDate)[2] == "N/A"
    ensures c.expirationDate.Some? ==> CsvRow(c, now, localeDate)[2] == localeDate(c.expirationDate.value)
    ensures c.expirationDate.Some? && ',' in localeDate(c.expirationDate.value) ==>
      |Split(Join(CsvRow(c, now, localeDate), ","), ',')| > |Header|
  {
    if c.expirationDate.Some? && ',' in localeDate(c.expirationDate.value) {
      CommaShiftsColumns(c, now, localeDate, 2);
    }
  }

  /** The days column: "N/A" exactly without a date; "N days overdue" once the date is a
      full day or more in the past; "N days" otherwise, so "0 days" during the last day
      before and the first day after the expiration instant. */
  lemma DaysColumn(c: CertificateData, now: int, localeDate: int -> string)
    ensures c.expirationDate.None? <==> CsvRow(c, now, localeDate)[3] == "N/A"
    ensures c.expirationDate.Some? && c.expirationDate.value <= now - DayMs ==>
      CsvRow(c, now, localeDate)[3] == NatToString(-DaysBetween(now, c.expirationDate.value)) + " days overdue"
    ensures c.expirationDate.Some? && c.expirationDate.value > now - DayMs ==>
      CsvRow(c, now, localeDate)[3] == NatToString(DaysBetween(now, c.expirationDate.value)) + " days"
  {
    var cell := CsvRow(c, now, localeDate)[3];
    if c.expirationDate.Some? {
      var t := c.expirationDate.value;
      var d := DaysBetween(now, t);
      assert d < 0 <==> t <= now - DayMs by {
        if d < 0 {
          assert d * DayMs <= -DayMs;
        } else {
          assert (d - 1) * DayMs >= -DayMs;
        }
      }
      assert cell[0] != 'N';
    }
  }

  /** The days column determines the day count: two dated certificates share the cell
      exactly when they are the same number of days away. */
  lemma DaysColumnDistinct(c: CertificateData, e: CertificateData, now: int, localeDate: int -> string)
    requires c.expirationDate.Some? && e.expirationDate.Some?
    ensures CsvRow(c, now, localeDate)[3] == CsvRow(e, now, localeDate)[3]
            <==> DaysUntil(c.expirationDate, now) == DaysUntil(e.expirationDate, now)
  {
    if CsvRow(c, now, localeDate)[3] == CsvRow(e, now, localeDate)[3] {
      DaysCellDistinct(DaysUntil(c.expirationDate, now).value, DaysUntil(e.expirationDate, now).value);
    }
  }

  /** The vendor, coverage and status columns are the stored text, unescaped; in
      particular the status is the raw `complianceStatus`, not its chip label. */
  lemma RawColumns(c: CertificateData, now: int, localeDate: int -> string)
    ensures var row := CsvRow(c, now, localeDate);
      row[0] == c.vendorName && row[1] == c.coverageType && row[4] == c.complianceStatus
  {
  }
}
