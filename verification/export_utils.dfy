/** The text of the CSV export (`csvContent` in `exportToCSV`): a header
    line and one line per expense, joined by line feeds. How an amount is
    written (`amount.toString()`) is the parameter `show`. */
module ExportUtils {
  import opened Strings
  import opened Dates
  import opened Types

  /** The header line. */
  const Header: string := "Fecha,Categoría,Monto,Descripción,Tipo"

  /** The five fields of an expense's line: the description is put between
      double quotes, and nothing is escaped. */
  function Fields(e: Expense, show: real -> string): (r: seq<string>)
  {
    [FormatIso(e.date), e.category, show(e.amount), "\"" + e.description + "\"", TypeName(e.kind)]
  }

  /** One expense's line. */
  function Row(e: Expense, show: real -> string): string
  {
    Join(Fields(e, show), ',')
  }

  /** The lines of the expenses, in order. */
  function Rows(xs: seq<Expense>, show: real -> string): (r: seq<string>)
    ensures |r| == |xs|
    ensures forall i :: 0 <= i < |xs| ==> r[i] == Row(xs[i], show)
    decreases |xs|
  {
    if |xs| == 0 then [] else [Row(xs[0], show)] + Rows(xs[1..], show)
  }

  /** `csvContent`. */
  function Csv(xs: seq<Expense>, show: real -> string): string
  {
    Join([Header] + Rows(xs, show), '\n')
  }

  /** A join starts with its first part. */
  lemma {:induction false} JoinStartsWith(parts: seq<string>, sep: char)
    requires |parts| >= 1
    ensures StartsWith(Join(parts, sep), parts[0])
  {
    var r := Join(parts, sep);
    if |parts| > 1 {
      assert r == parts[0] + ([sep] + Join(parts[1..], sep));
    }
    assert r[..|parts[0]|] == parts[0];
  }

  /** A join of parts without `c`, with a separator other than `c`, has no
      `c`. */
  lemma {:induction false} JoinFree(parts: seq<string>, sep: char, c: char)
    requires c != sep
    requires forall i :: 0 <= i < |parts| ==> c !in parts[i]
    ensures c !in Join(parts, sep)
    decreases |parts|
  {
    if |parts| > 1 {
      JoinFree(parts[1..], sep, c);
    }
  }

  /** The text of a date holds only digits and dashes. */
  lemma {:induction false} IsoChars(d: Date)
    ensures forall k :: 0 <= k < |FormatIso(d)| ==> IsDigit(FormatIso(d)[k]) || FormatIso(d)[k] == '-'
  {
    PaddedValue(d.year, 4);
    PaddedValue(d.month, 2);
    PaddedValue(d.day, 2);
  }

  /** The export always starts with the header, and with no expenses it is
      the header alone. */
  lemma {:induction false} CsvHeader(xs: seq<Expense>, show: real -> string)
    ensures StartsWith(Csv(xs, show), Header)
    ensures |xs| == 0 ==> Csv(xs, show) == Header
  {
    JoinStartsWith([Header] + Rows(xs, show), '\n');
  }

  /** No line feed in the category, description or written amount: none in
      the line. */
  lemma {:induction false} RowOneLine(e: Expense, show: real -> string)
    requires '\n' !in e.category && '\n' !in e.description && '\n' !in show(e.amount)
    ensures '\n' !in Row(e, show)
  {
    IsoChars(e.date);
    assert '\n' !in TypeName(e.kind);
    assert '\n' !in "\"" + e.description + "\"";
    JoinFree(Fields(e, show), ',', '\n');
  }

  /** When no field holds a line feed, splitting the export at line feeds
      gives back the header and then exactly one line per expense, in
      order. */
  lemma {:induction false} CsvLines(xs: seq<Expense>, show: real -> string)
    requires forall i :: 0 <= i < |xs| ==>
      '\n' !in xs[i].category && '\n' !in xs[i].description && '\n' !in show(xs[i].amount)
    ensures Split(Csv(xs, show), '\n') == [Header] + Rows(xs, show)
    ensures |Split(Csv(xs, show), '\n')| == |xs| + 1
  {
    var rows := Rows(xs, show);
    RowsOneLine(xs, show, rows);
    HeaderOneLine();
    LinesRoundTrip(Header, rows);
  }

  /** A first line and further lines, none with a line feed, are split back
      out of their join. */
  lemma {:induction false} LinesRoundTrip(first: string, rows: seq<string>)
    requires '\n' !in first
    requires forall i :: 0 <= i < |rows| ==> '\n' !in rows[i]
    ensures Split(Join([first] + rows, '\n'), '\n') == [first] + rows
  {
    var lines := [first] + rows;
    assert forall i :: 1 <= i < |lines| ==> lines[i] == rows[i - 1];
    SplitJoin(lines, '\n');
  }

  /** The header has no line feed. */
  lemma {:induction false} HeaderOneLine()
    ensures '\n' !in Header
  {
  }

  /** No line feed in the fields: none in any expense's line. */
  lemma {:induction false} RowsOneLine(xs: seq<Expense>, show: real -> string, rows: seq<string>)
    requires forall i :: 0 <= i < |xs| ==>
      '\n' !in xs[i].category && '\n' !in xs[i].description && '\n' !in show(xs[i].amount)
    requires rows == Rows(xs, show)
    ensures forall i :: 0 <= i < |rows| ==> '\n' !in rows[i]
  {
    forall i | 0 <= i < |rows|
      ensures '\n' !in rows[i]
    {
      RowOneLine(xs[i], show);
    }
  }

  /** When no field holds a comma, splitting a line at commas gives back its
      five fields. */
  lemma {:induction false} RowFields(e: Expense, show: real -> string)
    requires ',' !in e.category && ',' !in e.description && ',' !in show(e.amount)
    ensures Split(Row(e, show), ',') == Fields(e, show)
  {
    IsoChars(e.date);
    assert ',' !in TypeName(e.kind);
    assert ',' !in "\"" + e.description + "\"";
    SplitJoin(Fields(e, show), ',');
  }

  /** A comma in the description is not escaped: the line then splits into
      more than five fields, so the export cannot be read back field by
      field. */
  lemma {:induction false} CommaBreaksRow(e: Expense, show: real -> string)
    requires ',' in e.description
    ensures |Split(Row(e, show), ',')| > 5
  {
    var f := Fields(e, show);
    assert multiset(f[3])[','] >= 1 by {
      assert f[3] == "\"" + e.description + "\"";
    }
    JoinSeparators(f, ',', 3);
    SplitLength(Row(e, show), ',');
  }
}
