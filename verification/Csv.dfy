/**
 * Table export. Every text cell is quoted and, where a spreadsheet would run it as a formula, prefixed
 * with an apostrophe. The reader is an independent one, after section 2 of RFC 4180 with a line feed as
 * the record break.
 */
module Csv {
  import opened Wrappers

  /** `String` of a number: digits, sign, point, exponent, or one of the words for the special values. */
  predicate NumberText(text: string) {
    text != [] && forall i | 0 <= i < |text| :: NumberChar(text[i])
  }

  predicate NumberChar(c: char) {
    '0' <= c <= '9' || c in "+-.e" || c in "Infinity" || c in "NaN"
  }

  type PrintedNumber = text: string | NumberText(text) witness "0"

  datatype Cell = Text(text: string) | Num(printed: PrintedNumber)

  // ---- Writing ----

  function Guard(text: string): string {
    if text != [] && text[0] in "=+-@\t\r" then "'" + text else text
  }

  function DoubleQuotes(text: string): string {
    if text == [] then []
    else if text[0] == '"' then "\"\"" + DoubleQuotes(text[1..])
    else [text[0]] + DoubleQuotes(text[1..])
  }

  function EscapeCell(cell: Cell): string {
    match cell
    case Num(printed) => printed
    case Text(text) => "\"" + DoubleQuotes(Guard(text)) + "\""
  }

  function Join(parts: seq<string>, separator: char): string {
    if parts == [] then []
    else if |parts| == 1 then parts[0]
    else parts[0] + [separator] + Join(parts[1..], separator)
  }

  function EscapeRow(row: seq<Cell>): (r: seq<string>)
    ensures |r| == |row| && forall i | 0 <= i < |row| :: r[i] == EscapeCell(row[i])
  {
    seq(|row|, i requires 0 <= i < |row| => EscapeCell(row[i]))
  }

  function RowText(row: seq<Cell>): string {
    Join(EscapeRow(row), ',')
  }

  function RowTexts(rows: seq<seq<Cell>>): (r: seq<string>)
    ensures |r| == |rows| && forall i | 0 <= i < |rows| :: r[i] == RowText(rows[i])
  {
    seq(|rows|, i requires 0 <= i < |rows| => RowText(rows[i]))
  }

  function HeaderRow(header: seq<string>): (r: seq<Cell>)
    ensures |r| == |header| && forall i | 0 <= i < |header| :: r[i] == Text(header[i])
  {
    seq(|header|, i requires 0 <= i < |header| => Text(header[i]))
  }

  function Table(header: seq<string>, rows: seq<seq<Cell>>): seq<seq<Cell>> {
    [HeaderRow(header)] + rows
  }

  function ToCsv(header: seq<string>, rows: seq<seq<Cell>>): string {
    Join(RowTexts(Table(header, rows)), '\n')
  }

  // ---- Reading, after RFC 4180 ----

  /** The rest of a quoted field, and what follows its closing quote. */
  function ReadQuoted(s: string): (r: Option<(string, string)>)
    ensures r.Some? ==> |r.value.1| < |s|
  {
    if s == [] then None
    else if s[0] != '"' then
      match ReadQuoted(s[1..])
      case None => None
      case Some((field, rest)) => Some(([s[0]] + field, rest))
    else if |s| > 1 && s[1] == '"' then
      match ReadQuoted(s[2..])
      case None => None
      case Some((field, rest)) => Some(("\"" + field, rest))
    else Some(([], s[1..]))
  }

  /** A field without quotes ends before a comma, a break or the end, and holds no quote. */
  function ReadPlain(s: string): (r: Option<(string, string)>)
    ensures r.Some? ==> |r.value.1| <= |s|
  {
    if s == [] || s[0] in ",\n" then Some(([], s))
    else if s[0] == '"' then None
    else
      match ReadPlain(s[1..])
      case None => None
      case Some((field, rest)) => Some(([s[0]] + field, rest))
  }

  function ReadField(s: string): (r: Option<(string, string)>)
    ensures r.Some? ==> |r.value.1| <= |s|
  {
    if s != [] && s[0] == '"' then ReadQuoted(s[1..]) else ReadPlain(s)
  }

  /** One record: its fields, and the text after its break, if there is a break. */
  function ReadRecord(s: string): (r: Option<(seq<string>, Option<string>)>)
    ensures r.Some? ==> r.value.0 != []
    ensures r.Some? && r.value.1.Some? ==> |r.value.1.value| < |s|
    decreases |s|
  {
    match ReadField(s)
    case None => None
    case Some((field, rest)) =>
      if rest == [] then Some(([field], None))
      else if rest[0] == '\n' then Some(([field], Some(rest[1..])))
      else if rest[0] == ',' then
        match ReadRecord(rest[1..])
        case None => None
        case Some((fields, more)) => Some(([field] + fields, more))
      else None
  }

  /** All records. The last one may or may not end in a break. */
  function ReadCsv(s: string): (r: Option<seq<seq<string>>>)
    ensures r.Some? ==> r.value != [] && forall record | record in r.value :: record != []
    decreases |s|
  {
    match ReadRecord(s)
    case None => None
    case Some((fields, more)) =>
      if more.None? || more.value == [] then Some([fields])
      else
        match ReadCsv(more.value)
        case None => None
        case Some(records) => Some([fields] + records)
  }

  // ---- The round trip ----

  /** What a reader of the file should see in a cell. */
  function Guarded(cell: Cell): string {
    match cell case Num(printed) => printed case Text(text) => Guard(text)
  }

  function GuardedRow(row: seq<Cell>): (r: seq<string>)
    ensures |r| == |row| && forall i | 0 <= i < |row| :: r[i] == Guarded(row[i])
  {
    seq(|row|, i requires 0 <= i < |row| => Guarded(row[i]))
  }

  function GuardedRows(rows: seq<seq<Cell>>): (r: seq<seq<string>>)
    ensures |r| == |rows| && forall i | 0 <= i < |rows| :: r[i] == GuardedRow(rows[i])
  {
    seq(|rows|, i requires 0 <= i < |rows| => GuardedRow(rows[i]))
  }

  predicate PlainChar(c: char) {
    c != ',' && c != '\n' && c != '"'
  }

  predicate EndsField(rest: string) {
    rest == [] || rest[0] in ",\n"
  }

  lemma {:induction false} QuotedReadsBack(text: string, rest: string)
    requires EndsField(rest)
    ensures ReadQuoted(DoubleQuotes(text) + "\"" + rest) == Some((text, rest))
  {
    var s := DoubleQuotes(text) + "\"" + rest;
    if text == [] {
      assert s == "\"" + rest;
      assert s[1..] == rest;
    } else {
      QuotedReadsBack(text[1..], rest);
      var tail := DoubleQuotes(text[1..]) + "\"" + rest;
      if text[0] == '"' {
        assert s == "\"\"" + tail;
        assert s[2..] == tail;
      } else {
        assert s == [text[0]] + tail;
        assert s[1..] == tail;
      }
      assert [text[0]] + text[1..] == text;
    }
  }

  lemma {:induction false} PlainReadsBack(text: string, rest: string)
    requires EndsField(rest) && forall i | 0 <= i < |text| :: PlainChar(text[i])
    ensures ReadPlain(text + rest) == Some((text, rest))
  {
    if text == [] {
      assert text + rest == rest;
    } else {
      PlainReadsBack(text[1..], rest);
      assert (text + rest)[1..] == text[1..] + rest;
      assert [text[0]] + text[1..] == text;
    }
  }

  lemma NumberReadsBack(printed: PrintedNumber, rest: string)
    requires EndsField(rest)
    ensures ReadField(printed + rest) == Some((printed, rest))
  {
    assert forall i | 0 <= i < |printed| :: NumberChar(printed[i]) && PlainChar(printed[i]);
    PlainReadsBack(printed, rest);
    assert (printed + rest)[0] == printed[0];
  }

  lemma TextReadsBack(text: string, rest: string)
    requires EndsField(rest)
    ensures ReadField("\"" + DoubleQuotes(text) + "\"" + rest) == Some((text, rest))
  {
    var doubled := DoubleQuotes(text);
    QuotedReadsBack(text, rest);
    QuoteOpens(doubled, rest);
    OpensQuoted(doubled + "\"" + rest);
  }

  lemma QuoteOpens(doubled: string, rest: string)
    ensures "\"" + doubled + "\"" + rest == "\"" + (doubled + "\"" + rest)
  {
  }

  lemma OpensQuoted(quoted: string)
    ensures ReadField("\"" + quoted) == ReadQuoted(quoted)
  {
    assert ("\"" + quoted)[1..] == quoted;
  }

  lemma CellReadsBack(cell: Cell, rest: string)
    requires EndsField(rest)
    ensures EscapeCell(cell) != [] && ReadField(EscapeCell(cell) + rest) == Some((Guarded(cell), rest))
  {
    match cell
    case Num(printed) => NumberReadsBack(printed, rest);
    case Text(text) => TextReadsBack(Guard(text), rest);
  }

  lemma RecordContinues(s: string, field: string, next: string, fields: seq<string>, more: Option<string>)
    requires ReadField(s) == Some((field, [','] + next)) && ReadRecord(next) == Some((fields, more))
    ensures ReadRecord(s) == Some(([field] + fields, more))
  {
    assert ([','] + next)[1..] == next;
  }

  lemma MoreCells(row: seq<Cell>, tail: string)
    requires |row| > 1
    ensures GuardedRow(row) == [Guarded(row[0])] + GuardedRow(row[1..])
    ensures RowText(row) + tail == EscapeCell(row[0]) + ([','] + (RowText(row[1..]) + tail))
  {
    assert EscapeRow(row)[1..] == EscapeRow(row[1..]);
    CommaAfter(EscapeCell(row[0]), RowText(row[1..]), tail);
  }

  lemma CommaAfter(first: string, rest: string, tail: string)
    ensures first + [','] + rest + tail == first + ([','] + (rest + tail))
  {
  }

  function After(more: Option<string>): string {
    match more case None => [] case Some(rest) => ['\n'] + rest
  }

  lemma RecordEnds(s: string, field: string, more: Option<string>)
    requires ReadField(s) == Some((field, After(more)))
    ensures ReadRecord(s) == Some(([field], more))
  {
    if more.Some? {
      assert After(more)[1..] == more.value;
    }
  }

  lemma LastCell(row: seq<Cell>, more: Option<string>)
    requires |row| == 1
    ensures ReadRecord(RowText(row) + After(more)) == Some((GuardedRow(row), more))
    ensures RowText(row) != []
  {
    CellReadsBack(row[0], After(more));
    RecordEnds(EscapeCell(row[0]) + After(more), Guarded(row[0]), more);
    assert RowText(row) == EscapeCell(row[0]);
    assert GuardedRow(row) == [Guarded(row[0])];
  }

  lemma {:induction false} RowReadsBack(row: seq<Cell>, more: Option<string>)
    requires row != []
    ensures ReadRecord(RowText(row) + After(more)) == Some((GuardedRow(row), more))
    ensures RowText(row) != []
  {
    if |row| == 1 {
      LastCell(row, more);
    } else {
      var next := RowText(row[1..]) + After(more);
      RowReadsBack(row[1..], more);
      CellReadsBack(row[0], [','] + next);
      RecordContinues(EscapeCell(row[0]) + ([','] + next), Guarded(row[0]), next, GuardedRow(row[1..]), more);
      MoreCells(row, After(more));
    }
  }

  lemma RowsSplit(rows: seq<seq<Cell>>)
    requires |rows| > 1
    ensures Join(RowTexts(rows), '\n') == RowText(rows[0]) + After(Some(Join(RowTexts(rows[1..]), '\n')))
    ensures GuardedRows(rows) == [GuardedRow(rows[0])] + GuardedRows(rows[1..])
  {
    assert RowTexts(rows)[1..] == RowTexts(rows[1..]);
  }

  lemma {:induction false} RowsReadBack(rows: seq<seq<Cell>>)
    requires rows != [] && forall i | 0 <= i < |rows| :: rows[i] != []
    ensures Join(RowTexts(rows), '\n') != []
    ensures ReadCsv(Join(RowTexts(rows), '\n')) == Some(GuardedRows(rows))
  {
    if |rows| == 1 {
      RowReadsBack(rows[0], None);
      assert RowText(rows[0]) + After(None) == Join(RowTexts(rows), '\n');
      assert GuardedRows(rows) == [GuardedRow(rows[0])];
    } else {
      RowsSplit(rows);
      RowsReadBack(rows[1..]);
      RowReadsBack(rows[0], Some(Join(RowTexts(rows[1..]), '\n')));
    }
  }

  /**
   * Whatever quotes, commas and line breaks the cells hold, reading the file gives the guarded cells, row
   * by row, exactly when no row, the header included, is empty.
   */
  lemma CsvReadsBack(header: seq<string>, rows: seq<seq<Cell>>)
    ensures ReadCsv(ToCsv(header, rows)) == Some(GuardedRows(Table(header, rows)))
            <==> header != [] && forall i | 0 <= i < |rows| :: rows[i] != []
  {
    var table := Table(header, rows);
    if header != [] && forall i | 0 <= i < |rows| :: rows[i] != [] {
      RowsReadBack(table);
    } else {
      var i :| 0 <= i < |table| && table[i] == [] by {
        if header == [] {
          assert table[0] == [];
        } else {
          var k :| 0 <= k < |rows| && rows[k] == [];
          assert table[k + 1] == [];
        }
      }
      assert GuardedRows(table)[i] == [];
      assert [] in GuardedRows(table);
    }
  }

  /** Two tables without empty rows export to the same text only if their guarded cells are the same. */
  lemma CsvIsInjective(header: seq<string>, rows: seq<seq<Cell>>, header': seq<string>, rows': seq<seq<Cell>>)
    requires header != [] && header' != []
    requires (forall i | 0 <= i < |rows| :: rows[i] != []) && (forall i | 0 <= i < |rows'| :: rows'[i] != [])
    requires ToCsv(header, rows) == ToCsv(header', rows')
    ensures GuardedRows(Table(header, rows)) == GuardedRows(Table(header', rows'))
  {
    CsvReadsBack(header, rows);
    CsvReadsBack(header', rows');
  }

  predicate Dangerous(text: string) {
    text != [] && text[0] in "=+-@\t\r"
  }

  /** The guard leaves no cell that starts a formula, and merges only a formula with its own guarded spelling. */
  lemma GuardMerges(a: string, b: string)
    ensures !Dangerous(Guard(a))
    ensures Guard(a) == Guard(b) <==> a == b || (Dangerous(a) && b == "'" + a) || (Dangerous(b) && a == "'" + b)
  {
    if Dangerous(a) && Dangerous(b) && Guard(a) == Guard(b) {
      assert Guard(a)[1..] == a && Guard(b)[1..] == b;
    }
  }
}
