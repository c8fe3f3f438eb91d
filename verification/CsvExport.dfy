/**
 The audit export: CSV text as `exportCsv` writes it, and a reader for the quoting rules of
 section 2 of RFC 4180 with a line feed between records.
 */
module CsvExport {
  import opened Options

  type Record = seq<string>

  // ---------------------------------------------------------------- writing

  const EXPORT_ROW_CAP: nat := 10_000

  const HEADER: Record := [
    "Timestamp", "Username", "Action", "Entity Type", "Entity Name", "IP Address", "Result", "Error"]

  datatype AuditRow = AuditRow(
    createdAt: string, username: Option<string>, actionType: string, entityType: string,
    entityName: Option<string>, ipAddress: Option<string>, success: bool, errorMessage: Option<string>)

  predicate NeedsQuotes(text: string) {
    '"' in text || ',' in text || '\n' in text || '\r' in text
  }

  /** `text.replace(/"/g, '""')` */
  function DoubleQuotes(text: string): string {
    if text == "" then ""
    else (if text[0] == '"' then "\"\"" else [text[0]]) + DoubleQuotes(text[1..])
  }

  function CsvEscape(value: Option<string>): string {
    var text := GetOr(value, "");
    if NeedsQuotes(text) then "\"" + DoubleQuotes(text) + "\"" else text
  }

  /** The eight cells of a row, in column order. */
  function Cells(row: AuditRow): seq<Option<string>> {
    [Some(row.createdAt), row.username, Some(row.actionType), Some(row.entityType), row.entityName,
     row.ipAddress, Some(if row.success then "SUCCESS" else "FAILED"), row.errorMessage]
  }

  function Join(parts: seq<string>, separator: string): string {
    if parts == [] then ""
    else if |parts| == 1 then parts[0]
    else parts[0] + separator + Join(parts[1..], separator)
  }

  function EscapeAll(cells: seq<Option<string>>): seq<string> {
    seq(|cells|, i requires 0 <= i < |cells| => CsvEscape(cells[i]))
  }

  function Line(cells: seq<Option<string>>): string {
    Join(EscapeAll(cells), ",")
  }

  /** The rows' lines; the header line is joined as it is. */
  function RowLines(table: seq<seq<Option<string>>>): seq<string> {
    seq(|table|, i requires 0 <= i < |table| => Line(table[i]))
  }

  /** The query takes at most EXPORT_ROW_CAP of the matching rows. */
  function Capped(rows: seq<AuditRow>): seq<AuditRow> {
    if |rows| <= EXPORT_ROW_CAP then rows else rows[..EXPORT_ROW_CAP]
  }

  function Table(rows: seq<AuditRow>): (table: seq<seq<Option<string>>>)
    ensures |table| == |rows|
    ensures forall i :: 0 <= i < |table| ==> table[i] == Cells(rows[i]) && |table[i]| == 8
  {
    seq(|rows|, i requires 0 <= i < |rows| => Cells(rows[i]))
  }

  function ExportCsv(matching: seq<AuditRow>): string {
    Join([Join(HEADER, ",")] + RowLines(Table(Capped(matching))), "\n")
  }

  // ---------------------------------------------------------------- reading (RFC 4180, section 2)

  datatype Field = Malformed | Field(text: string, rest: string)

  /** Characters an unquoted field may hold. */
  predicate TextData(c: char) {
    c != '"' && c != ',' && c != '\n' && c != '\r'
  }

  function ReadBare(s: string): (f: Field)
    ensures f.Field? && |f.rest| <= |s|
  {
    if s == "" || !TextData(s[0]) then Field("", s)
    else
      var f := ReadBare(s[1..]);
      Field([s[0]] + f.text, f.rest)
  }

  /** The part of a quoted field after its opening quote. */
  function ReadQuoted(s: string): (f: Field)
    ensures f.Field? ==> |f.rest| < |s|
  {
    if s == "" then Malformed
    else if s[0] == '"' then
      if |s| > 1 && s[1] == '"' then
        var f := ReadQuoted(s[2..]);
        if f.Field? then Field("\"" + f.text, f.rest) else Malformed
      else Field("", s[1..])
    else
      var f := ReadQuoted(s[1..]);
      if f.Field? then Field([s[0]] + f.text, f.rest) else Malformed
  }

  function ReadField(s: string): (f: Field)
    ensures f.Field? ==> |f.rest| <= |s|
  {
    if s != "" && s[0] == '"' then ReadQuoted(s[1..]) else ReadBare(s)
  }

  /** All records of a text (the last line break is optional); None if it breaks the rules. */
  function ReadCsv(s: string): Option<seq<Record>>
    decreases |s|
  {
    var f := ReadField(s);
    if f.Malformed? then None
    else if f.rest == "" || f.rest == "\n" then Some([[f.text]])
    else if f.rest[0] == ',' then
      var more := ReadCsv(f.rest[1..]);
      if more.Some? && more.value != [] then
        Some([[f.text] + more.value[0]] + more.value[1..])
      else None
    else if f.rest[0] == '\n' then
      var more := ReadCsv(f.rest[1..]);
      if more.Some? then Some([[f.text]] + more.value) else None
    else None
  }

  // ---------------------------------------------------------------- round trip

  /** What a field is followed by. */
  predicate Delimited(rest: string) {
    rest == "" || rest[0] == ',' || rest[0] == '\n'
  }

  lemma {:induction false} ReadBackBare(text: string, rest: string)
    requires !NeedsQuotes(text) && Delimited(rest)
    ensures ReadBare(text + rest) == Field(text, rest)
  {
    if text == "" {
      assert text + rest == rest;
    } else {
      assert (text + rest)[1..] == text[1..] + rest;
      assert forall c :: c in text[1..] ==> c in text;
      ReadBackBare(text[1..], rest);
      assert [text[0]] + text[1..] == text;
    }
  }

  lemma {:induction false} ReadBackQuoted(text: string, rest: string)
    requires Delimited(rest)
    ensures ReadQuoted(DoubleQuotes(text) + "\"" + rest) == Field(text, rest)
  {
    var s := DoubleQuotes(text) + "\"" + rest;
    if text == "" {
      assert s == "\"" + rest && s[1..] == rest;
    } else {
      var s' := DoubleQuotes(text[1..]) + "\"" + rest;
      ReadBackQuoted(text[1..], rest);
      if text[0] == '"' {
        assert s == "\"\"" + s' && s[2..] == s';
        assert "\"" + text[1..] == text;
      } else {
        assert s == [text[0]] + s' && s[1..] == s';
        assert [text[0]] + text[1..] == text;
      }
    }
  }

  lemma QuotedField(body: string, rest: string)
    ensures ReadField("\"" + body + "\"" + rest) == ReadQuoted(body + "\"" + rest)
  {
    assert ("\"" + body + "\"" + rest)[1..] == body + "\"" + rest;
  }

  lemma ReadBackField(value: Option<string>, rest: string)
    requires Delimited(rest)
    ensures ReadField(CsvEscape(value) + rest) == Field(GetOr(value, ""), rest)
  {
    var text := GetOr(value, "");
    if NeedsQuotes(text) {
      ReadBackQuoted(text, rest);
      QuotedField(DoubleQuotes(text), rest);
    } else {
      ReadBackBare(text, rest);
      assert text + rest != "" ==> (text + rest)[0] != '"' by {
        assert text != "" ==> text[0] in text;
      }
    }
  }

  function Texts(cells: seq<Option<string>>): Record {
    seq(|cells|, i requires 0 <= i < |cells| => GetOr(cells[i], ""))
  }

  /** What may stand behind a line, and the records it holds. */
  predicate Follows(rest: string, more: seq<Record>) {
    if rest == "" then more == []
    else |rest| > 1 && rest[0] == '\n' && ReadCsv(rest[1..]) == Some(more)
  }

  lemma ReadLastField(value: Option<string>, rest: string, more: seq<Record>)
    requires Follows(rest, more)
    ensures ReadCsv(CsvEscape(value) + rest) == Some([[GetOr(value, "")]] + more)
  {
    ReadBackField(value, rest);
    assert [[GetOr(value, "")]] + [] == [[GetOr(value, "")]];
  }

  lemma ReadFieldAndMore(value: Option<string>, tail: string, record: Record, more: seq<Record>)
    requires ReadCsv(tail) == Some([record] + more)
    ensures ReadCsv(CsvEscape(value) + ("," + tail)) == Some([[GetOr(value, "")] + record] + more)
  {
    ReadBackField(value, "," + tail);
    assert ("," + tail)[1..] == tail;
    assert ([record] + more)[1..] == more;
  }

  lemma LineOfOne(cells: seq<Option<string>>)
    requires |cells| == 1
    ensures Line(cells) == CsvEscape(cells[0]) && Texts(cells) == [GetOr(cells[0], "")]
  {
  }

  /** One line, with nothing or further lines after it. */
  lemma {:induction false} ReadBackLine(cells: seq<Option<string>>, rest: string, more: seq<Record>)
    requires cells != [] && Follows(rest, more)
    ensures ReadCsv(Line(cells) + rest) == Some([Texts(cells)] + more)
    decreases |cells|
  {
    if |cells| == 1 {
      LineOfOne(cells);
      ReadLastField(cells[0], rest, more);
    } else {
      ReadBackLine(cells[1..], rest, more);
      ReadBackLongLine(cells, rest, more);
    }
  }

  lemma LineSplit(cells: seq<Option<string>>)
    requires |cells| > 1
    ensures Line(cells) == CsvEscape(cells[0]) + "," + Line(cells[1..]) != ""
    ensures Texts(cells) == [GetOr(cells[0], "")] + Texts(cells[1..])
  {
    assert EscapeAll(cells)[1..] == EscapeAll(cells[1..]);
  }

  lemma CommaAssociates(a: string, b: string, c: string)
    ensures a + "," + b + c == a + ("," + (b + c))
  {
  }

  lemma ReadBackLongLine(cells: seq<Option<string>>, rest: string, more: seq<Record>)
    requires |cells| > 1
    requires ReadCsv(Line(cells[1..]) + rest) == Some([Texts(cells[1..])] + more)
    ensures ReadCsv(Line(cells) + rest) == Some([Texts(cells)] + more)
  {
    var first, line, record := CsvEscape(cells[0]), Line(cells[1..]), Texts(cells[1..]);
    assert Line(cells) + rest == first + ("," + (line + rest)) by {
      LineSplit(cells);
      CommaAssociates(first, line, rest);
    }
    assert Texts(cells) == [GetOr(cells[0], "")] + record by {
      LineSplit(cells);
    }
    ReadFieldAndMore(cells[0], line + rest, record, more);
  }

  function Records(table: seq<seq<Option<string>>>): seq<Record> {
    seq(|table|, i requires 0 <= i < |table| => Texts(table[i]))
  }

  /** The text of a non-empty table, line breaks between the lines. */
  function TableText(table: seq<seq<Option<string>>>): string {
    Join(RowLines(table), "\n")
  }

  lemma TableSplit(table: seq<seq<Option<string>>>)
    requires table != []
    ensures |table| == 1 ==> TableText(table) == Line(table[0])
    ensures |table| > 1 ==> TableText(table) == Line(table[0]) + ("\n" + TableText(table[1..]))
    ensures Records(table) == [Texts(table[0])] + Records(table[1..])
  {
    assert RowLines(table)[1..] == RowLines(table[1..]);
  }

  lemma {:induction false} ReadBackTable(table: seq<seq<Option<string>>>)
    requires table != [] && forall i :: 0 <= i < |table| ==> |table[i]| > 1
    ensures TableText(table) != ""
    ensures ReadCsv(TableText(table)) == Some(Records(table))
    decreases |table|
  {
    TableSplit(table);
    LineSplit(table[0]);
    var line := Line(table[0]);
    if |table| == 1 {
      assert line + "" == line;
      ReadBackLine(table[0], "", []);
    } else {
      ReadBackTable(table[1..]);
      var rest := "\n" + TableText(table[1..]);
      assert rest[1..] == TableText(table[1..]);
      ReadBackLine(table[0], rest, Records(table[1..]));
    }
  }

  // ---------------------------------------------------------------- the whole export

  function HeaderCells(): (cells: seq<Option<string>>)
    ensures |cells| == 8
  {
    seq(8, i requires 0 <= i < 8 => Some(HEADER[i]))
  }

  lemma PlainShortNames()
    ensures !NeedsQuotes("Timestamp") && !NeedsQuotes("Username") && !NeedsQuotes("Action")
    ensures !NeedsQuotes("Result") && !NeedsQuotes("Error")
  {
  }

  lemma PlainHeader(i: nat)
    requires i < 8
    ensures !NeedsQuotes(HEADER[i])
  {
    PlainShortNames();
    assert !NeedsQuotes("Entity Type") && !NeedsQuotes("Entity Name") && !NeedsQuotes("IP Address");
  }

  /** The header names need no quoting, so the header is a line like any other. */
  lemma HeaderIsLine()
    ensures Line(HeaderCells()) == Join(HEADER, ",") && Texts(HeaderCells()) == HEADER
  {
    forall i | 0 <= i < 8
      ensures CsvEscape(Some(HEADER[i])) == HEADER[i]
    {
      PlainHeader(i);
    }
    assert EscapeAll(HeaderCells()) == HEADER;
    assert Texts(HeaderCells()) == HEADER;
  }

  lemma ReadBackWithHeader(header: seq<Option<string>>, line: string, names: Record,
                           rows: seq<seq<Option<string>>>)
    requires |header| > 1 && Line(header) == line && Texts(header) == names
    requires forall i :: 0 <= i < |rows| ==> |rows[i]| > 1
    ensures ReadCsv(Join([line] + RowLines(rows), "\n")) == Some([names] + Records(rows))
  {
    var table := [header] + rows;
    assert RowLines(table) == [line] + RowLines(rows);
    assert table[1..] == rows;
    TableSplit(table);
    ReadBackTable(table);
  }

  /** Reading an export gives the header and the exact field values, null as empty. */
  lemma ExportRoundTrip(matching: seq<AuditRow>)
    ensures ReadCsv(ExportCsv(matching)) == Some([HEADER] + Records(Table(Capped(matching))))
  {
    HeaderIsLine();
    var header := HeaderCells();
    ReadBackWithHeader(header, Join(HEADER, ","), HEADER, Table(Capped(matching)));
  }

  // ---------------------------------------------------------------- what stands under each name

  /** The value of a row that a reader looks for under a name of the header. */
  function Named(row: AuditRow, name: string): string {
    match name
    case "Timestamp" => row.createdAt
    case "Username" => GetOr(row.username, "")
    case "Action" => row.actionType
    case "Entity Type" => row.entityType
    case "Entity Name" => GetOr(row.entityName, "")
    case "IP Address" => GetOr(row.ipAddress, "")
    case "Result" => if row.success then "SUCCESS" else "FAILED"
    case "Error" => GetOr(row.errorMessage, "")
    case _ => ""
  }

  lemma CellStandsUnderName(row: AuditRow, i: nat)
    requires i < 8
    ensures GetOr(Cells(row)[i], "") == Named(row, HEADER[i])
  {
  }

  lemma RecordTellsRow(rows: seq<AuditRow>, k: nat, i: nat)
    requires k < |rows| && i < 8
    ensures var records := Records(Table(rows));
            |records| == |rows| && |records[k]| == 8 && records[k][i] == Named(rows[k], HEADER[i])
  {
    CellStandsUnderName(rows[k], i);
    assert Records(Table(rows))[k] == Texts(Cells(rows[k]));
  }

  /** The record a reader gets for a row. */
  predicate Tells(record: Record, row: AuditRow) {
    |record| == 8 && forall i :: 0 <= i < 8 ==> record[i] == Named(row, HEADER[i])
  }

  lemma RecordsTellRows(rows: seq<AuditRow>)
    ensures var records := Records(Table(rows));
            |records| == |rows| && forall k :: 0 <= k < |rows| ==> Tells(records[k], rows[k])
  {
    forall k, i | 0 <= k < |rows| && 0 <= i < 8
      ensures |Records(Table(rows))[k]| == 8 && Records(Table(rows))[k][i] == Named(rows[k], HEADER[i])
    {
      RecordTellsRow(rows, k, i);
    }
  }

  /**
   Reading an export gives the header and one record for each of the first ten thousand rows,
   whose value under each name of the header is the row's, null as empty.
   */
  lemma ExportTellsRows(matching: seq<AuditRow>)
    ensures var exported := if |matching| <= 10_000 then matching else matching[..10_000];
            var read := ReadCsv(ExportCsv(matching));
            && read.Some? && |read.value| == 1 + |exported| && read.value[0] == HEADER
            && forall k :: 0 <= k < |exported| ==> Tells(read.value[k + 1], exported[k])
  {
    ExportRoundTrip(matching);
    RecordsTellRows(Capped(matching));
    var records := Records(Table(Capped(matching)));
    forall k | 0 <= k < |records|
      ensures ([HEADER] + records)[k + 1] == records[k]
    {
    }
  }

  lemma HeaderNames()
    ensures HEADER == ["Timestamp", "Username", "Action", "Entity Type", "Entity Name", "IP Address", "Result", "Error"]
  {
  }
}
