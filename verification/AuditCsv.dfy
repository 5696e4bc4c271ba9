/**
The CSV export of the audit log, against a reader of RFC 4180 that also accepts bare line feeds.
*/
module AuditCsv {
  import opened Wrappers
  import opened Text

  /** One audit record; identifiers are already in their textual form. */
  datatype Record = Record(
    id: string,
    timestamp: int,
    eventType: string,
    userId: Option<string>,
    username: Option<string>,
    actorId: Option<string>,
    actorUsername: Option<string>,
    ipAddress: Option<string>,
    userAgent: Option<string>,
    details: Option<string>)

  // ---------------------------------------------------------------------------------------------
  // The printer
  // ---------------------------------------------------------------------------------------------

  predicate StartsFormula(value: string) {
    value != [] && (value[0] == '=' || value[0] == '+' || value[0] == '-' || value[0] == '@')
  }

  predicate StartsControl(value: string) {
    value != [] && (value[0] == '\t' || value[0] == '\r' || value[0] == '\n')
  }

  /** A value that a spreadsheet could take for a formula gets an apostrophe in front. */
  function Guarded(value: string): string {
    if StartsFormula(TrimStart(value)) || StartsControl(value) then "'" + value else value
  }

  predicate Special(c: char) {
    c == ',' || c == '\n' || c == '\r' || c == '"'
  }

  function Doubled(value: string): string {
    if value == [] then [] else (if value[0] == '"' then "\"\"" else [value[0]]) + Doubled(value[1..])
  }

  function CsvField(value: string): string {
    var v := Guarded(value);
    if exists i :: 0 <= i < |v| && Special(v[i]) then "\"" + Doubled(v) + "\"" else v
  }

  function Natural(n: nat): (s: string)
    ensures s != [] && forall i :: 0 <= i < |s| ==> IsDigit(s[i])
  {
    var digit := ['0' + ((n % 10) as char)];
    if n < 10 then digit else Natural(n / 10) + digit
  }

  function Decimal(n: int): string {
    if n < 0 then "-" + Natural(-n) else Natural(n)
  }

  const HEADER: seq<string> := [
    "id", "timestamp", "event_type", "user_id", "username", "actor_id", "actor_username", "ip_address",
    "user_agent", "details"]

  const HEADER_LINE: string :=
    "id" + "," + "timestamp" + "," + "event_type" + "," + "user_id" + "," + "username" + "," + "actor_id" + ","
    + "actor_username" + "," + "ip_address" + "," + "user_agent" + "," + "details" + "\n"

  /** One turn of the loop: ten cells pushed, each with what follows it. */
  method PushRecord(text: string, r: Record) returns (out: string)
    ensures out == Pushed(text, Cells(r), 10)
  {
    hide Pushed, CsvField, Decimal;
    ghost var c := Cells(r);
    out := text;
    NothingPushed(text, c);
    PushOne(text, c, 0);
    out := out + CsvField(r.id);
    out := out + ",";
    PushOne(text, c, 1);
    out := out + Decimal(r.timestamp);
    out := out + ",";
    PushOne(text, c, 2);
    out := out + CsvField(r.eventType);
    out := out + ",";
    PushOne(text, c, 3);
    out := out + CsvField(UnwrapOr(r.userId, ""));
    out := out + ",";
    PushOne(text, c, 4);
    out := out + CsvField(UnwrapOr(r.username, ""));
    out := out + ",";
    PushOne(text, c, 5);
    out := out + CsvField(UnwrapOr(r.actorId, ""));
    out := out + ",";
    PushOne(text, c, 6);
    out := out + CsvField(UnwrapOr(r.actorUsername, ""));
    out := out + ",";
    PushOne(text, c, 7);
    out := out + CsvField(UnwrapOr(r.ipAddress, ""));
    out := out + ",";
    PushOne(text, c, 8);
    out := out + CsvField(UnwrapOr(r.userAgent, ""));
    out := out + ",";
    PushOne(text, c, 9);
    out := out + CsvField(UnwrapOr(r.details, ""));
    out := out + "\n";
  }

  lemma NothingPushed(text: string, cells: seq<string>)
    ensures Pushed(text, cells, 0) == text
  {
  }

  lemma PushOne(text: string, cells: seq<string>, k: nat)
    requires k < |cells|
    ensures Pushed(text, cells, k + 1)
         == Pushed(text, cells, k) + cells[k] + if k + 1 == |cells| then "\n" else ","
  {
  }

  /** `records_to_csv`. */
  method RecordsToCsv(records: seq<Record>) returns (out: string)
    ensures ReadRows(out) == Some([HEADER] + Rows(records))
    ensures out == HEADER_LINE + Lines(records)
  {
    hide CsvField, Decimal, ReadRows, Pushed, Cells, LineOf;
    out := HEADER_LINE;
    assert HEADER_LINE + Lines([]) == HEADER_LINE;
    for i := 0 to |records|
      invariant out == HEADER_LINE + Lines(records[..i])
    {
      ghost var before, c := out, Cells(records[i]);
      out := PushRecord(out, records[i]);
      LinePushed(before, c);
      OneMoreLine(records, i);
      assert HEADER_LINE + Lines(records[..i]) + LineOf(c) == HEADER_LINE + (Lines(records[..i]) + LineOf(c));
    }
    assert records[..|records|] == records;
    ReadBack(records);
  }

  /** The printed cells of a record, in column order. */
  function Cells(r: Record): (cells: seq<string>)
    ensures |cells| == |HEADER|
  {
    [CsvField(r.id), Decimal(r.timestamp), CsvField(r.eventType), CsvField(UnwrapOr(r.userId, "")),
     CsvField(UnwrapOr(r.username, "")), CsvField(UnwrapOr(r.actorId, "")), CsvField(UnwrapOr(r.actorUsername, "")),
     CsvField(UnwrapOr(r.ipAddress, "")), CsvField(UnwrapOr(r.userAgent, "")), CsvField(UnwrapOr(r.details, ""))]
  }

  /** What a reader should recover from them. */
  function Row(r: Record): (row: seq<string>)
    ensures |row| == |HEADER|
  {
    [Guarded(r.id), Decimal(r.timestamp), Guarded(r.eventType), Guarded(UnwrapOr(r.userId, "")),
     Guarded(UnwrapOr(r.username, "")), Guarded(UnwrapOr(r.actorId, "")), Guarded(UnwrapOr(r.actorUsername, "")),
     Guarded(UnwrapOr(r.ipAddress, "")), Guarded(UnwrapOr(r.userAgent, "")), Guarded(UnwrapOr(r.details, ""))]
  }

  function Rows(records: seq<Record>): seq<seq<string>> {
    seq(|records|, i requires 0 <= i < |records| => Row(records[i]))
  }

  function LineOf(cells: seq<string>): string {
    Join(cells, ',') + "\n"
  }

  function Lines(records: seq<Record>): string {
    if records == [] then []
    else Lines(records[..|records| - 1]) + LineOf(Cells(records[|records| - 1]))
  }

  lemma OneMoreLine(records: seq<Record>, i: nat)
    requires i < |records|
    ensures Lines(records[..i + 1]) == Lines(records[..i]) + LineOf(Cells(records[i]))
  {
    assert records[..i + 1][..i] == records[..i];
  }

  /** The text after the first `k` cells of a line have been pushed onto `text`. */
  function Pushed(text: string, cells: seq<string>, k: nat): string
    requires k <= |cells|
  {
    if k == 0 then text else Pushed(text, cells, k - 1) + cells[k - 1] + if k == |cells| then "\n" else ","
  }

  lemma {:induction false} PushedIs(text: string, cells: seq<string>, k: nat)
    requires 0 < k <= |cells|
    ensures Pushed(text, cells, k) == text + (Join(cells[..k], ',') + if k == |cells| then "\n" else ",")
  {
    if k == 1 {
      assert cells[..1] == [cells[0]];
      assert Pushed(text, cells, 0) == text;
    } else {
      PushedIs(text, cells, k - 1);
      JoinLast(cells[..k - 1], cells[k - 1], ',');
      assert cells[..k] == cells[..k - 1] + [cells[k - 1]];
    }
    assert cells[..|cells|] == cells;
  }

  lemma LinePushed(text: string, cells: seq<string>)
    requires cells != []
    ensures Pushed(text, cells, |cells|) == text + LineOf(cells)
  {
    PushedIs(text, cells, |cells|);
    assert cells[..|cells|] == cells;
  }

  // ---------------------------------------------------------------------------------------------
  // The reader
  // ---------------------------------------------------------------------------------------------

  datatype Parsed<T> = Fails | Reads(value: T, rest: string)

  /** The rest of a quoted field, after its opening quote. */
  function ReadQuoted(s: string, read: string): (p: Parsed<string>)
    ensures p.Reads? ==> |p.rest| <= |s|
    decreases |s|
  {
    if s == [] then Fails
    else if s[0] == '"' then
      if |s| > 1 && s[1] == '"' then ReadQuoted(s[2..], read + ['"']) else Reads(read, s[1..])
    else ReadQuoted(s[1..], read + [s[0]])
  }

  function ReadPlain(s: string, read: string): (p: Parsed<string>)
    ensures p.Reads? ==> |p.rest| <= |s|
    decreases |s|
  {
    if s == [] || s[0] == ',' || s[0] == '\n' || s[0] == '\r' then Reads(read, s)
    else if s[0] == '"' then Fails
    else ReadPlain(s[1..], read + [s[0]])
  }

  function ReadField(s: string): (p: Parsed<string>)
    ensures p.Reads? ==> |p.rest| <= |s|
  {
    if s != [] && s[0] == '"' then ReadQuoted(s[1..], []) else ReadPlain(s, [])
  }

  /** Fields up to and including a line end, which the last line may lack. */
  function ReadRow(s: string): (p: Parsed<seq<string>>)
    ensures p.Reads? && s != [] ==> |p.rest| < |s|
    decreases |s|
  {
    match ReadField(s)
    case Fails => Fails
    case Reads(field, rest) =>
      if rest == [] then Reads([field], [])
      else if rest[0] == '\n' then Reads([field], rest[1..])
      else if |rest| > 1 && rest[0] == '\r' && rest[1] == '\n' then Reads([field], rest[2..])
      else if rest[0] == ',' then
        (match ReadRow(rest[1..])
         case Fails => Fails
         case Reads(fields, after) => Reads([field] + fields, after))
      else Fails
  }

  function ReadRows(s: string): Option<seq<seq<string>>>
    decreases |s|
  {
    if s == [] then Some([])
    else
      match ReadRow(s)
      case Fails => None
      case Reads(row, rest) =>
        match ReadRows(rest)
        case None => None
        case Some(rows) => Some([row] + rows)
  }

  // ---------------------------------------------------------------------------------------------
  // Reading back what was printed
  // ---------------------------------------------------------------------------------------------

  predicate EndsField(rest: string) {
    rest != [] && (rest[0] == ',' || rest[0] == '\n')
  }

  lemma {:induction false} QuotedReads(v: string, rest: string, read: string)
    requires EndsField(rest)
    ensures ReadQuoted(Doubled(v) + "\"" + rest, read) == Reads(read + v, rest)
    decreases |v|
  {
    var s := Doubled(v) + "\"" + rest;
    if v == [] {
      assert s == "\"" + rest && s[1..] == rest && read + v == read;
    } else {
      QuotedReads(v[1..], rest, read + [v[0]]);
      assert read + [v[0]] + v[1..] == read + v;
      if v[0] == '"' {
        assert s[2..] == Doubled(v[1..]) + "\"" + rest;
      } else {
        assert s[1..] == Doubled(v[1..]) + "\"" + rest;
      }
    }
  }

  predicate Plain(v: string) {
    forall i :: 0 <= i < |v| ==> !Special(v[i])
  }

  lemma {:induction false} PlainReads(v: string, rest: string, read: string)
    requires EndsField(rest) && Plain(v)
    ensures ReadPlain(v + rest, read) == Reads(read + v, rest)
    decreases |v|
  {
    if v == [] {
      assert v + rest == rest && read + v == read;
    } else {
      assert !Special(v[0]);
      assert (v + rest)[1..] == v[1..] + rest;
      PlainReads(v[1..], rest, read + [v[0]]);
      assert read + [v[0]] + v[1..] == read + v;
    }
  }

  /** `cell` is read as `value` wherever a field may end. */
  ghost predicate CellReads(cell: string, value: string) {
    forall rest {:trigger cell + rest} :: EndsField(rest) ==> ReadField(cell + rest) == Reads(value, rest)
  }

  lemma PlainCell(v: string)
    requires Plain(v)
    ensures CellReads(v, v)
  {
    forall rest | EndsField(rest) ensures ReadField(v + rest) == Reads(v, rest) {
      PlainReads(v, rest, []);
      assert [] + v == v;
      if v != [] { assert !Special(v[0]); }
    }
  }

  lemma FieldCell(value: string)
    ensures CellReads(CsvField(value), Guarded(value))
  {
    hide Guarded, Doubled, CellReads;
    var v := Guarded(value);
    if exists i :: 0 <= i < |v| && Special(v[i]) {
      QuotedCell(v);
    } else {
      PlainCell(v);
    }
  }

  lemma QuotedCell(v: string)
    ensures CellReads("\"" + Doubled(v) + "\"", v)
  {
    hide Doubled, ReadQuoted, ReadPlain, EndsField;
    var cell := "\"" + Doubled(v) + "\"";
    forall rest | EndsField(rest) ensures ReadField(cell + rest) == Reads(v, rest) {
      QuotedReads(v, rest, []);
      assert [] + v == v;
      assert cell + rest == "\"" + (Doubled(v) + "\"" + rest);
    }
  }

  lemma DecimalCell(n: int)
    ensures CellReads(Decimal(n), Decimal(n))
  {
    var s := Decimal(n);
    forall i | 0 <= i < |s| ensures !Special(s[i]) {
      if n < 0 && i > 0 { assert IsDigit(Natural(-n)[i - 1]); }
    }
    PlainCell(s);
  }

  lemma {:induction false} CellsRead(cells: seq<string>, values: seq<string>, rest: string)
    requires |cells| == |values| > 0
    requires forall i :: 0 <= i < |cells| ==> CellReads(cells[i], values[i])
    ensures ReadRow(LineOf(cells) + rest) == Reads(values, rest)
  {
    hide CellReads, ReadField;
    var s := LineOf(cells) + rest;
    if |cells| == 1 {
      assert s == cells[0] + ("\n" + rest);
      UseCell(cells[0], values[0], "\n" + rest);
      assert ("\n" + rest)[1..] == rest && [values[0]] == values;
    } else {
      var after := LineOf(cells[1..]) + rest;
      assert s == cells[0] + ("," + after);
      UseCell(cells[0], values[0], "," + after);
      assert ("," + after)[1..] == after;
      CellsRead(cells[1..], values[1..], rest);
      assert [values[0]] + values[1..] == values;
    }
  }

  lemma UseCell(cell: string, value: string, rest: string)
    requires CellReads(cell, value) && EndsField(rest)
    ensures ReadField(cell + rest) == Reads(value, rest)
  {
  }

  lemma RecordCells(r: Record)
    ensures forall i :: 0 <= i < |HEADER| ==> CellReads(Cells(r)[i], Row(r)[i])
  {
    hide CellReads, CsvField, Guarded, Decimal;
    FieldCell(r.id);
    DecimalCell(r.timestamp);
    FieldCell(r.eventType);
    FieldCell(UnwrapOr(r.userId, ""));
    FieldCell(UnwrapOr(r.username, ""));
    FieldCell(UnwrapOr(r.actorId, ""));
    FieldCell(UnwrapOr(r.actorUsername, ""));
    FieldCell(UnwrapOr(r.ipAddress, ""));
    FieldCell(UnwrapOr(r.userAgent, ""));
    FieldCell(UnwrapOr(r.details, ""));
  }

  lemma LineNonEmpty(cells: seq<string>)
    ensures LineOf(cells) != []
  {
  }

  lemma RowThenRows(cells: seq<string>, values: seq<string>, rest: string)
    requires |cells| == |values| > 0 && forall i :: 0 <= i < |cells| ==> CellReads(cells[i], values[i])
    ensures ReadRows(LineOf(cells) + rest) == match ReadRows(rest)
                                              case None => None
                                              case Some(rows) => Some([values] + rows)
  {
    hide ReadRow, CellReads;
    LineNonEmpty(cells);
    CellsRead(cells, values, rest);
  }

  lemma {:induction false} LinesRead(records: seq<Record>, rest: string)
    requires ReadRows(rest).Some?
    ensures ReadRows(Lines(records) + rest) == Some(Rows(records) + ReadRows(rest).value)
  {
    hide ReadRows, Cells, Row, CellReads, LineOf;
    if records == [] {
      assert Lines(records) + rest == rest;
      assert Rows(records) + ReadRows(rest).value == ReadRows(rest).value;
    } else {
      var n := |records| - 1;
      var line := LineOf(Cells(records[n]));
      RecordCells(records[n]);
      RowThenRows(Cells(records[n]), Row(records[n]), rest);
      LinesRead(records[..n], line + rest);
      assert Lines(records) + rest == Lines(records[..n]) + (line + rest);
      assert Lines(records) == Lines(records[..n]) + line;
      assert Rows(records) == Rows(records[..n]) + [Row(records[n])];
      var (done, rows) := (Rows(records[..n]), ReadRows(rest).value);
      assert done + ([Row(records[n])] + rows) == done + [Row(records[n])] + rows;
    }
  }

  lemma HeaderCells()
    ensures forall i :: 0 <= i < |HEADER| ==> CellReads(HEADER[i], HEADER[i])
  {
    hide CellReads;
    PlainCell("id");
    PlainCell("timestamp");
    PlainCell("event_type");
    PlainCell("user_id");
    PlainCell("username");
    PlainCell("actor_id");
    PlainCell("actor_username");
    PlainCell("ip_address");
    PlainCell("user_agent");
    PlainCell("details");
  }

  lemma HeaderLine()
    ensures HEADER_LINE == LineOf(HEADER)
  {
    hide Pushed, LineOf;
    NothingPushed("", HEADER);
    PushOne("", HEADER, 0);
    PushOne("", HEADER, 1);
    PushOne("", HEADER, 2);
    PushOne("", HEADER, 3);
    PushOne("", HEADER, 4);
    PushOne("", HEADER, 5);
    PushOne("", HEADER, 6);
    PushOne("", HEADER, 7);
    PushOne("", HEADER, 8);
    PushOne("", HEADER, 9);
    LinePushed("", HEADER);
    assert "" + "id" == "id" && "" + LineOf(HEADER) == LineOf(HEADER);
  }

  /** A reader of the export recovers one header and one ten-field row a record, whatever the fields hold. */
  lemma ReadBack(records: seq<Record>)
    ensures ReadRows(HEADER_LINE + Lines(records)) == Some([HEADER] + Rows(records))
  {
    hide ReadRows, CellReads, Lines, Rows;
    HeaderCells();
    HeaderLine();
    RowThenRows(HEADER, HEADER, Lines(records));
    NoRows();
    LinesRead(records, []);
    assert Lines(records) + [] == Lines(records);
    assert Rows(records) + [] == Rows(records);
  }

  lemma NoRows()
    ensures ReadRows([]) == Some([])
  {
  }

  // ---------------------------------------------------------------------------------------------
  // The guard
  // ---------------------------------------------------------------------------------------------

  /** No guarded field can be taken for a formula, and the guard adds at most an apostrophe. */
  lemma GuardedIsInert(value: string)
    ensures var g := Guarded(value);
      && !StartsFormula(TrimStart(g)) && !StartsControl(g)
      && (g == value || (g == "'" + value && (StartsFormula(TrimStart(value)) || StartsControl(value))))
  {
    ApostropheIsInert(value);
    hide TrimStart, StartsFormula, StartsControl;
  }

  lemma ApostropheIsInert(value: string)
    ensures var g := "'" + value; TrimStart(g) == g && !StartsFormula(g) && !StartsControl(g)
  {
    assert ("'" + value)[0] == '\'';
  }
}
