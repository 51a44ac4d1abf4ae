/**
 The CSV incident report (dashboard/src/lib/exportIncident.js:16-88): what is written for any report, and a
 reader for section 2 of RFC 4180 that gives every cell of it back in its place.
 */
module IncidentCsv {
  import opened Incidents

  // ---- Writing ----

  predicate StartsFormula(s: string) {
    s != "" && s[0] in ['=', '+', '-', '@', '\t', '\r']
  }

  /** A leading apostrophe makes a spreadsheet take the cell as text. */
  function Sanitised(s: string): string {
    if StartsFormula(s) then "'" + s else s
  }

  predicate NeedsQuotes(s: string) {
    '"' in s || ',' in s || '\n' in s
  }

  function Replaced(s: string, c: char, instead: string): string {
    if s == "" then "" else (if s[0] == c then instead else [s[0]]) + Replaced(s[1..], c, instead)
  }

  function Quoted(s: string): string { "\"" + Replaced(s, '"', "\"\"") + "\"" }

  function Text(value: Option<string>): string {
    if value.Some? then value.value else ""
  }

  function CsvEscape(value: Option<string>): string {
    var str := Sanitised(Text(value));
    if NeedsQuotes(str) then Quoted(str) else str
  }

  function Join(parts: seq<string>, separator: string): string {
    if parts == [] then ""
    else if |parts| == 1 then parts[0]
    else parts[0] + separator + Join(parts[1..], separator)
  }

  type Row = seq<Option<string>>

  function Escaped(row: Row): (r: seq<string>)
    ensures |r| == |row|
  {
    if row == [] then [] else [CsvEscape(row[0])] + Escaped(row[1..])
  }

  function Line(row: Row): string { Join(Escaped(row), ",") }

  function Lines(table: seq<Row>): (r: seq<string>)
    ensures |r| == |table|
  {
    if table == [] then [] else [Line(table[0])] + Lines(table[1..])
  }

  function Csv(table: seq<Row>): string { Join(Lines(table), "\r\n") }

  // ---- The report ----

  datatype StoryEntry = StoryEntry(
    offset: Option<string>, source: Option<string>, title: Option<string>, detail: string, mitre: Option<string>)

  datatype Report = Report(
    id: Option<string>, title: Option<string>, severity: Option<string>, status: Option<string>,
    correlationRule: Option<string>, mitrePath: seq<string>, target: Option<string>, sourceIp: Option<string>,
    sourceCountry: Option<string>, firstDetected: Option<string>, storyline: seq<StoryEntry>)

  const HEADERS: Row := [
    Some("incident_id"), Some("title"), Some("severity"), Some("status"), Some("correlation_rule"),
    Some("mitre_path"), Some("target"), Some("source_ip"), Some("source_country"), Some("first_detected"),
    Some("event_offset"), Some("event_source"), Some("event_title"), Some("event_detail"), Some("event_mitre")]

  function BaseFields(r: Report): Row {
    [r.id, r.title, r.severity, r.status, r.correlationRule, Some(Join(r.mitrePath, " -> ")),
     r.target, r.sourceIp, r.sourceCountry, r.firstDetected]
  }

  function EventFields(e: StoryEntry): Row {
    [e.offset, e.source, e.title, Some(Replaced(e.detail, '\n', " / ")), e.mitre]
  }

  function StoryRows(r: Report, story: seq<StoryEntry>): (rows: seq<Row>)
    ensures |rows| == |story|
  {
    if story == [] then []
    else
      [BaseFields(r) + EventFields(story[0])] + StoryRows(r, story[1..])
  }

  function ReportTable(r: Report): seq<Row> { [HEADERS] + StoryRows(r, r.storyline) }

  /** The exported text; the file puts a byte order mark in front of it. */
  function ReportCsv(r: Report): string { Csv(ReportTable(r)) }

  // ---- Reading ----

  /** Where the reader is within a cell. */
  datatype Mode = Start | Plain | InQuotes | AfterQuote

  predicate AtBreak(s: string) { |s| >= 2 && s[0] == '\r' && s[1] == '\n' }

  /** Cells part at commas and rows at CRLF, outside quotes only; a stray quote is an error. */
  function Read(s: string, mode: Mode, cell: string, row: seq<string>, rows: seq<seq<string>>): Option<seq<seq<string>>>
    decreases |s|
  {
    if mode == InQuotes then
      if s == "" then None
      else if s[0] == '"' then Read(s[1..], AfterQuote, cell, row, rows)
      else Read(s[1..], InQuotes, cell + [s[0]], row, rows)
    else if s == "" then Some(rows + [row + [cell]])
    else if s[0] == ',' then Read(s[1..], Start, "", row + [cell], rows)
    else if AtBreak(s) then Read(s[2..], Start, "", [], rows + [row + [cell]])
    else if s[0] == '"' then
      match mode
      case Start => Read(s[1..], InQuotes, cell, row, rows)
      case AfterQuote => Read(s[1..], InQuotes, cell + ['"'], row, rows)
      case _ => None
    else if mode == AfterQuote then None
    else Read(s[1..], Plain, cell + [s[0]], row, rows)
  }

  function ReadCsv(s: string): Option<seq<seq<string>>> { Read(s, Start, "", [], []) }

  // ---- What comes back ----

  function SanitisedRow(row: Row): (r: seq<string>)
    ensures |r| == |row|
  {
    if row == [] then [] else [Sanitised(Text(row[0]))] + SanitisedRow(row[1..])
  }

  function SanitisedTable(table: seq<Row>): (r: seq<seq<string>>)
    ensures |r| == |table|
  {
    if table == [] then [] else [SanitisedRow(table[0])] + SanitisedTable(table[1..])
  }

  lemma {:induction false} SanitisedAt(table: seq<Row>, k: nat, column: nat)
    requires k < |table| && column < |table[k]|
    ensures SanitisedTable(table)[k] == SanitisedRow(table[k])
    ensures SanitisedTable(table)[k][column] == Sanitised(Text(table[k][column]))
  {
    if k > 0 { SanitisedAt(table[1..], k - 1, column); }
    else { CellAt(table[0], column); }
  }

  lemma {:induction false} CellAt(row: Row, column: nat)
    requires column < |row|
    ensures SanitisedRow(row)[column] == Sanitised(Text(row[column]))
  {
    if column > 0 { CellAt(row[1..], column - 1); }
  }

  /** What may follow a cell: nothing, a comma or a row break. */
  predicate Follows(rest: string) { rest == "" || rest[0] == ',' || AtBreak(rest) }

  function AfterCell(rest: string, cell: string, row: seq<string>, rows: seq<seq<string>>): Option<seq<seq<string>>>
    requires Follows(rest)
  {
    if rest == "" then Some(rows + [row + [cell]])
    else if rest[0] == ',' then Read(rest[1..], Start, "", row + [cell], rows)
    else Read(rest[2..], Start, "", [], rows + [row + [cell]])
  }

  lemma {:induction false} ReadPlain(
    s: string, rest: string, mode: Mode, cell: string, row: seq<string>, rows: seq<seq<string>>)
    requires !NeedsQuotes(s) && Follows(rest) && (mode == Start || mode == Plain)
    ensures Read(s + rest, mode, cell, row, rows) == AfterCell(rest, cell + s, row, rows)
    decreases |s|
  {
    if s == "" {
      assert s + rest == rest && cell + s == cell;
    } else {
      var all := s + rest;
      assert all[0] == s[0] && all[1..] == s[1..] + rest;
      assert !AtBreak(all) by {
        if |s| > 1 { assert all[1] == s[1] && s[1] in s; }
      }
      ReadPlain(s[1..], rest, Plain, cell + [s[0]], row, rows);
      assert cell + [s[0]] + s[1..] == cell + s;
    }
  }

  lemma {:induction false} ReadQuoted(s: string, rest: string, cell: string, row: seq<string>, rows: seq<seq<string>>)
    requires Follows(rest)
    ensures Read(Replaced(s, '"', "\"\"") + "\"" + rest, InQuotes, cell, row, rows) ==
            AfterCell(rest, cell + s, row, rows)
    decreases |s|
  {
    if s == "" {
      assert Replaced(s, '"', "\"\"") + "\"" + rest == "\"" + rest;
      assert ("\"" + rest)[1..] == rest && cell + s == cell;
    } else {
      var tail := Replaced(s[1..], '"', "\"\"") + "\"" + rest;
      ReadQuoted(s[1..], rest, cell + [s[0]], row, rows);
      assert cell + [s[0]] + s[1..] == cell + s;
      if s[0] == '"' {
        assert Replaced(s, '"', "\"\"") + "\"" + rest == "\"\"" + tail;
        assert ("\"\"" + tail)[1..] == "\"" + tail && ("\"" + tail)[1..] == tail;
      } else {
        assert Replaced(s, '"', "\"\"") + "\"" + rest == [s[0]] + tail;
        assert ([s[0]] + tail)[1..] == tail;
      }
    }
  }

  lemma ReadCell(value: Option<string>, rest: string, row: seq<string>, rows: seq<seq<string>>)
    requires Follows(rest)
    ensures Read(CsvEscape(value) + rest, Start, "", row, rows) == AfterCell(rest, Sanitised(Text(value)), row, rows)
  {
    var s := Sanitised(Text(value));
    assert "" + s == s;
    if NeedsQuotes(s) {
      ReadQuoted(s, rest, "", row, rows);
      var body := Replaced(s, '"', "\"\"") + "\"" + rest;
      assert Quoted(s) + rest == "\"" + body && ("\"" + body)[1..] == body;
    } else {
      ReadPlain(s, rest, Start, "", row, rows);
    }
  }

  lemma {:induction false} ReadLine(line: Row, rest: string, row: seq<string>, rows: seq<seq<string>>)
    requires line != [] && (rest == "" || AtBreak(rest))
    ensures Read(Line(line) + rest, Start, "", row, rows) ==
            if rest == "" then Some(rows + [row + SanitisedRow(line)])
            else Read(rest[2..], Start, "", [], rows + [row + SanitisedRow(line)])
    decreases |line|
  {
    var first := Sanitised(Text(line[0]));
    if |line| == 1 {
      ReadCell(line[0], rest, row, rows);
      OneCell(line);
    } else {
      var tail := Line(line[1..]) + rest;
      MoreCells(line, rest);
      ReadCell(line[0], "," + tail, row, rows);
      assert ("," + tail)[1..] == tail;
      ReadLine(line[1..], rest, row + [first], rows);
      assert row + [first] + SanitisedRow(line[1..]) == row + SanitisedRow(line);
    }
  }

  lemma OneCell(line: Row)
    requires |line| == 1
    ensures Line(line) == CsvEscape(line[0]) && SanitisedRow(line) == [Sanitised(Text(line[0]))]
  {
    assert Escaped(line) == [CsvEscape(line[0])];
  }

  lemma MoreCells(line: Row, rest: string)
    requires |line| > 1
    ensures Line(line) + rest == CsvEscape(line[0]) + ("," + (Line(line[1..]) + rest))
  {
    var first, tail := CsvEscape(line[0]), Line(line[1..]);
    assert Escaped(line)[1..] == Escaped(line[1..]);
    assert Line(line) == first + "," + tail;
    assert (first + "," + tail) + rest == first + ("," + (tail + rest));
  }

  lemma MoreLines(table: seq<Row>)
    requires |table| > 1
    ensures Csv(table) == Line(table[0]) + ("\r\n" + Csv(table[1..]))
  {
    assert Lines(table)[1..] == Lines(table[1..]);
    assert Csv(table) == Line(table[0]) + "\r\n" + Csv(table[1..]);
  }

  lemma {:induction false} ReadLines(table: seq<Row>, rows: seq<seq<string>>)
    requires table != [] && forall r :: r in table ==> r != []
    ensures Read(Csv(table), Start, "", [], rows) == Some(rows + SanitisedTable(table))
    decreases |table|
  {
    var first := SanitisedRow(table[0]);
    assert [] + first == first;
    assert table[0] in table && forall r :: r in table[1..] ==> r in table;
    if |table| == 1 {
      assert Lines(table) == [Line(table[0])];
      assert Line(table[0]) + "" == Line(table[0]);
      ReadLine(table[0], "", [], rows);
      assert SanitisedTable(table) == [first];
    } else {
      var rest := "\r\n" + Csv(table[1..]);
      MoreLines(table);
      ReadLine(table[0], rest, [], rows);
      assert rest[2..] == Csv(table[1..]);
      ReadLines(table[1..], rows + [first]);
      assert rows + [first] + SanitisedTable(table[1..]) == rows + SanitisedTable(table);
    }
  }

  /** Reading what was written gives back every sanitised cell in its place, whatever the cells contain. */
  lemma CsvRoundTrip(table: seq<Row>)
    requires table != [] && forall r :: r in table ==> r != []
    ensures ReadCsv(Csv(table)) == Some(SanitisedTable(table))
  {
    ReadLines(table, []);
    assert [] + SanitisedTable(table) == SanitisedTable(table);
  }

  lemma {:induction false} StoryRowAt(r: Report, story: seq<StoryEntry>, k: nat)
    requires k < |story|
    ensures StoryRows(r, story)[k] == BaseFields(r) + EventFields(story[k])
  {
    if k > 0 { StoryRowAt(r, story[1..], k - 1); }
  }

  lemma {:induction false} NoNewline(s: string)
    ensures '\n' !in Replaced(s, '\n', " / ")
  {
    if s != "" { NoNewline(s[1..]); }
  }

  lemma ReportRowAt(r: Report, k: nat)
    requires k < |ReportTable(r)|
    ensures var row := ReportTable(r)[k];
            && row == (if k == 0 then HEADERS else BaseFields(r) + EventFields(r.storyline[k - 1]))
            && |row| == 15 && SanitisedTable(ReportTable(r))[k] == SanitisedRow(row)
  {
    if k > 0 { StoryRowAt(r, r.storyline, k - 1); }
    SanitisedAt(ReportTable(r), k, 0);
  }

  /** A cell as it comes back: nothing for a missing value. */
  function Cell(value: Option<string>): string {
    match value
    case None => ""
    case Some(s) => Sanitised(s)
  }

  /** The names of the columns. */
  function ColumnName(k: nat): string {
    match k
    case 0 => "incident_id"
    case 1 => "title"
    case 2 => "severity"
    case 3 => "status"
    case 4 => "correlation_rule"
    case 5 => "mitre_path"
    case 6 => "target"
    case 7 => "source_ip"
    case 8 => "source_country"
    case 9 => "first_detected"
    case 10 => "event_offset"
    case 11 => "event_source"
    case 12 => "event_title"
    case 13 => "event_detail"
    case 14 => "event_mitre"
    case _ => ""
  }

  predicate IsHeader(row: seq<string>) {
    |row| == 15 && forall k :: 0 <= k < 15 ==> row[k] == ColumnName(k)
  }

  /** The storyline row as it comes back, column by column under those names. */
  predicate ReadsBack(row: seq<string>, r: Report, e: StoryEntry) {
    && |row| == 15 && row[0] == Cell(r.id) && row[1] == Cell(r.title) && row[2] == Cell(r.severity)
    && row[3] == Cell(r.status) && row[4] == Cell(r.correlationRule)
    && row[5] == Sanitised(Join(r.mitrePath, " -> ")) && row[6] == Cell(r.target) && row[7] == Cell(r.sourceIp)
    && row[8] == Cell(r.sourceCountry) && row[9] == Cell(r.firstDetected) && row[10] == Cell(e.offset)
    && row[11] == Cell(e.source) && row[12] == Cell(e.title)
    && row[13] == Sanitised(Replaced(e.detail, '\n', " / ")) && row[14] == Cell(e.mitre)
  }

  /**
   The exported report reads back as the header and one row per storyline entry, fifteen columns each:
   the incident's ten, repeated, then the entry's five with its detail on one line.
   */
  lemma ReportRoundTrip(r: Report)
    ensures ReadCsv(ReportCsv(r)).Some?
    ensures var rows := ReadCsv(ReportCsv(r)).value;
            && |rows| == 1 + |r.storyline| && IsHeader(rows[0])
            && forall k :: 0 <= k < |r.storyline| ==> ReadsBack(rows[k + 1], r, r.storyline[k])
  {
    ReportRowsNonEmpty(r);
    CsvRoundTrip(ReportTable(r));
    RowsBack(r);
  }

  lemma RowsBack(r: Report)
    ensures IsHeader(SanitisedTable(ReportTable(r))[0])
    ensures forall k :: 0 <= k < |r.storyline| ==>
              ReadsBack(SanitisedTable(ReportTable(r))[k + 1], r, r.storyline[k])
  {
    HeaderBack();
    ReportRowAt(r, 0);
    forall k | 0 <= k < |r.storyline| ensures ReadsBack(SanitisedTable(ReportTable(r))[k + 1], r, r.storyline[k]) {
      RowBack(r, k);
    }
  }

  lemma RowBack(r: Report, k: nat)
    requires k < |r.storyline|
    ensures ReadsBack(SanitisedTable(ReportTable(r))[k + 1], r, r.storyline[k])
  {
    ReportRowAt(r, k + 1);
    EntryBack(r, r.storyline[k]);
  }

  lemma HeaderNamed(k: nat)
    requires k < 15
    ensures |HEADERS| == 15 && Cell(HEADERS[k]) == ColumnName(k)
  {
  }

  lemma HeaderBack()
    ensures IsHeader(SanitisedRow(HEADERS))
  {
    assert |HEADERS| == 15;
    forall k | 0 <= k < 15 ensures SanitisedRow(HEADERS)[k] == ColumnName(k) {
      HeaderNamed(k);
      CellAt(HEADERS, k);
    }
  }

  lemma BaseAt(r: Report, rest: Row)
    ensures var row := BaseFields(r) + rest;
            && row[0] == r.id && row[1] == r.title && row[2] == r.severity && row[3] == r.status
            && row[4] == r.correlationRule && row[5] == Some(Join(r.mitrePath, " -> ")) && row[6] == r.target
            && row[7] == r.sourceIp && row[8] == r.sourceCountry && row[9] == r.firstDetected
  {
  }

  lemma EntryAt(r: Report, e: StoryEntry)
    ensures var row := BaseFields(r) + EventFields(e);
            && row[10] == e.offset && row[11] == e.source && row[12] == e.title
            && row[13] == Some(Replaced(e.detail, '\n', " / ")) && row[14] == e.mitre
  {
  }

  lemma EntryBack(r: Report, e: StoryEntry)
    ensures ReadsBack(SanitisedRow(BaseFields(r) + EventFields(e)), r, e)
  {
    var row := BaseFields(r) + EventFields(e);
    BaseAt(r, EventFields(e));
    EntryAt(r, e);
    forall c | 0 <= c < 15 ensures SanitisedRow(row)[c] == Cell(row[c]) { CellAt(row, c); }
  }

  lemma ReportRowsNonEmpty(r: Report)
    ensures forall row :: row in ReportTable(r) ==> row != []
  {
    forall row | row in ReportTable(r) ensures row != [] {
      var k :| 0 <= k < |ReportTable(r)| && ReportTable(r)[k] == row;
      ReportRowAt(r, k);
    }
  }

  /** No cell read back can start a formula, and the apostrophe is added exactly where it is needed. */
  lemma SanitisedIsInert(s: string)
    ensures Sanitised(s) == "" || Sanitised(s)[0] !in ['=', '+', '-', '@', '\t', '\r']
    ensures Sanitised(s) == if s != "" && s[0] in ['=', '+', '-', '@', '\t', '\r'] then "'" + s else s
  {
  }

  lemma {:induction false} ReplacedIsLonger(s: string, c: char, instead: string)
    requires instead != ""
    ensures |Replaced(s, c, instead)| >= |s|
  {
    if s != "" { ReplacedIsLonger(s[1..], c, instead); }
  }

  /** A cell is quoted exactly when it holds a quote, a comma or a line feed. */
  lemma QuotedIfNeeded(value: Option<string>)
    ensures CsvEscape(value) == Cell(value) <==> '"' !in Cell(value) && ',' !in Cell(value) && '\n' !in Cell(value)
  {
    ReplacedIsLonger(Cell(value), '"', "\"\"");
  }

  /** Two cells read back alike only if they were alike or one is the other with its apostrophe already there. */
  lemma SanitisedMerges(a: string, b: string)
    ensures Sanitised(a) == Sanitised(b) <==>
              a == b || (StartsFormula(a) && b == "'" + a) || (StartsFormula(b) && a == "'" + b)
  {
    if StartsFormula(a) && StartsFormula(b) && Sanitised(a) == Sanitised(b) {
      assert a == Sanitised(a)[1..] && b == Sanitised(b)[1..];
    }
  }
}
