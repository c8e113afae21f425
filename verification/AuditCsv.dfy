/**
 The audit log export (server/controllers/audit.js), and a reader for the format of section 2 of
 RFC 4180.
 */
module AuditCsv {
  import opened Wrappers

  // ---------------------------------------------------------------- the writer

  predicate StartsFormula(text: string) {
    text != "" && (text[0] == '=' || text[0] == '+' || text[0] == '-' || text[0] == '@' || text[0] == '\t' || text[0] == '\r')
  }

  /** A leading quote stops spreadsheets from running the value as a formula. */
  function Guard(text: string): string {
    if StartsFormula(text) then "'" + text else text
  }

  predicate NeedsQuotes(text: string) {
    exists i :: 0 <= i < |text| && (text[i] == '\"' || text[i] == ',' || text[i] == '\r' || text[i] == '\n')
  }

  function DoubleQuotes(text: string): string {
    if text == "" then "" else (if text[0] == '\"' then "\"\"" else [text[0]]) + DoubleQuotes(text[1..])
  }

  /** `csvCell`; a missing value is the empty text. */
  function Cell(value: Option<string>): string {
    var text := Guard(if value.Some? then value.value else "");
    if NeedsQuotes(text) then "\"" + DoubleQuotes(text) + "\"" else text
  }

  function Line(cells: seq<Option<string>>): string
    requires cells != []
  {
    if |cells| == 1 then Cell(cells[0]) else Cell(cells[0]) + "," + Line(cells[1..])
  }

  /** `lines.join("\r\n") + "\r\n"` */
  function File(rows: seq<seq<Option<string>>>): string
    requires forall i :: 0 <= i < |rows| ==> rows[i] != []
  {
    if rows == [] then "" else Line(rows[0]) + "\r\n" + File(rows[1..])
  }

  // ---------------------------------------------------------------- the reader

  predicate StartsCrLf(s: string) {
    |s| >= 2 && s[0] == '\r' && s[1] == '\n'
  }

  /** Where a field may end. */
  predicate FieldEnds(s: string) {
    s == "" || s[0] == ',' || StartsCrLf(s)
  }

  /** Inside quotes: two quotes stand for one, one quote closes. */
  function ReadEscaped(s: string): (r: Option<(string, string)>)
    ensures r.Some? ==> |r.value.1| < |s|
  {
    if s == "" then None
    else if s[0] == '\"' then
      if |s| >= 2 && s[1] == '\"' then
        var r := ReadEscaped(s[2..]);
        if r.None? then None else Some((['\"'] + r.value.0, r.value.1))
      else Some(("", s[1..]))
    else
      var r := ReadEscaped(s[1..]);
      if r.None? then None else Some(([s[0]] + r.value.0, r.value.1))
  }

  function ReadPlain(s: string): (r: (string, string))
    ensures |r.1| <= |s|
  {
    if s == "" || s[0] == ',' || s[0] == '\"' || s[0] == '\r' || s[0] == '\n' then ("", s)
    else
      var r := ReadPlain(s[1..]);
      ([s[0]] + r.0, r.1)
  }

  function ReadField(s: string): (r: Option<(string, string)>)
    ensures r.Some? ==> |r.value.1| <= |s| && FieldEnds(r.value.1)
  {
    var r := if s != "" && s[0] == '\"' then ReadEscaped(s[1..]) else Some(ReadPlain(s));
    if r.Some? && FieldEnds(r.value.1) then r else None
  }

  function ReadRecord(s: string): (r: Option<(seq<string>, string)>)
    ensures r.Some? ==> |r.value.1| <= |s| && (r.value.1 == "" || StartsCrLf(r.value.1))
    decreases |s|
  {
    var f := ReadField(s);
    if f.None? then None
    else if f.value.1 != "" && f.value.1[0] == ',' then
      var more := ReadRecord(f.value.1[1..]);
      if more.None? then None else Some(([f.value.0] + more.value.0, more.value.1))
    else Some(([f.value.0], f.value.1))
  }

  /** The records of a file; the last line break is optional. */
  function ReadFile(s: string): Option<seq<seq<string>>>
    decreases |s|
  {
    if s == "" then Some([])
    else
      var r := ReadRecord(s);
      if r.None? then None
      else if r.value.1 == "" then Some([r.value.0])
      else
        var more := ReadFile(r.value.1[2..]);
        if more.None? then None else Some([r.value.0] + more.value)
  }

  // ---------------------------------------------------------------- reading back

  lemma ReadEscapedQuote(more: string)
    ensures ReadEscaped("\"\"" + more)
         == (var r := ReadEscaped(more); if r.None? then None else Some((['\"'] + r.value.0, r.value.1)))
  {
    assert ("\"\"" + more)[2..] == more;
  }

  lemma ReadEscapedChar(c: char, more: string)
    requires c != '\"'
    ensures ReadEscaped([c] + more)
         == (var r := ReadEscaped(more); if r.None? then None else Some(([c] + r.value.0, r.value.1)))
  {
    assert ([c] + more)[1..] == more;
  }

  lemma DoubleQuotesStep(text: string, tail: string)
    requires text != ""
    ensures DoubleQuotes(text) + tail
         == (if text[0] == '\"' then "\"\"" else [text[0]]) + (DoubleQuotes(text[1..]) + tail)
  {
  }

  lemma EmptyEscaped(rest: string)
    requires rest == "" || rest[0] != '\"'
    ensures ReadEscaped(DoubleQuotes("") + ("\"" + rest)) == Some(("", rest))
  {
    assert DoubleQuotes("") + ("\"" + rest) == "\"" + rest;
    assert ("\"" + rest)[1..] == rest;
  }

  lemma {:induction false} EscapedReadsBack(text: string, rest: string)
    requires rest == "" || rest[0] != '\"'
    ensures ReadEscaped(DoubleQuotes(text) + ("\"" + rest)) == Some((text, rest))
  {
    if text == "" {
      EmptyEscaped(rest);
    } else {
      var more := DoubleQuotes(text[1..]) + ("\"" + rest);
      EscapedReadsBack(text[1..], rest);
      DoubleQuotesStep(text, "\"" + rest);
      if text[0] == '\"' {
        ReadEscapedQuote(more);
      } else {
        ReadEscapedChar(text[0], more);
      }
      assert text == [text[0]] + text[1..];
    }
  }

  lemma {:induction false} PlainReadsBack(text: string, rest: string)
    requires !NeedsQuotes(text) && FieldEnds(rest)
    ensures ReadPlain(text + rest) == (text, rest)
  {
    if text == "" {
      assert text + rest == rest;
    } else {
      assert (text + rest)[1..] == text[1..] + rest;
      forall i | 0 <= i < |text[1..]|
        ensures text[1..][i] == text[i + 1]
      {
      }
      assert !NeedsQuotes(text[1..]);
      PlainReadsBack(text[1..], rest);
      assert text == [text[0]] + text[1..];
    }
  }

  function CellText(value: Option<string>): string {
    Guard(if value.Some? then value.value else "")
  }

  /** A cell reads back as its guarded text, whatever characters the value contains. */
  lemma CellReadsBack(value: Option<string>, rest: string)
    requires FieldEnds(rest)
    ensures ReadField(Cell(value) + rest) == Some((CellText(value), rest))
  {
    var text := CellText(value);
    if NeedsQuotes(text) {
      QuotedReadsBack(text, rest);
      QuotedParts(DoubleQuotes(text), rest);
    } else {
      BareReadsBack(text, rest);
    }
  }

  lemma QuotedParts(body: string, rest: string)
    ensures "\"" + body + "\"" + rest == "\"" + (body + ("\"" + rest))
  {
  }

  lemma QuotedReadsBack(text: string, rest: string)
    requires FieldEnds(rest)
    ensures ReadField("\"" + (DoubleQuotes(text) + ("\"" + rest))) == Some((text, rest))
  {
    var body := DoubleQuotes(text) + ("\"" + rest);
    assert ("\"" + body)[1..] == body;
    EscapedReadsBack(text, rest);
  }

  lemma BareReadsBack(text: string, rest: string)
    requires FieldEnds(rest) && !NeedsQuotes(text)
    ensures ReadField(text + rest) == Some((text, rest))
  {
    PlainReadsBack(text, rest);
    if text != "" {
      assert text[0] != '\"' && (text + rest)[0] == text[0];
    } else {
      assert text + rest == rest;
    }
  }

  function Texts(cells: seq<Option<string>>): (r: seq<string>)
    ensures |r| == |cells| && forall i :: 0 <= i < |cells| ==> r[i] == CellText(cells[i])
  {
    if cells == [] then [] else [CellText(cells[0])] + Texts(cells[1..])
  }

  lemma {:induction false} LineReadsBack(cells: seq<Option<string>>, rest: string)
    requires cells != [] && (rest == "" || StartsCrLf(rest))
    ensures ReadRecord(Line(cells) + rest) == Some((Texts(cells), rest))
    decreases |cells|
  {
    if |cells| == 1 {
      CellReadsBack(cells[0], rest);
      assert Texts(cells) == [CellText(cells[0])];
    } else {
      LineReadsBack(cells[1..], rest);
      FirstCellReadsBack(cells, Line(cells[1..]) + rest, rest);
      LineParts(cells, rest);
    }
  }

  lemma LineParts(cells: seq<Option<string>>, rest: string)
    requires |cells| > 1
    ensures Line(cells) + rest == Cell(cells[0]) + ("," + (Line(cells[1..]) + rest))
  {
    CommaParts(Cell(cells[0]), Line(cells[1..]), rest);
  }

  lemma CommaParts(cell: string, line: string, rest: string)
    ensures cell + "," + line + rest == cell + ("," + (line + rest))
  {
  }

  lemma FirstCellReadsBack(cells: seq<Option<string>>, more: string, rest: string)
    requires |cells| > 1 && ReadRecord(more) == Some((Texts(cells[1..]), rest))
    ensures ReadRecord(Cell(cells[0]) + ("," + more)) == Some((Texts(cells), rest))
  {
    var tail := "," + more;
    CellReadsBack(cells[0], tail);
    assert tail[1..] == more;
  }

  function AllTexts(rows: seq<seq<Option<string>>>): (r: seq<seq<string>>)
    ensures |r| == |rows| && forall i :: 0 <= i < |rows| ==> r[i] == Texts(rows[i])
  {
    if rows == [] then [] else [Texts(rows[0])] + AllTexts(rows[1..])
  }

  lemma ReadFileStep(s: string, record: seq<string>, tail: string)
    requires s != "" && ReadRecord(s) == Some((record, "\r\n" + tail))
    ensures ReadFile(s) == (var more := ReadFile(tail); if more.None? then None else Some([record] + more.value))
  {
    assert ("\r\n" + tail)[2..] == tail;
  }

  lemma FirstRow(row: seq<Option<string>>, tail: string, records: seq<seq<string>>)
    requires row != [] && ReadFile(tail) == Some(records)
    ensures ReadFile(Line(row) + "\r\n" + tail) == Some([Texts(row)] + records)
  {
    var s := Line(row) + ("\r\n" + tail);
    assert s == Line(row) + "\r\n" + tail;
    assert s[|Line(row)|] == '\r';
    LineReadsBack(row, "\r\n" + tail);
    ReadFileStep(s, Texts(row), tail);
  }

  /** Reading the exported file gives exactly the guarded texts, row by row and cell by cell. */
  lemma {:induction false} FileReadsBack(rows: seq<seq<Option<string>>>)
    requires forall i :: 0 <= i < |rows| ==> rows[i] != []
    ensures ReadFile(File(rows)) == Some(AllTexts(rows))
    decreases |rows|
  {
    if rows != [] {
      FileReadsBack(rows[1..]);
      FirstRow(rows[0], File(rows[1..]), AllTexts(rows[1..]));
    }
  }

  /** No cell that a reader sees starts a formula, and the original text is the cell or its tail. */
  lemma NoFormulaSurvives(rows: seq<seq<Option<string>>>, i: nat, j: nat)
    requires forall k :: 0 <= k < |rows| ==> rows[k] != []
    requires i < |rows| && j < |rows[i]|
    ensures ReadFile(File(rows)).Some? && i < |ReadFile(File(rows)).value| && j < |ReadFile(File(rows)).value[i]|
    ensures var text := ReadFile(File(rows)).value[i][j];
            var original := if rows[i][j].Some? then rows[i][j].value else "";
            !StartsFormula(text) && text == if StartsFormula(original) then "'" + original else original
  {
    FileReadsBack(rows);
  }

  // ---------------------------------------------------------------- the paging loop

  datatype Row = Row(
    timestamp: string,
    actorUsername: Option<string>,
    actorAuthProviderName: Option<string>,
    accountId: string,
    action: string,
    category: Option<string>,
    resource: Option<string>,
    resourceName: Option<string>,
    organizationName: Option<string>,
    ipAddress: Option<string>,
    reason: Option<string>,
    details: Option<string>)

  const PageSize := 1000
  const MaxRows := 100000

  const Columns: seq<string> :=
    ["timestamp", "actor", "action", "category", "resource", "resourceName", "organization", "ipAddress", "reason", "details"]

  function Header(): (cells: seq<Option<string>>)
    ensures |cells| == 10
  {
    [Some(Columns[0]), Some(Columns[1]), Some(Columns[2]), Some(Columns[3]), Some(Columns[4]),
     Some(Columns[5]), Some(Columns[6]), Some(Columns[7]), Some(Columns[8]), Some(Columns[9])]
  }

  predicate Given(text: Option<string>) {
    text.Some? && text.value != ""
  }

  function Actor(row: Row): string {
    if Given(row.actorUsername) then
      if Given(row.actorAuthProviderName) then row.actorUsername.value + "@" + row.actorAuthProviderName.value
      else row.actorUsername.value
    else "#" + row.accountId
  }

  function Cells(row: Row): (cells: seq<Option<string>>)
    ensures |cells| == 10
  {
    [Some(row.timestamp), Some(Actor(row)), Some(row.action), row.category, row.resource, row.resourceName,
     row.organizationName, row.ipAddress, row.reason, row.details]
  }

  function RowsOf(log: seq<Row>): (rows: seq<seq<Option<string>>>)
    ensures |rows| == |log| && forall i :: 0 <= i < |log| ==> rows[i] == Cells(log[i])
  {
    if log == [] then [] else [Cells(log[0])] + RowsOf(log[1..])
  }

  function Least(a: nat, b: nat): nat {
    if a < b then a else b
  }

  /** One query with `limit` and `offset` over a log that does not change meanwhile. */
  function Page(log: seq<Row>, offset: nat): seq<Row> {
    log[Least(offset, |log|)..Least(offset + PageSize, |log|)]
  }

  lemma {:induction false} RowsOfAppend(a: seq<Row>, b: seq<Row>)
    ensures RowsOf(a + b) == RowsOf(a) + RowsOf(b)
  {
    if a == [] {
      assert a + b == b;
    } else {
      assert (a + b)[1..] == a[1..] + b;
      RowsOfAppend(a[1..], b);
    }
  }

  /** The rows of one page. */
  method AppendPage(lines: seq<seq<Option<string>>>, page: seq<Row>) returns (more: seq<seq<Option<string>>>)
    ensures more == lines + RowsOf(page)
  {
    more := lines;
    for k := 0 to |page|
      invariant more == lines + RowsOf(page[..k])
    {
      assert page[..k + 1] == page[..k] + [page[k]];
      RowsOfAppend(page[..k], [page[k]]);
      more := more + [Cells(page[k])];
    }
    assert page[..|page|] == page;
  }

  /** A page continues the rows before it; a short page is the last one. */
  lemma NextPage(log: seq<Row>, done: nat)
    requires done <= |log|
    ensures log[..done] + Page(log, done) == log[..done + |Page(log, done)|]
    ensures |Page(log, done)| < PageSize ==> done + |Page(log, done)| == |log|
    ensures |Page(log, done)| <= PageSize
  {
  }

  /** The paging loop: pages of 1000 rows until a short page or the limit. */
  method CollectRows(log: seq<Row>) returns (lines: seq<seq<Option<string>>>)
    ensures lines == RowsOf(log[..Least(|log|, MaxRows)])
  {
    lines := [];
    var pages, done := 0, 0;
    while pages * PageSize < MaxRows
      invariant 0 <= pages <= 100 && done == pages * PageSize <= |log|
      invariant lines == RowsOf(log[..done])
    {
      var page := Page(log, done);
      NextPage(log, done);
      RowsOfAppend(log[..done], page);
      lines := AppendPage(lines, page);
      done := done + |page|;
      if |page| < PageSize { break; }
      pages := pages + 1;
    }
  }

  /** `exportAuditLogs`: the header and the first rows of the log, at most 100000, in order. */
  method ExportAuditLogs(log: seq<Row>) returns (csv: string, rows: nat)
    ensures rows == Least(|log|, MaxRows)
    ensures csv == File([Header()] + RowsOf(log[..rows]))
  {
    var lines := CollectRows(log);
    rows := |lines|;
    csv := File([Header()] + lines);
  }

  lemma HeaderTexts()
    ensures Texts(Header()) == Columns
  {
    forall i | 0 <= i < 10
      ensures CellText(Header()[i]) == Columns[i]
    {
      assert !StartsFormula(Columns[i]);
    }
  }

  /** A reader of the export finds the header, then one record per exported row. */
  /** What a reader may find in a cell: the text itself, or behind a quote when a spreadsheet would run it. */
  function Shown(value: Option<string>): string {
    var text := if value.Some? then value.value else "";
    if text != "" && text[0] in {'=', '+', '-', '@', '\t', '\r'} then "'" + text else text
  }

  /** Who acted: the user's name, with the provider it signed in through, or the account's number. */
  function ActorShown(row: Row): string {
    var name := if row.actorUsername.Some? then row.actorUsername.value else "";
    var provider := if row.actorAuthProviderName.Some? then row.actorAuthProviderName.value else "";
    if name == "" then "#" + row.accountId else if provider == "" then name else name + "@" + provider
  }

  /** What a reader of the export finds for a row of the log, in the order of the headings. */
  function Record(row: Row): seq<string> {
    [Shown(Some(row.timestamp)), Shown(Some(ActorShown(row))), Shown(Some(row.action)), Shown(row.category),
     Shown(row.resource), Shown(row.resourceName), Shown(row.organizationName), Shown(row.ipAddress), Shown(row.reason),
     Shown(row.details)]
  }

  lemma TextsShown(cells: seq<Option<string>>)
    requires |cells| == 10
    ensures Texts(cells) == [Shown(cells[0]), Shown(cells[1]), Shown(cells[2]), Shown(cells[3]), Shown(cells[4]),
                             Shown(cells[5]), Shown(cells[6]), Shown(cells[7]), Shown(cells[8]), Shown(cells[9])]
  {
  }

  lemma RecordTexts(row: Row)
    ensures Texts(Cells(row)) == Record(row)
  {
    assert Actor(row) == ActorShown(row);
    TextsShown(Cells(row));
  }

  /** The reader finds the headings and then, row by row, the records of the log. */
  lemma RecordIs(log: seq<Row>, rows: nat, i: nat)
    requires rows <= |log| && i < rows
    ensures var read := ReadFile(File([Header()] + RowsOf(log[..rows])));
            read.Some? && |read.value| == rows + 1 && read.value[0] == Columns && read.value[i + 1] == Record(log[i])
  {
    ExportReadsBack(log, rows);
    RecordTexts(log[i]);
    assert RowsOf(log[..rows])[i] == Cells(log[i]);
  }

  lemma ExportReadsBack(log: seq<Row>, rows: nat)
    requires rows <= |log|
    ensures ReadFile(File([Header()] + RowsOf(log[..rows])))
         == Some([Columns] + AllTexts(RowsOf(log[..rows])))
  {
    var body := RowsOf(log[..rows]);
    FileReadsBack([Header()] + body);
    HeaderTexts();
    TextsOfHeader(Header(), body);
  }

  lemma TextsOfHeader(header: seq<Option<string>>, body: seq<seq<Option<string>>>)
    ensures AllTexts([header] + body) == [Texts(header)] + AllTexts(body)
  {
    assert ([header] + body)[1..] == body;
  }
}
