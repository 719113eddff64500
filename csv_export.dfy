// The CSV text exportToExcel in js/admin.js builds: a header line, then one
// line per stored record in storage order. Text fields are wrapped in
// double quotes, the score is written bare. The shape is that of section 2
// of RFC 4180, except that lines end in LF rather than CRLF and embedded
// double quotes are not doubled, so the text reads back only for fields
// without '"' or line breaks. ParseExport is such a reader.
module CsvExport {
  import opened Options
  import opened Text
  import opened Seqs
  import opened QuizTypes

  const CsvHeader: string := "Name,Email,Course,Score,Date,Time Taken,Result\n"

  /** One field of a line: wrapped in double quotes, or written as it is. */
  datatype Cell = Quoted(text: string) | Bare(text: string)

  function RenderCell(c: Cell): string {
    match c
    case Quoted(t) => "\"" + t + "\""
    case Bare(t) => t
  }

  /** The cells separated by commas. */
  function RenderCells(cells: seq<Cell>): string
    requires |cells| >= 1
  {
    if |cells| == 1 then RenderCell(cells[0])
    else RenderCell(cells[0]) + "," + RenderCells(cells[1..])
  }

  /** The Result column. */
  function PassLabel(passed: bool): string {
    if passed then "Pass" else "Fail"
  }

  /** The seven cells exportToExcel writes for a record. */
  function RecordCells(r: ResultRecord): seq<Cell> {
    [Quoted(r.name), Quoted(r.email), Quoted(r.course), Bare(IntString(r.score)),
     Quoted(r.date), Quoted(r.timeTaken), Quoted(PassLabel(r.passed))]
  }

  /** The line of one record, newline included. */
  function CsvLine(r: ResultRecord): string {
    RenderCells(RecordCells(r)) + "\n"
  }

  /** The lines of the records, in order. */
  function CsvBody(rs: seq<ResultRecord>): string {
    if rs == [] then [] else CsvLine(rs[0]) + CsvBody(rs[1..])
  }

  /** The whole file. */
  function CsvText(rs: seq<ResultRecord>): string {
    CsvHeader + CsvBody(rs)
  }

  /** Appending a record appends its line. */
  lemma {:induction false} CsvBodyAppend(rs: seq<ResultRecord>, r: ResultRecord)
    ensures CsvBody(rs + [r]) == CsvBody(rs) + CsvLine(r)
  {
    if rs != [] {
      assert (rs + [r])[1..] == rs[1..] + [r];
      CsvBodyAppend(rs[1..], r);
    }
  }

  /**
   * exportToExcel: no file for an empty store; otherwise the header and one
   * line per record, accumulated in a loop.
   */
  method ExportToExcel(results: seq<ResultRecord>) returns (file: Option<string>)
    ensures results == [] <==> file.None?
    ensures file.Some? ==> file.value == CsvText(results)
  {
    if |results| == 0 {
      return None;
    }
    var lines: string := [];
    for i := 0 to |results|
      invariant lines == CsvBody(results[..i])
    {
      CsvBodyAppend(results[..i], results[i]);
      assert results[..i + 1] == results[..i] + [results[i]];
      lines := lines + CsvLine(results[i]);
    }
    assert results[..|results|] == results;
    return Some(CsvHeader + lines);
  }

  /**
   * Reads one line (without its newline) into its fields: a field that
   * starts with '"' runs to the next '"', any other field to the next ','.
   */
  function ParseFields(s: string): Option<seq<string>>
    decreases |s|
  {
    if |s| > 0 && s[0] == '"' then
      var body := s[1..];
      if '"' !in body then None
      else
        var q := IndexOf(body, '"');
        var after := body[q + 1..];
        if after == [] then Some([body[..q]])
        else if after[0] != ',' then None
        else
          match ParseFields(after[1..])
          case None => None
          case Some(rest) => Some([body[..q]] + rest)
    else if ',' !in s then Some([s])
    else
      var c := IndexOf(s, ',');
      match ParseFields(s[c + 1..])
      case None => None
      case Some(rest) => Some([s[..c]] + rest)
  }

  /** Reads newline-terminated lines into their fields. */
  function ParseLines(s: string): Option<seq<seq<string>>>
    decreases |s|
  {
    if s == [] then Some([])
    else if '\n' !in s then None
    else
      var i := IndexOf(s, '\n');
      match ParseFields(s[..i])
      case None => None
      case Some(fields) =>
        match ParseLines(s[i + 1..])
        case None => None
        case Some(rest) => Some([fields] + rest)
  }

  /** Reads an exported file: the header, then the records' fields. */
  function ParseExport(text: string): Option<seq<seq<string>>> {
    if |text| >= |CsvHeader| && text[..|CsvHeader|] == CsvHeader then ParseLines(text[|CsvHeader|..])
    else None
  }

  /** A cell the reader recovers: no quote inside a quoted one, no comma or leading quote in a bare one. */
  predicate Readable(c: Cell) {
    match c
    case Quoted(t) => '"' !in t && '\n' !in t
    case Bare(t) => ',' !in t && '\n' !in t && (t == [] || t[0] != '"')
  }

  function Texts(cells: seq<Cell>): (ts: seq<string>)
    ensures |ts| == |cells| && forall k :: 0 <= k < |cells| ==> ts[k] == cells[k].text
  {
    if cells == [] then [] else [cells[0].text] + Texts(cells[1..])
  }

  /** One cell followed by ", ..." reads back as its text and the rest. */
  lemma ParseCellThenRest(c: Cell, rest: string)
    requires Readable(c)
    ensures ParseFields(RenderCell(c) + "," + rest) ==
              match ParseFields(rest)
              case None => None
              case Some(fs) => Some([c.text] + fs)
  {
    var s := RenderCell(c) + "," + rest;
    match c
    case Quoted(t) =>
      var body := s[1..];
      assert body == t + ['"'] + ("," + rest);
      IndexOfAfterPrefix(t, '"', "," + rest);
      assert body[..|t|] == t;
      assert body[|t| + 1..] == "," + rest;
    case Bare(t) =>
      assert s == t + [','] + rest;
      if t == [] {
        assert s[0] == ',';
      }
      IndexOfAfterPrefix(t, ',', rest);
      assert s[..|t|] == t && s[|t| + 1..] == rest;
  }

  /** A single cell reads back as its text. */
  lemma ParseLastCell(c: Cell)
    requires Readable(c)
    ensures ParseFields(RenderCell(c)) == Some([c.text])
  {
    var s := RenderCell(c);
    match c
    case Quoted(t) =>
      var body := s[1..];
      assert body == t + ['"'];
      IndexOfAfterPrefix(t, '"', []);
      assert body[..|t|] == t;
    case Bare(t) =>
  }

  /** A line of readable cells reads back as their texts. */
  lemma {:induction false} CellsRoundTrip(cells: seq<Cell>)
    requires |cells| >= 1 && forall k :: 0 <= k < |cells| ==> Readable(cells[k])
    ensures ParseFields(RenderCells(cells)) == Some(Texts(cells))
  {
    if |cells| == 1 {
      ParseLastCell(cells[0]);
      assert Texts(cells) == [cells[0].text];
    } else {
      CellsRoundTrip(cells[1..]);
      ParseCellThenRest(cells[0], RenderCells(cells[1..]));
    }
  }

  /** A record the export reproduces: no double quote or line break in its text fields. */
  predicate Exportable(r: ResultRecord) {
    '"' !in r.name && '\n' !in r.name && '"' !in r.email && '\n' !in r.email &&
    '"' !in r.course && '\n' !in r.course && '"' !in r.date && '\n' !in r.date &&
    '"' !in r.timeTaken && '\n' !in r.timeTaken
  }

  /** The fields of a record's line, as text. */
  function RecordFields(r: ResultRecord): seq<string> {
    [r.name, r.email, r.course, IntString(r.score), r.date, r.timeTaken, PassLabel(r.passed)]
  }

  /** Readable cells render without a line break. */
  lemma {:induction false} NoNewlineInCells(cells: seq<Cell>)
    requires |cells| >= 1 && forall k :: 0 <= k < |cells| ==> Readable(cells[k])
    ensures '\n' !in RenderCells(cells)
  {
    assert '\n' !in RenderCell(cells[0]);
    if |cells| > 1 {
      NoNewlineInCells(cells[1..]);
    }
  }

  /** JavaScript's rendering of an integer holds no comma, quote or line break. */
  lemma IntStringPlain(i: int)
    ensures ',' !in IntString(i) && '"' !in IntString(i) && '\n' !in IntString(i)
  {
    var d := DecimalString(if i < 0 then -i else i);
    assert forall k :: 0 <= k < |d| ==> IsDigit(d[k]);
    assert ',' !in d && '"' !in d && '\n' !in d;
  }

  /** The cells of an exportable record are readable and carry its fields. */
  lemma RecordCellsReadable(r: ResultRecord)
    requires Exportable(r)
    ensures forall k :: 0 <= k < |RecordCells(r)| ==> Readable(RecordCells(r)[k])
    ensures Texts(RecordCells(r)) == RecordFields(r)
  {
    IntStringPlain(r.score);
    var cells := RecordCells(r);
    assert Readable(cells[3]);
    assert Texts(cells) == RecordFields(r);
  }

  /** The line of an exportable record has no line break inside and reads back as its fields. */
  lemma RecordLineRoundTrip(r: ResultRecord)
    requires Exportable(r)
    ensures '\n' !in RenderCells(RecordCells(r))
    ensures ParseFields(RenderCells(RecordCells(r))) == Some(RecordFields(r))
  {
    RecordCellsReadable(r);
    CellsRoundTrip(RecordCells(r));
    NoNewlineInCells(RecordCells(r));
  }

  /** A line without a line break, then its newline, then more lines: the reader takes that line first. */
  lemma ParseLineThenRest(line: string, fields: seq<string>, rest: string)
    requires '\n' !in line && ParseFields(line) == Some(fields)
    ensures ParseLines(line + "\n" + rest) ==
              match ParseLines(rest)
              case None => None
              case Some(more) => Some([fields] + more)
  {
    var s := line + "\n" + rest;
    assert s == line + ['\n'] + rest;
    IndexOfAfterPrefix(line, '\n', rest);
    assert s[..|line|] == line && s[|line| + 1..] == rest;
  }

  function AllFields(rs: seq<ResultRecord>): (rows: seq<seq<string>>)
    ensures |rows| == |rs| && forall k :: 0 <= k < |rs| ==> rows[k] == RecordFields(rs[k])
  {
    if rs == [] then [] else [RecordFields(rs[0])] + AllFields(rs[1..])
  }

  /** The lines of exportable records read back as their fields. */
  lemma {:induction false} BodyRoundTrip(rs: seq<ResultRecord>)
    requires forall k :: 0 <= k < |rs| ==> Exportable(rs[k])
    ensures ParseLines(CsvBody(rs)) == Some(AllFields(rs))
  {
    if rs != [] {
      RecordLineRoundTrip(rs[0]);
      BodyRoundTrip(rs[1..]);
      ParseLineThenRest(RenderCells(RecordCells(rs[0])), RecordFields(rs[0]), CsvBody(rs[1..]));
    }
  }

  /**
   * An export of records without '"' or line breaks in their text fields
   * reads back, line by line in storage order, as the records' fields.
   */
  lemma ExportRoundTrip(rs: seq<ResultRecord>)
    requires forall k :: 0 <= k < |rs| ==> Exportable(rs[k])
    ensures ParseExport(CsvText(rs)) == Some(AllFields(rs))
  {
    BodyRoundTrip(rs);
    var t := CsvText(rs);
    assert t[..|CsvHeader|] == CsvHeader && t[|CsvHeader|..] == CsvBody(rs);
  }

  /** The fields of a record's line give back its name, e-mail, course, score, date, time and verdict. */
  lemma RecordFieldsMeaning(r: ResultRecord)
    ensures var fs := RecordFields(r);
            fs[0] == r.name && fs[1] == r.email && fs[2] == r.course &&
            ParseInt(fs[3]) == Some(r.score) && fs[4] == r.date && fs[5] == r.timeTaken &&
            (fs[6] == "Pass" <==> r.passed)
  {
    IntRoundTrip(r.score);
  }
}
