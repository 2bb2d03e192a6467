/** The CSV scanner of the operator import, and the format of section 2 of RFC 4180 that it reads. */
module CsvRows {

  type Row = seq<string>

  /** What the scanner still produces from the unread text, given its three variables. */
  function Scan(text: string, row: Row, field: string, inQuotes: bool): seq<Row>
    decreases |text|
  {
    if text == "" then
      if field != "" || row != [] then [row + [field]] else []
    else
      var c, rest := text[0], text[1..];
      if c == '"' then
        if inQuotes && StartsWith(rest, '"') then Scan(rest[1..], row, field + ['"'], inQuotes)
        else Scan(rest, row, field, !inQuotes)
      else if !inQuotes && c == ',' then
        Scan(rest, row + [field], "", inQuotes)
      else if !inQuotes && (c == '\n' || c == '\r') then
        [row + [field]] +
        Scan(if c == '\r' && StartsWith(rest, '\n') then rest[1..] else rest, [], "", inQuotes)
      else
        Scan(rest, row, field + [c], inQuotes)
  }

  predicate StartsWith(text: string, c: char) {
    text != "" && text[0] == c
  }

  /** The scanner itself: one pass over the text with a quote flag. */
  method ParseCsvRows(csvContent: string) returns (rows: seq<Row>)
    ensures rows == Scan(csvContent, [], "", false)
  {
    rows := [];
    var row: Row := [];
    var field := "";
    var inQuotes := false;
    var index := 0;
    while index < |csvContent|
      invariant 0 <= index <= |csvContent|
      invariant rows + Scan(csvContent[index..], row, field, inQuotes) == Scan(csvContent, [], "", false)
    {
      var character := csvContent[index];
      ghost var rest := csvContent[index..][1..];
      assert rest == csvContent[index + 1..];
      assert rest != "" ==> rest[1..] == csvContent[index + 2..];
      if character == '"' {
        if inQuotes && index + 1 < |csvContent| && csvContent[index + 1] == '"' {
          field := field + ['"'];
          index := index + 1;
        } else {
          inQuotes := !inQuotes;
        }
      } else if !inQuotes && character == ',' {
        row := row + [field];
        field := "";
      } else if !inQuotes && (character == '\n' || character == '\r') {
        row := row + [field];
        field := "";
        rows := rows + [row];
        row := [];
        if character == '\r' && index + 1 < |csvContent| && csvContent[index + 1] == '\n' {
          index := index + 1;
        }
      } else {
        field := field + [character];
      }
      index := index + 1;
    }
    if |field| > 0 || |row| > 0 {
      row := row + [field];
      rows := rows + [row];
    }
  }

  // ---------------------------------------------------------------------------------------------
  // Section 2 of RFC 4180: lines of comma-separated cells, each bare or enclosed in double quotes.
  // ---------------------------------------------------------------------------------------------

  datatype Terminator = LF | CRLF | CR {
    function Text(): string {
      match this
      case LF => "\n"
      case CRLF => "\r\n"
      case CR => "\r"
    }
  }

  /** A field as written. A bare cell may hold no quote, comma or line break; a quoted one may hold anything. */
  datatype Cell = Bare(text: string) | Quoted(text: string) {
    predicate Valid() {
      Bare? ==> IsBare(text)
    }

    function Print(): string {
      if Bare? then text else "\"" + Escape(text) + "\""
    }
  }

  datatype Line = Line(cells: seq<Cell>, end: Terminator)

  /** A file: terminated lines, then perhaps one last line that has no terminator. */
  datatype Document = Document(lines: seq<Line>, unterminated: seq<Cell>) {
    predicate Valid() {
      ValidLines(lines) && (unterminated != [] ==> ValidCells(unterminated))
    }

    function Print(): string {
      PrintLines(lines) + PrintCells(unterminated)
    }

    /** The rows the file denotes. */
    function Rows(): seq<Row> {
      LineTexts(lines) + (if unterminated == [] then [] else [Texts(unterminated)])
    }
  }

  predicate IsPlain(c: char) {
    c != '"' && c != ',' && c != '\n' && c != '\r'
  }

  predicate IsBare(text: string) {
    forall i :: 0 <= i < |text| ==> IsPlain(text[i])
  }

  predicate ValidCells(cells: seq<Cell>) {
    cells != [] && forall i :: 0 <= i < |cells| ==> cells[i].Valid()
  }

  predicate ValidLines(lines: seq<Line>) {
    forall i :: 0 <= i < |lines| ==> ValidCells(lines[i].cells)
  }

  predicate EndedBy(lines: seq<Line>, end: Terminator) {
    forall i :: 0 <= i < |lines| ==> lines[i].end == end
  }

  /** Doubles every double quote. */
  function Escape(text: string): string {
    if text == "" then "" else (if text[0] == '"' then "\"\"" else [text[0]]) + Escape(text[1..])
  }

  function PrintCells(cells: seq<Cell>): string {
    if cells == [] then ""
    else cells[0].Print() + (if |cells| == 1 then "" else "," + PrintCells(cells[1..]))
  }

  function PrintLines(lines: seq<Line>): string {
    if lines == [] then ""
    else PrintCells(lines[0].cells) + lines[0].end.Text() + PrintLines(lines[1..])
  }

  function Texts(cells: seq<Cell>): (r: Row)
    ensures |r| == |cells|
  {
    if cells == [] then [] else [cells[0].text] + Texts(cells[1..])
  }

  function LineTexts(lines: seq<Line>): (r: seq<Row>)
    ensures |r| == |lines|
  {
    if lines == [] then [] else [Texts(lines[0].cells)] + LineTexts(lines[1..])
  }

  // ---------------------------------------------------------------------------------------------
  // What the scanner makes of one cell, one line and a whole file
  // ---------------------------------------------------------------------------------------------

  lemma {:induction false} ScanBare(text: string, rest: string, row: Row, field: string)
    requires IsBare(text)
    ensures Scan(text + rest, row, field, false) == Scan(rest, row, field + text, false)
  {
    if text == "" {
      assert text + rest == rest && field + text == field;
    } else {
      assert (text + rest)[1..] == text[1..] + rest;
      ScanBare(text[1..], rest, row, field + [text[0]]);
      assert field + [text[0]] + text[1..] == field + text;
    }
  }

  lemma {:induction false} ScanEscaped(text: string, rest: string, row: Row, field: string)
    requires !StartsWith(rest, '"')
    ensures Scan(Escape(text) + "\"" + rest, row, field, true) == Scan(rest, row, field + text, false)
  {
    var all := Escape(text) + "\"" + rest;
    if text == "" {
      assert all[1..] == rest && field + text == field;
    } else {
      var tail := Escape(text[1..]) + "\"" + rest;
      ScanEscaped(text[1..], rest, row, field + [text[0]]);
      assert field + [text[0]] + text[1..] == field + text;
      if text[0] == '"' {
        assert all[1..][1..] == tail;
        assert StartsWith(all[1..], '"');
      } else {
        assert all[1..] == tail;
      }
    }
  }

  lemma ScanCell(cell: Cell, rest: string, row: Row)
    requires cell.Valid() && !StartsWith(rest, '"')
    ensures Scan(cell.Print() + rest, row, "", false) == Scan(rest, row, cell.text, false)
  {
    assert "" + cell.text == cell.text;
    if cell.Bare? {
      ScanBare(cell.text, rest, row, "");
    } else {
      var body := Escape(cell.text) + "\"" + rest;
      assert cell.Print() + rest == "\"" + body;
      assert (cell.Print() + rest)[1..] == body;
      ScanEscaped(cell.text, rest, row, "");
    }
  }

  lemma ScanComma(rest: string, row: Row, field: string)
    ensures Scan("," + rest, row, field, false) == Scan(rest, row + [field], "", false)
  {
    assert ("," + rest)[1..] == rest;
  }

  /** What is left to scan after a line break: a CR takes a directly following LF with it. */
  function AfterBreak(end: Terminator, rest: string): string {
    if end == CR && StartsWith(rest, '\n') then rest[1..] else rest
  }

  lemma ScanBreak(end: Terminator, rest: string, row: Row, field: string)
    ensures Scan(end.Text() + rest, row, field, false)
         == [row + [field]] + Scan(AfterBreak(end, rest), [], "", false)
  {
    var text := end.Text() + rest;
    if end == CRLF {
      assert text[1..] == "\n" + rest;
      assert text[1..][1..] == rest;
    } else {
      assert text[1..] == rest;
    }
  }

  lemma ScanCellThenComma(cell: Cell, after: string, row: Row)
    requires cell.Valid()
    ensures Scan(cell.Print() + ("," + after), row, "", false) == Scan(after, row + [cell.text], "", false)
  {
    ScanCell(cell, "," + after, row);
    ScanComma(after, row, cell.text);
  }

  lemma ScanCellThenBreak(cell: Cell, end: Terminator, rest: string, row: Row)
    requires cell.Valid()
    ensures Scan(cell.Print() + (end.Text() + rest), row, "", false)
         == [row + [cell.text]] + Scan(AfterBreak(end, rest), [], "", false)
  {
    ScanCell(cell, end.Text() + rest, row);
    ScanBreak(end, rest, row, cell.text);
  }

  lemma ScanLastCell(cell: Cell, row: Row)
    requires cell.Valid()
    ensures Scan(cell.Print(), row, "", false) == if row == [] && cell.text == "" then [] else [row + [cell.text]]
  {
    ScanCell(cell, "", row);
    assert cell.Print() + "" == cell.Print();
  }

  lemma PrintCellsOne(cells: seq<Cell>)
    requires |cells| == 1
    ensures PrintCells(cells) == cells[0].Print() && Texts(cells) == [cells[0].text]
  {}

  lemma PrintCellsMore(cells: seq<Cell>, rest: string, row: Row)
    requires |cells| > 1
    ensures PrintCells(cells) + rest == cells[0].Print() + ("," + (PrintCells(cells[1..]) + rest))
    ensures (row + [cells[0].text]) + Texts(cells[1..]) == row + Texts(cells)
  {
    Regroup(cells[0].Print(), ",", PrintCells(cells[1..]), rest);
    TextsMore(cells, row);
  }

  lemma Regroup(a: string, b: string, c: string, d: string)
    ensures a + (b + c) + d == a + (b + (c + d))
    ensures a + b + c + d == a + (b + (c + d))
  {}

  lemma TextsMore(cells: seq<Cell>, row: Row)
    requires cells != []
    ensures (row + [cells[0].text]) + Texts(cells[1..]) == row + Texts(cells)
  {}

  lemma {:induction false} ScanLine(cells: seq<Cell>, end: Terminator, rest: string, row: Row)
    requires ValidCells(cells)
    ensures Scan(PrintCells(cells) + (end.Text() + rest), row, "", false)
         == [row + Texts(cells)] + Scan(AfterBreak(end, rest), [], "", false)
  {
    if |cells| == 1 {
      PrintCellsOne(cells);
      ScanCellThenBreak(cells[0], end, rest, row);
    } else {
      PrintCellsMore(cells, end.Text() + rest, row);
      ScanCellThenComma(cells[0], PrintCells(cells[1..]) + (end.Text() + rest), row);
      ScanLine(cells[1..], end, rest, row + [cells[0].text]);
    }
  }

  lemma {:induction false} ScanLastLine(cells: seq<Cell>, row: Row)
    requires ValidCells(cells)
    ensures Scan(PrintCells(cells), row, "", false)
         == if row == [] && Texts(cells) == [""] then [] else [row + Texts(cells)]
  {
    if |cells| == 1 {
      PrintCellsOne(cells);
      ScanLastCell(cells[0], row);
    } else {
      PrintCellsMore(cells, "", row);
      assert PrintCells(cells) + "" == PrintCells(cells);
      assert PrintCells(cells[1..]) + "" == PrintCells(cells[1..]);
      ScanCellThenComma(cells[0], PrintCells(cells[1..]), row);
      ScanLastLine(cells[1..], row + [cells[0].text]);
    }
  }

  /** A blank line ended by LF directly after a line ended by CR reads as the second half of one CRLF. */
  predicate Swallows(lines: seq<Line>) {
    |lines| >= 2 && lines[0].end == CR && lines[1] == Line([Bare("")], LF)
  }

  /** The rows of the lines without the blank lines that a preceding CR swallows. */
  function Surviving(lines: seq<Line>): (r: seq<Row>)
    ensures |r| <= |lines|
  {
    if lines == [] then []
    else [Texts(lines[0].cells)] + Surviving(Next(lines))
  }

  function Next(lines: seq<Line>): seq<Line>
    requires lines != []
  {
    if Swallows(lines) then lines[2..] else lines[1..]
  }

  predicate KeptLast(cells: seq<Cell>) {
    cells != [] && Texts(cells) != [""]
  }

  lemma ScanUnterminated(cells: seq<Cell>)
    requires cells == [] || ValidCells(cells)
    ensures Scan(PrintCells(cells), [], "", false) == if KeptLast(cells) then [Texts(cells)] else []
  {
    if cells != [] {
      ScanLastLine(cells, []);
      assert [] + Texts(cells) == Texts(cells);
    }
  }

  /** The printed text of valid cells starts with LF never, and is empty only for one empty bare cell. */
  lemma PrintedCellsStart(cells: seq<Cell>)
    requires ValidCells(cells)
    ensures !StartsWith(PrintCells(cells), '\n')
    ensures PrintCells(cells) == "" <==> cells == [Bare("")]
  {
    var first := cells[0].Print();
    assert first != "" ==> first[0] == PrintCells(cells)[0];
    if cells[0].Quoted? {
      assert first[0] == '"';
    }
    if |cells| > 1 {
      assert PrintCells(cells) == first + ("," + PrintCells(cells[1..]));
    } else {
      assert cells == [cells[0]] && PrintCells(cells) == first;
    }
  }

  /** Exactly what the scanner returns for every file of the grammar. */
  lemma {:induction false} ScanDocument(lines: seq<Line>, last: seq<Cell>)
    requires Document(lines, last).Valid()
    ensures Scan(PrintLines(lines) + PrintCells(last), [], "", false)
         == Surviving(lines) + (if KeptLast(last) then [Texts(last)] else [])
    decreases |lines|
  {
    if lines == [] {
      ScanUnterminated(last);
      assert PrintLines(lines) + PrintCells(last) == PrintCells(last);
    } else {
      ScanFirstLine(lines, last);
      ScanDocument(Next(lines), last);
      SurvivingMore(lines, if KeptLast(last) then [Texts(last)] else []);
    }
  }

  lemma SurvivingMore(lines: seq<Line>, tail: seq<Row>)
    requires lines != []
    ensures Surviving(lines) + tail == [Texts(lines[0].cells)] + (Surviving(Next(lines)) + tail)
  {
    var first, others := [Texts(lines[0].cells)], Surviving(Next(lines));
    assert first + others + tail == first + (others + tail);
  }

  lemma ScanFirstLine(lines: seq<Line>, last: seq<Cell>)
    requires lines != [] && Document(lines, last).Valid()
    ensures Scan(PrintLines(lines) + PrintCells(last), [], "", false)
         == [Texts(lines[0].cells)] + Scan(PrintLines(Next(lines)) + PrintCells(last), [], "", false)
  {
    var after := PrintLines(lines[1..]) + PrintCells(last);
    ScanLine(lines[0].cells, lines[0].end, after, []);
    PrintLinesMore(lines, PrintCells(last));
    AfterFirstLine(lines, last);
  }

  lemma AfterFirstLine(lines: seq<Line>, last: seq<Cell>)
    requires lines != [] && Document(lines, last).Valid()
    ensures AfterBreak(lines[0].end, PrintLines(lines[1..]) + PrintCells(last))
         == PrintLines(Next(lines)) + PrintCells(last)
  {
    AfterLineStart(lines[1..], last);
    if Swallows(lines) {
      AfterSwallowed(lines, PrintCells(last));
    }
  }

  lemma PrintLinesMore(lines: seq<Line>, tail: string)
    requires lines != []
    ensures PrintLines(lines) + tail
         == PrintCells(lines[0].cells) + (lines[0].end.Text() + (PrintLines(lines[1..]) + tail))
    ensures [] + Texts(lines[0].cells) == Texts(lines[0].cells)
  {
    Regroup(PrintCells(lines[0].cells), lines[0].end.Text(), PrintLines(lines[1..]), tail);
  }

  lemma AfterSwallowed(lines: seq<Line>, tail: string)
    requires Swallows(lines)
    ensures PrintLines(lines[1..]) + tail == "\n" + (PrintLines(lines[2..]) + tail)
    ensures (PrintLines(lines[1..]) + tail)[1..] == PrintLines(lines[2..]) + tail
  {
    assert lines[1..][1..] == lines[2..];
    assert PrintCells(lines[1].cells) == "";
  }

  /** The text after a line starts with LF exactly when the next line is blank and ends with LF. */
  lemma AfterLineStart(lines: seq<Line>, last: seq<Cell>)
    requires Document(lines, last).Valid()
    ensures StartsWith(PrintLines(lines) + PrintCells(last), '\n')
       <==> lines != [] && lines[0] == Line([Bare("")], LF)
  {
    if lines == [] {
      assert PrintLines(lines) + PrintCells(last) == PrintCells(last);
      if last != [] { PrintedCellsStart(last); }
    } else {
      PrintedCellsStart(lines[0].cells);
    }
  }

  // ---------------------------------------------------------------------------------------------
  // Main results
  // ---------------------------------------------------------------------------------------------

  ghost predicate SomewhereSwallowed(lines: seq<Line>) {
    exists i :: 0 <= i < |lines| - 1 && Swallows(lines[i..])
  }

  lemma {:induction false} SurvivingAll(lines: seq<Line>)
    ensures !SomewhereSwallowed(lines) ==> Surviving(lines) == LineTexts(lines)
    ensures SomewhereSwallowed(lines) ==> |Surviving(lines)| < |lines|
    decreases |lines|
  {
    if lines == [] {
    } else if Swallows(lines) {
      assert lines[0..] == lines;
      assert Swallows(lines[0..]);
    } else {
      SurvivingAll(lines[1..]);
      if i :| 0 <= i < |lines| - 1 && Swallows(lines[i..]) {
        assert lines[0..] == lines;
        assert lines[1..][i - 1..] == lines[i..];
        assert Swallows(lines[1..][i - 1..]);
      }
      if i :| 0 <= i < |lines[1..]| - 1 && Swallows(lines[1..][i..]) {
        assert lines[1..][i..] == lines[i + 1..];
        assert Swallows(lines[i + 1..]);
      }
    }
  }

  /** Round trip, with its exact condition: the scanner returns the rows of a file unless a blank
      LF line directly follows a CR line, or the file ends with a lone empty field and no terminator. */
  lemma ScannerUndoesPrinting(doc: Document)
    requires doc.Valid()
    ensures Scan(doc.Print(), [], "", false) == doc.Rows()
       <==> !SomewhereSwallowed(doc.lines) && (doc.unterminated == [] || Texts(doc.unterminated) != [""])
  {
    ScanDocument(doc.lines, doc.unterminated);
    SurvivingAll(doc.lines);
  }

  /** A file that loses a row: its second line is blank, and its line breaks are CR and then LF. */
  lemma BlankLineIsLost()
    ensures var doc := Document([Line([Bare("a")], CR), Line([Bare("")], LF)], []);
      doc.Valid() && |doc.Rows()| == 2 && |Scan(doc.Print(), [], "", false)| == 1
  {
    var first, blank := Line([Bare("a")], CR), Line([Bare("")], LF);
    var lines := [first, blank];
    assert lines[1..] == [blank] && lines[2..] == [];
    assert Swallows(lines) && Next(lines) == [];
    ScanDocument(lines, []);
    assert Surviving(lines) == [Texts(first.cells)] + Surviving([]);
  }

  /** Rows written with one terminator throughout, whichever cells are quoted, always come back. */
  lemma UniformTerminatorRoundTrip(lines: seq<Line>, end: Terminator)
    requires ValidLines(lines) && EndedBy(lines, end)
    ensures Scan(PrintLines(lines), [], "", false) == LineTexts(lines)
  {
    var doc := Document(lines, []);
    forall i | 0 <= i < |lines| - 1
      ensures !Swallows(lines[i..])
    {
      assert lines[i..][0] == lines[i] && lines[i..][1] == lines[i + 1];
    }
    ScannerUndoesPrinting(doc);
    assert doc.Print() == PrintLines(lines) && doc.Rows() == LineTexts(lines);
  }

  /** Leaving out the final terminator changes nothing unless the last row is one empty field. */
  lemma FinalTerminatorOptional(lines: seq<Line>, last: seq<Cell>, end: Terminator)
    requires ValidLines(lines) && EndedBy(lines, end)
    requires ValidCells(last)
    ensures Scan(PrintLines(lines) + PrintCells(last), [], "", false)
         == Scan(PrintLines(lines + [Line(last, end)]), [], "", false)
       <==> Texts(last) != [""]
  {
    UniformTerminatorRoundTrip(lines + [Line(last, end)], end);
    LineTextsAppend(lines, Line(last, end));
    UniformTerminatorRoundTrip(lines, end);
    ScanDocument(lines, []);
    assert PrintLines(lines) + PrintCells([]) == PrintLines(lines);
    ScanDocument(lines, last);
    assert Surviving(lines) + [] == Surviving(lines);
  }

  lemma LineTextsAppend(lines: seq<Line>, line: Line)
    ensures LineTexts(lines + [line]) == LineTexts(lines) + [Texts(line.cells)]
  {
    if lines != [] {
      assert (lines + [line])[1..] == lines[1..] + [line];
    }
  }

  /** The plain way to write rows: quote a field exactly when it needs it. */
  function QuoteWhereNeeded(rows: seq<Row>, end: Terminator): (lines: seq<Line>)
    ensures |lines| == |rows|
  {
    if rows == [] then []
    else
      var cells := seq(|rows[0]|, i requires 0 <= i < |rows[0]| => ToCell(rows[0][i]));
      [Line(cells, end)] + QuoteWhereNeeded(rows[1..], end)
  }

  function ToCell(text: string): (cell: Cell)
    ensures cell.Valid() && cell.text == text
  {
    if '"' in text || ',' in text || '\n' in text || '\r' in text then Quoted(text) else Bare(text)
  }

  lemma TextsOfCells(row: Row)
    ensures Texts(seq(|row|, i requires 0 <= i < |row| => ToCell(row[i]))) == row
  {
    if row != [] {
      TextsOfCells(row[1..]);
      assert seq(|row|, i requires 0 <= i < |row| => ToCell(row[i]))[1..]
          == seq(|row[1..]|, i requires 0 <= i < |row[1..]| => ToCell(row[1..][i]));
    }
  }

  lemma {:induction false} QuotedLines(rows: seq<Row>, end: Terminator)
    requires forall i :: 0 <= i < |rows| ==> rows[i] != []
    ensures LineTexts(QuoteWhereNeeded(rows, end)) == rows
    ensures ValidLines(QuoteWhereNeeded(rows, end)) && EndedBy(QuoteWhereNeeded(rows, end), end)
  {
    if rows != [] {
      TextsOfCells(rows[0]);
      QuotedLines(rows[1..], end);
    }
  }

  /** Any rows at all, with any characters, survive being written and scanned. */
  lemma EveryTableSurvives(rows: seq<Row>, end: Terminator)
    requires forall i :: 0 <= i < |rows| ==> rows[i] != []
    ensures Scan(PrintLines(QuoteWhereNeeded(rows, end)), [], "", false) == rows
  {
    QuotedLines(rows, end);
    UniformTerminatorRoundTrip(QuoteWhereNeeded(rows, end), end);
  }
}
