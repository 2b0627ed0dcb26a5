/** The CSV reader of `web/app.js`, against a printer in the format of section 2 of
    RFC 4180. */
module CsvReader {
  import opened Sequences

  /** The variables of the reading loop. */
  datatype State = State(rows: seq<seq<string>>, row: seq<string>, field: string, quoted: bool)

  const START := State([], [], "", false)

  /** Reading the rest of a text from a state. */
  function Read(text: string, st: State): State
    decreases |text|
  {
    if text == "" then st
    else
      var c := text[0];
      if st.quoted then
        if c == '"' then
          if |text| > 1 && text[1] == '"' then Read(text[2..], st.(field := st.field + ['"']))
          else Read(text[1..], st.(quoted := false))
        else Read(text[1..], st.(field := st.field + [c]))
      else if c == '"' then Read(text[1..], st.(quoted := true))
      else if c == ',' then Read(text[1..], st.(row := st.row + [st.field], field := ""))
      else if c == '\n' then Read(text[1..], State(st.rows + [st.row + [st.field]], [], "", false))
      else if c != '\r' then Read(text[1..], st.(field := st.field + [c]))
      else Read(text[1..], st)
  }

  function Finish(st: State): seq<seq<string>> {
    if st.field != "" || st.row != [] then st.rows + [st.row + [st.field]] else st.rows
  }

  predicate Blank(row: seq<string>) {
    row == [] || row == [""]
  }

  /** Rows that are not a blank line. */
  function NonBlank(rows: seq<seq<string>>): seq<seq<string>> {
    if rows == [] then []
    else
      var last := rows[|rows| - 1];
      NonBlank(rows[..|rows| - 1]) + if Blank(last) then [] else [last]
  }

  function Parsed(text: string): seq<seq<string>> {
    NonBlank(Finish(Read(text, START)))
  }

  method ParseCsv(text: string) returns (kept: seq<seq<string>>)
    ensures kept == Parsed(text)
  {
    var rows: seq<seq<string>>, row: seq<string>, field: string, quoted := [], [], "", false;
    var i := 0;
    while i < |text|
      invariant 0 <= i <= |text|
      invariant Read(text[i..], State(rows, row, field, quoted)) == Read(text, START)
      invariant forall r :: r in rows ==> r != []
    {
      var c := text[i];
      var rest := text[i..];
      assert rest[1..] == text[i + 1..];
      if quoted {
        if c == '"' {
          if i + 1 < |text| && text[i + 1] == '"' {
            assert rest[2..] == text[i + 2..];
            field := field + ['"'];
            i := i + 1;
          } else {
            quoted := false;
          }
        } else {
          field := field + [c];
        }
      } else if c == '"' {
        quoted := true;
      } else if c == ',' {
        row := row + [field];
        field := "";
      } else if c == '\n' {
        row := row + [field];
        rows := rows + [row];
        row := [];
        field := "";
      } else if c != '\r' {
        field := field + [c];
      }
      i := i + 1;
    }
    assert text[i..] == "";
    if field != "" || row != [] {
      row := row + [field];
      rows := rows + [row];
    }
    assert rows == Finish(Read(text, START));
    kept := [];
    for k := 0 to |rows|
      invariant kept == NonBlank(rows[..k])
    {
      assert rows[..k + 1][..k] == rows[..k];
      assert rows[k] in rows;
      if |rows[k]| > 1 || rows[k][0] != "" {
        kept := kept + [rows[k]];
      }
    }
    assert rows[..|rows|] == rows;
  }

  // ---------- the printer ----------

  /** A field as printed: enclosed in double quotes or not. */
  datatype Cell = Cell(text: string, enclosed: bool)

  /** A record as printed, with the line break that ends it. */
  datatype Line = Line(cells: seq<Cell>, crlf: bool)

  predicate Plain(text: string) {
    forall i :: 0 <= i < |text| ==> text[i] != ',' && text[i] != '"' && text[i] != '\n' && text[i] != '\r'
  }

  /** Fields with commas, double quotes or line breaks must be enclosed. */
  predicate PrintableCell(cell: Cell) {
    cell.enclosed || Plain(cell.text)
  }

  predicate PrintableCells(cells: seq<Cell>) {
    forall i :: 0 <= i < |cells| ==> PrintableCell(cells[i])
  }

  predicate Printable(lines: seq<Line>) {
    forall i :: 0 <= i < |lines| ==> PrintableCells(lines[i].cells)
  }

  /** A double quote inside an enclosed field is doubled. */
  function Escaped(text: string): string {
    if text == "" then "" else (if text[0] == '"' then "\"\"" else [text[0]]) + Escaped(text[1..])
  }

  function PrintCell(cell: Cell): string {
    if cell.enclosed then "\"" + (Escaped(cell.text) + "\"") else cell.text
  }

  function PrintCells(cells: seq<Cell>): string {
    if cells == [] then ""
    else if |cells| == 1 then PrintCell(cells[0])
    else PrintCell(cells[0]) + ("," + PrintCells(cells[1..]))
  }

  function LineEnd(line: Line): string {
    if line.crlf then "\r\n" else "\n"
  }

  /** The last line break may be left out. */
  function Print(lines: seq<Line>, finalBreak: bool): string {
    if lines == [] then ""
    else if |lines| == 1 then PrintCells(lines[0].cells) + if finalBreak then LineEnd(lines[0]) else ""
    else PrintCells(lines[0].cells) + (LineEnd(lines[0]) + Print(lines[1..], finalBreak))
  }

  function Texts(cells: seq<Cell>): seq<string> {
    seq(|cells|, i requires 0 <= i < |cells| => cells[i].text)
  }

  function Table(lines: seq<Line>): seq<seq<string>> {
    seq(|lines|, i requires 0 <= i < |lines| => Texts(lines[i].cells))
  }

  // ---------- reading what was printed ----------

  lemma {:induction false} ReadPlain(text: string, rest: string, st: State)
    requires Plain(text) && !st.quoted
    ensures Read(text + rest, st) == Read(rest, st.(field := st.field + text))
  {
    if text == "" {
      assert text + rest == rest && st.field + text == st.field;
    } else {
      assert (text + rest)[0] == text[0] && (text + rest)[1..] == text[1..] + rest;
      ReadPlain(text[1..], rest, st.(field := st.field + [text[0]]));
      assert st.field + [text[0]] + text[1..] == st.field + text;
    }
  }

  lemma {:induction false} ReadEscaped(text: string, rest: string, st: State)
    requires st.quoted && (rest == "" || rest[0] != '"')
    ensures Read(Escaped(text) + ("\"" + rest), st) == Read(rest, st.(field := st.field + text, quoted := false))
  {
    var all := Escaped(text) + ("\"" + rest);
    if text == "" {
      assert all == "\"" + rest && all[1..] == rest;
      assert st.field + text == st.field;
    } else {
      var tail := Escaped(text[1..]) + ("\"" + rest);
      var next := st.(field := st.field + [text[0]]);
      if text[0] == '"' {
        assert all == ['"', '"'] + tail && all[2..] == tail;
      } else {
        assert all == [text[0]] + tail && all[1..] == tail;
      }
      ReadEscaped(text[1..], rest, next);
      assert st.field + [text[0]] + text[1..] == st.field + text;
    }
  }

  lemma ReadCell(cell: Cell, rest: string, st: State)
    requires PrintableCell(cell)
    requires !st.quoted && st.field == "" && (rest == "" || rest[0] != '"')
    ensures Read(PrintCell(cell) + rest, st) == Read(rest, st.(field := cell.text))
  {
    if cell.enclosed {
      var body := Escaped(cell.text) + ("\"" + rest);
      assert PrintCell(cell) + rest == ['"'] + body;
      ReadEscaped(cell.text, rest, st.(quoted := true));
    } else {
      ReadPlain(cell.text, rest, st);
    }
    assert st.field + cell.text == cell.text;
  }

  lemma ReadCellAndComma(cell: Cell, tail: string, st: State)
    requires PrintableCell(cell) && !st.quoted && st.field == ""
    ensures Read(PrintCell(cell) + ("," + tail), st) == Read(tail, st.(row := st.row + [cell.text]))
  {
    ReadCell(cell, "," + tail, st);
    assert ("," + tail)[1..] == tail;
  }

  lemma PrintedCellsSplit(cells: seq<Cell>, rest: string)
    requires |cells| > 1
    ensures PrintCells(cells) + rest == PrintCell(cells[0]) + ("," + (PrintCells(cells[1..]) + rest))
  {
    var first, others := PrintCell(cells[0]), PrintCells(cells[1..]);
    assert PrintCells(cells) == first + ("," + others);
    Reassociate(first, ",", others, rest);
  }

  lemma Reassociate(a: string, b: string, c: string, d: string)
    ensures a + (b + c) + d == a + (b + (c + d))
  {
  }

  lemma TextsAfterFirst(cells: seq<Cell>, st: State)
    requires |cells| > 1
    ensures AfterCells(cells[1..], st.(row := st.row + [cells[0].text])) == AfterCells(cells, st)
  {
    assert Texts(cells) == [cells[0].text] + Texts(cells[1..]);
    assert st.row + [cells[0].text] + Texts(cells[1..])[..|cells| - 2] == st.row + Texts(cells)[..|cells| - 1];
  }

  /** After the cells of a line, the last one is in the field and the others in the row. */
  function AfterCells(cells: seq<Cell>, st: State): State
    requires cells != []
  {
    var texts, n := Texts(cells), |cells| - 1;
    st.(row := st.row + texts[..n], field := texts[n])
  }

  lemma {:induction false} ReadCells(cells: seq<Cell>, rest: string, st: State)
    requires cells != [] && PrintableCells(cells)
    requires !st.quoted && st.field == "" && (rest == "" || rest[0] != '"')
    ensures Read(PrintCells(cells) + rest, st) == Read(rest, AfterCells(cells, st))
  {
    if |cells| == 1 {
      ReadCell(cells[0], rest, st);
      assert st.row + Texts(cells)[..0] == st.row;
    } else {
      PrintedCellsSplit(cells, rest);
      ReadCellAndComma(cells[0], PrintCells(cells[1..]) + rest, st);
      ReadCells(cells[1..], rest, st.(row := st.row + [cells[0].text]));
      TextsAfterFirst(cells, st);
    }
  }

  /** A line without cells reads like a line with one empty cell. */
  function Seen(cells: seq<Cell>): seq<string> {
    if cells == [] then [""] else Texts(cells)
  }

  /** The state in which a line has been read up to its end. */
  function AfterLine(cells: seq<Cell>, st: State): State {
    if cells == [] then st else AfterCells(cells, st)
  }

  lemma ReadToLineEnd(cells: seq<Cell>, rest: string, st: State)
    requires PrintableCells(cells) && !st.quoted && st.field == "" && (rest == "" || rest[0] != '"')
    ensures Read(PrintCells(cells) + rest, st) == Read(rest, AfterLine(cells, st))
  {
    if cells == [] {
      assert PrintCells(cells) + rest == rest;
    } else {
      ReadCells(cells, rest, st);
    }
  }

  lemma ReadBreak(line: Line, rest: string, st: State)
    requires !st.quoted
    ensures Read(LineEnd(line) + rest, st) == Read(rest, State(st.rows + [st.row + [st.field]], [], "", false))
  {
    var newline := "\n" + rest;
    assert newline[1..] == rest;
    if line.crlf {
      assert LineEnd(line) + rest == "\r" + newline;
      assert ("\r" + newline)[1..] == newline;
    }
  }

  lemma LineIsSeen(cells: seq<Cell>, st: State)
    requires st.row == [] && st.field == ""
    ensures AfterLine(cells, st).row + [AfterLine(cells, st).field] == Seen(cells)
    ensures Finish(AfterLine(cells, st)) == if Seen(cells) == [""] then st.rows else st.rows + [Seen(cells)]
  {
    if cells != [] {
      var texts, n := Texts(cells), |cells| - 1;
      assert st.row + texts[..n] == texts[..n];
      assert texts[..n] + [texts[n]] == texts;
    }
  }

  lemma ReadLine(line: Line, rest: string, st: State)
    requires PrintableCells(line.cells) && !st.quoted && st.field == "" && st.row == []
    ensures Read(PrintCells(line.cells) + (LineEnd(line) + rest), st) ==
            Read(rest, st.(rows := st.rows + [Seen(line.cells)]))
  {
    ReadToLineEnd(line.cells, LineEnd(line) + rest, st);
    ReadBreak(line, rest, AfterLine(line.cells, st));
    LineIsSeen(line.cells, st);
  }

  function SeenTable(lines: seq<Line>): seq<seq<string>> {
    seq(|lines|, i requires 0 <= i < |lines| => Seen(lines[i].cells))
  }

  lemma {:induction false} NonBlankConcat(a: seq<seq<string>>, b: seq<seq<string>>)
    ensures NonBlank(a + b) == NonBlank(a) + NonBlank(b)
  {
    if b == [] {
      assert a + b == a;
    } else {
      assert (a + b)[..|a + b| - 1] == a + b[..|b| - 1];
      NonBlankConcat(a, b[..|b| - 1]);
    }
  }

  /** The rows a text adds to those already read. */
  ghost predicate Adds(text: string, st: State, rows: seq<seq<string>>) {
    NonBlank(Finish(Read(text, st))) == NonBlank(st.rows) + NonBlank(rows)
  }

  lemma AddsAfter(text: string, rest: string, st: State, row: seq<string>, rows: seq<seq<string>>)
    requires Read(text, st) == Read(rest, st.(rows := st.rows + [row]))
    requires Adds(rest, st.(rows := st.rows + [row]), rows)
    ensures Adds(text, st, [row] + rows)
  {
    NonBlankConcat(st.rows, [row]);
    NonBlankConcat([row], rows);
  }

  lemma LastLineAdds(line: Line, finalBreak: bool, st: State)
    requires PrintableCells(line.cells) && !st.quoted && st.field == "" && st.row == []
    ensures Adds(PrintCells(line.cells) + if finalBreak then LineEnd(line) else "", st, [Seen(line.cells)])
  {
    var seen := Seen(line.cells);
    NonBlankConcat(st.rows, [seen]);
    assert [seen][..0] == [];
    if finalBreak {
      ReadLine(line, "", st);
      assert LineEnd(line) + "" == LineEnd(line);
    } else {
      ReadToLineEnd(line.cells, "", st);
      LineIsSeen(line.cells, st);
    }
  }

  lemma SeenTableFirst(lines: seq<Line>)
    requires lines != []
    ensures SeenTable(lines) == [Seen(lines[0].cells)] + SeenTable(lines[1..])
  {
  }

  lemma FirstLineAdds(lines: seq<Line>, finalBreak: bool, st: State)
    requires |lines| > 1 && Printable(lines) && !st.quoted && st.field == "" && st.row == []
    requires Adds(Print(lines[1..], finalBreak), st.(rows := st.rows + [Seen(lines[0].cells)]), SeenTable(lines[1..]))
    ensures Adds(Print(lines, finalBreak), st, SeenTable(lines))
  {
    var seen, rest := Seen(lines[0].cells), Print(lines[1..], finalBreak);
    assert Print(lines, finalBreak) == PrintCells(lines[0].cells) + (LineEnd(lines[0]) + rest);
    ReadLine(lines[0], rest, st);
    AddsAfter(Print(lines, finalBreak), rest, st, seen, SeenTable(lines[1..]));
    SeenTableFirst(lines);
  }

  lemma {:induction false} ReadLines(lines: seq<Line>, finalBreak: bool, st: State)
    requires Printable(lines) && !st.quoted && st.field == "" && st.row == []
    ensures Adds(Print(lines, finalBreak), st, SeenTable(lines))
  {
    if lines == [] {
    } else if |lines| == 1 {
      LastLineAdds(lines[0], finalBreak, st);
      assert SeenTable(lines) == [Seen(lines[0].cells)];
    } else {
      ReadLines(lines[1..], finalBreak, st.(rows := st.rows + [Seen(lines[0].cells)]));
      FirstLineAdds(lines, finalBreak, st);
    }
  }

  lemma {:induction false} BlankLinesLookAlike(lines: seq<Line>)
    ensures NonBlank(SeenTable(lines)) == NonBlank(Table(lines))
  {
    if lines == [] {
    } else {
      var init := lines[..|lines| - 1];
      BlankLinesLookAlike(init);
      assert SeenTable(lines)[..|init|] == SeenTable(init);
      assert Table(lines)[..|init|] == Table(init);
    }
  }

  /** Main result: for every table, every choice of quoting the format allows, either
      line break on each line and the last one left out or not, the reader returns
      the table without its blank lines. */
  lemma ParsePrint(lines: seq<Line>, finalBreak: bool)
    requires Printable(lines)
    ensures Parsed(Print(lines, finalBreak)) == NonBlank(Table(lines))
  {
    ReadLines(lines, finalBreak, START);
    BlankLinesLookAlike(lines);
    assert NonBlank([]) + NonBlank(SeenTable(lines)) == NonBlank(SeenTable(lines));
  }

  lemma {:induction false} NonBlankSize(rows: seq<seq<string>>)
    ensures |NonBlank(rows)| <= |rows|
    ensures |NonBlank(rows)| == |rows| <==> forall i :: 0 <= i < |rows| ==> !Blank(rows[i])
    ensures |NonBlank(rows)| == |rows| ==> NonBlank(rows) == rows
  {
    if rows == [] {
    } else {
      var init, last := rows[..|rows| - 1], rows[|rows| - 1];
      NonBlankSize(init);
      assert rows == init + [last];
    }
  }

  lemma NonBlankKeepsAll(rows: seq<seq<string>>)
    ensures NonBlank(rows) == rows <==> forall i :: 0 <= i < |rows| ==> !Blank(rows[i])
  {
    NonBlankSize(rows);
  }

  /** Reading undoes printing exactly for the tables without a blank line; rows of two
      or more fields are never blank. */
  lemma ParseUndoesPrint(lines: seq<Line>, finalBreak: bool)
    requires Printable(lines)
    ensures Parsed(Print(lines, finalBreak)) == Table(lines) <==>
            forall i :: 0 <= i < |lines| ==> !Blank(Table(lines)[i])
    ensures (forall i :: 0 <= i < |lines| ==> |lines[i].cells| >= 2) ==>
              Parsed(Print(lines, finalBreak)) == Table(lines)
  {
    ParsePrint(lines, finalBreak);
    NonBlankKeepsAll(Table(lines));
  }

  // ---------- records ----------

  type Record = map<string, string>

  /** Later entries of a repeated name win. */
  function FromEntries(header: seq<string>, row: seq<string>): Record
    requires |header| == |row|
  {
    if header == [] then map[]
    else FromEntries(header[..|header| - 1], row[..|row| - 1])[header[|header| - 1] := row[|row| - 1]]
  }

  function RecordsOf(header: seq<string>, rows: seq<seq<string>>): seq<Record> {
    if rows == [] then []
    else (if |rows[0]| == |header| then [FromEntries(header, rows[0])] else []) + RecordsOf(header, rows[1..])
  }

  function ToRecords(rows: seq<seq<string>>): seq<Record> {
    if rows == [] then [] else RecordsOf(rows[0], rows[1..])
  }

  ghost predicate Distinct(header: seq<string>) {
    forall i, j :: 0 <= i < j < |header| ==> header[i] != header[j]
  }

  function RowFor(header: seq<string>, record: Record): seq<string>
    requires forall h :: h in header ==> h in record
  {
    seq(|header|, i requires 0 <= i < |header| => assert header[i] in header; record[header[i]])
  }

  lemma {:induction false} FromEntriesLooksUp(header: seq<string>, row: seq<string>)
    requires |header| == |row| && Distinct(header)
    ensures forall h :: h in FromEntries(header, row) <==> h in header
    ensures forall i :: 0 <= i < |header| ==>
              header[i] in FromEntries(header, row) && FromEntries(header, row)[header[i]] == row[i]
  {
    if header == [] {
    } else {
      var init := header[..|header| - 1];
      FromEntriesLooksUp(init, row[..|row| - 1]);
      assert forall i :: 0 <= i < |init| ==> init[i] == header[i];
      assert forall h :: h in header <==> h in init || h == header[|header| - 1];
    }
  }

  lemma FromEntriesUndoesRow(header: seq<string>, record: Record)
    requires Distinct(header) && forall h :: h in header <==> h in record
    ensures FromEntries(header, RowFor(header, record)) == record
  {
    FromEntriesLooksUp(header, RowFor(header, record));
    forall h | h in record
      ensures FromEntries(header, RowFor(header, record))[h] == record[h]
    {
      var i :| 0 <= i < |header| && header[i] == h;
    }
  }

  ghost predicate Fits(header: seq<string>, records: seq<Record>) {
    forall r, h :: r in records ==> (h in header <==> h in r)
  }

  function RowsFor(header: seq<string>, records: seq<Record>): seq<seq<string>>
    requires Fits(header, records)
  {
    if records == [] then []
    else
      assert records[0] in records;
      [RowFor(header, records[0])] + RowsFor(header, records[1..])
  }

  lemma {:induction false} RecordsUndoRows(header: seq<string>, records: seq<Record>)
    requires Distinct(header) && Fits(header, records)
    ensures RecordsOf(header, RowsFor(header, records)) == records
  {
    if records == [] {
    } else {
      assert records[0] in records;
      FromEntriesUndoesRow(header, records[0]);
      RecordsUndoRows(header, records[1..]);
    }
  }

  /** Records written under a header of distinct names and printed in any form the
      format allows come back as they were. */
  lemma RecordsSurvive(header: seq<string>, records: seq<Record>, lines: seq<Line>, finalBreak: bool)
    requires Distinct(header) && Fits(header, records)
    requires Printable(lines)
    requires Table(lines) == [header] + RowsFor(header, records)
    requires forall i :: 0 <= i < |lines| ==> !Blank(Table(lines)[i])
    ensures ToRecords(Parsed(Print(lines, finalBreak))) == records
  {
    ParseUndoesPrint(lines, finalBreak);
    RecordsUndoRows(header, records);
  }

  /** A row is dropped exactly when its width differs from the header's. */
  lemma {:induction false} RecordPerFittingRow(header: seq<string>, rows: seq<seq<string>>)
    ensures |RecordsOf(header, rows)| <= |rows|
    ensures |RecordsOf(header, rows)| == |rows| <==> forall r :: r in rows ==> |r| == |header|
  {
    if rows == [] {
    } else {
      RecordPerFittingRow(header, rows[1..]);
      assert forall r :: r in rows <==> r == rows[0] || r in rows[1..];
    }
  }

  // ---------- which rows are kept ----------

  predicate IsLine(row: seq<string>) {
    row != [] && row != [""]
  }

  predicate SameRow(a: seq<string>, b: seq<string>) {
    a == b
  }

  lemma LineIsNotBlank(row: seq<string>)
    ensures IsLine(row) <==> !Blank(row)
  {
  }

  /** Reading drops the blank lines and nothing else. */
  lemma {:induction false} NonBlankAreTheLines(rows: seq<seq<string>>)
    ensures Picked(rows, IsLine, SameRow, NonBlank(rows))
  {
    if rows == [] {
      NothingPicked<seq<string>, seq<string>>(IsLine, SameRow);
    } else {
      var init, last := rows[..|rows| - 1], rows[|rows| - 1];
      NonBlankAreTheLines(init);
      assert init + [last] == rows;
      var added := if Blank(last) then [] else [last];
      assert NonBlank(rows) == NonBlank(init) + added;
      LineIsNotBlank(last);
      PickedLast(init, last, IsLine, SameRow, NonBlank(init), added);
    }
  }

  function HasWidth(header: seq<string>): seq<string> -> bool {
    (row: seq<string>) => |row| == |header|
  }

  function RecordOf(header: seq<string>): (seq<string>, Record) -> bool {
    (row: seq<string>, record: Record) => |row| == |header| && record == FromEntries(header, row)
  }

  lemma {:induction false} RecordsOneMore(header: seq<string>, rows: seq<seq<string>>, row: seq<string>)
    ensures RecordsOf(header, rows + [row]) ==
            RecordsOf(header, rows) + if |row| == |header| then [FromEntries(header, row)] else []
  {
    if rows == [] {
      assert rows + [row] == [row] && [row][1..] == [];
    } else {
      assert (rows + [row])[1..] == rows[1..] + [row];
      RecordsOneMore(header, rows[1..], row);
      Associative(if |rows[0]| == |header| then [FromEntries(header, rows[0])] else [], RecordsOf(header, rows[1..]),
                  if |row| == |header| then [FromEntries(header, row)] else []);
    }
  }

  /** The records are those of the rows as wide as the header, in order. */
  lemma {:induction false} RecordsAreTheFittingRows(header: seq<string>, rows: seq<seq<string>>)
    ensures Picked(rows, HasWidth(header), RecordOf(header), RecordsOf(header, rows))
  {
    if rows == [] {
      NothingPicked<seq<string>, Record>(HasWidth(header), RecordOf(header));
    } else {
      var init, last := rows[..|rows| - 1], rows[|rows| - 1];
      assert init + [last] == rows;
      RecordsAreTheFittingRows(header, init);
      RecordsOneMore(header, init, last);
      PickedLast(init, last, HasWidth(header), RecordOf(header), RecordsOf(header, init),
                 if |last| == |header| then [FromEntries(header, last)] else []);
    }
  }

  /** A name finds the cell below its last occurrence. */
  lemma {:induction false} LastEntryWins(header: seq<string>, row: seq<string>, i: nat)
    requires |header| == |row| && i < |header|
    requires forall j :: i < j < |header| ==> header[j] != header[i]
    ensures header[i] in FromEntries(header, row) && FromEntries(header, row)[header[i]] == row[i]
  {
    var n := |header| - 1;
    if i < n {
      assert header[..n][i] == header[i];
      LastEntryWins(header[..n], row[..n], i);
    }
  }

  // ---------- texts that no printer makes ----------

  /** Double quotes open and close anywhere in a field, not only around it. */
  lemma QuotedAnywhere(text: string, rest: string, st: State)
    requires !st.quoted && (rest == "" || rest[0] != '"')
    ensures Read("\"" + (Escaped(text) + ("\"" + rest)), st) == Read(rest, st.(field := st.field + text))
  {
    var body := Escaped(text) + ("\"" + rest);
    assert ("\"" + body)[1..] == body;
    ReadEscaped(text, rest, st.(quoted := true));
  }

  /** Without a closing quote everything up to the end is text. */
  lemma {:induction false} UnclosedQuote(text: string, st: State)
    requires st.quoted
    ensures Read(Escaped(text), st) == st.(field := st.field + text)
  {
    if text == "" {
      assert st.field + text == st.field;
    } else {
      var tail, next := Escaped(text[1..]), st.(field := st.field + [text[0]]);
      if text[0] == '"' {
        assert Escaped(text) == ['"', '"'] + tail && Escaped(text)[2..] == tail;
      } else {
        assert Escaped(text) == [text[0]] + tail && Escaped(text)[1..] == tail;
      }
      UnclosedQuote(text[1..], next);
      assert st.field + [text[0]] + text[1..] == st.field + text;
    }
  }

  /** A carriage return outside quotes is dropped wherever it stands. */
  lemma ReturnVanishes(rest: string, st: State)
    requires !st.quoted
    ensures Read("\r" + rest, st) == Read(rest, st)
  {
    assert ("\r" + rest)[1..] == rest;
  }

  const FIRST := Line([Cell("a", false), Cell("b\"c", true)], true)
  const EMPTY := Line([], false)
  const SECOND := Line([Cell("d\ne", true), Cell("f", false)], false)

  /** A text and what it reads as. */
  lemma OneReading()
    ensures Parsed("a,\"b\"\"c\"\r\n\n\"d\ne\",f") == [["a", "b\"c"], ["d\ne", "f"]]
  {
    ParsePrint([FIRST, EMPTY, SECOND], false);
    PrintOfThree();
    TextsOfThree();
    NonBlankOfThree(["a", "b\"c"], [], ["d\ne", "f"]);
  }

  lemma TextsOfThree()
    ensures Table([FIRST, EMPTY, SECOND]) == [["a", "b\"c"], [], ["d\ne", "f"]]
  {
    assert Texts(FIRST.cells) == ["a", "b\"c"] && Texts(EMPTY.cells) == [] && Texts(SECOND.cells) == ["d\ne", "f"];
  }

  lemma NonBlankOfThree(a: seq<string>, b: seq<string>, c: seq<string>)
    requires !Blank(a) && Blank(b) && !Blank(c)
    ensures NonBlank([a, b, c]) == [a, c]
  {
    assert [a, b, c][..2] == [a, b] && [a, b][..1] == [a] && [a][..0] == [];
    assert NonBlank([a]) == [a];
    assert NonBlank([a, b]) == [a];
  }

  lemma CellsOfThree()
    ensures PrintCells(FIRST.cells) == "a,\"b\"\"c\"" && PrintCells(SECOND.cells) == "\"d\ne\",f"
  {
    assert FIRST.cells[1..] == [Cell("b\"c", true)] && SECOND.cells[1..] == [Cell("f", false)];
    EscapedText("b\"c");
    EscapedText("d\ne");
  }

  lemma PrintOfThree()
    ensures Print([FIRST, EMPTY, SECOND], false) == "a,\"b\"\"c\"\r\n\n\"d\ne\",f"
  {
    CellsOfThree();
    assert [FIRST, EMPTY, SECOND][1..] == [EMPTY, SECOND] && [EMPTY, SECOND][1..] == [SECOND];
    assert Print([SECOND], false) == "\"d\ne\",f";
    assert Print([EMPTY, SECOND], false) == "\n\"d\ne\",f";
  }

  lemma EscapedText(text: string)
    requires |text| == 3
    ensures Escaped(text) == EscapedChar(text[0]) + (EscapedChar(text[1]) + EscapedChar(text[2]))
  {
    assert text[1..][0] == text[1] && text[1..][1..] == text[2..] && text[2..][0] == text[2] && text[2..][1..] == "";
    assert Escaped(text[2..]) == EscapedChar(text[2]) + "";
    assert Escaped(text[1..]) == EscapedChar(text[1]) + Escaped(text[2..]);
  }

  function EscapedChar(c: char): string {
    if c == '"' then "\"\"" else [c]
  }
}
