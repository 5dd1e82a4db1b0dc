/**
 CSV export and import of tabular artifacts (the quoting of section 2 of RFC 4180): what is written
 is read back, for every text in the cells.
 */
module Csv {
  import opened Wrappers

  type Row = seq<string>

  // ---------------------------------------------------------------- writing

  predicate NeedsQuotes(cell: string) {
    '"' in cell || ',' in cell || '\n' in cell || '\r' in cell
  }

  function DoubleQuotes(cell: string): string {
    if cell == "" then ""
    else (if cell[0] == '"' then ['"', '"'] else [cell[0]]) + DoubleQuotes(cell[1..])
  }

  function Escape(cell: string): string {
    if NeedsQuotes(cell) then ['"'] + DoubleQuotes(cell) + ['"'] else cell
  }

  function EscapeAll(cells: Row): Row {
    if cells == [] then [] else [Escape(cells[0])] + EscapeAll(cells[1..])
  }

  function Join(parts: seq<string>, separator: char): string {
    if parts == [] then ""
    else if |parts| == 1 then parts[0]
    else parts[0] + [separator] + Join(parts[1..], separator)
  }

  function Lines(rows: seq<Row>): seq<string> {
    if rows == [] then [] else [Join(EscapeAll(rows[0]), ',')] + Lines(rows[1..])
  }

  function Serialize(rows: seq<Row>): string {
    Join(Lines(rows), '\n') + "\n"
  }

  // ---------------------------------------------------------------- reading

  datatype Scanner = Scanner(rows: seq<Row>, row: Row, cell: string, inQuotes: bool)

  const Fresh := Scanner([], [], "", false)

  function Scan(s: Scanner, text: string): Scanner
    decreases |text|
  {
    if text == "" then s
    else
      var c := text[0];
      var next := if |text| > 1 then Some(text[1]) else None;
      if c == '"' && s.inQuotes && next == Some('"') then Scan(s.(cell := s.cell + ['"']), text[2..])
      else if c == '"' then Scan(s.(inQuotes := !s.inQuotes), text[1..])
      else if c == ',' && !s.inQuotes then Scan(s.(row := s.row + [s.cell], cell := ""), text[1..])
      else if (c == '\n' || c == '\r') && !s.inQuotes then
        Scan(Scanner(s.rows + [s.row + [s.cell]], [], "", false),
             if c == '\r' && next == Some('\n') then text[2..] else text[1..])
      else Scan(s.(cell := s.cell + [c]), text[1..])
  }

  /** What is left when the text ends inside a row still counts as one. */
  function RowsOf(s: Scanner): seq<Row> {
    if s.cell != "" || s.row != [] then s.rows + [s.row + [s.cell]] else s.rows
  }

  function Parse(text: string): seq<Row> {
    var rows := RowsOf(Scan(Fresh, text));
    if rows == [] then [["value"]] else rows
  }

  /** The scanner as the index loop it is. */
  method CsvToRows(text: string) returns (sheet: seq<Row>)
    ensures sheet == Parse(text)
  {
    var rows: seq<Row> := [];
    var row: Row := [];
    var cell := "";
    var inQuotes := false;
    var index := 0;
    while index < |text|
      invariant 0 <= index <= |text|
      invariant Scan(Fresh, text) == Scan(Scanner(rows, row, cell, inQuotes), text[index..])
    {
      var c := text[index];
      var next := if index + 1 < |text| then Some(text[index + 1]) else None;
      if c == '"' && inQuotes && next == Some('"') {
        cell := cell + ['"'];
        index := index + 1;
      } else if c == '"' {
        inQuotes := !inQuotes;
      } else if c == ',' && !inQuotes {
        row := row + [cell];
        cell := "";
      } else if (c == '\n' || c == '\r') && !inQuotes {
        if c == '\r' && next == Some('\n') {
          index := index + 1;
        }
        row := row + [cell];
        rows := rows + [row];
        row := [];
        cell := "";
      } else {
        cell := cell + [c];
      }
      index := index + 1;
    }
    if |cell| > 0 || |row| > 0 {
      row := row + [cell];
      rows := rows + [row];
    }
    sheet := if |rows| > 0 then rows else [["value"]];
  }

  // ---------------------------------------------------------------- round trip

  lemma {:induction false} ScanPlain(s: Scanner, cell: string, rest: string)
    requires !s.inQuotes && !NeedsQuotes(cell)
    ensures Scan(s, cell + rest) == Scan(s.(cell := s.cell + cell), rest)
    decreases |cell|
  {
    if cell == "" {
      assert cell + rest == rest && s.cell + cell == s.cell;
    } else {
      var c, tail := cell[0], cell[1..];
      assert (cell + rest)[1..] == tail + rest;
      assert c in cell;
      assert forall x :: x in tail ==> x in cell;
      ScanPlain(s.(cell := s.cell + [c]), tail, rest);
      assert s.cell + cell == s.cell + [c] + tail;
    }
  }

  lemma {:induction false} ScanQuoted(s: Scanner, cell: string, rest: string)
    requires s.inQuotes && (rest == "" || rest[0] != '"')
    ensures Scan(s, DoubleQuotes(cell) + ['"'] + rest) == Scan(s.(cell := s.cell + cell, inQuotes := false), rest)
    decreases |cell|
  {
    var text := DoubleQuotes(cell) + ['"'] + rest;
    if cell == "" {
      assert text == ['"'] + rest && text[1..] == rest;
      assert s.cell + cell == s.cell;
    } else {
      var c, tail := cell[0], cell[1..];
      ScanQuoted(s.(cell := s.cell + [c]), tail, rest);
      assert s.cell + cell == s.cell + [c] + tail;
      var later := DoubleQuotes(tail) + ['"'] + rest;
      if c == '"' {
        assert text == ['"', '"'] + later && text[2..] == later;
      } else {
        assert text == [c] + later && text[1..] == later;
      }
    }
  }

  lemma ScanCell(s: Scanner, cell: string, rest: string)
    requires !s.inQuotes && s.cell == "" && (rest == "" || rest[0] != '"')
    ensures Scan(s, Escape(cell) + rest) == Scan(s.(cell := cell), rest)
  {
    assert "" + cell == cell;
    if NeedsQuotes(cell) {
      var text := Escape(cell) + rest;
      assert text == ['"'] + (DoubleQuotes(cell) + ['"'] + rest);
      assert text[1..] == DoubleQuotes(cell) + ['"'] + rest;
      ScanQuoted(s.(inQuotes := true), cell, rest);
    } else {
      ScanPlain(s, cell, rest);
    }
  }

  /** A line end; one of a single character is not followed by the other half of a pair. */
  predicate BreaksBefore(br: string, rest: string) {
    br == "\n" || br == "\r\n" || (br == "\r" && (rest == "" || rest[0] != '\n'))
  }

  /** One written line, read from the start of a row. */
  lemma {:induction false} ScanLine(s: Scanner, cells: Row, br: string, rest: string)
    requires !s.inQuotes && s.cell == "" && cells != [] && BreaksBefore(br, rest)
    ensures Scan(s, Join(EscapeAll(cells), ',') + br + rest) ==
            Scan(Scanner(s.rows + [s.row + cells], [], "", false), rest)
    decreases |cells|
  {
    LineText(cells, br, rest);
    if |cells| == 1 {
      ScanCell(s, cells[0], br + rest);
      ScanBreak(s.(cell := cells[0]), br, rest);
      assert [cells[0]] == cells;
    } else {
      var others := Join(EscapeAll(cells[1..]), ',') + br + rest;
      ScanCellAndComma(s, cells[0], others);
      ScanLine(s.(row := s.row + [cells[0]]), cells[1..], br, rest);
      assert s.row + [cells[0]] + cells[1..] == s.row + cells;
    }
  }

  lemma LineText(cells: Row, br: string, rest: string)
    requires cells != []
    ensures Join(EscapeAll(cells), ',') + br + rest ==
              Escape(cells[0]) + if |cells| == 1 then br + rest
                                 else [','] + (Join(EscapeAll(cells[1..]), ',') + br + rest)
  {
    JoinFirst(cells);
    if |cells| == 1 {
      Regroup(Escape(cells[0]), br, rest);
      assert Escape(cells[0]) + "" == Escape(cells[0]);
    } else {
      var others := Join(EscapeAll(cells[1..]), ',');
      Regroup(Escape(cells[0]), [','] + others, br);
      Regroup(Escape(cells[0]), [','] + others + br, rest);
      Regroup([','], others, br);
      Regroup([','], others + br, rest);
    }
  }

  lemma Regroup(a: string, b: string, c: string)
    ensures a + b + c == a + (b + c)
  {
  }

  lemma ScanCellAndComma(s: Scanner, cell: string, rest: string)
    requires !s.inQuotes && s.cell == ""
    ensures Scan(s, Escape(cell) + ([','] + rest)) == Scan(s.(row := s.row + [cell]), rest)
  {
    ScanCell(s, cell, [','] + rest);
    assert ([','] + rest)[1..] == rest;
  }

  lemma JoinFirst(cells: Row)
    requires cells != []
    ensures Join(EscapeAll(cells), ',') ==
              Escape(cells[0]) + if |cells| == 1 then "" else [','] + Join(EscapeAll(cells[1..]), ',')
  {
    assert EscapeAll(cells)[1..] == EscapeAll(cells[1..]);
  }

  lemma ScanBreak(s: Scanner, br: string, rest: string)
    requires !s.inQuotes && BreaksBefore(br, rest)
    ensures Scan(s, br + rest) == Scan(Scanner(s.rows + [s.row + [s.cell]], [], "", false), rest)
  {
    var text := br + rest;
    assert text[|br|..] == rest;
    assert br == "\r" && rest != "" ==> text[1] == rest[0];
  }

  /** The written lines, each ended by `br`. */
  function Ended(rows: seq<Row>, br: string): string {
    if rows == [] then "" else Join(EscapeAll(rows[0]), ',') + br + Ended(rows[1..], br)
  }

  ghost predicate Exportable(rows: seq<Row>) {
    rows != [] && forall i :: 0 <= i < |rows| ==> rows[i] != []
  }

  lemma {:induction false} SerializeEnds(rows: seq<Row>)
    requires rows != []
    ensures Serialize(rows) == Ended(rows, "\n")
  {
    var lines := Lines(rows);
    assert lines[0] == Join(EscapeAll(rows[0]), ',') && lines[1..] == Lines(rows[1..]);
    if |rows| > 1 {
      SerializeEnds(rows[1..]);
      assert Join(lines, '\n') + "\n" == lines[0] + "\n" + (Join(lines[1..], '\n') + "\n");
    } else {
      assert Ended(rows[1..], "\n") == "";
      assert lines[0] + "\n" + "" == lines[0] + "\n";
    }
  }

  lemma EscapeStart(cell: string)
    ensures Escape(cell) != "" ==> Escape(cell)[0] != '\n'
  {
    if !NeedsQuotes(cell) && cell != "" { assert cell[0] in cell; }
  }

  lemma LineStart(cells: Row, rest: string)
    requires cells != [] && rest != "" && rest[0] != '\n'
    ensures var text := Join(EscapeAll(cells), ',') + rest; text != "" && text[0] != '\n'
  {
    EscapeStart(cells[0]);
    var tail := if |cells| == 1 then rest else [','] + Join(EscapeAll(cells[1..]), ',') + rest;
    JoinFirst(cells);
    assert Join(EscapeAll(cells), ',') + rest == Escape(cells[0]) + tail;
  }

  /** What follows a line is the next line or the rest; neither begins with a line feed. */
  lemma EndedStart(rows: seq<Row>, br: string, rest: string)
    requires br in {"\n", "\r", "\r\n"} && (br == "\r" ==> rest == "" || rest[0] != '\n')
    requires forall i :: 0 <= i < |rows| ==> rows[i] != []
    ensures BreaksBefore(br, Ended(rows, br) + rest)
  {
    if br == "\r" && rows != [] {
      LineStart(rows[0], br + (Ended(rows[1..], br) + rest));
      assert Ended(rows, br) + rest == Join(EscapeAll(rows[0]), ',') + (br + (Ended(rows[1..], br) + rest));
    } else if rows == [] {
      assert Ended(rows, br) + rest == rest;
    }
  }

  lemma ScanRow(s: Scanner, cells: Row, br: string, rest: string)
    requires s.row == [] && s.cell == "" && !s.inQuotes && cells != [] && BreaksBefore(br, rest)
    ensures Scan(s, Join(EscapeAll(cells), ',') + br + rest) == Scan(s.(rows := s.rows + [cells]), rest)
  {
    ScanLine(s, cells, br, rest);
    assert [] + cells == cells;
  }

  lemma EndedText(rows: seq<Row>, br: string, rest: string)
    requires rows != []
    ensures Ended(rows, br) + rest == Join(EscapeAll(rows[0]), ',') + br + (Ended(rows[1..], br) + rest)
  {
  }

  lemma {:induction false} ScanEnded(s: Scanner, rows: seq<Row>, br: string, rest: string)
    requires s.row == [] && s.cell == "" && !s.inQuotes && br in {"\n", "\r", "\r\n"}
    requires (forall i :: 0 <= i < |rows| ==> rows[i] != []) && (br == "\r" ==> rest == "" || rest[0] != '\n')
    ensures Scan(s, Ended(rows, br) + rest) == Scan(s.(rows := s.rows + rows), rest)
    decreases |rows|
  {
    if rows == [] {
      assert s.rows + rows == s.rows && Ended(rows, br) + rest == rest;
    } else {
      EndedText(rows, br, rest);
      EndedStart(rows[1..], br, rest);
      ScanRow(s, rows[0], br, Ended(rows[1..], br) + rest);
      ScanEnded(s.(rows := s.rows + [rows[0]]), rows[1..], br, rest);
      assert s.rows + [rows[0]] + rows[1..] == s.rows + rows;
    }
  }

  lemma ParseEnded(rows: seq<Row>, br: string)
    requires Exportable(rows) && br in {"\n", "\r", "\r\n"}
    ensures Parse(Ended(rows, br)) == rows
  {
    ScanFromFresh(rows, br, "");
    assert Ended(rows, br) + "" == Ended(rows, br);
    ParseIs(Ended(rows, br), rows);
  }

  lemma ScanFromFresh(rows: seq<Row>, br: string, rest: string)
    requires br in {"\n", "\r", "\r\n"} && (br == "\r" ==> rest == "" || rest[0] != '\n')
    requires forall i :: 0 <= i < |rows| ==> rows[i] != []
    ensures Scan(Fresh, Ended(rows, br) + rest) == Scan(Scanner(rows, [], "", false), rest)
  {
    ScanEnded(Fresh, rows, br, rest);
    assert [] + rows == rows;
  }

  lemma ParseIs(text: string, rows: seq<Row>)
    requires RowsOf(Scan(Fresh, text)) == rows
    ensures Parse(text) == if rows != [] then rows else [["value"]]
  {
  }

  lemma {:induction false} ScannedRowsNonEmpty(s: Scanner, text: string)
    requires forall i :: 0 <= i < |s.rows| ==> s.rows[i] != []
    ensures forall i :: 0 <= i < |Scan(s, text).rows| ==> Scan(s, text).rows[i] != []
    decreases |text|
  {
    if text != "" {
      var c := text[0];
      var next := if |text| > 1 then Some(text[1]) else None;
      if c == '"' && s.inQuotes && next == Some('"') { ScannedRowsNonEmpty(s.(cell := s.cell + ['"']), text[2..]); }
      else if c == '"' { ScannedRowsNonEmpty(s.(inQuotes := !s.inQuotes), text[1..]); }
      else if c == ',' && !s.inQuotes { ScannedRowsNonEmpty(s.(row := s.row + [s.cell], cell := ""), text[1..]); }
      else if (c == '\n' || c == '\r') && !s.inQuotes {
        ScannedRowsNonEmpty(Scanner(s.rows + [s.row + [s.cell]], [], "", false),
          if c == '\r' && next == Some('\n') then text[2..] else text[1..]);
      }
      else { ScannedRowsNonEmpty(s.(cell := s.cell + [c]), text[1..]); }
    }
  }

  lemma ParsedIsExportable(text: string)
    ensures Parse(text) != [] && forall i :: 0 <= i < |Parse(text)| ==> Parse(text)[i] != []
  {
    ScannedRowsNonEmpty(Fresh, text);
  }

  /** Export then import gives the rows back exactly when there is a row and no row is empty. */
  lemma RoundTrip(rows: seq<Row>)
    ensures Parse(Serialize(rows)) == rows <==> rows != [] && forall i :: 0 <= i < |rows| ==> rows[i] != []
  {
    ParsedIsExportable(Serialize(rows));
    if Exportable(rows) {
      SerializeEnds(rows);
      ParseEnded(rows, "\n");
    }
  }

  /** Whatever text was imported, exporting the sheet and importing it again changes nothing. */
  lemma ReimportIsStable(text: string)
    ensures Parse(Serialize(Parse(text))) == Parse(text)
  {
    ParsedIsExportable(text);
    RoundTrip(Parse(text));
  }

  // ---------------------------------------------------------------- texts written elsewhere

  /** Any of the three line ends reads the same. */
  lemma AnyLineEnd(rows: seq<Row>, br: string)
    requires rows != [] && (forall i :: 0 <= i < |rows| ==> rows[i] != []) && br in {"\n", "\r", "\r\n"}
    ensures Parse(Ended(rows, br)) == rows
    ensures br == "\n" ==> Ended(rows, br) == Serialize(rows)
  {
    ParseEnded(rows, br);
    SerializeEnds(rows);
  }

  /** A line that the text ends in. */
  lemma {:induction false} ScanOpenLine(s: Scanner, cells: Row)
    requires !s.inQuotes && s.cell == "" && cells != []
    ensures Scan(s, Join(EscapeAll(cells), ',')) ==
              s.(row := s.row + cells[..|cells| - 1], cell := cells[|cells| - 1])
    decreases |cells|
  {
    var text := Join(EscapeAll(cells), ',');
    JoinFirst(cells);
    if |cells| == 1 {
      ScanCell(s, cells[0], "");
      assert s.row + cells[..0] == s.row;
    } else {
      var others := Join(EscapeAll(cells[1..]), ',');
      ScanCellAndComma(s, cells[0], others);
      ScanOpenLine(s.(row := s.row + [cells[0]]), cells[1..]);
      assert s.row + [cells[0]] + cells[1..][..|cells| - 2] == s.row + cells[..|cells| - 1];
    }
  }

  lemma {:induction false} OpenText(rows: seq<Row>)
    requires rows != []
    ensures var n := |rows| - 1;
      Join(Lines(rows), '\n') == Ended(rows[..n], "\n") + Join(EscapeAll(rows[n]), ',')
  {
    var n, lines := |rows| - 1, Lines(rows);
    assert lines[0] == Join(EscapeAll(rows[0]), ',') && lines[1..] == Lines(rows[1..]);
    if n > 0 {
      OpenText(rows[1..]);
      assert rows[1..][..n - 1] == rows[..n][1..];
      assert Join(lines, '\n') == lines[0] + "\n" + Join(lines[1..], '\n');
    }
  }

  /** The last line end may be missing, unless the last row is a single empty cell: then the text ends where no
      row has begun, and that row is lost. */
  lemma LastLineEndOptionalIff(rows: seq<Row>)
    requires rows != [] && forall i :: 0 <= i < |rows| ==> rows[i] != []
    ensures Parse(Join(Lines(rows), '\n')) ==
              if rows[|rows| - 1] != [""] then rows else if |rows| > 1 then rows[..|rows| - 1] else [["value"]]
  {
    var front, last := rows[..|rows| - 1], rows[|rows| - 1];
    FrontAndLast(rows);
    OpenText(rows);
    ScanOpenText(front, last);
    OpenRowCounts(front, last);
    ParseIs(Join(Lines(rows), '\n'), if last != [""] then rows else front);
  }

  lemma FrontAndLast(rows: seq<Row>)
    requires rows != []
    ensures rows[..|rows| - 1] + [rows[|rows| - 1]] == rows
  {
  }

  lemma ScanOpenText(front: seq<Row>, last: Row)
    requires last != [] && forall i :: 0 <= i < |front| ==> front[i] != []
    ensures Scan(Fresh, Ended(front, "\n") + Join(EscapeAll(last), ',')) ==
              Scanner(front, last[..|last| - 1], last[|last| - 1], false)
  {
    ScanFromFresh(front, "\n", Join(EscapeAll(last), ','));
    ScanOpenRow(front, last);
  }

  /** Nothing at all reads as one cell with the word value. */
  lemma EmptyTextIsValue()
    ensures Parse("") == [["value"]]
  {
    ParseIs("", []);
  }

  lemma ScanOpenRow(front: seq<Row>, last: Row)
    requires last != []
    ensures Scan(Scanner(front, [], "", false), Join(EscapeAll(last), ',')) ==
              Scanner(front, last[..|last| - 1], last[|last| - 1], false)
  {
    ScanOpenLine(Scanner(front, [], "", false), last);
    assert [] + last[..|last| - 1] == last[..|last| - 1];
  }

  lemma OpenRowCounts(front: seq<Row>, last: Row)
    requires last != []
    ensures RowsOf(Scanner(front, last[..|last| - 1], last[|last| - 1], false)) ==
              if last != [""] then front + [last] else front
  {
    assert last == last[..|last| - 1] + [last[|last| - 1]];
  }

  // ---------------------------------------------------------------- table previews

  /** A preview row: an array, a record looked up by column, or something else, which is dropped. */
  datatype PreviewRow = Cells(cells: Row) | Record(fields: map<string, string>) | Dropped

  function Rendered(columns: Row, row: PreviewRow): seq<Row> {
    match row
    case Cells(cells) => [cells]
    case Record(fields) =>
      var cell := (column: string) => if column in fields then fields[column] else "";
      [seq(|columns|, i requires 0 <= i < |columns| => cell(columns[i]))]
    case Dropped => []
  }

  function RenderedRows(columns: Row, rows: seq<PreviewRow>): seq<Row> {
    if rows == [] then [] else RenderedRows(columns, rows[..|rows| - 1]) + Rendered(columns, rows[|rows| - 1])
  }

  /** Header line first, then a line per kept row; no columns, no CSV. */
  method PreviewCsv(columns: Row, rows: seq<PreviewRow>) returns (csv: Option<string>)
    ensures csv == if columns == [] then None else Some(Serialize([columns] + RenderedRows(columns, rows)))
  {
    if |columns| == 0 {
      return None;
    }
    var lines := [Join(EscapeAll(columns), ',')];
    for i := 0 to |rows|
      invariant lines == Lines([columns] + RenderedRows(columns, rows[..i]))
    {
      ghost var before := [columns] + RenderedRows(columns, rows[..i]);
      var kept := Rendered(columns, rows[i]);
      if kept != [] {
        lines := lines + [Join(EscapeAll(kept[0]), ',')];
      }
      assert rows[..i + 1][..i] == rows[..i];
      assert [columns] + RenderedRows(columns, rows[..i + 1]) == before + kept;
      OneMoreLine(before, kept);
    }
    assert rows[..|rows|] == rows;
    csv := Some(Join(lines, '\n') + "\n");
  }

  lemma OneMoreLine(before: seq<Row>, kept: seq<Row>)
    requires |kept| <= 1
    ensures Lines(before + kept) == Lines(before) + (if kept == [] then [] else [Join(EscapeAll(kept[0]), ',')])
  {
    LinesOfConcat(before, kept);
  }

  lemma {:induction false} LinesOfConcat(a: seq<Row>, b: seq<Row>)
    ensures Lines(a + b) == Lines(a) + Lines(b)
  {
    if a == [] {
      assert a + b == b;
    } else {
      assert (a + b)[1..] == a[1..] + b;
      LinesOfConcat(a[1..], b);
    }
  }
}
