/**
 Records of section 2 of RFC 4180 as text: the writer, which quotes a cell only when it must,
 and the reader, a character machine that also accepts text no writer produced.
 */
module CsvText {

  const QUOTE: char := '"'
  const CR: char := '\r'
  const LF: char := '\n'

  predicate IsNewline(c: char) { c == CR || c == LF }

  /** The delimiters a file may use; never a quote or a line end. */
  predicate IsDelimiter(c: char) { c == ',' || c == ';' || c == '\t' || c == '|' }

  // ---- writing ---------------------------------------------------------------------------------------

  predicate IsSpecial(c: char, delimiter: char) { c == delimiter || c == QUOTE || IsNewline(c) }

  predicate NeedsQuotes(cell: string, delimiter: char) {
    exists i :: 0 <= i < |cell| && IsSpecial(cell[i], delimiter)
  }

  function Doubled(cell: string): string {
    if cell == "" then ""
    else (if cell[0] == QUOTE then [QUOTE, QUOTE] else [cell[0]]) + Doubled(cell[1..])
  }

  /** A record of one empty cell is quoted too, or it would read as a blank line. */
  function Written(cell: string, alone: bool, delimiter: char): string {
    if NeedsQuotes(cell, delimiter) || (cell == "" && alone) then [QUOTE] + Doubled(cell) + [QUOTE]
    else cell
  }

  function Joined(cells: seq<string>, alone: bool, delimiter: char): string {
    if cells == [] then ""
    else if |cells| == 1 then Written(cells[0], alone, delimiter)
    else Written(cells[0], alone, delimiter) + [delimiter] + Joined(cells[1..], alone, delimiter)
  }

  /** One record and its line end. */
  function Record(cells: seq<string>): string {
    Joined(cells, |cells| == 1, ',') + [CR, LF]
  }

  function Records(rows: seq<seq<string>>): string {
    if rows == [] then "" else Record(rows[0]) + Records(rows[1..])
  }

  // ---- reading ---------------------------------------------------------------------------------------

  datatype Mode = StartRecord | StartField | InField | InQuoted | QuoteInQuoted

  /** What follows a line end; a CR LF pair is one line end. */
  function AfterNewline(text: string): string
    requires text != ""
  {
    if |text| > 1 && text[0] == CR && text[1] == LF then text[2..] else text[1..]
  }

  function Read(mode: Mode, cell: string, cells: seq<string>, text: string, delimiter: char): seq<seq<string>>
    decreases |text|
  {
    if text == "" then
      if mode.StartRecord? then [] else [cells + [cell]]
    else
      var c := text[0];
      match mode
      case StartRecord =>
        if IsNewline(c) then [[]] + Read(StartRecord, "", [], AfterNewline(text), delimiter)
        else if c == QUOTE then Read(InQuoted, "", cells, text[1..], delimiter)
        else if c == delimiter then Read(StartField, "", cells + [""], text[1..], delimiter)
        else Read(InField, [c], cells, text[1..], delimiter)
      case StartField =>
        if IsNewline(c) then [cells + [""]] + Read(StartRecord, "", [], AfterNewline(text), delimiter)
        else if c == QUOTE then Read(InQuoted, "", cells, text[1..], delimiter)
        else if c == delimiter then Read(StartField, "", cells + [""], text[1..], delimiter)
        else Read(InField, [c], cells, text[1..], delimiter)
      case InField =>
        if IsNewline(c) then [cells + [cell]] + Read(StartRecord, "", [], AfterNewline(text), delimiter)
        else if c == delimiter then Read(StartField, "", cells + [cell], text[1..], delimiter)
        else Read(InField, cell + [c], cells, text[1..], delimiter)
      case InQuoted =>
        if c == QUOTE then Read(QuoteInQuoted, cell, cells, text[1..], delimiter)
        else Read(InQuoted, cell + [c], cells, text[1..], delimiter)
      case QuoteInQuoted =>
        if c == QUOTE then Read(InQuoted, cell + [QUOTE], cells, text[1..], delimiter)
        else if IsNewline(c) then [cells + [cell]] + Read(StartRecord, "", [], AfterNewline(text), delimiter)
        else if c == delimiter then Read(StartField, "", cells + [cell], text[1..], delimiter)
        else Read(InField, cell + [c], cells, text[1..], delimiter)
  }

  function ReadAll(text: string, delimiter: char): seq<seq<string>> {
    Read(StartRecord, "", [], text, delimiter)
  }

  // ---- reading back what was written -----------------------------------------------------------------

  lemma {:induction false} PlainRun(cell: string, acc: string, cells: seq<string>, tail: string, d: char)
    requires !NeedsQuotes(cell, d)
    ensures Read(InField, acc, cells, cell + tail, d) == Read(InField, acc + cell, cells, tail, d)
    decreases |cell|
  {
    if cell == "" {
      assert cell + tail == tail && acc + cell == acc;
    } else {
      var text := cell + tail;
      assert text[0] == cell[0] && text[1..] == cell[1..] + tail;
      assert !IsSpecial(cell[0], d);
      assert forall i :: 0 <= i < |cell| - 1 ==> cell[1..][i] == cell[i + 1];
      PlainRun(cell[1..], acc + [cell[0]], cells, tail, d);
      assert acc + [cell[0]] + cell[1..] == acc + cell;
    }
  }

  lemma {:induction false} QuotedRun(cell: string, acc: string, cells: seq<string>, tail: string, d: char)
    ensures Read(InQuoted, acc, cells, Doubled(cell) + [QUOTE] + tail, d)
         == Read(QuoteInQuoted, acc + cell, cells, tail, d)
    decreases |cell|
  {
    var text := Doubled(cell) + [QUOTE] + tail;
    if cell == "" {
      assert text[0] == QUOTE && text[1..] == tail && acc + cell == acc;
    } else {
      var rest := Doubled(cell[1..]) + [QUOTE] + tail;
      QuotedRun(cell[1..], acc + [cell[0]], cells, tail, d);
      assert acc + [cell[0]] + cell[1..] == acc + cell;
      if cell[0] == QUOTE {
        assert text[0] == QUOTE && text[1..] == [QUOTE] + rest;
        assert ([QUOTE] + rest)[0] == QUOTE && ([QUOTE] + rest)[1..] == rest;
      } else {
        assert text[0] == cell[0] && text[1..] == rest;
      }
    }
  }

  /** What reading goes on to do once a cell has ended in front of `tail`. */
  function Ended(cells: seq<string>, tail: string, d: char): seq<seq<string>>
    requires tail != ""
  {
    if tail[0] == d then Read(StartField, "", cells, tail[1..], d)
    else [cells] + Read(StartRecord, "", [], AfterNewline(tail), d)
  }

  lemma QuotedCell(cell: string, mode: Mode, cells: seq<string>, tail: string, d: char)
    requires IsDelimiter(d) && (mode.StartField? || mode.StartRecord?)
    requires tail != "" && (tail[0] == d || IsNewline(tail[0]))
    ensures Read(mode, "", cells, [QUOTE] + Doubled(cell) + [QUOTE] + tail, d) == Ended(cells + [cell], tail, d)
  {
    var text := [QUOTE] + Doubled(cell) + [QUOTE] + tail;
    assert text[0] == QUOTE && text[1..] == Doubled(cell) + [QUOTE] + tail;
    QuotedRun(cell, "", cells, tail, d);
    assert "" + cell == cell;
  }

  lemma PlainCell(cell: string, mode: Mode, cells: seq<string>, tail: string, d: char)
    requires IsDelimiter(d) && (mode.StartField? || mode.StartRecord?)
    requires cell != "" && !NeedsQuotes(cell, d)
    ensures Read(mode, "", cells, cell + tail, d) == Read(InField, cell, cells, tail, d)
  {
    var text := cell + tail;
    assert !IsSpecial(cell[0], d);
    assert text[0] == cell[0] && text[1..] == cell[1..] + tail;
    assert forall i :: 0 <= i < |cell| - 1 ==> cell[1..][i] == cell[i + 1];
    PlainRun(cell[1..], [cell[0]], cells, tail, d);
    assert [cell[0]] + cell[1..] == cell;
  }

  /** Reading one written cell up to what ends it. */
  lemma CellReads(cell: string, alone: bool, mode: Mode, cells: seq<string>, tail: string, d: char)
    requires IsDelimiter(d) && (mode.StartField? || mode.StartRecord?)
    requires tail != "" && (tail[0] == d || IsNewline(tail[0]))
    requires mode.StartRecord? && Written(cell, alone, d) == "" ==> tail[0] == d
    ensures Read(mode, "", cells, Written(cell, alone, d) + tail, d) == Ended(cells + [cell], tail, d)
  {
    if NeedsQuotes(cell, d) || (cell == "" && alone) {
      QuotedCell(cell, mode, cells, tail, d);
    } else if cell == "" {
      assert Written(cell, alone, d) + tail == tail;
    } else {
      PlainCell(cell, mode, cells, tail, d);
    }
  }

  lemma {:induction false} CellsRead(
    row: seq<string>, alone: bool, mode: Mode, before: seq<string>, tail: string, d: char)
    requires row != [] && IsDelimiter(d) && (mode.StartField? || mode.StartRecord?)
    requires tail != "" && IsNewline(tail[0]) && (alone <==> before == [] && |row| == 1)
    requires mode.StartRecord? <==> before == []
    ensures Read(mode, "", before, Joined(row, alone, d) + tail, d)
         == [before + row] + Read(StartRecord, "", [], AfterNewline(tail), d)
    decreases |row|
  {
    if |row| == 1 {
      assert before + [row[0]] == before + row;
      CellReads(row[0], alone, mode, before, tail, d);
    } else {
      var more := Joined(row[1..], alone, d) + tail;
      var rest := [d] + more;
      assert rest[0] == d && rest[1..] == more;
      assert Joined(row, alone, d) + tail == Written(row[0], alone, d) + rest;
      CellReads(row[0], alone, mode, before, rest, d);
      assert Ended(before + [row[0]], rest, d) == Read(StartField, "", before + [row[0]], more, d);
      CellsRead(row[1..], alone, StartField, before + [row[0]], tail, d);
      assert before + [row[0]] + row[1..] == before + row;
    }
  }

  /** A record ends at a line feed, a carriage return, or both in that order. */
  lemma LineEnds(row: seq<string>, end: string, after: string, d: char)
    requires row != [] && IsDelimiter(d) && (end == "\n" || end == "\r\n" || end == "\r")
    requires end == "\r" ==> after == "" || after[0] != '\n'
    ensures ReadAll(Joined(row, |row| == 1, d) + (end + after), d) == [row] + ReadAll(after, d)
  {
    var tail := end + after;
    assert AfterNewline(tail) == after && [] + row == row;
    CellsRead(row, |row| == 1, StartRecord, [], tail, d);
  }

  lemma RecordReadsBack(row: seq<string>, after: string)
    ensures ReadAll(Record(row) + after, ',') == [row] + ReadAll(after, ',')
  {
    var tail := [CR, LF] + after;
    assert AfterNewline(tail) == after && [] + row == row;
    if row == [] {
      assert Record(row) + after == tail;
    } else {
      CellsRead(row, |row| == 1, StartRecord, [], tail, ',');
      assert Record(row) + after == Joined(row, |row| == 1, ',') + tail;
    }
  }

  /** Every list of records survives writing and reading, whatever its cells contain. */
  lemma {:induction false} RecordsReadBack(rows: seq<seq<string>>)
    ensures ReadAll(Records(rows), ',') == rows
  {
    if rows != [] {
      RecordsReadBack(rows[1..]);
      RecordReadsBack(rows[0], Records(rows[1..]));
      assert [rows[0]] + rows[1..] == rows;
    }
  }

  /** Text without any special character is one record of one cell. */
  lemma PlainLine(line: string, d: char)
    requires IsDelimiter(d) && line != "" && !NeedsQuotes(line, d)
    ensures ReadAll(line, d) == [[line]]
  {
    PlainCell(line, StartRecord, [], "", d);
    assert line + "" == line && [] + [line] == [line];
  }

  /** The last record of a text needs no line end. */
  lemma {:induction false} FinalRecord(row: seq<string>, mode: Mode, before: seq<string>, d: char)
    requires row != [] && IsDelimiter(d) && (mode.StartField? || mode.StartRecord?)
    requires forall i :: 0 <= i < |row| ==> row[i] != "" && !NeedsQuotes(row[i], d)
    ensures Read(mode, "", before, Joined(row, false, d), d) == [before + row]
    decreases |row|
  {
    if |row| == 1 {
      PlainCell(row[0], mode, before, "", d);
      assert row[0] + "" == row[0] && before + [row[0]] == before + row;
    } else {
      var rest := [d] + Joined(row[1..], false, d);
      assert Joined(row, false, d) == row[0] + rest;
      PlainCell(row[0], mode, before, rest, d);
      assert rest[0] == d && rest[1..] == Joined(row[1..], false, d);
      FinalRecord(row[1..], StartField, before + [row[0]], d);
      assert before + [row[0]] + row[1..] == before + row;
    }
  }
}
