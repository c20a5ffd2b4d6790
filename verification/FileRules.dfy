/**
 What an uploaded file is read as, stated over its text, the engine's fields and single cells: when the
 file is refused and why, which column each heading stands for, and which rows are kept or reported.
 */
module FileRules {
  import opened CsvCells
  import opened CsvFile
  import opened CsvText
  import opened Options

  // ---- blank text and the byte-order mark -----------------------------------------------------------------

  lemma StripIsEmptyIff(s: string)
    ensures Strip(s) == "" <==> AllSpace(s)
  {
    if AllSpace(s) {
      assert PaddedAt(s, "", 0) by {
        assert s[0..] == s;
      }
      StripPadded(s, "");
    } else {
      var i :| 0 <= i < |s| && !IsSpace(s[i]);
      StripKeepsSolid(s, i);
    }
  }

  /** The text of the file, without the mark some editors put in front. */
  predicate TextOf(data: string, text: string) {
    data == ['\U{FEFF}'] + text || (data == text && (text == "" || text[0] != '\U{FEFF}'))
  }

  lemma DecodeIs(data: string)
    ensures TextOf(data, Decode(data))
  {
    if data != "" && data[0] == BOM {
      assert data == [BOM] + data[1..];
    }
  }

  predicate LineBreak(c: char) {
    || c == '\n' || c == '\r' || c == '\U{B}' || c == '\U{C}' || c == '\U{1C}' || c == '\U{1D}' || c == '\U{1E}'
    || c == '\U{85}' || c == '\U{2028}' || c == '\U{2029}'
  }

  lemma LineBreakIs(c: char)
    ensures BreaksLine(c) <==> LineBreak(c)
  {
    var n := c as int;
    assert c == n as char;
  }

  /** A line of the text, from here on for so many characters, with nothing but blanks before it. */
  predicate LineAt(text: string, k: nat, n: nat) {
    && k + n <= |text| && AllSpace(text[..k]) && (k == 0 || LineBreak(text[k - 1]))
    && (forall i :: k <= i < k + n ==> !LineBreak(text[i])) && (k + n == |text| || LineBreak(text[k + n]))
  }

  lemma LineLengthIs(text: string)
    ensures var n := LineLength(text);
            LineAt(text, 0, n) && text[0..n] == text[..n] && (Strip(text[..n]) == "" <==> AllSpace(text[..n]))
  {
    var n := LineLength(text);
    forall i | 0 <= i < |text|
      ensures BreaksLine(text[i]) <==> LineBreak(text[i])
    {
      LineBreakIs(text[i]);
    }
    StripIsEmptyIff(text[..n]);
  }

  /** This is the first line that is not blank, or the last line of a blank text. */
  predicate Heads(text: string, line: string, k: nat) {
    LineAt(text, k, |line|) && line == text[k..k + |line|] && (AllSpace(line) ==> AllSpace(text))
  }

  lemma LaterHeads(text: string, n: nat, line: string, m: nat)
    requires n < |text| && AllSpace(text[..n]) && LineBreak(text[n]) && Heads(text[n + 1..], line, m)
    ensures Heads(text, line, n + 1 + m)
  {
    var rest := text[n + 1..];
    assert forall i :: 0 <= i < |rest| ==> rest[i] == text[n + 1 + i];
    assert forall i :: 0 <= i < m ==> rest[..m][i] == text[..n + 1 + m][n + 1 + i];
    assert forall i :: 0 <= i < n ==> text[..n][i] == text[..n + 1 + m][i];
    assert IsSpace(text[n]);
  }

  /** The search for the heading line ends here. */
  predicate EndsSearch(text: string) {
    LineLength(text) == |text| || Strip(text[..LineLength(text)]) != ""
  }

  lemma LineHeads(text: string)
    requires EndsSearch(text)
    ensures Heads(text, text[..LineLength(text)], 0)
  {
    LineLengthIs(text);
    assert LineLength(text) == |text| ==> text[..LineLength(text)] == text;
  }

  lemma SearchIs(text: string)
    ensures EndsSearch(text) ==> FirstLine(text) == text[..LineLength(text)]
    ensures !EndsSearch(text) ==>
      LineLength(text) < |text| && FirstLine(text) == FirstLine(text[LineLength(text) + 1..])
  {
  }

  lemma SkipsBlank(text: string, line: string, m: nat)
    requires !EndsSearch(text) && Heads(text[LineLength(text) + 1..], line, m)
    ensures Heads(text, line, LineLength(text) + 1 + m)
  {
    LineLengthIs(text);
    LaterHeads(text, LineLength(text), line, m);
  }

  /** The line the delimiter is judged by is the first that is not blank. */
  lemma {:induction false} FirstLineReads(text: string) returns (k: nat)
    ensures Heads(text, FirstLine(text), k)
    decreases |text|
  {
    SearchIs(text);
    if EndsSearch(text) {
      k := 0;
      LineHeads(text);
    } else {
      var rest := text[LineLength(text) + 1..];
      var m := FirstLineReads(rest);
      k := LineLength(text) + 1 + m;
      SkipsBlank(text, FirstLine(rest), m);
    }
  }

  // ---- headings -------------------------------------------------------------------------------------------

  /** The importable field a heading stands for: of several with the same words, the last. */
  ghost predicate Named(fields: seq<Field>, heading: string, f: Field) {
    exists i :: 0 <= i < |fields| && fields[i] == f && NamedAt(fields, heading, i)
  }

  ghost predicate NamedAt(fields: seq<Field>, heading: string, i: nat)
    requires i < |fields|
  {
    && fields[i].importable && NormalizeHeader(fields[i].header) == NormalizeHeader(heading)
    && forall j :: i < j < |fields| && fields[j].importable ==>
         NormalizeHeader(fields[j].header) != NormalizeHeader(heading)
  }

  ghost predicate StandsFor(fields: seq<Field>, heading: string, column: Option<Field>) {
    match column
    case Some(f) => Named(fields, heading, f)
    case None => forall i :: 0 <= i < |fields| && fields[i].importable ==>
      NormalizeHeader(fields[i].header) != NormalizeHeader(heading)
  }

  function Lookup(known: map<string, Field>, heading: string): Option<Field> {
    if NormalizeHeader(heading) in known then Some(known[NormalizeHeader(heading)]) else None
  }

  lemma {:induction false} ImportableSnoc(fields: seq<Field>, f: Field)
    ensures Importable(fields + [f]) == Importable(fields) + (if f.importable then [f] else [])
  {
    if fields != [] {
      assert (fields + [f])[1..] == fields[1..] + [f];
      ImportableSnoc(fields[1..], f);
    }
  }

  lemma StandsForSnoc(fields: seq<Field>, f: Field, heading: string, column: Option<Field>)
    ensures StandsFor(fields + [f], heading, column) <==>
      if f.importable && NormalizeHeader(f.header) == NormalizeHeader(heading) then column == Some(f)
      else StandsFor(fields, heading, column)
  {
    var all := fields + [f];
    assert all[|fields|] == f && forall i :: 0 <= i < |fields| ==> all[i] == fields[i];
    if f.importable && NormalizeHeader(f.header) == NormalizeHeader(heading) {
      assert NamedAt(all, heading, |fields|);
    } else if column.Some? {
      if Named(fields, heading, column.value) {
        var i :| 0 <= i < |fields| && fields[i] == column.value && NamedAt(fields, heading, i);
        assert NamedAt(all, heading, i);
      }
      if Named(all, heading, column.value) {
        var i :| 0 <= i < |all| && all[i] == column.value && NamedAt(all, heading, i);
        assert i < |fields| && NamedAt(fields, heading, i);
      }
    }
  }

  lemma ByHeaderSnoc(fields: seq<Field>, f: Field)
    ensures ByHeader(fields + [f]) == ByHeader(fields)[NormalizeHeader(f.header) := f]
  {
    assert (fields + [f])[..|fields|] == fields;
  }

  /** The heading map finds exactly the field a heading stands for. */
  lemma {:induction false} LookupIs(fields: seq<Field>, heading: string, column: Option<Field>)
    ensures column == Lookup(ByHeader(Importable(fields)), heading) <==> StandsFor(fields, heading, column)
  {
    if fields != [] {
      var before, f := fields[..|fields| - 1], fields[|fields| - 1];
      assert fields == before + [f];
      LookupIs(before, heading, column);
      ImportableSnoc(before, f);
      assert Importable(before) + [] == Importable(before);
      StandsForSnoc(before, f, heading, column);
      ByHeaderSnoc(Importable(before), f);
    }
  }

  /** The columns of a heading row. */
  ghost predicate ColumnsAre(fields: seq<Field>, cells: seq<string>, columns: seq<Option<Field>>) {
    |columns| == |cells| && forall i :: 0 <= i < |cells| ==> StandsFor(fields, cells[i], columns[i])
  }

  /** Two columns of the row are the same one. */
  predicate Repeats(columns: seq<Option<Field>>) {
    exists i, j :: 0 <= i < j < |columns| && SameColumn(columns, i, j)
  }

  predicate SameColumn(columns: seq<Option<Field>>, i: nat, j: nat)
    requires i < |columns| && j < |columns|
  {
    columns[i].Some? && columns[j].Some? && columns[i].value.key == columns[j].value.key
  }

  predicate HasKey(columns: seq<Option<Field>>, key: string) {
    exists i :: 0 <= i < |columns| && columns[i].Some? && columns[i].value.key == key
  }

  function Looked(known: map<string, Field>, cells: seq<string>): seq<Option<Field>> {
    seq(|cells|, i requires 0 <= i < |cells| => Lookup(known, cells[i]))
  }

  lemma RepeatsSnoc(columns: seq<Option<Field>>, column: Option<Field>)
    ensures Repeats(columns + [column])
            <==> Repeats(columns) || (column.Some? && HasKey(columns, column.value.key))
  {
    var all := columns + [column];
    if i, j :| 0 <= i < j < |columns| && SameColumn(columns, i, j) {
      assert SameColumn(all, i, j);
    }
    if column.Some? && HasKey(columns, column.value.key) {
      var i :| 0 <= i < |columns| && columns[i].Some? && columns[i].value.key == column.value.key;
      assert SameColumn(all, i, |columns|);
    }
    if i, j :| 0 <= i < j < |all| && SameColumn(all, i, j) {
      if j < |columns| {
        assert SameColumn(columns, i, j);
      } else {
        assert columns[i] == all[i];
      }
    }
  }

  lemma HasKeySnoc(columns: seq<Option<Field>>, column: Option<Field>, key: string)
    ensures HasKey(columns + [column], key) <==> HasKey(columns, key) || (column.Some? && column.value.key == key)
  {
    var all := columns + [column];
    if i :| 0 <= i < |columns| && columns[i].Some? && columns[i].value.key == key {
      assert all[i] == columns[i];
    }
    if column.Some? && column.value.key == key {
      assert all[|columns|] == column;
    }
  }

  /** The heading scan finds every column, and stops at a repeated one. */
  lemma {:induction false} ScanIs(cells: seq<string>, known: map<string, Field>)
    ensures ScanHeader(cells, known).Twice? <==> Repeats(Looked(known, cells))
    ensures var scan := ScanHeader(cells, known);
            scan.Heading? ==>
              && scan.columns == Looked(known, cells)
              && forall key :: key in scan.present <==> HasKey(scan.columns, key)
  {
    if cells != [] {
      var before, last := cells[..|cells| - 1], cells[|cells| - 1];
      ScanIs(before, known);
      var columns := Looked(known, before);
      assert Looked(known, cells) == columns + [Lookup(known, last)];
      RepeatsSnoc(columns, Lookup(known, last));
      forall key
        ensures HasKey(Looked(known, cells), key)
                <==> HasKey(columns, key) || (Lookup(known, last).Some? && Lookup(known, last).value.key == key)
      {
        HasKeySnoc(columns, Lookup(known, last), key);
      }
    }
  }

  // ---- rows -----------------------------------------------------------------------------------------------

  /** The cell under a column; a short row has blank ones. */
  function CellUnder(cells: seq<string>, j: nat): string {
    if j < |cells| then cells[j] else ""
  }

  predicate Blank(cells: seq<string>) {
    forall i :: 0 <= i < |cells| ==> AllSpace(cells[i])
  }

  ghost predicate GoodAt(lib: Library, columns: seq<Option<Field>>, cells: seq<string>, j: nat)
    requires j < |columns|
  {
    columns[j].Some? && Coerce(lib, columns[j].value, CellUnder(cells, j)).Good?
  }

  ghost predicate BadAt(lib: Library, columns: seq<Option<Field>>, cells: seq<string>, j: nat, rowNo: nat, issue: Issue)
    requires j < |columns|
  {
    && columns[j].Some? && Coerce(lib, columns[j].value, CellUnder(cells, j)).Bad?
    && issue == Issue(rowNo, columns[j].value.header, Coerce(lib, columns[j].value, CellUnder(cells, j)).fault)
  }

  /** A row's values: one for each column the engine knows, as its cell reads. */
  ghost predicate ValuesAre(lib: Library, columns: seq<Option<Field>>, cells: seq<string>, values: map<string, Value>) {
    && (forall key :: key in values ==> HasKey(columns, key))
    && (forall j :: 0 <= j < |columns| && GoodAt(lib, columns, cells, j) ==>
          columns[j].value.key in values
          && values[columns[j].value.key] == Coerce(lib, columns[j].value, CellUnder(cells, j)).value)
  }

  ghost predicate IssueOf(lib: Library, columns: seq<Option<Field>>, cells: seq<string>, rowNo: nat, issue: Issue) {
    exists j :: 0 <= j < |columns| && BadAt(lib, columns, cells, j, rowNo, issue)
  }

  lemma {:induction false} RowIs(lib: Library, columns: seq<Option<Field>>, cells: seq<string>, rowNo: nat)
    requires !Repeats(columns)
    ensures ValuesAre(lib, columns, cells, ReadRow(lib, columns, cells, rowNo).0)
    ensures forall issue :: issue in ReadRow(lib, columns, cells, rowNo).1
                            <==> IssueOf(lib, columns, cells, rowNo, issue)
    decreases |columns|
  {
    if columns != [] {
      var before, last := columns[..|columns| - 1], columns[|columns| - 1];
      assert columns == before + [last];
      RepeatsSnoc(before, last);
      RowIs(lib, before, cells, rowNo);
      RowValuesNext(lib, before, last, cells, rowNo);
      forall issue
        ensures issue in ReadRow(lib, columns, cells, rowNo).1 <==> IssueOf(lib, columns, cells, rowNo, issue)
      {
        RowIssuesNext(lib, before, last, cells, rowNo, issue);
      }
    }
  }

  lemma RowValuesNext(lib: Library, before: seq<Option<Field>>, last: Option<Field>, cells: seq<string>, rowNo: nat)
    requires !Repeats(before + [last]) && ValuesAre(lib, before, cells, ReadRow(lib, before, cells, rowNo).0)
    ensures ValuesAre(lib, before + [last], cells, ReadRow(lib, before + [last], cells, rowNo).0)
  {
    var columns := before + [last];
    assert columns[..|before|] == before;
    RepeatsSnoc(before, last);
    var values := ReadRow(lib, columns, cells, rowNo).0;
    forall key | key in values
      ensures HasKey(columns, key)
    {
      HasKeySnoc(before, last, key);
    }
    forall j | 0 <= j < |columns| && GoodAt(lib, columns, cells, j)
      ensures columns[j].value.key in values
      ensures values[columns[j].value.key] == Coerce(lib, columns[j].value, CellUnder(cells, j)).value
    {
      if j < |before| {
        assert GoodAt(lib, before, cells, j) && before[j] == columns[j];
        assert HasKey(before, columns[j].value.key);
      }
    }
  }

  lemma IssueOfSnoc(lib: Library, before: seq<Option<Field>>, last: Option<Field>, cells: seq<string>, rowNo: nat,
                    issue: Issue)
    ensures IssueOf(lib, before + [last], cells, rowNo, issue)
            <==> IssueOf(lib, before, cells, rowNo, issue)
                 || BadAt(lib, before + [last], cells, |before|, rowNo, issue)
  {
    var columns := before + [last];
    if j :| 0 <= j < |before| && BadAt(lib, before, cells, j, rowNo, issue) {
      assert BadAt(lib, columns, cells, j, rowNo, issue);
    }
    if j :| 0 <= j < |columns| && BadAt(lib, columns, cells, j, rowNo, issue) {
      assert j < |before| ==> BadAt(lib, before, cells, j, rowNo, issue);
    }
  }

  lemma RowIssuesNext(lib: Library, before: seq<Option<Field>>, last: Option<Field>, cells: seq<string>, rowNo: nat,
                      issue: Issue)
    requires issue in ReadRow(lib, before, cells, rowNo).1 <==> IssueOf(lib, before, cells, rowNo, issue)
    ensures issue in ReadRow(lib, before + [last], cells, rowNo).1
            <==> IssueOf(lib, before + [last], cells, rowNo, issue)
  {
    assert (before + [last])[..|before|] == before;
    IssueOfSnoc(lib, before, last, cells, rowNo, issue);
  }

  // ---- the rows of a file -----------------------------------------------------------------------------------

  /** The i-th data row is kept, under its line number, with its values. */
  ghost predicate KeptAt(lib: Library, columns: seq<Option<Field>>, records: seq<seq<string>>, i: nat, row: ParsedRow)
    requires i < |records|
  {
    && !Blank(records[i]) && row.row == i + 2 && ValuesAre(lib, columns, records[i], row.values)
    && forall j :: 0 <= j < |columns| && columns[j].Some? ==> GoodAt(lib, columns, records[i], j)
  }

  /** The rows kept are the sound ones, in their order. */
  ghost predicate RowsRead(lib: Library, columns: seq<Option<Field>>, records: seq<seq<string>>, rows: seq<ParsedRow>) {
    && (forall k :: 0 <= k < |rows| ==>
          2 <= rows[k].row < |records| + 2 && KeptAt(lib, columns, records, rows[k].row - 2, rows[k]))
    && (forall k, l :: 0 <= k < l < |rows| ==> rows[k].row < rows[l].row)
    && (forall i :: 0 <= i < |records| && Sound(lib, columns, records[i]) ==> RowKept(rows, i + 2))
  }

  /** The sound rows are kept, and the cells that cannot be read are reported. */
  ghost predicate BodyReads(lib: Library, columns: seq<Option<Field>>, records: seq<seq<string>>, body: Body) {
    && RowsRead(lib, columns, records, body.rows)
    && (forall issue :: issue in body.issues <==> IssueIn(lib, columns, records, issue))
    && body.seen == |Filled(records)|
  }

  ghost predicate Sound(lib: Library, columns: seq<Option<Field>>, cells: seq<string>) {
    !Blank(cells) && forall j :: 0 <= j < |columns| && columns[j].Some? ==> GoodAt(lib, columns, cells, j)
  }

  ghost predicate RowKept(rows: seq<ParsedRow>, number: nat) {
    exists k :: 0 <= k < |rows| && rows[k].row == number
  }

  ghost predicate IssueIn(lib: Library, columns: seq<Option<Field>>, records: seq<seq<string>>, issue: Issue) {
    exists i :: 0 <= i < |records| && !Blank(records[i]) && IssueOf(lib, columns, records[i], i + 2, issue)
  }

  ghost function Filled(records: seq<seq<string>>): set<nat> {
    set i | 0 <= i < |records| && !Blank(records[i])
  }

  lemma BlankIs(cells: seq<string>)
    ensures BlankRow(cells) <==> Blank(cells)
  {
    forall i | 0 <= i < |cells|
      ensures Strip(cells[i]) == "" <==> AllSpace(cells[i])
    {
      StripIsEmptyIff(cells[i]);
    }
  }

  lemma FilledSnoc(records: seq<seq<string>>, record: seq<string>)
    ensures |Filled(records + [record])| == |Filled(records)| + (if Blank(record) then 0 else 1)
  {
    var all := records + [record];
    assert all[|records|] == record && forall i :: 0 <= i < |records| ==> all[i] == records[i];
    assert Filled(all) == Filled(records) + (if Blank(record) then {} else {|records|});
  }

  lemma IssueInSnoc(lib: Library, columns: seq<Option<Field>>, records: seq<seq<string>>, record: seq<string>,
                    issue: Issue)
    ensures IssueIn(lib, columns, records + [record], issue)
            <==> IssueIn(lib, columns, records, issue)
                 || (!Blank(record) && IssueOf(lib, columns, record, |records| + 2, issue))
  {
    var all := records + [record];
    assert all[|records|] == record;
    if i :| 0 <= i < |records| && !Blank(records[i]) && IssueOf(lib, columns, records[i], i + 2, issue) {
      assert all[i] == records[i];
    }
    if i :| 0 <= i < |all| && !Blank(all[i]) && IssueOf(lib, columns, all[i], i + 2, issue) {
      assert i < |records| ==> all[i] == records[i];
    }
  }

  /** A row without issues is sound. */
  lemma SoundIs(lib: Library, columns: seq<Option<Field>>, cells: seq<string>, rowNo: nat)
    requires !Repeats(columns)
    ensures ReadRow(lib, columns, cells, rowNo).1 == []
            <==> forall j :: 0 <= j < |columns| && columns[j].Some? ==> GoodAt(lib, columns, cells, j)
  {
    RowIs(lib, columns, cells, rowNo);
    var issues := ReadRow(lib, columns, cells, rowNo).1;
    if issues != [] {
      assert issues[0] in issues;
    }
    forall j | 0 <= j < |columns| && columns[j].Some? && !GoodAt(lib, columns, cells, j)
      ensures issues != []
    {
      var issue := Issue(rowNo, columns[j].value.header, Coerce(lib, columns[j].value, CellUnder(cells, j)).fault);
      assert BadAt(lib, columns, cells, j, rowNo, issue);
      assert issue in issues;
    }
  }

  lemma {:induction false} BodyIs(lib: Library, columns: seq<Option<Field>>, records: seq<seq<string>>)
    requires !Repeats(columns)
    ensures BodyReads(lib, columns, records, ReadBody(lib, columns, records))
  {
    if records != [] {
      var n := |records| - 1;
      assert records == records[..n] + [records[n]];
      BodyIs(lib, columns, records[..n]);
      BodyNext(lib, columns, records[..n], records[n]);
    }
  }

  lemma KeptStays(lib: Library, columns: seq<Option<Field>>, records: seq<seq<string>>, record: seq<string>,
                  rows: seq<ParsedRow>, k: nat)
    requires k < |rows| && 2 <= rows[k].row < |records| + 2
    requires KeptAt(lib, columns, records, rows[k].row - 2, rows[k])
    ensures KeptAt(lib, columns, records + [record], rows[k].row - 2, rows[k])
  {
    assert (records + [record])[rows[k].row - 2] == records[rows[k].row - 2];
  }

  lemma BodyNext(lib: Library, columns: seq<Option<Field>>, records: seq<seq<string>>, record: seq<string>)
    requires !Repeats(columns) && BodyReads(lib, columns, records, ReadBody(lib, columns, records))
    ensures BodyReads(lib, columns, records + [record], ReadBody(lib, columns, records + [record]))
  {
    var all, n := records + [record], |records|;
    var was, now := ReadBody(lib, columns, records), ReadBody(lib, columns, all);
    assert all[..n] == records && all[n] == record;
    BlankIs(record);
    FilledSnoc(records, record);
    RowIs(lib, columns, record, n + 2);
    SoundIs(lib, columns, record, n + 2);
    forall issue
      ensures issue in now.issues <==> IssueIn(lib, columns, all, issue)
    {
      IssueInSnoc(lib, columns, records, record, issue);
    }
    RowsNext(lib, columns, records, record);
  }

  lemma SameRows(lib: Library, columns: seq<Option<Field>>, records: seq<seq<string>>, record: seq<string>,
                 rows: seq<ParsedRow>)
    requires RowsRead(lib, columns, records, rows) && !Sound(lib, columns, record)
    ensures RowsRead(lib, columns, records + [record], rows)
  {
    var all := records + [record];
    assert all[|records|] == record && forall i :: 0 <= i < |records| ==> all[i] == records[i];
    forall k | 0 <= k < |rows|
      ensures KeptAt(lib, columns, all, rows[k].row - 2, rows[k])
    {
      KeptStays(lib, columns, records, record, rows, k);
    }
  }

  lemma OneMoreKept(lib: Library, columns: seq<Option<Field>>, records: seq<seq<string>>, record: seq<string>,
                    was: seq<ParsedRow>, row: ParsedRow, k: nat)
    requires RowsRead(lib, columns, records, was) && row.row == |records| + 2
    requires Sound(lib, columns, record) && ValuesAre(lib, columns, record, row.values) && k <= |was|
    ensures var all, rows := records + [record], was + [row];
            2 <= rows[k].row < |all| + 2 && KeptAt(lib, columns, all, rows[k].row - 2, rows[k])
  {
    if k < |was| {
      KeptStays(lib, columns, records, record, was, k);
    }
  }

  lemma OneMoreFound(lib: Library, columns: seq<Option<Field>>, records: seq<seq<string>>, record: seq<string>,
                     was: seq<ParsedRow>, row: ParsedRow, i: nat)
    requires RowsRead(lib, columns, records, was) && row.row == |records| + 2 && i <= |records|
    requires Sound(lib, columns, (records + [record])[i])
    ensures RowKept(was + [row], i + 2)
  {
    var rows := was + [row];
    if i < |records| {
      assert (records + [record])[i] == records[i] && RowKept(was, i + 2);
      var k :| 0 <= k < |was| && was[k].row == i + 2;
      assert rows[k] == was[k];
    } else {
      assert rows[|was|] == row;
    }
  }

  lemma MoreRows(lib: Library, columns: seq<Option<Field>>, records: seq<seq<string>>, record: seq<string>,
                 was: seq<ParsedRow>, row: ParsedRow)
    requires RowsRead(lib, columns, records, was) && row.row == |records| + 2
    requires Sound(lib, columns, record) && ValuesAre(lib, columns, record, row.values)
    ensures RowsRead(lib, columns, records + [record], was + [row])
  {
    var all, rows := records + [record], was + [row];
    forall k | 0 <= k < |rows|
      ensures 2 <= rows[k].row < |all| + 2 && KeptAt(lib, columns, all, rows[k].row - 2, rows[k])
    {
      OneMoreKept(lib, columns, records, record, was, row, k);
    }
    forall i | 0 <= i < |all| && Sound(lib, columns, all[i])
      ensures RowKept(rows, i + 2)
    {
      OneMoreFound(lib, columns, records, record, was, row, i);
    }
    RowsOrdered(lib, columns, records, was, row);
  }

  lemma RowsOrdered(lib: Library, columns: seq<Option<Field>>, records: seq<seq<string>>,
                    was: seq<ParsedRow>, row: ParsedRow)
    requires RowsRead(lib, columns, records, was) && row.row == |records| + 2
    ensures forall k, l :: 0 <= k < l < |was + [row]| ==> (was + [row])[k].row < (was + [row])[l].row
  {
  }

  lemma RowsSnoc(lib: Library, columns: seq<Option<Field>>, records: seq<seq<string>>, record: seq<string>)
    requires !Repeats(columns)
    ensures var was, number := ReadBody(lib, columns, records).rows, |records| + 2;
            ReadBody(lib, columns, records + [record]).rows
            == if Sound(lib, columns, record)
               then was + [ParsedRow(number, ReadRow(lib, columns, record, number).0)] else was
  {
    assert (records + [record])[..|records|] == records;
    BlankIs(record);
    SoundIs(lib, columns, record, |records| + 2);
  }

  lemma RowsNext(lib: Library, columns: seq<Option<Field>>, records: seq<seq<string>>, record: seq<string>)
    requires !Repeats(columns) && RowsRead(lib, columns, records, ReadBody(lib, columns, records).rows)
    ensures RowsRead(lib, columns, records + [record], ReadBody(lib, columns, records + [record]).rows)
  {
    var was, number := ReadBody(lib, columns, records).rows, |records| + 2;
    RowsSnoc(lib, columns, records, record);
    RowIs(lib, columns, record, number);
    if Sound(lib, columns, record) {
      MoreRows(lib, columns, records, record, was, ParsedRow(number, ReadRow(lib, columns, record, number).0));
    } else {
      SameRows(lib, columns, records, record, was);
    }
  }

  // ---- the whole file -----------------------------------------------------------------------------------------

  /** The records of a file under the delimiter that its heading line favours. */
  ghost function RecordsOf(text: string, fields: seq<Field>): seq<seq<string>> {
    ReadAll(text, DELIMITERS[BestOf(FirstLine(text), ByHeader(Importable(fields)), |DELIMITERS|)])
  }

  predicate AllRequired(fields: seq<Field>, columns: seq<Option<Field>>) {
    forall i :: 0 <= i < |fields| && fields[i].importable && fields[i].required ==> HasKey(columns, fields[i].key)
  }

  /** What a file with a heading row is refused for. */
  ghost predicate RefusedFor(records: seq<seq<string>>, columns: seq<Option<Field>>, fields: seq<Field>, maxRows: nat,
                             result: Parsed)
    requires records != []
  {
    && (result == Unusable(TwiceNamed) <==> Repeats(columns))
    && (result == Unusable(MissingRequired) <==> !Repeats(columns) && !AllRequired(fields, columns))
    && (result == Unusable(NothingKnown) <==> !Repeats(columns) && AllRequired(fields, columns) && AllNone(columns))
    && (result == Unusable(TooManyRows) <==>
          !Repeats(columns) && AllRequired(fields, columns) && !AllNone(columns) && |Filled(records[1..])| > maxRows)
  }

  predicate AllNone(columns: seq<Option<Field>>) {
    forall i :: 0 <= i < |columns| ==> columns[i] == None
  }

  /** What a file is read as. */
  ghost predicate FileReads(lib: Library, text: string, records: seq<seq<string>>, columns: seq<Option<Field>>,
                            fields: seq<Field>, maxRows: nat, result: Parsed) {
    && (result == Unusable(EmptyFile) <==> AllSpace(text))
    && (result == Unusable(NoHeader) <==> !AllSpace(text) && records == [])
    && (!AllSpace(text) && records != [] ==>
          ColumnsAre(fields, records[0], columns) && RefusedFor(records, columns, fields, maxRows, result))
    && (result.Parsed? ==>
          && records != [] && (forall key :: key in result.present <==> HasKey(columns, key))
          && BodyReads(lib, columns, records[1..], Body(result.rows, result.issues, result.seenRows)))
  }

  lemma NothingPresent(columns: seq<Option<Field>>, present: seq<string>)
    requires forall key :: key in present <==> HasKey(columns, key)
    ensures present == [] <==> AllNone(columns)
  {
    if present != [] {
      assert present[0] in present;
    }
    if i :| 0 <= i < |columns| && columns[i] != None {
      assert HasKey(columns, columns[i].value.key);
    }
  }

  lemma LookedAre(fields: seq<Field>, cells: seq<string>)
    ensures ColumnsAre(fields, cells, Looked(ByHeader(Importable(fields)), cells))
  {
    forall i | 0 <= i < |cells|
      ensures StandsFor(fields, cells[i], Lookup(ByHeader(Importable(fields)), cells[i]))
    {
      LookupIs(fields, cells[i], Lookup(ByHeader(Importable(fields)), cells[i]));
    }
  }

  /**
   A file is refused for the first of these that holds: it is blank, has no heading row, names a column
   twice, lacks a required one, has none the engine knows, or has too many rows. Otherwise its sound rows
   are kept in order, and exactly the cells that cannot be read are reported.
   */
  lemma ParseIs(lib: Library, data: string, fields: seq<Field>, maxRows: nat)
    returns (text: string, columns: seq<Option<Field>>)
    ensures TextOf(data, text)
    ensures FileReads(lib, text, RecordsOf(text, fields), columns, fields, maxRows, ParseOf(lib, data, fields, maxRows))
  {
    DecodeIs(data);
    text, columns := Decode(data), [];
    StripIsEmptyIff(text);
    var records := RecordsOf(text, fields);
    if !AllSpace(text) && records != [] {
      columns := Looked(ByHeader(Importable(fields)), records[0]);
      LookedAre(fields, records[0]);
      HeadedIs(lib, records, fields, maxRows);
    }
  }

  /** From the heading row on. */
  function Headed(lib: Library, records: seq<seq<string>>, fields: seq<Field>, maxRows: nat): Parsed
    requires records != []
  {
    match ScanHeader(records[0], ByHeader(Importable(fields)))
    case Twice => Unusable(TwiceNamed)
    case Heading(columns, present, unknown) =>
      if !HasRequired(fields, present) then Unusable(MissingRequired)
      else if present == [] then Unusable(NothingKnown)
      else
        var body := ReadBody(lib, columns, records[1..]);
        if body.seen > maxRows then Unusable(TooManyRows)
        else Parsed(body.rows, body.issues, body.seen, present, unknown)
  }

  lemma HeadedIs(lib: Library, records: seq<seq<string>>, fields: seq<Field>, maxRows: nat)
    requires records != []
    ensures var columns, result := Looked(ByHeader(Importable(fields)), records[0]), Headed(lib, records, fields, maxRows);
            && RefusedFor(records, columns, fields, maxRows, result)
            && (result.Parsed? ==>
                  && (forall key :: key in result.present <==> HasKey(columns, key))
                  && BodyReads(lib, columns, records[1..], Body(result.rows, result.issues, result.seenRows)))
  {
    var known := ByHeader(Importable(fields));
    ScanIs(records[0], known);
    if ScanHeader(records[0], known).Heading? {
      NothingPresent(Looked(known, records[0]), ScanHeader(records[0], known).present);
      BodyIs(lib, Looked(known, records[0]), records[1..]);
    }
  }
}
