/** Whole files: exporting rows under their headings, and reading an uploaded file back. */
module CsvFile {
  import opened CsvCells
  import opened CsvText
  import opened Options

  const BOM: char := '\U{FEFF}'

  type Row = map<string, Value>

  function ValueOf(row: Row, key: string): Value {
    if key in row then row[key] else Nothing
  }

  // ---- writing ---------------------------------------------------------------------------------------

  function Headings(fields: seq<Field>): seq<string> {
    seq(|fields|, i requires 0 <= i < |fields| => fields[i].header)
  }

  function CellsOf(lib: Library, fields: seq<Field>, row: Row): seq<string> {
    seq(|fields|, i requires 0 <= i < |fields| => FormatCell(lib, fields[i], ValueOf(row, fields[i].key)))
  }

  function AllCells(lib: Library, fields: seq<Field>, rows: seq<Row>): seq<seq<string>> {
    seq(|rows|, i requires 0 <= i < |rows| => CellsOf(lib, fields, rows[i]))
  }

  function ExportText(lib: Library, fields: seq<Field>, rows: seq<Row>): string {
    [BOM] + Record(Headings(fields)) + Records(AllCells(lib, fields, rows))
  }

  // ---- reading ---------------------------------------------------------------------------------------

  datatype FormatFault = EmptyFile | NoHeader | TwiceNamed | MissingRequired | NothingKnown | TooManyRows

  datatype Issue = Issue(row: nat, column: string, fault: CellFault)

  datatype ParsedRow = ParsedRow(row: nat, values: map<string, Value>)

  datatype Parsed =
    | Parsed(rows: seq<ParsedRow>, issues: seq<Issue>, seenRows: nat, present: seq<string>, unknown: seq<string>)
    | Unusable(fault: FormatFault)

  function Decode(data: string): string {
    if data != "" && data[0] == BOM then data[1..] else data
  }

  /** The characters that end a line for the search of the heading line. */
  predicate BreaksLine(c: char) {
    var n := c as int;
    10 <= n <= 13 || 28 <= n <= 30 || n == 0x85 || n == 0x2028 || n == 0x2029
  }

  function LineLength(text: string): (n: nat)
    ensures n <= |text|
    ensures forall i :: 0 <= i < n ==> !BreaksLine(text[i])
    ensures n < |text| ==> BreaksLine(text[n])
  {
    if text == "" || BreaksLine(text[0]) then 0 else 1 + LineLength(text[1..])
  }

  /** The first line that is not blank. */
  function FirstLine(text: string): string
    decreases |text|
  {
    var n := LineLength(text);
    if Strip(text[..n]) != "" || n == |text| then text[..n] else FirstLine(text[n + 1..])
  }

  function Importable(fields: seq<Field>): seq<Field> {
    if fields == [] then []
    else (if fields[0].importable then [fields[0]] else []) + Importable(fields[1..])
  }

  /** Columns by normalised heading; of two with the same, the later wins. */
  function ByHeader(fields: seq<Field>): map<string, Field> {
    if fields == [] then map[]
    else ByHeader(fields[..|fields| - 1])[NormalizeHeader(fields[|fields| - 1].header) := fields[|fields| - 1]]
  }

  function Known(cells: seq<string>, known: map<string, Field>): nat {
    if cells == [] then 0
    else (if NormalizeHeader(cells[0]) in known then 1 else 0) + Known(cells[1..], known)
  }

  function Score(line: string, delimiter: char, known: map<string, Field>): nat {
    var records := ReadAll(line, delimiter);
    if records == [] then 0 else Known(records[0], known)
  }

  const DELIMITERS: seq<char> := [',', ';', '\t', '|']

  /** Among the first `n` candidates, the one that resolves the most headings; ties go to the earlier. */
  function BestOf(line: string, known: map<string, Field>, n: nat): (b: nat)
    requires 1 <= n <= |DELIMITERS|
    ensures b < n
    ensures forall j :: 0 <= j < n ==> Score(line, DELIMITERS[j], known) <= Score(line, DELIMITERS[b], known)
    ensures forall j :: 0 <= j < b ==> Score(line, DELIMITERS[j], known) < Score(line, DELIMITERS[b], known)
  {
    if n == 1 then 0 else
    var b := BestOf(line, known, n - 1);
    if Score(line, DELIMITERS[n - 1], known) > Score(line, DELIMITERS[b], known) then n - 1 else b
  }

  method PickDelimiter(line: string, known: map<string, Field>) returns (best: char)
    ensures best == DELIMITERS[BestOf(line, known, |DELIMITERS|)]
  {
    best := ',';
    var bestScore: int := -1;
    for i := 0 to |DELIMITERS|
      invariant i == 0 ==> bestScore == -1
      invariant i > 0 ==>
        && best == DELIMITERS[BestOf(line, known, i)]
        && bestScore == Score(line, best, known)
    {
      var score := Score(line, DELIMITERS[i], known);
      if score > bestScore {
        best, bestScore := DELIMITERS[i], score;
      }
    }
  }

  /** What the heading row says: per column its field, if any. */
  datatype Heading = Heading(columns: seq<Option<Field>>, present: seq<string>, unknown: seq<string>) | Twice

  function ScanHeader(cells: seq<string>, byHeader: map<string, Field>): Heading {
    if cells == [] then Heading([], [], []) else
    var last := cells[|cells| - 1];
    match ScanHeader(cells[..|cells| - 1], byHeader)
    case Twice => Twice
    case Heading(columns, present, unknown) =>
      var name := NormalizeHeader(last);
      if name !in byHeader then
        Heading(columns + [None], present, if Strip(last) != "" then unknown + [Strip(last)] else unknown)
      else if byHeader[name].key in present then Twice
      else Heading(columns + [Some(byHeader[name])], present + [byHeader[name].key], unknown)
  }

  predicate HasRequired(fields: seq<Field>, present: seq<string>) {
    forall i :: 0 <= i < |fields| && fields[i].importable && fields[i].required ==> fields[i].key in present
  }

  predicate BlankRow(cells: seq<string>) {
    forall i :: 0 <= i < |cells| ==> Strip(cells[i]) == ""
  }

  function CellAt(cells: seq<string>, i: nat): string {
    if i < |cells| then cells[i] else ""
  }

  /** One data row: its values, and an issue per cell that cannot be read. */
  function ReadRow(lib: Library, columns: seq<Option<Field>>, cells: seq<string>, rowNo: nat)
    : (map<string, Value>, seq<Issue>)
  {
    if columns == [] then (map[], []) else
    var n := |columns| - 1;
    var (values, issues) := ReadRow(lib, columns[..n], cells, rowNo);
    if columns[n].None? then (values, issues) else
    var f := columns[n].value;
    match Coerce(lib, f, CellAt(cells, n))
    case Good(value) => (values[f.key := value], issues)
    case Bad(fault) => (values, issues + [Issue(rowNo, f.header, fault)])
  }

  /** The data rows, in order; blank rows are skipped, a row with any bad cell is held back. */
  datatype Body = Body(rows: seq<ParsedRow>, issues: seq<Issue>, seen: nat)

  function ReadBody(lib: Library, columns: seq<Option<Field>>, records: seq<seq<string>>): Body {
    if records == [] then Body([], [], 0) else
    var n := |records| - 1;
    var before := ReadBody(lib, columns, records[..n]);
    if BlankRow(records[n]) then before else
    var (values, issues) := ReadRow(lib, columns, records[n], n + 2);
    Body(if issues == [] then before.rows + [ParsedRow(n + 2, values)] else before.rows,
         before.issues + issues, before.seen + 1)
  }

  lemma {:induction false} SeenGrows(lib: Library, columns: seq<Option<Field>>, records: seq<seq<string>>, n: nat)
    requires n <= |records|
    ensures ReadBody(lib, columns, records[..n]).seen <= ReadBody(lib, columns, records).seen
    decreases |records|
  {
    if n < |records| {
      SeenGrows(lib, columns, records[..|records| - 1], n);
      assert records[..|records| - 1][..n] == records[..n];
    } else {
      assert records[..n] == records;
    }
  }

  function ParseOf(lib: Library, data: string, fields: seq<Field>, maxRows: nat): Parsed {
    var text := Decode(data);
    var byHeader := ByHeader(Importable(fields));
    if Strip(text) == "" then Unusable(EmptyFile) else
    var records := ReadAll(text, DELIMITERS[BestOf(FirstLine(text), byHeader, |DELIMITERS|)]);
    if records == [] then Unusable(NoHeader) else
    match ScanHeader(records[0], byHeader)
    case Twice => Unusable(TwiceNamed)
    case Heading(columns, present, unknown) =>
      if !HasRequired(fields, present) then Unusable(MissingRequired)
      else if present == [] then Unusable(NothingKnown)
      else
        var body := ReadBody(lib, columns, records[1..]);
        if body.seen > maxRows then Unusable(TooManyRows)
        else Parsed(body.rows, body.issues, body.seen, present, unknown)
  }

  method Parse(lib: Library, data: string, fields: seq<Field>, maxRows: nat) returns (result: Parsed)
    ensures result == ParseOf(lib, data, fields, maxRows)
  {
    var byHeader := ByHeader(Importable(fields));
    var text := Decode(data);
    if Strip(text) == "" {
      return Unusable(EmptyFile);
    }
    var delimiter := PickDelimiter(FirstLine(text), byHeader);
    var records := ReadAll(text, delimiter);
    if records == [] {
      return Unusable(NoHeader);
    }
    var scan := ReadHeading(records[0], byHeader);
    if scan.Twice? {
      return Unusable(TwiceNamed);
    }
    if !HasRequired(fields, scan.present) {
      return Unusable(MissingRequired);
    }
    if scan.present == [] {
      return Unusable(NothingKnown);
    }
    var rows, issues, seen, tooMany := ReadRows(lib, scan.columns, records[1..], maxRows);
    result := if tooMany then Unusable(TooManyRows)
              else Parsed(rows, issues, seen, scan.present, scan.unknown);
  }

  method ReadRows(lib: Library, columns: seq<Option<Field>>, records: seq<seq<string>>, maxRows: nat)
    returns (rows: seq<ParsedRow>, issues: seq<Issue>, seen: nat, tooMany: bool)
    ensures tooMany <==> ReadBody(lib, columns, records).seen > maxRows
    ensures !tooMany ==> Body(rows, issues, seen) == ReadBody(lib, columns, records)
  {
    rows, issues, seen := [], [], 0;
    for i := 0 to |records|
      invariant Body(rows, issues, seen) == ReadBody(lib, columns, records[..i]) && seen <= maxRows
    {
      assert records[..i + 1][..i] == records[..i];
      if BlankRow(records[i]) {
        continue;
      }
      seen := seen + 1;
      if seen > maxRows {
        SeenGrows(lib, columns, records, i + 1);
        tooMany := true;
        return;
      }
      var values, faults := ReadCells(lib, columns, records[i], i + 2);
      issues := issues + faults;
      if faults == [] {
        rows := rows + [ParsedRow(i + 2, values)];
      }
    }
    assert records[..|records|] == records;
    tooMany := false;
  }

  method ReadHeading(cells: seq<string>, byHeader: map<string, Field>) returns (scan: Heading)
    ensures scan == ScanHeader(cells, byHeader)
  {
    var columns, present, unknown := [], [], [];
    for i := 0 to |cells|
      invariant Heading(columns, present, unknown) == ScanHeader(cells[..i], byHeader)
    {
      assert cells[..i + 1][..i] == cells[..i];
      var name := NormalizeHeader(cells[i]);
      if name !in byHeader {
        columns := columns + [None];
        if Strip(cells[i]) != "" {
          unknown := unknown + [Strip(cells[i])];
        }
        continue;
      }
      var f := byHeader[name];
      if f.key in present {
        TwiceStays(cells, byHeader, i + 1);
        return Twice;
      }
      columns, present := columns + [Some(f)], present + [f.key];
    }
    assert cells[..|cells|] == cells;
    scan := Heading(columns, present, unknown);
  }

  lemma {:induction false} TwiceStays(cells: seq<string>, byHeader: map<string, Field>, n: nat)
    requires n <= |cells| && ScanHeader(cells[..n], byHeader).Twice?
    ensures ScanHeader(cells, byHeader).Twice?
    decreases |cells|
  {
    if n < |cells| {
      assert cells[..|cells| - 1][..n] == cells[..n];
      TwiceStays(cells[..|cells| - 1], byHeader, n);
    } else {
      assert cells[..n] == cells;
    }
  }

  method ReadCells(lib: Library, columns: seq<Option<Field>>, cells: seq<string>, rowNo: nat)
    returns (values: map<string, Value>, issues: seq<Issue>)
    ensures (values, issues) == ReadRow(lib, columns, cells, rowNo)
  {
    values, issues := map[], [];
    for i := 0 to |columns|
      invariant (values, issues) == ReadRow(lib, columns[..i], cells, rowNo)
    {
      assert columns[..i + 1][..i] == columns[..i];
      if columns[i].None? {
        continue;
      }
      var f := columns[i].value;
      match Coerce(lib, f, CellAt(cells, i))
      case Good(value) => values := values[f.key := value];
      case Bad(fault) => issues := issues + [Issue(rowNo, f.header, fault)];
    }
    assert columns[..|columns|] == columns;
  }

  // ---- reading back an export ------------------------------------------------------------------------

  /** Headings the engine's own entities use: one line, no separators, something left when normalised. */
  predicate PlainHeading(h: string) {
    && NormalizeHeader(h) != ""
    && forall i :: 0 <= i < |h| ==> !IsDelimiter(h[i]) && h[i] != QUOTE && !BreaksLine(h[i])
  }

  predicate WellHeaded(fields: seq<Field>) {
    && (forall i :: 0 <= i < |fields| ==> PlainHeading(fields[i].header))
    && (forall i, j :: 0 <= i < j < |fields| ==>
          && NormalizeHeader(fields[i].header) != NormalizeHeader(fields[j].header)
          && fields[i].key != fields[j].key)
  }

  function Columns(fields: seq<Field>): seq<Option<Field>> {
    seq(|fields|, i requires 0 <= i < |fields| => if fields[i].importable then Some(fields[i]) else None)
  }

  function KeysOf(fields: seq<Field>): seq<string> {
    if fields == [] then [] else
    var n := |fields| - 1;
    KeysOf(fields[..n]) + (if fields[n].importable then [fields[n].key] else [])
  }

  /** Exported columns the import ignores. */
  function IgnoredOf(fields: seq<Field>): seq<string> {
    if fields == [] then [] else
    var n := |fields| - 1;
    IgnoredOf(fields[..n]) + (if fields[n].importable then [] else [Strip(fields[n].header)])
  }

  /** The part of a row an import can carry. */
  function ImportableValues(fields: seq<Field>, row: Row): map<string, Value> {
    if fields == [] then map[] else
    var n := |fields| - 1;
    var before := ImportableValues(fields[..n], row);
    if fields[n].importable then before[fields[n].key := ValueOf(row, fields[n].key)] else before
  }

  function NumberedRows(fields: seq<Field>, rows: seq<Row>): seq<ParsedRow> {
    seq(|rows|, i requires 0 <= i < |rows| => ParsedRow(i + 2, ImportableValues(fields, rows[i])))
  }

  lemma {:induction false} StripKeepsSolid(s: string, i: nat)
    requires i < |s| && !IsSpace(s[i])
    ensures Strip(s) != ""
    decreases |s|
  {
    if IsSpace(s[0]) {
      StripKeepsSolid(s[1..], i - 1);
    } else {
      RStripKeepsSolid(s, i);
    }
  }

  lemma {:induction false} RStripKeepsSolid(s: string, i: nat)
    requires i < |s| && !IsSpace(s[i])
    ensures RStrip(s) != ""
    decreases |s|
  {
    if IsSpace(s[|s| - 1]) {
      RStripKeepsSolid(s[..|s| - 1], i);
    }
  }

  lemma LowerOfWord(c: char)
    requires IsWord(LowerChar(c))
    ensures !IsSpace(c)
  {
  }

  lemma {:induction false} StripIsPart(s: string)
    ensures forall i :: 0 <= i < |Strip(s)| ==> Strip(s)[i] in s
  {
    LStripIsPart(s);
    RStripIsPart(LStrip(s));
  }

  lemma {:induction false} LStripIsPart(s: string)
    ensures forall i :: 0 <= i < |LStrip(s)| ==> LStrip(s)[i] in s
  {
    if s != "" && IsSpace(s[0]) {
      LStripIsPart(s[1..]);
    }
  }

  lemma {:induction false} RStripIsPart(s: string)
    ensures forall i :: 0 <= i < |RStrip(s)| ==> RStrip(s)[i] in s
  {
    if s != "" && IsSpace(s[|s| - 1]) {
      RStripIsPart(s[..|s| - 1]);
    }
  }

  lemma PlainHeadingSolid(h: string)
    requires PlainHeading(h)
    ensures h != "" && (exists i :: 0 <= i < |h| && !IsSpace(h[i])) && Strip(h) != ""
  {
    HeadingNotBlank(Lower(Strip(h)), false, false);
    var i :| 0 <= i < |Lower(Strip(h))| && IsWord(Lower(Strip(h))[i]);
    LowerOfWord(Strip(h)[i]);
    StripIsPart(h);
    assert Strip(h)[i] in h;
    var k :| 0 <= k < |h| && h[k] == Strip(h)[i];
    StripKeepsSolid(h, k);
  }

  lemma PlainHeadingUnquoted(h: string, d: char)
    requires PlainHeading(h) && IsDelimiter(d)
    ensures !NeedsQuotes(h, d)
  {
    forall i | 0 <= i < |h|
      ensures !IsSpecial(h[i], d)
    {
      assert !IsDelimiter(h[i]) && !BreaksLine(h[i]);
    }
  }

  /** The heading line as exported: no quotes, one line, and commas only between headings. */
  lemma {:induction false} HeadingLine(hs: seq<string>, alone: bool)
    requires hs != [] && forall i :: 0 <= i < |hs| ==> PlainHeading(hs[i])
    ensures Joined(hs, alone, ',') == Joined(hs, false, ',')
    ensures var line := Joined(hs, false, ',');
            && line != "" && Strip(line) != ""
            && (forall i :: 0 <= i < |line| ==> !BreaksLine(line[i]))
            && (forall d :: IsDelimiter(d) && d != ',' ==> !NeedsQuotes(line, d))
    decreases |hs|
  {
    PlainHeadingSolid(hs[0]);
    PlainHeadingUnquoted(hs[0], ',');
    var line := Joined(hs, false, ',');
    var k :| 0 <= k < |hs[0]| && !IsSpace(hs[0][k]);
    if |hs| > 1 {
      HeadingLine(hs[1..], alone);
    }
    assert line[k] == hs[0][k];
    StripKeepsSolid(line, k);
    forall i | 0 <= i < |line|
      ensures !BreaksLine(line[i])
      ensures line[i] != QUOTE && (IsDelimiter(line[i]) ==> line[i] == ',')
    {
      CharOfHeadings(hs, i);
    }
    forall d | IsDelimiter(d) && d != ','
      ensures !NeedsQuotes(line, d)
    {
      forall i | 0 <= i < |line|
        ensures !IsSpecial(line[i], d)
      {
        assert !BreaksLine(line[i]);
      }
    }
  }

  lemma {:induction false} CharOfHeadings(hs: seq<string>, i: nat)
    requires hs != [] && i < |Joined(hs, false, ',')| && forall j :: 0 <= j < |hs| ==> PlainHeading(hs[j])
    ensures var c := Joined(hs, false, ',')[i];
            !BreaksLine(c) && c != QUOTE && (IsDelimiter(c) ==> c == ',')
    decreases |hs|
  {
    PlainHeadingUnquoted(hs[0], ',');
    if |hs| > 1 && i > |hs[0]| {
      CharOfHeadings(hs[1..], i - |hs[0]| - 1);
      assert Joined(hs, false, ',') == hs[0] + [','] + Joined(hs[1..], false, ',');
    }
  }

  lemma {:induction false} LineLengthOf(line: string, rest: string)
    requires forall i :: 0 <= i < |line| ==> !BreaksLine(line[i])
    requires rest != "" && BreaksLine(rest[0])
    ensures LineLength(line + rest) == |line|
  {
    if line == "" {
      assert line + rest == rest;
    } else {
      assert (line + rest)[0] == line[0] && (line + rest)[1..] == line[1..] + rest;
      LineLengthOf(line[1..], rest);
    }
  }

  lemma FirstLineIs(line: string, rest: string)
    requires (forall i :: 0 <= i < |line| ==> !BreaksLine(line[i])) && Strip(line) != ""
    requires rest != "" && BreaksLine(rest[0])
    ensures FirstLine(line + rest) == line
  {
    LineLengthOf(line, rest);
    assert (line + rest)[..|line|] == line;
  }

  lemma {:induction false} ImportableIs(fields: seq<Field>)
    ensures forall f :: f in Importable(fields) <==> f in fields && f.importable
    ensures WellHeaded(fields) ==> WellHeaded(Importable(fields))
  {
    if fields != [] {
      ImportableIs(fields[1..]);
      var head := if fields[0].importable then [fields[0]] else [];
      if WellHeaded(fields) {
        assert forall i :: 0 <= i < |fields| - 1 ==> fields[1..][i] == fields[i + 1];
        var all := Importable(fields);
        forall i, j | 0 <= i < j < |all|
          ensures NormalizeHeader(all[i].header) != NormalizeHeader(all[j].header) && all[i].key != all[j].key
        {
          if |head| == 1 && i == 0 {
            assert all[j] in Importable(fields[1..]) && all[j] in fields[1..];
          }
        }
        forall i | 0 <= i < |all|
          ensures PlainHeading(all[i].header)
        {
          assert all[i] in fields;
        }
      }
    }
  }

  lemma {:induction false} ByHeaderIs(fields: seq<Field>)
    requires WellHeaded(fields)
    ensures forall f :: f in fields ==>
      NormalizeHeader(f.header) in ByHeader(fields) && ByHeader(fields)[NormalizeHeader(f.header)] == f
    ensures forall name :: name in ByHeader(fields) ==> exists f :: f in fields && NormalizeHeader(f.header) == name
  {
    if fields != [] {
      var n := |fields| - 1;
      ByHeaderIs(fields[..n]);
      assert forall f :: f in fields ==> f in fields[..n] || f == fields[n];
    }
  }

  lemma {:induction false} KeysOfIs(fields: seq<Field>)
    ensures forall key :: key in KeysOf(fields) <==> exists f :: f in fields && f.importable && f.key == key
  {
    if fields != [] {
      KeysOfIs(fields[..|fields| - 1]);
      assert fields == fields[..|fields| - 1] + [fields[|fields| - 1]];
    }
  }

  lemma ScanSnoc(cells: seq<string>, h: string, byHeader: map<string, Field>)
    ensures ScanHeader(cells + [h], byHeader) ==
      match ScanHeader(cells, byHeader)
      case Twice => Twice
      case Heading(columns, present, unknown) =>
        var name := NormalizeHeader(h);
        if name !in byHeader then
          Heading(columns + [None], present, if Strip(h) != "" then unknown + [Strip(h)] else unknown)
        else if byHeader[name].key in present then Twice
        else Heading(columns + [Some(byHeader[name])], present + [byHeader[name].key], unknown)
  {
    assert (cells + [h])[..|cells|] == cells;
  }

  lemma FieldsSnoc(fields: seq<Field>)
    requires fields != []
    ensures var n := |fields| - 1;
            && Headings(fields) == Headings(fields[..n]) + [fields[n].header]
            && Columns(fields) == Columns(fields[..n]) + [if fields[n].importable then Some(fields[n]) else None]
  {
  }

  lemma FreshKey(fields: seq<Field>)
    requires fields != [] && WellHeaded(fields)
    ensures WellHeaded(fields[..|fields| - 1])
    ensures fields[|fields| - 1].key !in KeysOf(fields[..|fields| - 1])
  {
    KeysOfIs(fields[..|fields| - 1]);
  }

  /** One more exported heading, importable or not. */
  lemma HeadingStep(cells: seq<string>, f: Field, byHeader: map<string, Field>,
                    columns: seq<Option<Field>>, present: seq<string>, unknown: seq<string>)
    requires ScanHeader(cells, byHeader) == Heading(columns, present, unknown)
    requires f.importable ==> NormalizeHeader(f.header) in byHeader && byHeader[NormalizeHeader(f.header)] == f
    requires !f.importable ==> NormalizeHeader(f.header) !in byHeader
    requires f.key !in present && Strip(f.header) != ""
    ensures ScanHeader(cells + [f.header], byHeader)
         == Heading(columns + [if f.importable then Some(f) else None],
                    if f.importable then present + [f.key] else present,
                    if f.importable then unknown else unknown + [Strip(f.header)])
  {
    ScanSnoc(cells, f.header, byHeader);
  }

  /** The import's headings tell this field from all others, or do not know it. */
  predicate Recognises(byHeader: map<string, Field>, f: Field) {
    && (f.importable ==> NormalizeHeader(f.header) in byHeader && byHeader[NormalizeHeader(f.header)] == f)
    && (!f.importable ==> NormalizeHeader(f.header) !in byHeader)
    && Strip(f.header) != ""
  }

  predicate AllRecognised(byHeader: map<string, Field>, fields: seq<Field>) {
    forall i :: 0 <= i < |fields| ==> Recognises(byHeader, fields[i])
  }

  lemma RecognisedPrefix(byHeader: map<string, Field>, fields: seq<Field>)
    requires fields != [] && AllRecognised(byHeader, fields)
    ensures AllRecognised(byHeader, fields[..|fields| - 1]) && Recognises(byHeader, fields[|fields| - 1])
  {
    var n := |fields| - 1;
    assert forall i :: 0 <= i < n ==> fields[..n][i] == fields[i];
  }

  ghost predicate Scans(byHeader: map<string, Field>, fields: seq<Field>) {
    ScanHeader(Headings(fields), byHeader) == Heading(Columns(fields), KeysOf(fields), IgnoredOf(fields))
  }

  lemma ScansStep(byHeader: map<string, Field>, fields: seq<Field>)
    requires fields != [] && Scans(byHeader, fields[..|fields| - 1])
    requires Recognises(byHeader, fields[|fields| - 1])
    requires fields[|fields| - 1].key !in KeysOf(fields[..|fields| - 1])
    ensures Scans(byHeader, fields)
  {
    var before, f := fields[..|fields| - 1], fields[|fields| - 1];
    HeadingStep(Headings(before), f, byHeader, Columns(before), KeysOf(before), IgnoredOf(before));
    FieldsSnoc(fields);
  }

  lemma {:induction false} RecognisedScans(byHeader: map<string, Field>, fields: seq<Field>)
    requires WellHeaded(fields) && AllRecognised(byHeader, fields)
    ensures Scans(byHeader, fields)
  {
    if fields != [] {
      FreshKey(fields);
      RecognisedPrefix(byHeader, fields);
      RecognisedScans(byHeader, fields[..|fields| - 1]);
      ScansStep(byHeader, fields);
    }
  }

  lemma HeaderScans(all: seq<Field>, fields: seq<Field>)
    requires WellHeaded(all) && WellHeaded(fields) && forall f :: f in fields ==> f in all
    ensures ScanHeader(Headings(fields), ByHeader(Importable(all)))
         == Heading(Columns(fields), KeysOf(fields), IgnoredOf(fields))
  {
    forall i | 0 <= i < |fields|
      ensures Recognises(ByHeader(Importable(all)), fields[i])
    {
      FieldRecognised(all, fields[i]);
    }
    RecognisedScans(ByHeader(Importable(all)), fields);
  }

  lemma FieldRecognised(all: seq<Field>, f: Field)
    requires WellHeaded(all) && f in all
    ensures Recognises(ByHeader(Importable(all)), f)
  {
    PlainHeadingSolid(f.header);
    ImportableIs(all);
    ByHeaderIs(Importable(all));
  }

  /** What the cells of one exported row must look like to come back. */
  predicate Carries(lib: Library, fields: seq<Field>, row: Row) {
    && !BlankRow(CellsOf(lib, fields, row))
    && forall i :: 0 <= i < |fields| && fields[i].importable ==> Portable(lib, fields[i], ValueOf(row, fields[i].key))
  }

  lemma {:induction false} RowReads(lib: Library, fields: seq<Field>, row: Row, cells: seq<string>, rowNo: nat)
    requires |fields| <= |cells|
    requires forall i :: 0 <= i < |fields| ==> cells[i] == FormatCell(lib, fields[i], ValueOf(row, fields[i].key))
    requires forall i :: 0 <= i < |fields| && fields[i].importable ==>
      Portable(lib, fields[i], ValueOf(row, fields[i].key))
    ensures ReadRow(lib, Columns(fields), cells, rowNo) == (ImportableValues(fields, row), [])
  {
    if fields != [] {
      var n := |fields| - 1;
      RowReads(lib, fields[..n], row, cells, rowNo);
      assert Columns(fields)[..n] == Columns(fields[..n]);
      if fields[n].importable {
        CellReadsBack(lib, fields[n], ValueOf(row, fields[n].key));
      }
    }
  }

  lemma BodySnoc(lib: Library, columns: seq<Option<Field>>, records: seq<seq<string>>, record: seq<string>,
                 values: map<string, Value>)
    requires !BlankRow(record) && ReadRow(lib, columns, record, |records| + 2) == (values, [])
    ensures var before := ReadBody(lib, columns, records);
            ReadBody(lib, columns, records + [record])
            == Body(before.rows + [ParsedRow(|records| + 2, values)], before.issues, before.seen + 1)
  {
    assert (records + [record])[..|records|] == records;
  }

  lemma RowsSnoc(lib: Library, fields: seq<Field>, rows: seq<Row>)
    requires rows != []
    ensures var n := |rows| - 1;
            && AllCells(lib, fields, rows) == AllCells(lib, fields, rows[..n]) + [CellsOf(lib, fields, rows[n])]
            && NumberedRows(fields, rows)
               == NumberedRows(fields, rows[..n]) + [ParsedRow(n + 2, ImportableValues(fields, rows[n]))]
  {
  }

  lemma {:induction false} BodyReads(lib: Library, fields: seq<Field>, rows: seq<Row>)
    requires forall i :: 0 <= i < |rows| ==> Carries(lib, fields, rows[i])
    ensures ReadBody(lib, Columns(fields), AllCells(lib, fields, rows))
         == Body(NumberedRows(fields, rows), [], |rows|)
  {
    if rows != [] {
      var n := |rows| - 1;
      var before, last := AllCells(lib, fields, rows[..n]), CellsOf(lib, fields, rows[n]);
      BodyReads(lib, fields, rows[..n]);
      assert Carries(lib, fields, rows[n]);
      RowReads(lib, fields, rows[n], last, n + 2);
      BodySnoc(lib, Columns(fields), before, last, ImportableValues(fields, rows[n]));
      RowsSnoc(lib, fields, rows);
    }
  }

  lemma {:induction false} KnownCounts(cells: seq<string>, known: map<string, Field>, i: nat)
    requires i < |cells| && NormalizeHeader(cells[i]) in known
    ensures Known(cells, known) >= 1
  {
    if i > 0 {
      KnownCounts(cells[1..], known, i - 1);
    }
  }

  lemma OtherScores(line: string, known: map<string, Field>, d: char)
    requires IsDelimiter(d) && line != "" && !NeedsQuotes(line, d)
    ensures Score(line, d, known) <= 1
  {
    PlainLine(line, d);
    assert [line][1..] == [];
    assert Known([line], known) <= 1;
  }

  lemma CommaScores(hs: seq<string>, known: map<string, Field>, i: nat)
    requires i < |hs| && NormalizeHeader(hs[i]) in known
    requires forall j :: 0 <= j < |hs| ==> PlainHeading(hs[j])
    ensures Score(Joined(hs, false, ','), ',', known) >= 1
  {
    forall j | 0 <= j < |hs|
      ensures hs[j] != "" && !NeedsQuotes(hs[j], ',')
    {
      PlainHeadingSolid(hs[j]);
      PlainHeadingUnquoted(hs[j], ',');
    }
    FinalRecord(hs, StartRecord, [], ',');
    assert [] + hs == hs;
    KnownCounts(hs, known, i);
  }

  /** The comma wins: every other delimiter sees the heading line as a single cell. */
  lemma CommaWins(hs: seq<string>, known: map<string, Field>, i: nat)
    requires i < |hs| && NormalizeHeader(hs[i]) in known
    requires forall j :: 0 <= j < |hs| ==> PlainHeading(hs[j])
    ensures BestOf(Joined(hs, false, ','), known, |DELIMITERS|) == 0
  {
    var line := Joined(hs, false, ',');
    HeadingLine(hs, false);
    CommaScores(hs, known, i);
    OtherScores(line, known, ';');
    OtherScores(line, known, '\t');
    OtherScores(line, known, '|');
    assert DELIMITERS[0] == ',' && DELIMITERS[1] == ';' && DELIMITERS[2] == '\t' && DELIMITERS[3] == '|';
  }

  lemma SolidText(line: string, rest: string)
    requires Strip(line) != ""
    ensures Strip(line + rest) != ""
  {
    StripIsPart(line);
    StripEnds(line);
    var c := Strip(line)[0];
    assert c in line;
    var k :| 0 <= k < |line| && line[k] == c;
    StripKeepsSolid(line + rest, k);
  }

  lemma {:induction false} StripEnds(s: string)
    ensures Strip(s) != "" ==> !IsSpace(Strip(s)[0])
  {
    LStripEnds(s);
    RStripStart(LStrip(s));
  }

  lemma {:induction false} LStripEnds(s: string)
    ensures LStrip(s) != "" ==> !IsSpace(LStrip(s)[0])
  {
    if s != "" && IsSpace(s[0]) {
      LStripEnds(s[1..]);
    }
  }

  lemma {:induction false} RStripStart(s: string)
    ensures RStrip(s) != "" ==> s != "" && RStrip(s)[0] == s[0]
  {
    if s != "" && IsSpace(s[|s| - 1]) {
      RStripStart(s[..|s| - 1]);
    }
  }

  lemma BomStripped(header: string, body: string)
    ensures Decode([BOM] + header + body) == header + body
  {
  }

  lemma LineSplits(hs: seq<string>, body: string)
    requires Joined(hs, |hs| == 1, ',') == Joined(hs, false, ',')
    ensures Record(hs) + body == Joined(hs, false, ',') + ([CR, LF] + body)
  {
  }

  lemma ExportStarts(lib: Library, fields: seq<Field>, rows: seq<Row>)
    requires fields != [] && WellHeaded(fields)
    ensures var text := Decode(ExportText(lib, fields, rows));
            && text == Record(Headings(fields)) + Records(AllCells(lib, fields, rows))
            && Strip(text) != ""
            && FirstLine(text) == Joined(Headings(fields), false, ',')
  {
    var hs := Headings(fields);
    var line, rest := Joined(hs, false, ','), [CR, LF] + Records(AllCells(lib, fields, rows));
    HeadingLine(hs, |hs| == 1);
    BomStripped(Record(hs), Records(AllCells(lib, fields, rows)));
    LineSplits(hs, Records(AllCells(lib, fields, rows)));
    FirstLineIs(line, rest);
    SolidText(line, rest);
  }

  lemma ExportDelimiter(all: seq<Field>, fields: seq<Field>, first: nat)
    requires WellHeaded(all) && WellHeaded(fields) && forall f :: f in fields ==> f in all
    requires first < |fields| && fields[first].importable
    ensures BestOf(Joined(Headings(fields), false, ','), ByHeader(Importable(all)), |DELIMITERS|) == 0
  {
    FieldRecognised(all, fields[first]);
    CommaWins(Headings(fields), ByHeader(Importable(all)), first);
  }

  lemma RequiredKept(all: seq<Field>, fields: seq<Field>, first: nat)
    requires forall f :: f in all && f.importable && f.required ==> f in fields
    requires first < |fields| && fields[first].importable
    ensures HasRequired(all, KeysOf(fields)) && KeysOf(fields) != []
  {
    KeysOfIs(fields);
    assert fields[first].key in KeysOf(fields);
  }

  lemma ParseSteps(lib: Library, data: string, all: seq<Field>, maxRows: nat, line: string,
                   records: seq<seq<string>>, scan: Heading, body: Body)
    requires Strip(Decode(data)) != "" && FirstLine(Decode(data)) == line
    requires BestOf(line, ByHeader(Importable(all)), |DELIMITERS|) == 0
    requires ReadAll(Decode(data), ',') == records != []
    requires ScanHeader(records[0], ByHeader(Importable(all))) == scan && scan.Heading?
    requires HasRequired(all, scan.present) && scan.present != []
    requires ReadBody(lib, scan.columns, records[1..]) == body && body.seen <= maxRows
    ensures ParseOf(lib, data, all, maxRows)
         == Parsed(body.rows, body.issues, body.seen, scan.present, scan.unknown)
  {
  }

  /**
   Importing an exported file gives back exactly the exported rows, restricted to the importable
   columns: nothing in any cell is lost, split or moved, and no row raises an issue.
   */
  lemma ExportReadsBack(lib: Library, all: seq<Field>, fields: seq<Field>, rows: seq<Row>, maxRows: nat)
    requires WellHeaded(all) && WellHeaded(fields) && forall f :: f in fields ==> f in all
    requires forall f :: f in all && f.importable && f.required ==> f in fields
    requires exists i :: 0 <= i < |fields| && fields[i].importable
    requires forall i :: 0 <= i < |rows| ==> Carries(lib, fields, rows[i])
    requires |rows| <= maxRows
    ensures ParseOf(lib, ExportText(lib, fields, rows), all, maxRows)
         == Parsed(NumberedRows(fields, rows), [], |rows|, KeysOf(fields), IgnoredOf(fields))
  {
    var hs, cells := Headings(fields), AllCells(lib, fields, rows);
    var first :| 0 <= first < |fields| && fields[first].importable;
    ExportStarts(lib, fields, rows);
    ExportDelimiter(all, fields, first);
    var records := [hs] + cells;
    assert ReadAll(Record(hs) + Records(cells), ',') == records by {
      RecordReadsBack(hs, Records(cells));
      RecordsReadBack(cells);
    }
    HeaderScans(all, fields);
    RequiredKept(all, fields, first);
    BodyReads(lib, fields, rows);
    assert records[0] == hs && records[1..] == cells;
    ParseSteps(lib, ExportText(lib, fields, rows), all, maxRows, Joined(hs, false, ','), records,
      Heading(Columns(fields), KeysOf(fields), IgnoredOf(fields)),
      Body(NumberedRows(fields, rows), [], |rows|));
  }

  // ---- every row is accounted for --------------------------------------------------------------------

  /** The rows of the file that some issue speaks of. */
  function IssueRows(issues: seq<Issue>): set<nat> {
    set issue | issue in issues :: issue.row
  }

  predicate Increasing(numbers: seq<nat>) {
    forall i, j :: 0 <= i < j < |numbers| ==> numbers[i] < numbers[j]
  }

  function Members(numbers: seq<nat>): set<nat> {
    set n | n in numbers
  }

  lemma IncreasingSnoc(numbers: seq<nat>, next: nat)
    requires Increasing(numbers) && forall n :: n in numbers ==> n < next
    ensures Increasing(numbers + [next])
    ensures Members(numbers + [next]) == Members(numbers) + {next}
    ensures next !in Members(numbers)
  {
    forall i | 0 <= i < |numbers|
      ensures numbers[i] < next
    {
      assert numbers[i] in numbers;
    }
  }

  lemma IncreasingTail(numbers: seq<nat>)
    requires numbers != [] && Increasing(numbers)
    ensures var n := |numbers| - 1;
            && Increasing(numbers[..n]) && (forall m :: m in numbers[..n] ==> m < numbers[n])
            && Members(numbers) == Members(numbers[..n]) + {numbers[n]}
  {
    assert numbers == numbers[..|numbers| - 1] + [numbers[|numbers| - 1]];
  }

  function Numbers(rows: seq<ParsedRow>): seq<nat> {
    seq(|rows|, i requires 0 <= i < |rows| => rows[i].row)
  }

  lemma {:induction false} RowIssuesOwn(lib: Library, columns: seq<Option<Field>>, cells: seq<string>, rowNo: nat)
    ensures var issues := ReadRow(lib, columns, cells, rowNo).1;
            IssueRows(issues) == if issues == [] then {} else {rowNo}
  {
    if columns != [] {
      var n := |columns| - 1;
      RowIssuesOwn(lib, columns[..n], cells, rowNo);
      var before := ReadRow(lib, columns[..n], cells, rowNo).1;
      var issues := ReadRow(lib, columns, cells, rowNo).1;
      if issues != before {
        assert issues == before + [issues[|before|]];
        assert IssueRows(issues) == IssueRows(before) + {rowNo};
      }
    }
  }

  ghost predicate Accounted(body: Body, next: nat) {
    && body.seen == |body.rows| + |IssueRows(body.issues)|
    && Increasing(Numbers(body.rows))
    && (forall row :: row in Members(Numbers(body.rows)) ==> row < next && row !in IssueRows(body.issues))
    && (forall row :: row in IssueRows(body.issues) ==> row < next)
  }

  lemma AccountedSnoc(body: Body, next: nat, values: map<string, Value>, issues: seq<Issue>)
    requires Accounted(body, next) && IssueRows(issues) == (if issues == [] then {} else {next})
    ensures Accounted(body, next + 1)
    ensures Accounted(Body(if issues == [] then body.rows + [ParsedRow(next, values)] else body.rows,
                           body.issues + issues, body.seen + 1), next + 1)
  {
    assert IssueRows(body.issues + issues) == IssueRows(body.issues) + IssueRows(issues);
    if issues == [] {
      assert body.issues + issues == body.issues;
      assert Numbers(body.rows + [ParsedRow(next, values)]) == Numbers(body.rows) + [next];
      forall n | n in Numbers(body.rows)
        ensures n < next
      {
        assert n in Members(Numbers(body.rows));
      }
      IncreasingSnoc(Numbers(body.rows), next);
    }
  }

  /** Each row that is not blank is either kept whole or reported, never both. */
  lemma {:induction false} EveryRowKeptOrReported(
    lib: Library, columns: seq<Option<Field>>, records: seq<seq<string>>)
    ensures Accounted(ReadBody(lib, columns, records), |records| + 2)
  {
    if records != [] {
      var n := |records| - 1;
      EveryRowKeptOrReported(lib, columns, records[..n]);
      var (values, issues) := ReadRow(lib, columns, records[n], n + 2);
      RowIssuesOwn(lib, columns, records[n], n + 2);
      AccountedSnoc(ReadBody(lib, columns, records[..n]), n + 2, values, issues);
    }
  }
}
