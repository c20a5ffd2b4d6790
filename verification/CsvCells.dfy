/** One cell: how a stored value is printed, and how typed text is read back as its column's kind. */
module CsvCells {
  import opened Numerals
  import opened Options

  datatype Kind = Str | Email | Enum | Integer | Float | Flag | Date | Moment | ListOf

  datatype Field = Field(
    key: string, header: string, kind: Kind, required: bool, accepted: seq<string>, importable: bool)

  /** Instants are seconds since the epoch, in UTC. */
  datatype Value =
    | Nothing
    | Text(text: string)
    | Whole(number: int)
    | Real(amount: real)
    | Truth(yes: bool)
    | Instant(at: int)
    | Items(items: seq<string>)

  datatype CellFault = Required | NotEmail | NotChoice | NotYesNo | NotNumber | NotDate

  datatype Cell = Good(value: Value) | Bad(fault: CellFault)

  /** The parts of the language's own library the engine leans on. */
  datatype Library = Library(
    isEmail: string -> bool,
    showReal: real -> string, readReal: string -> Option<real>,
    showDate: int -> string, showMoment: int -> string, readMoment: string -> Option<int>)

  // ---- text ------------------------------------------------------------------------------------------

  predicate IsSpace(c: char) {
    var n := c as int;
    9 <= n <= 13 || 28 <= n <= 32 || n == 0x85 || n == 0xA0 || n == 0x1680 || 0x2000 <= n <= 0x200A
    || n == 0x2028 || n == 0x2029 || n == 0x202F || n == 0x205F || n == 0x3000
  }

  function LStrip(s: string): string {
    if s != "" && IsSpace(s[0]) then LStrip(s[1..]) else s
  }

  function RStrip(s: string): string {
    if s != "" && IsSpace(s[|s| - 1]) then RStrip(s[..|s| - 1]) else s
  }

  function Strip(s: string): string { RStrip(LStrip(s)) }

  predicate Trimmed(s: string) {
    s == "" || (!IsSpace(s[0]) && !IsSpace(s[|s| - 1]))
  }

  /** Stripping leaves exactly the trimmed strings alone. */
  lemma {:induction false} StripFixes(s: string)
    ensures Strip(s) == s <==> Trimmed(s)
  {
    if s != "" && IsSpace(s[0]) {
      LStripShrinks(s[1..]);
      RStripShrinks(LStrip(s));
    } else if s != "" && IsSpace(s[|s| - 1]) {
      RStripShrinks(s[..|s| - 1]);
    }
  }

  lemma {:induction false} LStripShrinks(s: string)
    ensures |LStrip(s)| <= |s|
  {
    if s != "" && IsSpace(s[0]) {
      LStripShrinks(s[1..]);
    }
  }

  lemma {:induction false} RStripShrinks(s: string)
    ensures |RStrip(s)| <= |s|
  {
    if s != "" && IsSpace(s[|s| - 1]) {
      RStripShrinks(s[..|s| - 1]);
    }
  }

  function LowerChar(c: char): char {
    if 'A' <= c <= 'Z' then (c as int + 32) as char else c
  }

  function Lower(s: string): (low: string)
    ensures |low| == |s|
  {
    seq(|s|, i requires 0 <= i < |s| => LowerChar(s[i]))
  }

  /** Separators, currency and percent signs people type inside numbers. */
  predicate IsNoise(c: char) {
    c == ',' || IsSpace(c) || c == '$' || c == '\U{20AC}' || c == '\U{A3}' || c == '%'
  }

  function Denoised(s: string): string {
    if s == "" then ""
    else if IsNoise(s[0]) then Denoised(s[1..])
    else [s[0]] + Denoised(s[1..])
  }

  lemma {:induction false} DenoisedSame(s: string)
    requires forall i :: 0 <= i < |s| ==> !IsNoise(s[i])
    ensures Denoised(s) == s
  {
    if s != "" {
      DenoisedSame(s[1..]);
    }
  }

  // ---- lists -----------------------------------------------------------------------------------------

  predicate IsSeparator(c: char) { c == ';' || c == ',' }

  function Split(s: string, part: string): seq<string>
    decreases |s|
  {
    if s == "" then [part]
    else if IsSeparator(s[0]) then [part] + Split(s[1..], "")
    else Split(s[1..], part + [s[0]])
  }

  function NonBlank(parts: seq<string>): seq<string> {
    if parts == [] then []
    else (if Strip(parts[0]) != "" then [Strip(parts[0])] else []) + NonBlank(parts[1..])
  }

  function ListText(items: seq<string>): string {
    if items == [] then ""
    else if |items| == 1 then items[0]
    else items[0] + "; " + ListText(items[1..])
  }

  /** An item a list column can carry. */
  predicate PlainItem(item: string) {
    item != "" && Trimmed(item) && forall i :: 0 <= i < |item| ==> !IsSeparator(item[i])
  }

  lemma {:induction false} SplitRun(item: string, part: string, rest: string)
    requires forall i :: 0 <= i < |item| ==> !IsSeparator(item[i])
    ensures Split(item + rest, part) == Split(rest, part + item)
    decreases |item|
  {
    if item == "" {
      assert item + rest == rest && part + item == part;
    } else {
      assert (item + rest)[0] == item[0] && (item + rest)[1..] == item[1..] + rest;
      SplitRun(item[1..], part + [item[0]], rest);
      assert part + [item[0]] + item[1..] == part + item;
    }
  }

  lemma StripAfterSpace(item: string)
    requires PlainItem(item)
    ensures Strip(" " + item) == item && Strip(item) == item
  {
    StripFixes(item);
    assert (" " + item)[1..] == item;
  }

  lemma NonBlankCons(part: string, parts: seq<string>)
    requires Strip(part) != ""
    ensures NonBlank([part] + parts) == [Strip(part)] + NonBlank(parts)
  {
    assert ([part] + parts)[1..] == parts;
  }

  lemma LeadStrips(item: string, lead: string)
    requires PlainItem(item) && (lead == "" || lead == " ")
    ensures Strip(lead + item) == item
  {
    StripAfterSpace(item);
    assert "" + item == item;
  }

  lemma SplitFirst(item: string, lead: string, rest: string)
    requires PlainItem(item)
    ensures Split(item + "; " + rest, lead) == [lead + item] + Split(rest, " ")
  {
    assert item + "; " + rest == item + ("; " + rest);
    SplitRun(item, lead, "; " + rest);
    assert ("; " + rest)[0] == ';' && ("; " + rest)[1..] == " " + rest;
    SplitRun(" ", "", rest);
    assert "" + " " == " ";
  }

  lemma {:induction false} ListSplitsBack(items: seq<string>, lead: string)
    requires items != [] && (forall i :: 0 <= i < |items| ==> PlainItem(items[i]))
    requires lead == "" || lead == " "
    ensures NonBlank(Split(ListText(items), lead)) == items
    decreases |items|
  {
    LeadStrips(items[0], lead);
    if |items| == 1 {
      SplitRun(items[0], lead, "");
      assert items[0] + "" == items[0] && [lead + items[0]] + [] == [lead + items[0]];
      NonBlankCons(lead + items[0], []);
    } else {
      var rest := ListText(items[1..]);
      SplitFirst(items[0], lead, rest);
      NonBlankCons(lead + items[0], Split(rest, " "));
      ListSplitsBack(items[1..], " ");
      assert [items[0]] + items[1..] == items;
    }
  }

  lemma {:induction false} ListTextTrimmed(items: seq<string>)
    requires items != [] && (forall i :: 0 <= i < |items| ==> PlainItem(items[i]))
    ensures ListText(items) != "" && Trimmed(ListText(items))
  {
    if |items| > 1 {
      ListTextTrimmed(items[1..]);
      var rest := ListText(items[1..]);
      var all := items[0] + "; " + rest;
      assert all[|all| - 1] == rest[|rest| - 1];
    }
  }

  // ---- printing and reading one cell -----------------------------------------------------------------

  function FormatCell(lib: Library, f: Field, value: Value): string {
    match value
    case Nothing => ""
    case Truth(yes) => if yes then "true" else "false"
    case Instant(at) => if f.kind.Date? then lib.showDate(at) else lib.showMoment(at)
    case Items(items) => ListText(items)
    case Real(amount) =>
      if amount == amount.Floor as real then IntText(amount.Floor) else lib.showReal(amount)
    case Whole(number) => IntText(number)
    case Text(text) => text
  }

  function Coerce(lib: Library, f: Field, raw: string): Cell {
    var text := Strip(raw);
    if text == "" then
      if f.required then Bad(Required) else Good(Nothing)
    else
      match f.kind
      case Str => Good(Text(text))
      case Email =>
        if lib.isEmail(Lower(text)) then Good(Text(Lower(text))) else Bad(NotEmail)
      case Enum =>
        if Lower(text) in f.accepted then Good(Text(Lower(text))) else Bad(NotChoice)
      case Flag =>
        var word := Lower(text);
        if word in ["true", "yes", "y", "1"] then Good(Truth(true))
        else if word in ["false", "no", "n", "0"] then Good(Truth(false))
        else Bad(NotYesNo)
      case Integer =>
        var n := ReadInt(Denoised(text));
        if n.Some? then Good(Whole(n.value)) else Bad(NotNumber)
      case Float =>
        var x := lib.readReal(Denoised(text));
        if x.Some? then Good(Real(x.value)) else Bad(NotNumber)
      case Date =>
        var at := lib.readMoment(text);
        if at.Some? then Good(Instant(at.value)) else Bad(NotDate)
      case Moment =>
        var at := lib.readMoment(text);
        if at.Some? then Good(Instant(at.value)) else Bad(NotDate)
      case ListOf => Good(Items(NonBlank(Split(text, ""))))
  }

  /**
   The values a column can carry through a file. For numbers with a fraction, dates and instants
   this is the library's own promise that what it prints, it reads back.
   */
  predicate Portable(lib: Library, f: Field, value: Value) {
    match value
    case Nothing => !f.required
    case Text(text) =>
      text != "" && Trimmed(text) &&
      (f.kind.Str? || (f.kind.Email? && Lower(text) == text && lib.isEmail(text)) ||
       (f.kind.Enum? && Lower(text) == text && text in f.accepted))
    case Whole(_) => f.kind.Integer?
    case Truth(_) => f.kind.Flag?
    case Items(items) =>
      f.kind.ListOf? && items != [] && forall i :: 0 <= i < |items| ==> PlainItem(items[i])
    case Real(amount) =>
      var shown := FormatCell(lib, f, value);
      f.kind.Float? && shown != "" && Trimmed(shown) && lib.readReal(Denoised(shown)) == Some(amount)
    case Instant(at) =>
      var shown := FormatCell(lib, f, value);
      (f.kind.Date? || f.kind.Moment?) && shown != "" && Trimmed(shown) && lib.readMoment(shown) == Some(at)
  }

  lemma DigitsAreClean(n: int)
    ensures IntText(n) != "" && Trimmed(IntText(n)) && Denoised(IntText(n)) == IntText(n)
  {
    var s := IntText(n);
    forall i | 0 <= i < |s|
      ensures !IsNoise(s[i])
    {
      assert s[i] == '-' || IsDigit(s[i]);
    }
    DenoisedSame(s);
  }

  /** Printing a portable value and reading the text gives the value back. */
  lemma CellReadsBack(lib: Library, f: Field, value: Value)
    requires Portable(lib, f, value)
    ensures Coerce(lib, f, FormatCell(lib, f, value)) == Good(value)
    ensures FormatCell(lib, f, value) == "" <==> value.Nothing?
    ensures Trimmed(FormatCell(lib, f, value))
  {
    var shown := FormatCell(lib, f, value);
    match value {
      case Whole(number) =>
        DigitsAreClean(number);
        IntReadsBack(number);
      case Items(items) =>
        ListTextTrimmed(items);
        ListSplitsBack(items, "");
      case Truth(yes) =>
        assert Lower("true") == "true" && Lower("false") == "false";
      case _ =>
    }
    StripFixes(shown);
  }

  // ---- what typed text means -------------------------------------------------------------------------

  predicate AllSpace(s: string) {
    forall i :: 0 <= i < |s| ==> IsSpace(s[i])
  }

  /** Text around which only blanks were typed. */
  predicate Padded(raw: string, core: string) {
    Trimmed(core) && exists k :: 0 <= k <= |raw| - |core| && PaddedAt(raw, core, k)
  }

  predicate PaddedAt(raw: string, core: string, k: nat)
    requires k + |core| <= |raw|
  {
    raw[k..k + |core|] == core && AllSpace(raw[..k]) && AllSpace(raw[k + |core|..])
  }

  lemma {:induction false} LStripLead(lead: string, rest: string)
    requires AllSpace(lead) && (rest == "" || !IsSpace(rest[0]))
    ensures LStrip(lead + rest) == rest
  {
    if lead == "" {
      assert lead + rest == rest;
    } else {
      assert (lead + rest)[1..] == lead[1..] + rest;
      LStripLead(lead[1..], rest);
    }
  }

  lemma {:induction false} RStripTrail(core: string, trail: string)
    requires AllSpace(trail) && (core == "" || !IsSpace(core[|core| - 1]))
    ensures RStrip(core + trail) == core
  {
    if trail == "" {
      assert core + trail == core;
    } else {
      assert (core + trail)[..|core + trail| - 1] == core + trail[..|trail| - 1];
      RStripTrail(core, trail[..|trail| - 1]);
    }
  }

  lemma StripPadded(raw: string, core: string)
    requires Padded(raw, core)
    ensures Strip(raw) == core
  {
    var k :| 0 <= k <= |raw| - |core| && PaddedAt(raw, core, k);
    var lead, trail := raw[..k], raw[k + |core|..];
    if core == "" {
      assert raw == (lead + trail) + "";
      assert AllSpace(lead + trail);
      LStripLead(lead + trail, "");
    } else {
      assert raw == lead + (core + trail);
      LStripLead(lead, core + trail);
      RStripTrail(core, trail);
    }
  }

  /** The text in lower case, letter by letter. */
  predicate LowerOf(text: string, low: string) {
    && |low| == |text|
    && forall i :: 0 <= i < |text| ==>
         low[i] == if 'A' <= text[i] <= 'Z' then (text[i] as int - 'A' as int + 'a' as int) as char else text[i]
  }

  /** The positions of a number that are not separators, blanks, currency or percent signs. */
  ghost predicate Counts(text: string, keep: seq<nat>) {
    && (forall i, j :: 0 <= i < j < |keep| ==> keep[i] < keep[j])
    && (forall k :: 0 <= k < |keep| ==> keep[k] < |text| && CountsAt(text[keep[k]]))
    && (forall i :: 0 <= i < |text| && CountsAt(text[i]) ==> i in keep)
  }

  predicate CountsAt(c: char) {
    c != ',' && !IsSpace(c) && c != '$' && c != '\U{20AC}' && c != '\U{A3}' && c != '%'
  }

  ghost function Picked(text: string, keep: seq<nat>): string
    requires forall k :: 0 <= k < |keep| ==> keep[k] < |text|
  {
    seq(|keep|, k requires 0 <= k < |keep| => text[keep[k]])
  }

  lemma {:induction false} DenoisedSnoc(s: string, c: char)
    ensures Denoised(s + [c]) == Denoised(s) + (if IsNoise(c) then "" else [c])
  {
    if s != "" {
      assert (s + [c])[1..] == s[1..] + [c];
      DenoisedSnoc(s[1..], c);
    }
  }

  lemma CountsLast(text: string, keep: seq<nat>)
    requires Counts(text, keep) && text != "" && CountsAt(text[|text| - 1])
    ensures keep != [] && keep[|keep| - 1] == |text| - 1 && Counts(text[..|text| - 1], keep[..|keep| - 1])
  {
    var n := |text| - 1;
    var k :| 0 <= k < |keep| && keep[k] == n;
    assert k == |keep| - 1;
    forall i | 0 <= i < n && CountsAt(text[i])
      ensures i in keep[..|keep| - 1]
    {
      var j :| 0 <= j < |keep| && keep[j] == i;
      assert keep[..|keep| - 1][j] == i;
    }
  }

  lemma CountsSkipped(text: string, keep: seq<nat>)
    requires Counts(text, keep) && text != "" && !CountsAt(text[|text| - 1])
    ensures Counts(text[..|text| - 1], keep)
  {
  }

  lemma SomethingCounts(text: string, keep: seq<nat>)
    requires Counts(text, keep) && keep != []
    ensures text != ""
  {
    assert CountsAt(text[keep[0]]);
  }

  lemma PickedLast(text: string, keep: seq<nat>)
    requires Counts(text, keep) && text != "" && CountsAt(text[|text| - 1])
    ensures keep != [] && Counts(text[..|text| - 1], keep[..|keep| - 1])
    ensures Picked(text, keep) == Picked(text[..|text| - 1], keep[..|keep| - 1]) + [text[|text| - 1]]
  {
    CountsLast(text, keep);
  }

  lemma PickedSkipped(text: string, keep: seq<nat>)
    requires Counts(text, keep) && text != "" && !CountsAt(text[|text| - 1])
    ensures Counts(text[..|text| - 1], keep) && Picked(text, keep) == Picked(text[..|text| - 1], keep)
  {
    CountsSkipped(text, keep);
  }

  lemma DenoisedLast(text: string)
    requires text != ""
    ensures Denoised(text) == Denoised(text[..|text| - 1]) + (if CountsAt(text[|text| - 1]) then [text[|text| - 1]] else "")
  {
    DenoisedSnoc(text[..|text| - 1], text[|text| - 1]);
    assert text == text[..|text| - 1] + [text[|text| - 1]];
  }

  lemma {:induction false} DenoisedIs(text: string, keep: seq<nat>)
    requires Counts(text, keep)
    ensures Denoised(text) == Picked(text, keep)
  {
    if keep != [] {
      SomethingCounts(text, keep);
    }
    if text != "" {
      DenoisedLast(text);
      if CountsAt(text[|text| - 1]) {
        PickedLast(text, keep);
        DenoisedIs(text[..|text| - 1], keep[..|keep| - 1]);
      } else {
        PickedSkipped(text, keep);
        DenoisedIs(text[..|text| - 1], keep);
      }
    }
  }

  /**
   What a cell means by the kind of its column: blanks around it are dropped, and the letters of addresses,
   choices and yes/no words count in either case.
   */
  lemma CellMeans(lib: Library, f: Field, raw: string, core: string, low: string)
    requires Padded(raw, core) && LowerOf(core, low)
    ensures core == "" ==> Coerce(lib, f, raw) == if f.required then Bad(Required) else Good(Nothing)
    ensures core != "" && f.kind == Str ==> Coerce(lib, f, raw) == Good(Text(core))
    ensures core != "" && f.kind == Email ==>
      Coerce(lib, f, raw) == if lib.isEmail(low) then Good(Text(low)) else Bad(NotEmail)
    ensures core != "" && f.kind == Enum ==>
      Coerce(lib, f, raw) == if low in f.accepted then Good(Text(low)) else Bad(NotChoice)
    ensures core != "" && f.kind == Flag ==>
      Coerce(lib, f, raw) == if low == "true" || low == "yes" || low == "y" || low == "1" then Good(Truth(true))
                             else if low == "false" || low == "no" || low == "n" || low == "0" then Good(Truth(false))
                             else Bad(NotYesNo)
    ensures core != "" && (f.kind == Date || f.kind == Moment) ==>
      Coerce(lib, f, raw) == match lib.readMoment(core) case Some(at) => Good(Instant(at)) case None => Bad(NotDate)
  {
    StripPadded(raw, core);
    LowerIs(core, low);
    if core != "" {
      match f.kind {
        case Email => EmailMeans(lib, f, raw);
        case Enum => ChoiceMeans(lib, f, raw);
        case Flag => WordMeans(lib, f, raw);
        case _ =>
      }
    }
  }

  lemma LowerIs(text: string, low: string)
    requires LowerOf(text, low)
    ensures low == Lower(text)
  {
  }

  lemma EmailMeans(lib: Library, f: Field, raw: string)
    requires Strip(raw) != "" && f.kind == Email
    ensures var low := Lower(Strip(raw));
            Coerce(lib, f, raw) == if lib.isEmail(low) then Good(Text(low)) else Bad(NotEmail)
  {
  }

  lemma ChoiceMeans(lib: Library, f: Field, raw: string)
    requires Strip(raw) != "" && f.kind == Enum
    ensures var low := Lower(Strip(raw));
            Coerce(lib, f, raw) == if low in f.accepted then Good(Text(low)) else Bad(NotChoice)
  {
  }

  lemma WordMeans(lib: Library, f: Field, raw: string)
    requires Strip(raw) != "" && f.kind == Flag
    ensures var low := Lower(Strip(raw));
            Coerce(lib, f, raw) ==
              if low == "true" || low == "yes" || low == "y" || low == "1" then Good(Truth(true))
              else if low == "false" || low == "no" || low == "n" || low == "0" then Good(Truth(false))
              else Bad(NotYesNo)
  {
  }

  /** Separators, blanks, currency and percent signs inside a number are ignored; the rest has to read as one. */
  lemma NumberMeans(lib: Library, f: Field, raw: string, core: string, keep: seq<nat>)
    requires Padded(raw, core) && core != "" && Counts(core, keep)
    ensures f.kind == Integer ==>
      Coerce(lib, f, raw) == match ReadInt(Picked(core, keep)) case Some(n) => Good(Whole(n)) case None => Bad(NotNumber)
    ensures f.kind == Float ==>
      Coerce(lib, f, raw) == match lib.readReal(Picked(core, keep))
                             case Some(x) => Good(Real(x))
                             case None => Bad(NotNumber)
  {
    StripPadded(raw, core);
    DenoisedIs(core, keep);
    if f.kind == Integer {
      IntegerMeans(lib, f, raw);
    } else if f.kind == Float {
      FractionMeans(lib, f, raw);
    }
  }

  lemma IntegerMeans(lib: Library, f: Field, raw: string)
    requires Strip(raw) != "" && f.kind == Integer
    ensures Coerce(lib, f, raw) == match ReadInt(Denoised(Strip(raw)))
                                   case Some(n) => Good(Whole(n))
                                   case None => Bad(NotNumber)
  {
  }

  lemma FractionMeans(lib: Library, f: Field, raw: string)
    requires Strip(raw) != "" && f.kind == Float
    ensures Coerce(lib, f, raw) == match lib.readReal(Denoised(Strip(raw)))
                                   case Some(x) => Good(Real(x))
                                   case None => Bad(NotNumber)
  {
  }

  // ---- what list text means -----------------------------------------------------------------------------

  /** Parts with a semicolon or a comma between each two. */
  function Listed(parts: seq<string>, separators: string): string
    requires |parts| == |separators| + 1
  {
    if separators == "" then parts[0]
    else parts[0] + [separators[0]] + Listed(parts[1..], separators[1..])
  }

  lemma {:induction false} SplitJoined(parts: seq<string>, separators: string, lead: string)
    requires |parts| == |separators| + 1
    requires forall i :: 0 <= i < |separators| ==> separators[i] == ';' || separators[i] == ','
    requires forall i, k :: 0 <= i < |parts| && 0 <= k < |parts[i]| ==> parts[i][k] != ';' && parts[i][k] != ','
    ensures Split(Listed(parts, separators), lead) == [lead + parts[0]] + parts[1..]
    decreases |separators|
  {
    if separators == "" {
      SplitRun(parts[0], lead, "");
      assert parts[0] + "" == parts[0];
    } else {
      var rest := Listed(parts[1..], separators[1..]);
      assert Listed(parts, separators) == parts[0] + ([separators[0]] + rest);
      SplitRun(parts[0], lead, [separators[0]] + rest);
      assert ([separators[0]] + rest)[1..] == rest;
      SplitJoined(parts[1..], separators[1..], "");
      assert "" + parts[1] == parts[1] && [parts[1]] + parts[1..][1..] == parts[1..];
    }
  }

  /** The items are the parts that are not blank, without the blanks around them. */
  lemma {:induction false} NonBlankIs(parts: seq<string>, cores: seq<string>)
    requires |cores| == |parts| && forall i :: 0 <= i < |parts| ==> Padded(parts[i], cores[i])
    ensures NonBlank(parts) == Filled(cores)
  {
    if parts != [] {
      StripPadded(parts[0], cores[0]);
      NonBlankIs(parts[1..], cores[1..]);
    }
  }

  function Filled(cores: seq<string>): seq<string> {
    if cores == [] then [] else (if cores[0] == "" then [] else [cores[0]]) + Filled(cores[1..])
  }

  /** A list cell holds what stands between semicolons and commas. */
  lemma ListMeans(lib: Library, f: Field, raw: string, parts: seq<string>, separators: string, cores: seq<string>)
    requires f.kind == ListOf && |parts| == |separators| + 1
    requires forall i :: 0 <= i < |separators| ==> separators[i] == ';' || separators[i] == ','
    requires forall i, k :: 0 <= i < |parts| && 0 <= k < |parts[i]| ==> parts[i][k] != ';' && parts[i][k] != ','
    requires |cores| == |parts| && forall i :: 0 <= i < |parts| ==> Padded(parts[i], cores[i])
    requires Padded(raw, Listed(parts, separators)) && Listed(parts, separators) != ""
    ensures Coerce(lib, f, raw) == Good(Items(Filled(cores)))
  {
    StripPadded(raw, Listed(parts, separators));
    SplitJoined(parts, separators, "");
    assert "" + parts[0] == parts[0] && [parts[0]] + parts[1..] == parts;
    NonBlankIs(parts, cores);
  }

  /** How a stored value is printed: whole amounts without a point, dates by the day, a list with semicolons. */
  lemma CellShows(lib: Library, f: Field, text: string, n: int, x: real, item: string, items: seq<string>)
    ensures FormatCell(lib, f, Nothing) == "" && FormatCell(lib, f, Text(text)) == text
    ensures FormatCell(lib, f, Truth(true)) == "true" && FormatCell(lib, f, Truth(false)) == "false"
    ensures FormatCell(lib, f, Whole(n)) == IntText(n) && FormatCell(lib, f, Real(n as real)) == IntText(n)
    ensures x != x.Floor as real ==> FormatCell(lib, f, Real(x)) == lib.showReal(x)
    ensures FormatCell(lib, f, Instant(n)) == if f.kind == Date then lib.showDate(n) else lib.showMoment(n)
    ensures FormatCell(lib, f, Items([])) == "" && FormatCell(lib, f, Items([item])) == item
    ensures items != [] ==> FormatCell(lib, f, Items([item] + items)) == item + "; " + FormatCell(lib, f, Items(items))
  {
    assert (n as real).Floor == n;
    assert ([item] + items)[1..] == items;
  }

  // ---- headings --------------------------------------------------------------------------------------

  predicate IsWord(c: char) { 'a' <= c <= 'z' || IsDigit(c) }

  /** Every maximal run of other characters becomes one underscore; none leads or trails. */
  function Words(s: string, pending: bool, started: bool): string
    decreases |s|
  {
    if s == "" then ""
    else if IsWord(s[0]) then (if pending && started then "_" else "") + [s[0]] + Words(s[1..], false, true)
    else Words(s[1..], true, started)
  }

  function NormalizeHeader(raw: string): string {
    Words(Lower(Strip(raw)), false, false)
  }

  /** A heading that normalises to something has a character in it that is not blank. */
  lemma {:induction false} HeadingNotBlank(s: string, pending: bool, started: bool)
    requires Words(s, pending, started) != ""
    ensures exists i :: 0 <= i < |s| && IsWord(s[i])
    decreases |s|
  {
    if !IsWord(s[0]) {
      HeadingNotBlank(s[1..], true, started);
      var i :| 0 <= i < |s[1..]| && IsWord(s[1..][i]);
      assert IsWord(s[i + 1]);
    }
  }

  predicate WordText(s: string) {
    s != "" && forall i :: 0 <= i < |s| ==> 'a' <= s[i] <= 'z' || '0' <= s[i] <= '9'
  }

  predicate GapText(s: string) {
    forall i :: 0 <= i < |s| ==> !('a' <= s[i] <= 'z') && !('0' <= s[i] <= '9')
  }

  /** Words with other characters before, between and after them. */
  function Spaced(gaps: seq<string>, words: seq<string>): string
    requires |gaps| == |words| + 1
  {
    if words == [] then gaps[0] else gaps[0] + (words[0] + Spaced(gaps[1..], words[1..]))
  }

  function Underscored(words: seq<string>): string {
    if words == [] then "" else if |words| == 1 then words[0] else words[0] + "_" + Underscored(words[1..])
  }

  lemma {:induction false} WordsGap(gap: string, rest: string, pending: bool, started: bool)
    requires GapText(gap)
    ensures Words(gap + rest, pending, started) == Words(rest, pending || gap != "", started)
    decreases |gap|
  {
    if gap == "" {
      assert gap + rest == rest;
    } else {
      assert (gap + rest)[0] == gap[0] && (gap + rest)[1..] == gap[1..] + rest;
      WordsGap(gap[1..], rest, true, started);
    }
  }

  lemma {:induction false} WordsRun(word: string, rest: string)
    requires forall i :: 0 <= i < |word| ==> IsWord(word[i])
    ensures Words(word + rest, false, true) == word + Words(rest, false, true)
  {
    if word == "" {
      assert word + rest == rest && "" + Words(rest, false, true) == Words(rest, false, true);
    } else {
      assert (word + rest)[0] == word[0] && (word + rest)[1..] == word[1..] + rest;
      WordsRun(word[1..], rest);
      assert [word[0]] + (word[1..] + Words(rest, false, true)) == word + Words(rest, false, true);
    }
  }

  lemma TextAssociates(a: string, b: string, c: string)
    ensures (a + b) + c == a + (b + c)
  {
  }

  lemma WordsWord(word: string, rest: string, pending: bool, started: bool)
    requires WordText(word)
    ensures Words(word + rest, pending, started)
         == (if pending && started then "_" else "") + (word + Words(rest, false, true))
  {
    var lead, tail := if pending && started then "_" else "", Words(rest, false, true);
    assert (word + rest)[0] == word[0] && (word + rest)[1..] == word[1..] + rest;
    WordsRun(word[1..], rest);
    TextAssociates(lead, [word[0]], word[1..] + tail);
    TextAssociates([word[0]], word[1..], tail);
    assert [word[0]] + word[1..] == word;
  }

  lemma {:induction false} WordsSpaced(gaps: seq<string>, words: seq<string>, started: bool)
    requires |gaps| == |words| + 1 && (forall i :: 0 <= i < |gaps| ==> GapText(gaps[i]))
    requires (forall i :: 0 <= i < |words| ==> WordText(words[i])) && (forall i :: 0 < i < |words| ==> gaps[i] != "")
    requires started && words != [] ==> gaps[0] != ""
    ensures Words(Spaced(gaps, words), false, started)
         == (if started && words != [] then "_" else "") + Underscored(words)
    decreases |words|
  {
    if words == [] {
      assert gaps[0] + "" == gaps[0];
      WordsGap(gaps[0], "", false, started);
    } else {
      WordsGap(gaps[0], words[0] + Spaced(gaps[1..], words[1..]), false, started);
      WordsWord(words[0], Spaced(gaps[1..], words[1..]), gaps[0] != "", started);
      WordsSpaced(gaps[1..], words[1..], true);
    }
  }

  /** A heading is its words with one underscore between each two, however they are spelt and separated. */
  lemma HeadingIs(raw: string, core: string, gaps: seq<string>, words: seq<string>)
    requires |gaps| == |words| + 1 && (forall i :: 0 <= i < |gaps| ==> GapText(gaps[i]))
    requires (forall i :: 0 <= i < |words| ==> WordText(words[i])) && (forall i :: 0 < i < |words| ==> gaps[i] != "")
    requires Padded(raw, core) && LowerOf(core, Spaced(gaps, words))
    ensures NormalizeHeader(raw) == Underscored(words)
  {
    StripPadded(raw, core);
    assert Spaced(gaps, words) == Lower(core);
    WordsSpaced(gaps, words, false);
  }
}
