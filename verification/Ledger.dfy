/** Double entry: the journal, the one gate every entry passes, and the reports folded from it. */
module Ledger {
  import opened Options
  import opened Sums

  /** A posting account, known by its stable chart code. */
  type Account = string

  const ACCOUNT_CASH: Account := "1000"
  const ACCOUNT_BANK: Account := "1010"
  const ACCOUNT_AR: Account := "1100"
  const ACCOUNT_AP: Account := "2000"
  const ACCOUNT_TAX: Account := "2100"
  const ACCOUNT_INCOME: Account := "4000"
  const ACCOUNT_COGS: Account := "5000"

  /** Amounts are cents. */
  datatype Line = Line(account: Account, debit: int, credit: int)

  datatype Origin = Manual | OfInvoice | OfBill | OfPayment | OfProject

  datatype Entry = Entry(date: int, origin: Origin, doc: Option<nat>, lines: seq<Line>, reverses: Option<nat>)

  const DebitOf: Line -> int := (line: Line) => line.debit

  const CreditOf: Line -> int := (line: Line) => line.credit

  const NetOf: Line -> int := (line: Line) => line.debit - line.credit

  /** What `_post_entry` demands of its lines. */
  predicate Postable(lines: seq<Line>) {
    && Sum(lines, DebitOf) == Sum(lines, CreditOf) != 0
    && (forall line :: line in lines ==> !(line.debit > 0 && line.credit > 0))
  }

  ghost predicate AllPostable(journal: seq<Entry>) {
    forall entry :: entry in journal ==> Postable(entry.lines)
  }

  // ---- effect on one account ----------------------------------------------------------------------

  function Where(account: Account, f: Line -> int): Line -> int {
    (line: Line) => if line.account == account then f(line) else 0
  }

  function NetAt(account: Account): Entry -> int {
    (entry: Entry) => Sum(entry.lines, Where(account, NetOf))
  }

  function Reversed(lines: seq<Line>): (out: seq<Line>)
    ensures |out| == |lines|
    ensures forall i :: 0 <= i < |lines| ==> out[i] == Line(lines[i].account, lines[i].credit, lines[i].debit)
  {
    seq(|lines|, i requires 0 <= i < |lines| => Line(lines[i].account, lines[i].credit, lines[i].debit))
  }

  /** A reversal can always be posted, and cancels the original on every account. */
  lemma {:induction false} ReversalCancels(lines: seq<Line>, account: Account)
    ensures Sum(Reversed(lines), Where(account, NetOf)) == -Sum(lines, Where(account, NetOf))
    ensures Sum(Reversed(lines), DebitOf) == Sum(lines, CreditOf)
    ensures Sum(Reversed(lines), CreditOf) == Sum(lines, DebitOf)
    ensures Postable(Reversed(lines)) <==> Postable(lines)
  {
    if lines != [] {
      ReversalCancels(lines[1..], account);
      assert Reversed(lines)[1..] == Reversed(lines[1..]);
      var back := Reversed(lines);
      if line :| line in lines && line.debit > 0 && line.credit > 0 {
        var i :| 0 <= i < |lines| && lines[i] == line;
        assert back[i] in back;
      }
    }
  }

  // ---- the reports ---------------------------------------------------------------------------------

  datatype AccountType = Asset | Liability | Equity | Income | Expense

  type Chart = map<Account, AccountType>

  datatype TrialRow = TrialRow(account: Account, kind: AccountType, debit: int, credit: int) {
    function Net(): int { debit - credit }
  }

  predicate InWindow(entry: Entry, start: Option<int>, end: Option<int>) {
    (start.Some? ==> entry.date >= start.value) && (end.Some? ==> entry.date <= end.value)
  }

  /** The unwound lines of the entries inside the window. */
  function LinesIn(journal: seq<Entry>, start: Option<int>, end: Option<int>): seq<Line> {
    if journal == [] then []
    else (if InWindow(journal[0], start, end) then journal[0].lines else [])
         + LinesIn(journal[1..], start, end)
  }

  /** The distinct accounts of some lines: the group keys of the aggregation. */
  function AccountsOf(lines: seq<Line>): (accounts: seq<Account>)
    ensures forall line :: line in lines ==> line.account in accounts
    ensures forall i, j :: 0 <= i < j < |accounts| ==> accounts[i] != accounts[j]
  {
    if lines == [] then [] else
    var rest := AccountsOf(lines[1..]);
    if lines[0].account in rest then rest else [lines[0].account] + rest
  }

  /** Group by account, then join the chart: a group whose account is missing is dropped. */
  function TrialRows(chart: Chart, lines: seq<Line>, accounts: seq<Account>): seq<TrialRow> {
    if accounts == [] then []
    else if accounts[0] !in chart then TrialRows(chart, lines, accounts[1..])
    else [TrialRow(accounts[0], chart[accounts[0]], Sum(lines, Where(accounts[0], DebitOf)),
                   Sum(lines, Where(accounts[0], CreditOf)))]
         + TrialRows(chart, lines, accounts[1..])
  }

  const RowDebit: TrialRow -> int := (row: TrialRow) => row.debit

  const RowCredit: TrialRow -> int := (row: TrialRow) => row.credit

  function RowNetOf(kind: AccountType): TrialRow -> int {
    (row: TrialRow) => if row.kind == kind then row.Net() else 0
  }

  function AcrossAccounts(lines: seq<Line>, f: Line -> int, accounts: seq<Account>): int {
    if accounts == [] then 0
    else Sum(lines, Where(accounts[0], f)) + AcrossAccounts(lines, f, accounts[1..])
  }

  lemma {:induction false} OneLineOnce(line: Line, rest: seq<Line>, f: Line -> int, accounts: seq<Account>)
    requires forall i, j :: 0 <= i < j < |accounts| ==> accounts[i] != accounts[j]
    ensures AcrossAccounts([line] + rest, f, accounts)
         == AcrossAccounts(rest, f, accounts) + (if line.account in accounts then f(line) else 0)
  {
    if accounts != [] {
      assert ([line] + rest)[1..] == rest;
      OneLineOnce(line, rest, f, accounts[1..]);
    }
  }

  /** Grouping by account loses nothing and counts nothing twice. */
  lemma {:induction false} GroupingIsComplete(lines: seq<Line>, f: Line -> int, accounts: seq<Account>)
    requires forall i, j :: 0 <= i < j < |accounts| ==> accounts[i] != accounts[j]
    requires forall line :: line in lines ==> line.account in accounts
    ensures AcrossAccounts(lines, f, accounts) == Sum(lines, f)
  {
    if lines == [] {
      NothingAcross(f, accounts);
    } else {
      assert lines == [lines[0]] + lines[1..];
      OneLineOnce(lines[0], lines[1..], f, accounts);
      GroupingIsComplete(lines[1..], f, accounts);
    }
  }

  lemma {:induction false} NothingAcross(f: Line -> int, accounts: seq<Account>)
    ensures AcrossAccounts([], f, accounts) == 0
  {
    if accounts != [] {
      NothingAcross(f, accounts[1..]);
    }
  }

  lemma {:induction false} RowsFollowGroups(chart: Chart, lines: seq<Line>, accounts: seq<Account>)
    requires forall account :: account in accounts ==> account in chart
    ensures Sum(TrialRows(chart, lines, accounts), RowDebit) == AcrossAccounts(lines, DebitOf, accounts)
    ensures Sum(TrialRows(chart, lines, accounts), RowCredit) == AcrossAccounts(lines, CreditOf, accounts)
  {
    if accounts != [] {
      RowsFollowGroups(chart, lines, accounts[1..]);
      assert TrialRows(chart, lines, accounts)[1..] == TrialRows(chart, lines, accounts[1..]);
    }
  }

  lemma {:induction false} WindowBalances(journal: seq<Entry>, start: Option<int>, end: Option<int>)
    requires AllPostable(journal)
    ensures Sum(LinesIn(journal, start, end), DebitOf) == Sum(LinesIn(journal, start, end), CreditOf)
  {
    if journal != [] {
      WindowBalances(journal[1..], start, end);
      var head := if InWindow(journal[0], start, end) then journal[0].lines else [];
      SumAppend(head, LinesIn(journal[1..], start, end), DebitOf);
      SumAppend(head, LinesIn(journal[1..], start, end), CreditOf);
      assert Postable(journal[0].lines);
    }
  }

  /** The chart still holds every account the journal mentions: accounts are only soft-deleted. */
  ghost predicate Charted(journal: seq<Entry>, chart: Chart) {
    forall entry, line :: entry in journal && line in entry.lines ==> line.account in chart
  }

  lemma {:induction false} WindowCharted(
    journal: seq<Entry>, chart: Chart, start: Option<int>, end: Option<int>)
    requires Charted(journal, chart)
    ensures forall line :: line in LinesIn(journal, start, end) ==> line.account in chart
  {
    if journal != [] {
      assert forall entry :: entry in journal[1..] ==> entry in journal;
      WindowCharted(journal[1..], chart, start, end);
      assert journal[0] in journal;
    }
  }

  lemma {:induction false} AccountsComeFromLines(lines: seq<Line>, chart: Chart)
    requires forall line :: line in lines ==> line.account in chart
    ensures forall account :: account in AccountsOf(lines) ==> account in chart
  {
    if lines != [] {
      AccountsComeFromLines(lines[1..], chart);
    }
  }

  function Report(journal: seq<Entry>, chart: Chart, start: Option<int>, end: Option<int>): seq<TrialRow> {
    var lines := LinesIn(journal, start, end);
    TrialRows(chart, lines, AccountsOf(lines))
  }

  /** Whatever was posted, every trial balance nets to zero, in every window. */
  lemma TrialBalanceNets(journal: seq<Entry>, chart: Chart, start: Option<int>, end: Option<int>)
    requires AllPostable(journal) && Charted(journal, chart)
    ensures Sum(Report(journal, chart, start, end), RowDebit)
         == Sum(Report(journal, chart, start, end), RowCredit)
  {
    var lines := LinesIn(journal, start, end);
    var accounts := AccountsOf(lines);
    WindowCharted(journal, chart, start, end);
    AccountsComeFromLines(lines, chart);
    RowsFollowGroups(chart, lines, accounts);
    GroupingIsComplete(lines, DebitOf, accounts);
    GroupingIsComplete(lines, CreditOf, accounts);
    WindowBalances(journal, start, end);
  }

  // ---- what the rows and the figures are, read off the journal ---------------------------------------------

  /** The lines on accounts of one type, debits positive. */
  function OfKind(chart: Chart, kind: AccountType): Line -> int {
    (line: Line) => if line.account in chart && chart[line.account] == kind then line.debit - line.credit else 0
  }

  /** What the entries from start to end, both included, come to. */
  function Within(f: Line -> int, start: Option<int>, end: Option<int>): Entry -> int {
    (entry: Entry) =>
      if (start == None || start.value <= entry.date) && (end == None || entry.date <= end.value)
      then Sum(entry.lines, f) else 0
  }

  lemma {:induction false} WindowSums(journal: seq<Entry>, f: Line -> int, start: Option<int>, end: Option<int>)
    ensures Sum(LinesIn(journal, start, end), f) == Sum(journal, Within(f, start, end))
  {
    if journal != [] {
      WindowSums(journal[1..], f, start, end);
      SumAppend(if InWindow(journal[0], start, end) then journal[0].lines else [], LinesIn(journal[1..], start, end), f);
    }
  }

  lemma {:induction false} AccountNet(chart: Chart, lines: seq<Line>, account: Account, kind: AccountType)
    ensures Sum(lines, Where(account, OfKind(chart, kind)))
         == if account in chart && chart[account] == kind
            then Sum(lines, Where(account, DebitOf)) - Sum(lines, Where(account, CreditOf)) else 0
  {
    if lines != [] {
      AccountNet(chart, lines[1..], account, kind);
    }
  }

  lemma {:induction false} KindFollows(chart: Chart, lines: seq<Line>, accounts: seq<Account>, kind: AccountType)
    ensures Sum(TrialRows(chart, lines, accounts), RowNetOf(kind)) == AcrossAccounts(lines, OfKind(chart, kind), accounts)
  {
    if accounts != [] {
      KindFollows(chart, lines, accounts[1..], kind);
      AccountNet(chart, lines, accounts[0], kind);
      if accounts[0] in chart {
        assert TrialRows(chart, lines, accounts)[1..] == TrialRows(chart, lines, accounts[1..]);
      }
    }
  }

  /** A figure is the journal's lines of its type in the window, credits turned positive on credit-normal types. */
  lemma FigureIs(journal: seq<Entry>, chart: Chart, start: Option<int>, end: Option<int>, kind: AccountType)
    ensures KindTotal(Report(journal, chart, start, end), kind)
         == if kind == Asset || kind == Expense then Sum(journal, Within(OfKind(chart, kind), start, end))
            else -Sum(journal, Within(OfKind(chart, kind), start, end))
  {
    var lines := LinesIn(journal, start, end);
    KindFollows(chart, lines, AccountsOf(lines), kind);
    GroupingIsComplete(lines, OfKind(chart, kind), AccountsOf(lines));
    WindowSums(journal, OfKind(chart, kind), start, end);
  }

  lemma {:induction false} RowsAre(chart: Chart, lines: seq<Line>, accounts: seq<Account>)
    ensures forall row :: row in TrialRows(chart, lines, accounts) <==>
      && row.account in accounts && row.account in chart && row.kind == chart[row.account]
      && row.debit == Sum(lines, Where(row.account, DebitOf)) && row.credit == Sum(lines, Where(row.account, CreditOf))
  {
    if accounts != [] {
      RowsAre(chart, lines, accounts[1..]);
      assert forall account :: account in accounts <==> account == accounts[0] || account in accounts[1..];
    }
  }

  /** A row carries its account's type and the debits and credits posted to it in the window. */
  lemma ReportRowIs(journal: seq<Entry>, chart: Chart, start: Option<int>, end: Option<int>, row: TrialRow)
    requires row in Report(journal, chart, start, end)
    ensures row.account in chart && row.kind == chart[row.account]
    ensures row.debit == Sum(journal, Within(Where(row.account, DebitOf), start, end))
    ensures row.credit == Sum(journal, Within(Where(row.account, CreditOf), start, end))
  {
    var lines := LinesIn(journal, start, end);
    RowsAre(chart, lines, AccountsOf(lines));
    WindowSums(journal, Where(row.account, DebitOf), start, end);
    WindowSums(journal, Where(row.account, CreditOf), start, end);
  }

  method TrialBalance(journal: seq<Entry>, chart: Chart, start: Option<int>, end: Option<int>)
    returns (rows: seq<TrialRow>, debitTotal: int, creditTotal: int, balanced: bool)
    ensures rows == Report(journal, chart, start, end)
    ensures forall row :: row in rows ==>
      && row.account in chart && row.kind == chart[row.account]
      && row.debit == Sum(journal, Within(Where(row.account, DebitOf), start, end))
      && row.credit == Sum(journal, Within(Where(row.account, CreditOf), start, end))
    ensures debitTotal == Sum(rows, RowDebit) && creditTotal == Sum(rows, RowCredit)
    ensures balanced == (debitTotal == creditTotal)
    ensures AllPostable(journal) && Charted(journal, chart) ==> balanced
  {
    rows := Report(journal, chart, start, end);
    debitTotal, creditTotal := 0, 0;
    for i := 0 to |rows|
      invariant debitTotal == Sum(rows[..i], RowDebit) && creditTotal == Sum(rows[..i], RowCredit)
    {
      assert rows[..i + 1] == rows[..i] + [rows[i]];
      SumSnoc(rows[..i], rows[i], RowDebit);
      SumSnoc(rows[..i], rows[i], RowCredit);
      debitTotal := debitTotal + rows[i].debit;
      creditTotal := creditTotal + rows[i].credit;
    }
    assert rows[..|rows|] == rows;
    balanced := debitTotal == creditTotal;
    forall row | row in rows
      ensures row.account in chart && row.kind == chart[row.account]
      ensures row.debit == Sum(journal, Within(Where(row.account, DebitOf), start, end))
      ensures row.credit == Sum(journal, Within(Where(row.account, CreditOf), start, end))
    {
      ReportRowIs(journal, chart, start, end, row);
    }
    if AllPostable(journal) && Charted(journal, chart) {
      TrialBalanceNets(journal, chart, start, end);
    }
  }

  lemma {:induction false} KindsPartition(rows: seq<TrialRow>)
    ensures Sum(rows, RowDebit) - Sum(rows, RowCredit)
         == Sum(rows, RowNetOf(Asset)) + Sum(rows, RowNetOf(Liability)) + Sum(rows, RowNetOf(Equity))
            + Sum(rows, RowNetOf(Income)) + Sum(rows, RowNetOf(Expense))
  {
    if rows != [] {
      KindsPartition(rows[1..]);
    }
  }

  /** Credit-normal types are shown with their sign turned. */
  function KindTotal(rows: seq<TrialRow>, kind: AccountType): int {
    var net := Sum(rows, RowNetOf(kind));
    if kind.Liability? || kind.Equity? || kind.Income? then -net else net
  }

  method BalanceSheet(journal: seq<Entry>, chart: Chart, end: Option<int>)
    returns (assets: int, liabilities: int, equity: int, retained: int, balanced: bool)
    ensures var rows := Report(journal, chart, None, end);
            && assets == KindTotal(rows, Asset) && liabilities == KindTotal(rows, Liability)
            && equity == KindTotal(rows, Equity)
            && retained == KindTotal(rows, Income) - KindTotal(rows, Expense)
    ensures assets == Sum(journal, Within(OfKind(chart, Asset), None, end))
    ensures liabilities == -Sum(journal, Within(OfKind(chart, Liability), None, end))
    ensures equity == -Sum(journal, Within(OfKind(chart, Equity), None, end))
    ensures retained == -Sum(journal, Within(OfKind(chart, Income), None, end))
                        - Sum(journal, Within(OfKind(chart, Expense), None, end))
    ensures balanced == (assets == liabilities + equity + retained)
    ensures AllPostable(journal) && Charted(journal, chart) ==> balanced
  {
    var rows, debitTotal, creditTotal, even := TrialBalance(journal, chart, None, end);
    assets, liabilities := KindTotal(rows, Asset), KindTotal(rows, Liability);
    equity := KindTotal(rows, Equity);
    retained := KindTotal(rows, Income) - KindTotal(rows, Expense);
    balanced := assets == liabilities + equity + retained;
    KindsPartition(rows);
    FigureIs(journal, chart, None, end, Asset);
    FigureIs(journal, chart, None, end, Liability);
    FigureIs(journal, chart, None, end, Equity);
    FigureIs(journal, chart, None, end, Income);
    FigureIs(journal, chart, None, end, Expense);
  }

  /** Assets equal liabilities plus equity plus retained earnings, for every chart and end date. */
  lemma BalanceSheetBalances(journal: seq<Entry>, chart: Chart, end: Option<int>)
    requires AllPostable(journal) && Charted(journal, chart)
    ensures var rows := Report(journal, chart, None, end);
            KindTotal(rows, Asset) == KindTotal(rows, Liability) + KindTotal(rows, Equity)
                                      + (KindTotal(rows, Income) - KindTotal(rows, Expense))
  {
    TrialBalanceNets(journal, chart, None, end);
    KindsPartition(Report(journal, chart, None, end));
  }
}
