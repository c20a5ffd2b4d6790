/**
 Invoices, bills and payments over the journal: what each request does to the books, and what
 every run of requests keeps. A request is served alone.
 */
module Receivables {
  import opened Ledger
  import opened Money
  import opened Options
  import opened Stock
  import opened Sums

  datatype Status = Draft | Sent | PartlyPaid | Paid | Void

  /** An invoice or a bill. Amounts are cents; `entry` is the position of its journal entry. */
  datatype Document = Document(
    lines: seq<DocLine>, subtotal: int, taxTotal: int, total: int, paid: int, status: Status,
    issueDate: int, dueDate: int, issuesStock: bool, warehouse: Option<nat>,
    number: Option<nat>, entry: Option<nat>, deleted: bool)

  datatype DocKind = InvoiceDoc | BillDoc

  datatype PaymentType = CustomerPayment | VendorPayment

  datatype PayMethod = ByCash | ByBank | ByOther

  datatype Payment = Payment(
    ptype: PaymentType, kind: DocKind, doc: nat, amount: int, date: int, means: PayMethod, entry: nat)

  /** A document's identity is its position: documents are only ever soft-deleted. */
  datatype Books = Books(
    invoices: seq<Document>, bills: seq<Document>, journal: seq<Entry>, payments: seq<Payment>,
    invoiceSeq: nat, billSeq: nat)

  const EmptyBooks := Books([], [], [], [], 0, 0)

  datatype Patch = Patch(
    lines: Option<seq<DocLine>>, issueDate: Option<int>, dueDate: Option<int>,
    issuesStock: Option<bool>, warehouse: Option<nat>)

  datatype Fault = Missing | WrongState | Refused | NoStock | NoAccount | Unbalanced

  datatype Reply = Success(id: nat) | Failure(fault: Fault)

  function StatusFor(paid: int, total: int): Status {
    if paid <= 0 then Sent else if paid < total then PartlyPaid else Paid
  }

  function MethodAccount(means: PayMethod): Account {
    match means
    case ByBank => ACCOUNT_BANK
    case _ => ACCOUNT_CASH
  }

  function NewDraft(lines: seq<DocLine>, issueDate: int, dueDate: int, issuesStock: bool,
                    warehouse: Option<nat>): Document {
    Document(lines, Subtotal(lines), TaxTotal(lines), Subtotal(lines) + TaxTotal(lines), 0, Draft,
             issueDate, dueDate, issuesStock, warehouse, None, None, false)
  }

  function Patched(doc: Document, patch: Patch): Document {
    var d0 := if patch.lines.None? then doc else
      var lines := patch.lines.value;
      doc.(lines := lines, subtotal := Subtotal(lines), taxTotal := TaxTotal(lines),
           total := Subtotal(lines) + TaxTotal(lines));
    d0.(issueDate := if patch.issueDate.Some? then patch.issueDate.value else doc.issueDate,
        dueDate := if patch.dueDate.Some? then patch.dueDate.value else doc.dueDate,
        issuesStock := if patch.issuesStock.Some? then patch.issuesStock.value else doc.issuesStock,
        warehouse := if patch.warehouse.Some? then patch.warehouse else doc.warehouse)
  }

  function SaleLines(doc: Document): seq<Line> {
    [Line(ACCOUNT_AR, doc.total, 0), Line(ACCOUNT_INCOME, 0, doc.subtotal)]
    + (if doc.taxTotal > 0 then [Line(ACCOUNT_TAX, 0, doc.taxTotal)] else [])
  }

  function PurchaseLines(doc: Document): seq<Line> {
    [Line(ACCOUNT_COGS, doc.subtotal, 0)]
    + (if doc.taxTotal > 0 then [Line(ACCOUNT_TAX, doc.taxTotal, 0)] else [])
    + [Line(ACCOUNT_AP, 0, doc.total)]
  }

  function PaymentLines(kind: DocKind, cash: Account, amount: int): seq<Line> {
    match kind
    case InvoiceDoc => [Line(cash, amount, 0), Line(ACCOUNT_AR, 0, amount)]
    case BillDoc => [Line(ACCOUNT_AP, amount, 0), Line(cash, 0, amount)]
  }

  // ---- what each request does -----------------------------------------------------------------------

  predicate Live(docs: seq<Document>, id: nat) {
    id < |docs| && !docs[id].deleted
  }

  function WithEntry(b: Books, entry: Entry): Books {
    b.(journal := b.journal + [entry])
  }

  function CreateInvoice(b: Books, doc: Document, issuable: bool): (Books, Reply) {
    if doc.issuesStock && !issuable then (b, Failure(Refused))
    else (b.(invoices := b.invoices + [doc]), Success(|b.invoices|))
  }

  function CreateBill(b: Books, doc: Document): (Books, Reply) {
    (b.(bills := b.bills + [doc]), Success(|b.bills|))
  }

  function PatchInvoice(b: Books, id: nat, patch: Patch): (Books, Reply) {
    if !Live(b.invoices, id) then (b, Failure(Missing))
    else if b.invoices[id].status != Draft then (b, Failure(WrongState))
    else (b.(invoices := b.invoices[id := Patched(b.invoices[id], patch)]), Success(id))
  }

  function PatchBill(b: Books, id: nat, patch: Patch): (Books, Reply) {
    if !Live(b.bills, id) then (b, Failure(Missing))
    else if b.bills[id].status != Draft then (b, Failure(WrongState))
    else (b.(bills := b.bills[id := Patched(b.bills[id], patch)]), Success(id))
  }

  function DeleteInvoice(b: Books, id: nat): (Books, Reply) {
    if !Live(b.invoices, id) then (b, Failure(Missing))
    else if b.invoices[id].status != Draft then (b, Failure(WrongState))
    else (b.(invoices := b.invoices[id := b.invoices[id].(deleted := true)]), Success(id))
  }

  predicate SaleAccounts(chart: set<Account>, doc: Document) {
    ACCOUNT_AR in chart && ACCOUNT_INCOME in chart && (doc.taxTotal > 0 ==> ACCOUNT_TAX in chart)
  }

  predicate PurchaseAccounts(chart: set<Account>, doc: Document) {
    ACCOUNT_COGS in chart && ACCOUNT_AP in chart && (doc.taxTotal > 0 ==> ACCOUNT_TAX in chart)
  }

  /** The number is claimed before anything can fail, so a failed send burns one. */
  function SendInvoice(b: Books, chart: set<Account>, id: nat, stockOk: bool): (Books, Reply) {
    if !Live(b.invoices, id) then (b, Failure(Missing)) else
    var doc := b.invoices[id];
    if doc.status != Draft then (b, Failure(WrongState))
    else if doc.total <= 0 then (b, Failure(Refused)) else
    var b1 := b.(invoiceSeq := b.invoiceSeq + 1);
    if doc.issuesStock && !stockOk then (b1, Failure(NoStock))
    else if !SaleAccounts(chart, doc) then (b1, Failure(NoAccount))
    else if !Postable(SaleLines(doc)) then (b1, Failure(Unbalanced))
    else
      (WithEntry(b1, Entry(doc.issueDate, OfInvoice, Some(id), SaleLines(doc), None))
         .(invoices := b.invoices[id := doc.(number := Some(b1.invoiceSeq), status := Sent,
                                             entry := Some(|b.journal|))]),
       Success(id))
  }

  function SendBill(b: Books, chart: set<Account>, id: nat): (Books, Reply) {
    if !Live(b.bills, id) then (b, Failure(Missing)) else
    var doc := b.bills[id];
    if doc.status != Draft then (b, Failure(WrongState))
    else if doc.total <= 0 then (b, Failure(Refused)) else
    var b1 := b.(billSeq := b.billSeq + 1);
    if !PurchaseAccounts(chart, doc) then (b1, Failure(NoAccount))
    else if !Postable(PurchaseLines(doc)) then (b1, Failure(Unbalanced))
    else
      (WithEntry(b1, Entry(doc.issueDate, OfBill, Some(id), PurchaseLines(doc), None))
         .(bills := b.bills[id := doc.(number := Some(b1.billSeq), status := Sent,
                                       entry := Some(|b.journal|))]),
       Success(id))
  }

  function DocsOf(b: Books, kind: DocKind): seq<Document> {
    if kind.InvoiceDoc? then b.invoices else b.bills
  }

  function WithDoc(b: Books, kind: DocKind, id: nat, doc: Document): Books
    requires id < |DocsOf(b, kind)|
  {
    if kind.InvoiceDoc? then b.(invoices := b.invoices[id := doc]) else b.(bills := b.bills[id := doc])
  }

  function ExpectedType(kind: DocKind): PaymentType {
    if kind.InvoiceDoc? then CustomerPayment else VendorPayment
  }

  function ControlAccount(kind: DocKind): Account {
    if kind.InvoiceDoc? then ACCOUNT_AR else ACCOUNT_AP
  }

  function Settled(doc: Document, amount: int): Document {
    doc.(paid := doc.paid + amount, status := StatusFor(doc.paid + amount, doc.total))
  }

  function CreatePayment(b: Books, chart: set<Account>, kind: DocKind, id: nat, ptype: PaymentType,
                         amount: int, means: PayMethod, date: int): (Books, Reply) {
    if !Live(DocsOf(b, kind), id) then (b, Failure(Missing)) else
    var doc := DocsOf(b, kind)[id];
    if ptype != ExpectedType(kind) then (b, Failure(Refused))
    else if doc.status == Draft || doc.status == Void then (b, Failure(WrongState))
    else if amount > doc.total - doc.paid then (b, Failure(Refused))
    else if MethodAccount(means) !in chart || ControlAccount(kind) !in chart then (b, Failure(NoAccount))
    else
      var lines := PaymentLines(kind, MethodAccount(means), amount);
      if !Postable(lines) then (b, Failure(Unbalanced)) else
      (WithDoc(WithEntry(b, Entry(date, OfPayment, Some(id), lines, None))
                 .(payments := b.payments + [Payment(ptype, kind, id, amount, date, means, |b.journal|)]),
               kind, id, Settled(doc, amount)),
       Success(|b.payments|))
  }

  /** The first entry of an invoice that is not itself a reversal. */
  function FindEntry(journal: seq<Entry>, id: nat): (found: Option<nat>)
    ensures found.Some? ==>
      && found.value < |journal|
      && journal[found.value].origin == OfInvoice && journal[found.value].doc == Some(id)
  {
    if journal == [] then None
    else if journal[0].origin == OfInvoice && journal[0].doc == Some(id) && journal[0].reverses.None?
    then Some(0)
    else match FindEntry(journal[1..], id)
         case None => None
         case Some(n) => Some(n + 1)
  }

  function VoidInvoice(b: Books, id: nat, date: int): (Books, Reply) {
    if !Live(b.invoices, id) then (b, Failure(Missing)) else
    var doc := b.invoices[id];
    if doc.status == Void || doc.status == Draft then (b, Failure(WrongState))
    else if doc.paid > 0 then (b, Failure(WrongState)) else
    var searched := FindEntry(b.journal, id);
    var found := if searched.Some? then searched else doc.entry;
    if found.None? || found.value >= |b.journal| then (b, Failure(WrongState)) else
    var lines := Reversed(b.journal[found.value].lines);
    if !Postable(lines) then (b, Failure(Unbalanced))
    else
      (WithEntry(b, Entry(date, OfInvoice, Some(id), lines, found))
         .(invoices := b.invoices[id := doc.(status := Void)]),
       Success(id))
  }

  /** A manual or project entry: any lines on known accounts that balance. */
  function PostOther(b: Books, chart: set<Account>, origin: Origin, date: int, lines: seq<Line>): (Books, Reply) {
    if exists line :: line in lines && line.account !in chart then (b, Failure(NoAccount))
    else if !Postable(lines) then (b, Failure(Unbalanced))
    else (WithEntry(b, Entry(date, origin, None, lines, None)), Success(|b.journal|))
  }

  // ---- runs -----------------------------------------------------------------------------------------

  datatype Request =
    | AddInvoice(lines: seq<DocLine>, issueDate: int, dueDate: int, issuesStock: bool,
                 warehouse: Option<nat>, issuable: bool)
    | AddBill(lines: seq<DocLine>, issueDate: int, dueDate: int)
    | EditInvoice(id: nat, patch: Patch)
    | EditBill(id: nat, patch: Patch)
    | DropInvoice(id: nat)
    | PostInvoice(id: nat, stockOk: bool)
    | PostBill(id: nat)
    | Pay(kind: DocKind, id: nat, ptype: PaymentType, value: real, means: PayMethod, date: int)
    | Cancel(id: nat, date: int)
    | Other(origin: Origin, date: int, posting: seq<Line>)

  /** What the payload models admit. */
  predicate WellFormed(r: Request) {
    match r
    case AddInvoice(lines, _, _, _, _, _) => forall line :: line in lines ==> Billable(line)
    case AddBill(lines, _, _) => forall line :: line in lines ==> Billable(line)
    case EditInvoice(_, patch) =>
      patch.lines.Some? ==> forall line :: line in patch.lines.value ==> Billable(line)
    case EditBill(_, patch) =>
      patch.lines.Some? ==> forall line :: line in patch.lines.value ==> Billable(line)
    case Pay(_, _, _, value, _, _) => value > 0.0
    case Other(origin, _, _) => origin == Manual || origin == OfProject
    case _ => true
  }

  function Serve(b: Books, chart: set<Account>, r: Request): (Books, Reply) {
    match r
    case AddInvoice(lines, issueDate, dueDate, issuesStock, warehouse, issuable) =>
      CreateInvoice(b, NewDraft(lines, issueDate, dueDate, issuesStock, warehouse), issuable)
    case AddBill(lines, issueDate, dueDate) =>
      CreateBill(b, NewDraft(lines, issueDate, dueDate, false, None))
    case EditInvoice(id, patch) => PatchInvoice(b, id, patch)
    case EditBill(id, patch) => PatchBill(b, id, patch)
    case DropInvoice(id) => DeleteInvoice(b, id)
    case PostInvoice(id, stockOk) => SendInvoice(b, chart, id, stockOk)
    case PostBill(id) => SendBill(b, chart, id)
    case Pay(kind, id, ptype, value, means, date) =>
      CreatePayment(b, chart, kind, id, ptype, Cents(value), means, date)
    case Cancel(id, date) => VoidInvoice(b, id, date)
    case Other(origin, date, lines) => PostOther(b, chart, origin, date, lines)
  }

  function Run(chart: set<Account>, requests: seq<Request>): Books {
    if requests == [] then EmptyBooks
    else Serve(Run(chart, requests[..|requests| - 1]), chart, requests[|requests| - 1]).0
  }

  // ---- the invariant --------------------------------------------------------------------------------

  /** What an open document still owes. */
  const Outstanding: Document -> int :=
    (doc: Document) =>
      if !doc.deleted && (doc.status == Sent || doc.status == PartlyPaid) then doc.total - doc.paid else 0

  /** The debit balance an entry of the receivables (payables) cycle puts on its control account. */
  function ControlEffect(kind: DocKind): Entry -> int {
    (entry: Entry) =>
      if entry.origin == OfPayment || entry.origin == (if kind.InvoiceDoc? then OfInvoice else OfBill)
      then Sum(entry.lines, Where(ControlAccount(kind), NetOf)) else 0
  }

  function ControlBalance(b: Books, kind: DocKind): int {
    Sum(b.journal, ControlEffect(kind))
  }

  ghost predicate DocOk(doc: Document) {
    && doc.total == doc.subtotal + doc.taxTotal && doc.subtotal >= 0 && doc.taxTotal >= 0
    && 0 <= doc.paid <= doc.total
    && (doc.deleted ==> doc.status == Draft)
    && (doc.status == Draft || doc.status == Void ==> doc.paid == 0)
    && (doc.status != Draft ==> doc.total > 0 && doc.number.Some?)
    && (doc.status != Draft && doc.status != Void ==> doc.status == StatusFor(doc.paid, doc.total))
  }

  /** Entries of an invoice exist only once it is posted, and lead back to its own sale. */
  ghost predicate Traced(b: Books) {
    && (forall entry :: entry in b.journal && entry.origin == OfInvoice ==>
          entry.doc.Some? && entry.doc.value < |b.invoices| && b.invoices[entry.doc.value].status != Draft)
    && (forall i :: 0 <= i < |b.invoices| && b.invoices[i].status != Draft && b.invoices[i].status != Void ==>
          && FindEntry(b.journal, i).Some?
          && b.journal[FindEntry(b.journal, i).value].lines == SaleLines(b.invoices[i]))
  }

  ghost predicate NumbersUnique(docs: seq<Document>, last: nat) {
    && (forall i :: 0 <= i < |docs| && docs[i].number.Some? ==> 1 <= docs[i].number.value <= last)
    && (forall i, j :: 0 <= i < j < |docs| && docs[i].number.Some? && docs[j].number.Some? ==>
          docs[i].number != docs[j].number)
  }

  ghost predicate Inv(b: Books) {
    && (forall doc :: doc in b.invoices ==> DocOk(doc))
    && (forall doc :: doc in b.bills ==> DocOk(doc))
    && (forall doc :: doc in b.bills ==> doc.status != Void)
    && AllPostable(b.journal)
    && Traced(b)
    && NumbersUnique(b.invoices, b.invoiceSeq)
    && NumbersUnique(b.bills, b.billSeq)
    && ControlBalance(b, InvoiceDoc) == Sum(b.invoices, Outstanding)
    && -ControlBalance(b, BillDoc) == Sum(b.bills, Outstanding)
  }

  // ---- every request keeps the invariant --------------------------------------------------------------

  lemma ControlCodesDiffer()
    ensures ACCOUNT_AR != ACCOUNT_INCOME && ACCOUNT_AR != ACCOUNT_TAX && ACCOUNT_AR != ACCOUNT_AP
    ensures ACCOUNT_AR != ACCOUNT_CASH && ACCOUNT_AR != ACCOUNT_BANK && ACCOUNT_AR != ACCOUNT_COGS
    ensures ACCOUNT_AP != ACCOUNT_COGS && ACCOUNT_AP != ACCOUNT_TAX
    ensures ACCOUNT_AP != ACCOUNT_CASH && ACCOUNT_AP != ACCOUNT_BANK && ACCOUNT_AP != ACCOUNT_INCOME
  {
    assert ACCOUNT_AR[0] == '1' && ACCOUNT_AR[1] == '1';
    assert ACCOUNT_CASH[1] == '0' && ACCOUNT_BANK[1] == '0';
    assert ACCOUNT_AP[0] == '2' && ACCOUNT_AP[1] == '0' && ACCOUNT_TAX[0] == '2' && ACCOUNT_TAX[1] == '1';
    assert ACCOUNT_INCOME[0] == '4' && ACCOUNT_COGS[0] == '5' && ACCOUNT_CASH[0] == '1' && ACCOUNT_BANK[0] == '1';
  }

  /** Unfold a sum over at most three lines. */
  lemma SumOfThree(lines: seq<Line>, f: Line -> int)
    requires |lines| <= 3
    ensures Sum(lines, f) == (if |lines| > 0 then f(lines[0]) else 0)
                           + (if |lines| > 1 then f(lines[1]) else 0)
                           + (if |lines| > 2 then f(lines[2]) else 0)
  {
    if |lines| > 0 {
      assert Sum(lines, f) == f(lines[0]) + Sum(lines[1..], f);
      if |lines| > 1 {
        assert Sum(lines[1..], f) == f(lines[1]) + Sum(lines[1..][1..], f);
        if |lines| > 2 {
          assert Sum(lines[1..][1..], f) == f(lines[2]) + Sum(lines[1..][1..][1..], f);
        }
      }
    }
  }

  /** The entry a send builds always passes the balance check. */
  lemma SaleAlwaysPosts(doc: Document)
    requires DocOk(doc) && doc.total > 0
    ensures Postable(SaleLines(doc)) && Postable(PurchaseLines(doc))
    ensures Sum(SaleLines(doc), Where(ACCOUNT_AR, NetOf)) == doc.total
    ensures Sum(SaleLines(doc), Where(ACCOUNT_AP, NetOf)) == 0
    ensures Sum(PurchaseLines(doc), Where(ACCOUNT_AP, NetOf)) == -doc.total
    ensures Sum(PurchaseLines(doc), Where(ACCOUNT_AR, NetOf)) == 0
  {
    ControlCodesDiffer();
    SumOfThree(SaleLines(doc), DebitOf);
    SumOfThree(SaleLines(doc), CreditOf);
    SumOfThree(SaleLines(doc), Where(ACCOUNT_AR, NetOf));
    SumOfThree(SaleLines(doc), Where(ACCOUNT_AP, NetOf));
    SumOfThree(PurchaseLines(doc), DebitOf);
    SumOfThree(PurchaseLines(doc), CreditOf);
    SumOfThree(PurchaseLines(doc), Where(ACCOUNT_AR, NetOf));
    SumOfThree(PurchaseLines(doc), Where(ACCOUNT_AP, NetOf));
  }

  lemma PaymentEffect(kind: DocKind, means: PayMethod, amount: int)
    ensures var lines := PaymentLines(kind, MethodAccount(means), amount);
            && Sum(lines, Where(ControlAccount(kind), NetOf)) == (if kind.InvoiceDoc? then -amount else amount)
            && Sum(lines, Where(ControlAccount(if kind.InvoiceDoc? then BillDoc else InvoiceDoc), NetOf)) == 0
            && (Postable(lines) <==> amount != 0)
  {
    ControlCodesDiffer();
    var lines := PaymentLines(kind, MethodAccount(means), amount);
    SumOfThree(lines, DebitOf);
    SumOfThree(lines, CreditOf);
    SumOfThree(lines, Where(ACCOUNT_AR, NetOf));
    SumOfThree(lines, Where(ACCOUNT_AP, NetOf));
  }

  lemma {:induction false} FindEntryAppend(journal: seq<Entry>, e: Entry, id: nat)
    ensures FindEntry(journal + [e], id) ==
      (if FindEntry(journal, id).Some? then FindEntry(journal, id)
       else if e.origin == OfInvoice && e.doc == Some(id) && e.reverses.None? then Some(|journal|)
       else None)
  {
    if journal == [] {
      assert ([] + [e])[1..] == [];
    } else {
      assert (journal + [e])[0] == journal[0] && (journal + [e])[1..] == journal[1..] + [e];
      FindEntryAppend(journal[1..], e, id);
    }
  }

  lemma DraftIsOk(lines: seq<DocLine>, issueDate: int, dueDate: int, issuesStock: bool, warehouse: Option<nat>)
    requires forall line :: line in lines ==> Billable(line)
    ensures DocOk(NewDraft(lines, issueDate, dueDate, issuesStock, warehouse))
  {
    TotalsNonNegative(lines);
  }

  lemma PatchedIsOk(doc: Document, patch: Patch)
    requires DocOk(doc) && doc.status == Draft
    requires patch.lines.Some? ==> forall line :: line in patch.lines.value ==> Billable(line)
    ensures DocOk(Patched(doc, patch)) && Patched(doc, patch).status == Draft
    ensures Patched(doc, patch).number == doc.number
  {
    if patch.lines.Some? {
      TotalsNonNegative(patch.lines.value);
    }
  }

  /** Replacing one document. */
  lemma DocsReplaced(docs: seq<Document>, id: nat, doc: Document)
    requires id < |docs| && DocOk(doc)
    requires forall d :: d in docs ==> DocOk(d)
    ensures forall d :: d in docs[id := doc] ==> DocOk(d)
    ensures Sum(docs[id := doc], Outstanding) == Sum(docs, Outstanding) - Outstanding(docs[id]) + Outstanding(doc)
  {
    SumUpdate(docs, id, doc, Outstanding);
  }

  /** An entry that belongs to no invoice sale leaves every trace in place. */
  lemma TracedAfterEntry(b: Books, c: Books, e: Entry, id: nat)
    requires Traced(b) && c.journal == b.journal + [e] && |c.invoices| == |b.invoices|
    requires forall i :: 0 <= i < |b.invoices| && i != id ==> c.invoices[i] == b.invoices[i]
    requires id < |b.invoices| ==> c.invoices[id].status != Draft || b.invoices[id].status == Draft
    requires e.origin == OfInvoice ==> e.doc == Some(id) && id < |b.invoices| && c.invoices[id].status != Draft
    requires id < |b.invoices| && c.invoices[id].status != Draft && c.invoices[id].status != Void ==>
      if b.invoices[id].status == Draft then e.origin == OfInvoice && e.reverses.None? && e.lines == SaleLines(c.invoices[id])
      else b.invoices[id].status != Void && SaleLines(c.invoices[id]) == SaleLines(b.invoices[id])
    ensures Traced(c)
  {
    forall i | 0 <= i < |c.invoices| && c.invoices[i].status != Draft && c.invoices[i].status != Void
      ensures FindEntry(c.journal, i).Some?
              && c.journal[FindEntry(c.journal, i).value].lines == SaleLines(c.invoices[i])
    {
      FindEntryAppend(b.journal, e, i);
      assert FindEntry(b.journal, i).Some? ==> b.journal[FindEntry(b.journal, i).value] in b.journal;
    }
  }

  lemma NumberKept(docs: seq<Document>, id: nat, doc: Document, last: nat)
    requires id < |docs| && NumbersUnique(docs, last) && doc.number == docs[id].number
    ensures NumbersUnique(docs[id := doc], last)
  {
  }

  lemma NumberClaimed(docs: seq<Document>, id: nat, doc: Document, last: nat)
    requires id < |docs| && NumbersUnique(docs, last) && doc.number == Some(last + 1)
    ensures NumbersUnique(docs[id := doc], last + 1)
  {
  }

  function OtherKind(kind: DocKind): DocKind {
    if kind.InvoiceDoc? then BillDoc else InvoiceDoc
  }

  /** Receivables are a debit balance, payables a credit balance. */
  function Signed(kind: DocKind, amount: int): int {
    if kind.InvoiceDoc? then amount else -amount
  }

  /** One document moves together with one entry: what each must look like for the books to agree. */
  lemma Commit(b: Books, c: Books, kind: DocKind, id: nat, e: Entry)
    requires Inv(b) && id < |DocsOf(b, kind)| && |DocsOf(c, kind)| == |DocsOf(b, kind)|
    requires DocsOf(c, kind) == DocsOf(b, kind)[id := DocsOf(c, kind)[id]]
    requires DocsOf(c, OtherKind(kind)) == DocsOf(b, OtherKind(kind)) && c.journal == b.journal + [e]
    requires DocOk(DocsOf(c, kind)[id]) && (kind.BillDoc? ==> DocsOf(c, kind)[id].status != Void)
    requires NumbersUnique(c.invoices, c.invoiceSeq) && NumbersUnique(c.bills, c.billSeq)
    requires Postable(e.lines) && Traced(c)
    requires ControlEffect(OtherKind(kind))(e) == 0
    requires Signed(kind, ControlEffect(kind)(e))
          == Outstanding(DocsOf(c, kind)[id]) - Outstanding(DocsOf(b, kind)[id])
    ensures Inv(c)
  {
    DocsReplaced(DocsOf(b, kind), id, DocsOf(c, kind)[id]);
    SumSnoc(b.journal, e, ControlEffect(InvoiceDoc));
    SumSnoc(b.journal, e, ControlEffect(BillDoc));
    assert forall doc :: doc in c.bills ==> doc in b.bills || (kind.BillDoc? && doc == c.bills[id]);
  }

  /** A failed send burns a number and nothing else. */
  lemma BurnKeeps(b: Books)
    requires Inv(b)
    ensures Inv(b.(invoiceSeq := b.invoiceSeq + 1)) && Inv(b.(billSeq := b.billSeq + 1))
  {
  }

  /** What the entry of a send does to the two control accounts. */
  lemma SendEffect(kind: DocKind, doc: Document, e: Entry)
    requires DocOk(doc) && doc.total > 0
    requires e.origin == (if kind.InvoiceDoc? then OfInvoice else OfBill)
    requires e.lines == (if kind.InvoiceDoc? then SaleLines(doc) else PurchaseLines(doc))
    ensures Postable(e.lines) && ControlEffect(OtherKind(kind))(e) == 0
    ensures Signed(kind, ControlEffect(kind)(e)) == doc.total
  {
    SaleAlwaysPosts(doc);
  }

  predicate IsSent(doc: Document, sent: Document, last: nat) {
    && sent.number == Some(last + 1) && sent.status == Sent && sent.paid == doc.paid
    && sent.total == doc.total && sent.subtotal == doc.subtotal && sent.taxTotal == doc.taxTotal
    && sent.deleted == doc.deleted
  }

  /** From b to c a draft of this kind is sent, with this entry and the next number. */
  ghost predicate Sends(b: Books, c: Books, kind: DocKind, id: nat, e: Entry) {
    && id < |DocsOf(b, kind)| == |DocsOf(c, kind)|
    && (var doc := DocsOf(b, kind)[id];
        && doc.status == Draft && !doc.deleted && doc.total > 0 && e.reverses.None? && e.doc == Some(id)
        && e.origin == (if kind.InvoiceDoc? then OfInvoice else OfBill)
        && e.lines == (if kind.InvoiceDoc? then SaleLines(doc) else PurchaseLines(doc))
        && IsSent(doc, DocsOf(c, kind)[id], if kind.InvoiceDoc? then b.invoiceSeq else b.billSeq))
    && DocsOf(c, kind) == DocsOf(b, kind)[id := DocsOf(c, kind)[id]]
    && DocsOf(c, OtherKind(kind)) == DocsOf(b, OtherKind(kind)) && c.journal == b.journal + [e]
    && c.invoiceSeq == b.invoiceSeq + (if kind.InvoiceDoc? then 1 else 0)
    && c.billSeq == b.billSeq + (if kind.InvoiceDoc? then 0 else 1)
  }

  lemma SentNumbers(b: Books, c: Books, kind: DocKind, id: nat, e: Entry)
    requires Sends(b, c, kind, id, e)
    requires NumbersUnique(b.invoices, b.invoiceSeq) && NumbersUnique(b.bills, b.billSeq)
    ensures NumbersUnique(c.invoices, c.invoiceSeq) && NumbersUnique(c.bills, c.billSeq)
  {
    NumberClaimed(DocsOf(b, kind), id, DocsOf(c, kind)[id], if kind.InvoiceDoc? then b.invoiceSeq else b.billSeq);
  }

  lemma SentTraced(b: Books, c: Books, kind: DocKind, id: nat, e: Entry)
    requires Sends(b, c, kind, id, e) && Traced(b)
    ensures Traced(c)
  {
    TracedAfterEntry(b, c, e, if kind.InvoiceDoc? then id else |b.invoices|);
  }

  lemma SentKeeps(b: Books, c: Books, kind: DocKind, id: nat, e: Entry)
    requires Inv(b) && Sends(b, c, kind, id, e)
    ensures Inv(c)
  {
    var doc := DocsOf(b, kind)[id];
    assert doc in DocsOf(b, kind) && DocOk(doc);
    SendEffect(kind, doc, e);
    SentNumbers(b, c, kind, id, e);
    SentTraced(b, c, kind, id, e);
    Commit(b, c, kind, id, e);
  }

  lemma SendInvoiceKeeps(b: Books, chart: set<Account>, id: nat, stockOk: bool)
    requires Inv(b)
    ensures Inv(SendInvoice(b, chart, id, stockOk).0)
  {
    var (c, reply) := SendInvoice(b, chart, id, stockOk);
    if reply.Success? {
      SentKeeps(b, c, InvoiceDoc, id,
        Entry(b.invoices[id].issueDate, OfInvoice, Some(id), SaleLines(b.invoices[id]), None));
    } else {
      BurnKeeps(b);
      assert c == b || c == b.(invoiceSeq := b.invoiceSeq + 1);
    }
  }

  lemma SendBillKeeps(b: Books, chart: set<Account>, id: nat)
    requires Inv(b)
    ensures Inv(SendBill(b, chart, id).0)
  {
    var (c, reply) := SendBill(b, chart, id);
    if reply.Success? {
      SentKeeps(b, c, BillDoc, id,
        Entry(b.bills[id].issueDate, OfBill, Some(id), PurchaseLines(b.bills[id]), None));
    } else {
      BurnKeeps(b);
      assert c == b || c == b.(billSeq := b.billSeq + 1);
    }
  }

  lemma SettledIsOk(doc: Document, amount: int)
    requires DocOk(doc) && !doc.deleted && doc.status != Draft && doc.status != Void
    requires 0 < amount <= doc.total - doc.paid
    ensures DocOk(Settled(doc, amount)) && Settled(doc, amount).status != Draft
    ensures Settled(doc, amount).status != Void
    ensures Outstanding(Settled(doc, amount)) == Outstanding(doc) - amount
    ensures SaleLines(Settled(doc, amount)) == SaleLines(doc)
  {
  }

  lemma PaidKeeps(b: Books, c: Books, kind: DocKind, id: nat, e: Entry, amount: int)
    requires Inv(b) && Live(DocsOf(b, kind), id)
    requires DocsOf(b, kind)[id].status != Draft && DocsOf(b, kind)[id].status != Void
    requires 0 < amount <= DocsOf(b, kind)[id].total - DocsOf(b, kind)[id].paid
    requires DocsOf(c, kind) == DocsOf(b, kind)[id := Settled(DocsOf(b, kind)[id], amount)]
    requires DocsOf(c, OtherKind(kind)) == DocsOf(b, OtherKind(kind)) && c.journal == b.journal + [e]
    requires c.invoiceSeq == b.invoiceSeq && c.billSeq == b.billSeq
    requires e.origin == OfPayment && Postable(e.lines)
    requires ControlEffect(OtherKind(kind))(e) == 0 && Signed(kind, ControlEffect(kind)(e)) == -amount
    ensures Inv(c)
  {
    var docs := DocsOf(b, kind);
    assert docs[id] in docs && DocOk(docs[id]);
    SettledIsOk(docs[id], amount);
    NumberKept(docs, id, DocsOf(c, kind)[id], if kind.InvoiceDoc? then b.invoiceSeq else b.billSeq);
    TracedAfterEntry(b, c, e, if kind.InvoiceDoc? then id else |b.invoices|);
    Commit(b, c, kind, id, e);
  }

  lemma PaymentKeeps(b: Books, chart: set<Account>, kind: DocKind, id: nat, ptype: PaymentType,
                     amount: int, means: PayMethod, date: int)
    requires Inv(b) && amount >= 0
    ensures Inv(CreatePayment(b, chart, kind, id, ptype, amount, means, date).0)
  {
    var (c, reply) := CreatePayment(b, chart, kind, id, ptype, amount, means, date);
    if reply.Success? {
      PaymentEffect(kind, means, amount);
      PaidKeeps(b, c, kind, id,
        Entry(date, OfPayment, Some(id), PaymentLines(kind, MethodAccount(means), amount), None), amount);
    }
  }

  /** What the reversal of a sale does to the two control accounts. */
  lemma VoidEffect(doc: Document, e: Entry)
    requires DocOk(doc) && doc.total > 0 && e.origin == OfInvoice && e.lines == Reversed(SaleLines(doc))
    ensures Postable(e.lines) && ControlEffect(BillDoc)(e) == 0 && ControlEffect(InvoiceDoc)(e) == -doc.total
  {
    SaleAlwaysPosts(doc);
    ReversalCancels(SaleLines(doc), ACCOUNT_AR);
    ReversalCancels(SaleLines(doc), ACCOUNT_AP);
  }

  lemma VoidKeeps(b: Books, id: nat, date: int)
    requires Inv(b)
    ensures Inv(VoidInvoice(b, id, date).0)
  {
    var c := VoidInvoice(b, id, date).0;
    if VoidInvoice(b, id, date).1.Success? {
      var doc := b.invoices[id];
      assert doc in b.invoices && DocOk(doc);
      var e := Entry(date, OfInvoice, Some(id), Reversed(SaleLines(doc)), FindEntry(b.journal, id));
      VoidEffect(doc, e);
      NumberKept(b.invoices, id, c.invoices[id], b.invoiceSeq);
      TracedAfterEntry(b, c, e, id);
      Commit(b, c, InvoiceDoc, id, e);
    }
  }

  lemma InvoiceAdded(b: Books, doc: Document)
    requires Inv(b) && DocOk(doc) && doc.status == Draft && doc.number.None?
    ensures Inv(b.(invoices := b.invoices + [doc]))
  {
    SumSnoc(b.invoices, doc, Outstanding);
    assert forall d :: d in b.invoices + [doc] <==> d in b.invoices || d == doc;
  }

  lemma BillAdded(b: Books, doc: Document)
    requires Inv(b) && DocOk(doc) && doc.status == Draft && doc.number.None?
    ensures Inv(b.(bills := b.bills + [doc]))
  {
    SumSnoc(b.bills, doc, Outstanding);
    assert forall d :: d in b.bills + [doc] <==> d in b.bills || d == doc;
  }

  /** Editing or dropping a draft moves no money. */
  lemma DraftKeeps(b: Books, kind: DocKind, id: nat, doc: Document)
    requires Inv(b) && id < |DocsOf(b, kind)| && DocsOf(b, kind)[id].status == Draft
    requires DocOk(doc) && doc.status == Draft && doc.number == DocsOf(b, kind)[id].number
    ensures Inv(WithDoc(b, kind, id, doc))
  {
    DocsReplaced(DocsOf(b, kind), id, doc);
    var last := if kind.InvoiceDoc? then b.invoiceSeq else b.billSeq;
    NumberKept(DocsOf(b, kind), id, doc, last);
  }

  lemma OtherKeeps(b: Books, origin: Origin, date: int, lines: seq<Line>)
    requires Inv(b) && Postable(lines) && (origin == Manual || origin == OfProject)
    ensures Inv(WithEntry(b, Entry(date, origin, None, lines, None)))
  {
    var e := Entry(date, origin, None, lines, None);
    SumSnoc(b.journal, e, ControlEffect(InvoiceDoc));
    SumSnoc(b.journal, e, ControlEffect(BillDoc));
    TracedAfterEntry(b, WithEntry(b, e), e, |b.invoices|);
  }

  lemma CentsNonNegative(value: real)
    requires value > 0.0
    ensures Cents(value) >= 0
  {
    HalfEvenMonotone(0.0, 100.0 * value);
    RoundingExact(0);
  }

  lemma ServeKeeps(b: Books, chart: set<Account>, r: Request)
    requires Inv(b) && WellFormed(r)
    ensures Inv(Serve(b, chart, r).0)
  {
    match r
    case AddInvoice(lines, issueDate, dueDate, issuesStock, warehouse, issuable) =>
      DraftIsOk(lines, issueDate, dueDate, issuesStock, warehouse);
      InvoiceAdded(b, NewDraft(lines, issueDate, dueDate, issuesStock, warehouse));
    case AddBill(lines, issueDate, dueDate) =>
      DraftIsOk(lines, issueDate, dueDate, false, None);
      BillAdded(b, NewDraft(lines, issueDate, dueDate, false, None));
    case EditInvoice(id, patch) =>
      if Live(b.invoices, id) && b.invoices[id].status == Draft {
        PatchedIsOk(b.invoices[id], patch);
        DraftKeeps(b, InvoiceDoc, id, Patched(b.invoices[id], patch));
      }
    case EditBill(id, patch) =>
      if Live(b.bills, id) && b.bills[id].status == Draft {
        PatchedIsOk(b.bills[id], patch);
        DraftKeeps(b, BillDoc, id, Patched(b.bills[id], patch));
      }
    case DropInvoice(id) =>
      if Live(b.invoices, id) && b.invoices[id].status == Draft {
        assert DocOk(b.invoices[id]);
        DraftKeeps(b, InvoiceDoc, id, b.invoices[id].(deleted := true));
      }
    case PostInvoice(id, stockOk) => SendInvoiceKeeps(b, chart, id, stockOk);
    case PostBill(id) => SendBillKeeps(b, chart, id);
    case Pay(kind, id, ptype, value, means, date) =>
      CentsNonNegative(value);
      PaymentKeeps(b, chart, kind, id, ptype, Cents(value), means, date);
    case Cancel(id, date) => VoidKeeps(b, id, date);
    case Other(origin, date, lines) =>
      if PostOther(b, chart, origin, date, lines).1.Success? {
        OtherKeeps(b, origin, date, lines);
      }
  }

  lemma {:induction false} RunKeeps(chart: set<Account>, requests: seq<Request>)
    requires forall r :: r in requests ==> WellFormed(r)
    ensures Inv(Run(chart, requests))
  {
    if requests != [] {
      RunKeeps(chart, requests[..|requests| - 1]);
      ServeKeeps(Run(chart, requests[..|requests| - 1]), chart, requests[|requests| - 1]);
    }
  }

  // ---- main results -----------------------------------------------------------------------------------

  /**
   After any run of requests the control account over invoice and payment entries equals what the
   open invoices still owe, and every posted document carries the status its payments imply.
   */
  lemma ControlAccountsAgree(chart: set<Account>, requests: seq<Request>)
    requires forall r :: r in requests ==> WellFormed(r)
    ensures var b := Run(chart, requests);
            && ControlBalance(b, InvoiceDoc) == Sum(b.invoices, Outstanding)
            && -ControlBalance(b, BillDoc) == Sum(b.bills, Outstanding)
            && AllPostable(b.journal)
    ensures var b := Run(chart, requests);
            forall doc :: doc in b.invoices + b.bills ==>
              && 0 <= doc.paid <= doc.total == doc.subtotal + doc.taxTotal
              && (doc.status != Draft && doc.status != Void ==>
                    && (doc.status == Sent <==> doc.paid == 0)
                    && (doc.status == PartlyPaid <==> 0 < doc.paid < doc.total)
                    && (doc.status == Paid <==> doc.paid == doc.total))
  {
    RunKeeps(chart, requests);
  }

  /** Document numbers are never given twice, though a failed send may skip one. */
  lemma NumbersNeverRepeat(chart: set<Account>, requests: seq<Request>, i: nat, j: nat)
    requires forall r :: r in requests ==> WellFormed(r)
    requires i < j < |Run(chart, requests).invoices|
    requires Run(chart, requests).invoices[i].number.Some?
    ensures Run(chart, requests).invoices[i].number != Run(chart, requests).invoices[j].number
  {
    RunKeeps(chart, requests);
  }

  lemma VoidFacts(b: Books, id: nat, date: int)
    requires Inv(b) && id < |b.invoices|
    requires b.invoices[id].status != Draft && b.invoices[id].status != Void
    ensures var sale := SaleLines(b.invoices[id]);
            && FindEntry(b.journal, id).Some? && b.journal[FindEntry(b.journal, id).value].lines == sale
            && Postable(Reversed(sale)) && !b.invoices[id].deleted
            && (b.invoices[id].paid <= 0 <==> b.invoices[id].status == Sent)
  {
    var doc := b.invoices[id];
    assert doc in b.invoices && DocOk(doc);
    SaleAlwaysPosts(doc);
    ReversalCancels(SaleLines(doc), ACCOUNT_AR);
  }

  /** A void succeeds exactly on posted invoices without payments. */
  lemma VoidSucceedsWhenUnpaid(chart: set<Account>, requests: seq<Request>, id: nat, date: int)
    requires forall r :: r in requests ==> WellFormed(r)
    ensures var b := Run(chart, requests);
            VoidInvoice(b, id, date).1.Success? <==> id < |b.invoices| && b.invoices[id].status == Sent
  {
    RunKeeps(chart, requests);
    var b := Run(chart, requests);
    if id < |b.invoices| && b.invoices[id].status != Draft && b.invoices[id].status != Void {
      VoidFacts(b, id, date);
    }
  }

  /** The reversal a void appends names its own sale and cancels it on every account. */
  lemma VoidCancelsTheSale(chart: set<Account>, requests: seq<Request>, id: nat, date: int, account: Account)
    requires forall r :: r in requests ==> WellFormed(r)
    requires VoidInvoice(Run(chart, requests), id, date).1.Success?
    ensures var b := Run(chart, requests);
            var c := VoidInvoice(b, id, date).0;
            var sale := SaleLines(b.invoices[id]);
            exists original: nat, back: Entry ::
              && original < |b.journal| && b.journal[original].lines == sale
              && c.journal == b.journal + [back] && back.reverses == Some(original) && back.date == date
              && NetAt(account)(back) + NetAt(account)(b.journal[original]) == 0
    ensures var b := Run(chart, requests);
            var c := VoidInvoice(b, id, date).0;
            c == b.(journal := c.journal, invoices := b.invoices[id := b.invoices[id].(status := Void)])
  {
    RunKeeps(chart, requests);
    var b := Run(chart, requests);
    VoidFacts(b, id, date);
    var sale, found := SaleLines(b.invoices[id]), FindEntry(b.journal, id).value;
    ReversalCancels(sale, account);
    var back := Entry(date, OfInvoice, Some(id), Reversed(sale), Some(found));
    assert VoidInvoice(b, id, date).0.journal == b.journal + [back];
    assert NetAt(account)(back) + NetAt(account)(b.journal[found]) == 0;
  }

  // ---- what each entry does to each account ----------------------------------------------------------------

  /** The net a sent invoice puts on an account. */
  function SaleNet(doc: Document, account: Account): int {
    if account == "1100" then doc.total          // receivables
    else if account == "4000" then -doc.subtotal // income
    else if account == "2100" then -doc.taxTotal // tax
    else 0
  }

  /** The net a sent bill puts on an account. */
  function PurchaseNet(doc: Document, account: Account): int {
    if account == "5000" then doc.subtotal       // cost of goods
    else if account == "2100" then doc.taxTotal  // tax
    else if account == "2000" then -doc.total    // payables
    else 0
  }

  /** The net a payment puts on an account: bank payments on the bank, all others on cash. */
  function PaidNet(kind: DocKind, means: PayMethod, amount: int, account: Account): int {
    var received := if kind == InvoiceDoc then amount else -amount;
    if account == "1010" then (if means == ByBank then received else 0)
    else if account == "1000" then (if means == ByBank then 0 else received)
    else if account == "1100" then (if kind == InvoiceDoc then -amount else 0)
    else if account == "2000" then (if kind == BillDoc then amount else 0)
    else 0
  }

  lemma SaleNets(doc: Document, account: Account)
    requires doc.taxTotal >= 0
    ensures Sum(SaleLines(doc), Where(account, NetOf)) == SaleNet(doc, account)
  {
    SumOfThree(SaleLines(doc), Where(account, NetOf));
  }

  lemma PurchaseNets(doc: Document, account: Account)
    requires doc.taxTotal >= 0
    ensures Sum(PurchaseLines(doc), Where(account, NetOf)) == PurchaseNet(doc, account)
  {
    SumOfThree(PurchaseLines(doc), Where(account, NetOf));
  }

  lemma PaymentNets(kind: DocKind, means: PayMethod, amount: int, account: Account)
    ensures Sum(PaymentLines(kind, MethodAccount(means), amount), Where(account, NetOf))
         == PaidNet(kind, means, amount, account)
  {
    SumOfThree(PaymentLines(kind, MethodAccount(means), amount), Where(account, NetOf));
  }

  /**
   From b to c an invoice is sent: one entry of the issue date that puts the total on receivables, the
   subtotal on income and the tax on tax, and the draft becomes a sent invoice with the next number.
   */
  ghost predicate SalePosted(b: Books, c: Books, id: nat) {
    && id < |b.invoices|
    && var doc, n := b.invoices[id], |b.journal|;
       && |c.journal| == n + 1 && c.journal[..n] == b.journal
       && c.journal[n].date == doc.issueDate && c.journal[n].doc == Some(id) && c.journal[n].origin == OfInvoice
       && c.invoices == b.invoices[id := doc.(status := Sent, number := Some(b.invoiceSeq + 1), entry := Some(n))]
       && c.bills == b.bills && c.payments == b.payments && c.billSeq == b.billSeq
       && c.invoiceSeq == b.invoiceSeq + 1
       && forall account :: NetAt(account)(c.journal[n])
            == (if account == "1100" then doc.total else if account == "4000" then -doc.subtotal
                else if account == "2100" then -doc.taxTotal else 0)
  }

  /** The mirror for a bill: subtotal on cost of goods, tax on tax, the total on payables. */
  ghost predicate PurchasePosted(b: Books, c: Books, id: nat) {
    && id < |b.bills|
    && var doc, n := b.bills[id], |b.journal|;
       && |c.journal| == n + 1 && c.journal[..n] == b.journal
       && c.journal[n].date == doc.issueDate && c.journal[n].doc == Some(id) && c.journal[n].origin == OfBill
       && c.bills == b.bills[id := doc.(status := Sent, number := Some(b.billSeq + 1), entry := Some(n))]
       && c.invoices == b.invoices && c.payments == b.payments && c.invoiceSeq == b.invoiceSeq
       && c.billSeq == b.billSeq + 1
       && forall account :: NetAt(account)(c.journal[n])
            == (if account == "5000" then doc.subtotal else if account == "2100" then doc.taxTotal
                else if account == "2000" then -doc.total else 0)
  }

  lemma SendPosts(b: Books, chart: set<Account>, id: nat, stockOk: bool)
    requires SendInvoice(b, chart, id, stockOk).1.Success? && DocOk(b.invoices[id])
    ensures SalePosted(b, SendInvoice(b, chart, id, stockOk).0, id)
  {
    var e := SendInvoice(b, chart, id, stockOk).0.journal[|b.journal|];
    forall account
      ensures NetAt(account)(e) == SaleNet(b.invoices[id], account)
    {
      SaleNets(b.invoices[id], account);
    }
  }

  lemma BillPosts(b: Books, chart: set<Account>, id: nat)
    requires SendBill(b, chart, id).1.Success? && DocOk(b.bills[id])
    ensures PurchasePosted(b, SendBill(b, chart, id).0, id)
  {
    var e := SendBill(b, chart, id).0.journal[|b.journal|];
    forall account
      ensures NetAt(account)(e) == PurchaseNet(b.bills[id], account)
    {
      PurchaseNets(b.bills[id], account);
    }
  }

  /** From b to c a document is paid: money in for an invoice, out for a bill, by bank or in cash. */
  ghost predicate PaymentPosted(b: Books, c: Books, kind: DocKind, id: nat, amount: int, means: PayMethod, date: int) {
    var docs, n := if kind == InvoiceDoc then b.invoices else b.bills, |b.journal|;
    && id < |docs|
    && var doc := docs[id];
       var received := if kind == InvoiceDoc then amount else -amount;
       var paid := doc.(paid := doc.paid + amount,
                        status := if doc.paid + amount == doc.total then Paid else PartlyPaid);
       && doc.paid + amount <= doc.total
       && |c.journal| == n + 1 && c.journal[..n] == b.journal
       && c.journal[n].date == date && c.journal[n].doc == Some(id) && c.journal[n].origin == OfPayment
       && |c.payments| == |b.payments| + 1 && c.payments[..|b.payments|] == b.payments
       && c.payments[|b.payments|] == Payment(if kind == InvoiceDoc then CustomerPayment else VendorPayment,
                                              kind, id, amount, date, means, n)
       && c.invoices == (if kind == InvoiceDoc then b.invoices[id := paid] else b.invoices)
       && c.bills == (if kind == BillDoc then b.bills[id := paid] else b.bills)
       && c.invoiceSeq == b.invoiceSeq && c.billSeq == b.billSeq
       && forall account :: NetAt(account)(c.journal[n])
            == (if account == "1010" && means == ByBank then received
                else if account == "1000" && means != ByBank then received
                else if account == "1100" && kind == InvoiceDoc then -amount
                else if account == "2000" && kind == BillDoc then amount else 0)
  }

  lemma PayPosts(b: Books, chart: set<Account>, kind: DocKind, id: nat, ptype: PaymentType,
                 amount: int, means: PayMethod, date: int)
    requires CreatePayment(b, chart, kind, id, ptype, amount, means, date).1.Success? && amount > 0
    requires DocOk((if kind == InvoiceDoc then b.invoices else b.bills)[id])
    ensures PaymentPosted(b, CreatePayment(b, chart, kind, id, ptype, amount, means, date).0, kind, id, amount, means, date)
  {
    var e := CreatePayment(b, chart, kind, id, ptype, amount, means, date).0.journal[|b.journal|];
    forall account
      ensures NetAt(account)(e) == PaidNet(kind, means, amount, account)
    {
      PaymentNets(kind, means, amount, account);
    }
  }

  /** Exactly which invoices go out, which bills are sent, and which payments are taken. */
  lemma SendSucceedsIff(b: Books, chart: set<Account>, id: nat, stockOk: bool)
    requires Inv(b)
    ensures SendInvoice(b, chart, id, stockOk).1.Success? <==>
      && id < |b.invoices| && !b.invoices[id].deleted && b.invoices[id].status == Draft && b.invoices[id].total > 0
      && (b.invoices[id].issuesStock ==> stockOk)
      && "1100" in chart && "4000" in chart && (b.invoices[id].taxTotal > 0 ==> "2100" in chart)
  {
    if id < |b.invoices| && b.invoices[id].total > 0 {
      assert b.invoices[id] in b.invoices;
      SaleAlwaysPosts(b.invoices[id]);
    }
  }

  lemma BillSucceedsIff(b: Books, chart: set<Account>, id: nat)
    requires Inv(b)
    ensures SendBill(b, chart, id).1.Success? <==>
      && id < |b.bills| && !b.bills[id].deleted && b.bills[id].status == Draft && b.bills[id].total > 0
      && "5000" in chart && "2000" in chart && (b.bills[id].taxTotal > 0 ==> "2100" in chart)
  {
    if id < |b.bills| && b.bills[id].total > 0 {
      assert b.bills[id] in b.bills;
      SaleAlwaysPosts(b.bills[id]);
    }
  }

  lemma PaySucceedsIff(b: Books, chart: set<Account>, kind: DocKind, id: nat, ptype: PaymentType,
                       amount: int, means: PayMethod, date: int)
    requires amount > 0
    ensures CreatePayment(b, chart, kind, id, ptype, amount, means, date).1.Success? <==>
      var docs := if kind == InvoiceDoc then b.invoices else b.bills;
      && id < |docs| && !docs[id].deleted && docs[id].status != Draft && docs[id].status != Void
      && ptype == (if kind == InvoiceDoc then CustomerPayment else VendorPayment)
      && docs[id].paid + amount <= docs[id].total
      && (if means == ByBank then "1010" in chart else "1000" in chart)
      && (if kind == InvoiceDoc then "1100" in chart else "2000" in chart)
  {
    PaymentEffect(kind, means, amount);
  }

  /** A request on a draft: refused where there is none, and in any other state. */
  predicate DraftOnly(docs: seq<Document>, id: nat, reply: Reply) {
    && (reply == Failure(Missing) <==> id >= |docs| || docs[id].deleted)
    && (reply == Failure(WrongState) <==> id < |docs| && !docs[id].deleted && docs[id].status != Draft)
  }

  predicate ReadyDraft(docs: seq<Document>, id: nat) {
    id < |docs| && !docs[id].deleted && docs[id].status == Draft && docs[id].total > 0
  }

  /** What each request is refused for. */
  ghost predicate RefusedFor(b: Books, chart: set<Account>, r: Request, reply: Reply) {
    match r
    case AddInvoice(_, _, _, issuesStock, _, issuable) => reply == Failure(Refused) <==> issuesStock && !issuable
    case AddBill(_, _, _) => reply.Success?
    case EditInvoice(id, _) => DraftOnly(b.invoices, id, reply)
    case EditBill(id, _) => DraftOnly(b.bills, id, reply)
    case DropInvoice(id) => DraftOnly(b.invoices, id, reply)
    case PostInvoice(id, stockOk) =>
      && DraftOnly(b.invoices, id, reply)
      && (reply == Failure(NoStock) <==> ReadyDraft(b.invoices, id) && b.invoices[id].issuesStock && !stockOk)
      && (reply == Failure(NoAccount) <==>
            ReadyDraft(b.invoices, id) && (b.invoices[id].issuesStock ==> stockOk)
            && ("1100" !in chart || "4000" !in chart || (b.invoices[id].taxTotal > 0 && "2100" !in chart)))
    case PostBill(id) =>
      && DraftOnly(b.bills, id, reply)
      && (reply == Failure(NoAccount) <==>
            ReadyDraft(b.bills, id)
            && ("5000" !in chart || "2000" !in chart || (b.bills[id].taxTotal > 0 && "2100" !in chart)))
    case Pay(kind, id, ptype, value, _, _) =>
      var docs := if kind == InvoiceDoc then b.invoices else b.bills;
      var fits := ptype == (if kind == InvoiceDoc then CustomerPayment else VendorPayment);
      && (reply == Failure(Missing) <==> id >= |docs| || docs[id].deleted)
      && (reply == Failure(WrongState) <==>
            id < |docs| && !docs[id].deleted && fits && (docs[id].status == Draft || docs[id].status == Void))
      && (reply == Failure(Refused) <==>
            id < |docs| && !docs[id].deleted
            && (!fits || (docs[id].status != Draft && docs[id].status != Void
                          && docs[id].paid + HalfEven(100.0 * value) > docs[id].total)))
    case Cancel(id, _) =>
      && (reply == Failure(Missing) <==> id >= |b.invoices| || b.invoices[id].deleted)
      && (id < |b.invoices| && !b.invoices[id].deleted
          && (b.invoices[id].status == Draft || b.invoices[id].status == Void || b.invoices[id].paid > 0) ==>
            reply == Failure(WrongState))
    case Other(_, _, posting) =>
      && (reply == Failure(NoAccount) <==> exists line :: line in posting && line.account !in chart)
      && (reply == Failure(Unbalanced) <==>
            (forall line :: line in posting ==> line.account in chart)
            && !(Sum(posting, DebitOf) == Sum(posting, CreditOf) && Sum(posting, DebitOf) != 0
                 && forall line :: line in posting ==> line.debit <= 0 || line.credit <= 0))
  }

  lemma SendRefusedFor(b: Books, chart: set<Account>, id: nat, stockOk: bool)
    requires Inv(b)
    ensures RefusedFor(b, chart, PostInvoice(id, stockOk), SendInvoice(b, chart, id, stockOk).1)
  {
    if ReadyDraft(b.invoices, id) {
      assert b.invoices[id] in b.invoices;
      SaleAlwaysPosts(b.invoices[id]);
    }
  }

  lemma BillRefusedFor(b: Books, chart: set<Account>, id: nat)
    requires Inv(b)
    ensures RefusedFor(b, chart, PostBill(id), SendBill(b, chart, id).1)
  {
    if ReadyDraft(b.bills, id) {
      assert b.bills[id] in b.bills;
      SaleAlwaysPosts(b.bills[id]);
    }
  }

  lemma PayRefusedFor(b: Books, chart: set<Account>, r: Request)
    requires r.Pay?
    ensures RefusedFor(b, chart, r, Serve(b, chart, r).1)
  {
  }

  lemma OtherRefusedFor(b: Books, chart: set<Account>, r: Request)
    requires r.Other? || r.Cancel?
    ensures RefusedFor(b, chart, r, Serve(b, chart, r).1)
  {
  }

  /** Every request is refused for what it has to be. */
  lemma ReasonIs(b: Books, chart: set<Account>, r: Request)
    requires Inv(b)
    ensures RefusedFor(b, chart, r, Serve(b, chart, r).1)
  {
    match r
    case PostInvoice(id, stockOk) => SendRefusedFor(b, chart, id, stockOk);
    case PostBill(id) => BillRefusedFor(b, chart, id);
    case Pay(_, _, _, _, _, _) => PayRefusedFor(b, chart, r);
    case Cancel(_, _) => OtherRefusedFor(b, chart, r);
    case Other(_, _, _) => OtherRefusedFor(b, chart, r);
    case _ =>
  }

  /** A send that fails leaves the books alone, but for the number it may have burnt. */
  lemma FailedSendOnlyCounts(b: Books, chart: set<Account>, id: nat, stockOk: bool)
    requires SendInvoice(b, chart, id, stockOk).1.Failure?
    ensures var c := SendInvoice(b, chart, id, stockOk).0;
            c.(invoiceSeq := b.invoiceSeq) == b && b.invoiceSeq <= c.invoiceSeq <= b.invoiceSeq + 1
  {
  }

  // ---- the reports of any run ----------------------------------------------------------------------------

  /** Every line of the journal is on an account of the chart. */
  ghost predicate OnChart(journal: seq<Entry>, chart: set<Account>) {
    forall entry, line :: entry in journal && line in entry.lines ==> line.account in chart
  }

  lemma OnChartAppend(journal: seq<Entry>, e: Entry, chart: set<Account>)
    requires OnChart(journal, chart) && forall line :: line in e.lines ==> line.account in chart
    ensures OnChart(journal + [e], chart)
  {
  }

  lemma ReversedAccounts(lines: seq<Line>, chart: set<Account>)
    requires forall line :: line in lines ==> line.account in chart
    ensures forall line :: line in Reversed(lines) ==> line.account in chart
  {
    forall line | line in Reversed(lines)
      ensures line.account in chart
    {
      var i :| 0 <= i < |lines| && Reversed(lines)[i] == line;
      assert lines[i] in lines;
    }
  }

  lemma VoidOnChart(b: Books, chart: set<Account>, id: nat, date: int)
    requires OnChart(b.journal, chart)
    ensures OnChart(VoidInvoice(b, id, date).0.journal, chart)
  {
    var (c, reply) := VoidInvoice(b, id, date);
    if reply.Success? {
      var searched := FindEntry(b.journal, id);
      var found := if searched.Some? then searched.value else b.invoices[id].entry.value;
      assert b.journal[found] in b.journal;
      ReversedAccounts(b.journal[found].lines, chart);
      OnChartAppend(b.journal, c.journal[|b.journal|], chart);
      assert c.journal == b.journal + [c.journal[|b.journal|]];
    }
  }

  lemma ServeOnChart(b: Books, chart: set<Account>, r: Request)
    requires OnChart(b.journal, chart)
    ensures OnChart(Serve(b, chart, r).0.journal, chart)
  {
    if r.Cancel? {
      VoidOnChart(b, chart, r.id, r.date);
    } else {
      AppendsOnChart(b, chart, r);
      var c := Serve(b, chart, r).0;
      if c.journal != b.journal {
        OnChartAppend(b.journal, c.journal[|b.journal|], chart);
      }
    }
  }

  lemma AppendsOnChart(b: Books, chart: set<Account>, r: Request)
    requires !r.Cancel?
    ensures var c := Serve(b, chart, r).0;
            c.journal == b.journal ||
            (|c.journal| == |b.journal| + 1 && c.journal == b.journal + [c.journal[|b.journal|]]
             && forall line :: line in c.journal[|b.journal|].lines ==> line.account in chart)
  {
  }

  lemma {:induction false} RunOnChart(chart: set<Account>, requests: seq<Request>)
    ensures OnChart(Run(chart, requests).journal, chart)
  {
    if requests != [] {
      RunOnChart(chart, requests[..|requests| - 1]);
      ServeOnChart(Run(chart, requests[..|requests| - 1]), chart, requests[|requests| - 1]);
    }
  }

  /**
   After any run of requests, however the accounts are typed and whatever the window, the trial balance
   nets to zero and assets equal liabilities plus equity plus retained earnings.
   */
  lemma ReportsBalanceAfterAnyRun(
    chart: set<Account>, requests: seq<Request>, types: Chart, start: Option<int>, end: Option<int>)
    requires forall r :: r in requests ==> WellFormed(r)
    requires chart <= types.Keys
    ensures var journal := Run(chart, requests).journal;
            && Sum(Report(journal, types, start, end), RowDebit) == Sum(Report(journal, types, start, end), RowCredit)
            && var rows := Report(journal, types, None, end);
               KindTotal(rows, Asset) == KindTotal(rows, Liability) + KindTotal(rows, Equity)
                                         + (KindTotal(rows, Income) - KindTotal(rows, Expense))
  {
    RunKeeps(chart, requests);
    RunOnChart(chart, requests);
    TrialBalanceNets(Run(chart, requests).journal, types, start, end);
    BalanceSheetBalances(Run(chart, requests).journal, types, end);
  }

  // ---- aging --------------------------------------------------------------------------------------------

  datatype Bucket = Current | UpTo30 | UpTo60 | UpTo90 | Over90

  /** The buckets are 0-30, 31-60, 61-90 and 90+; what is not overdue is current. */
  function BucketFor(days: int): Bucket {
    if days <= 0 then Current
    else if 0 <= days <= 30 then UpTo30
    else if 31 <= days <= 60 then UpTo60
    else if 61 <= days <= 90 then UpTo90
    else Over90
  }

  predicate Open(doc: Document) {
    !doc.deleted && (doc.status == Sent || doc.status == PartlyPaid) && doc.total - doc.paid > 0
  }

  function InBucket(bucket: Bucket, now: int): Document -> int {
    (doc: Document) => if Open(doc) && BucketFor(now - doc.dueDate) == bucket then doc.total - doc.paid else 0
  }

  /** Open amounts by days overdue, from and to included. */
  function OverdueBy(now: int, from: Option<int>, to: Option<int>): Document -> int {
    (doc: Document) =>
      if !doc.deleted && (doc.status == Sent || doc.status == PartlyPaid) && doc.paid < doc.total
         && (from == None || from.value <= now - doc.dueDate) && (to == None || now - doc.dueDate <= to.value)
      then doc.total - doc.paid else 0
  }

  lemma {:induction false} BucketsAre(docs: seq<Document>, now: int)
    ensures Sum(docs, InBucket(Current, now)) == Sum(docs, OverdueBy(now, None, Some(0)))
    ensures Sum(docs, InBucket(UpTo30, now)) == Sum(docs, OverdueBy(now, Some(1), Some(30)))
    ensures Sum(docs, InBucket(UpTo60, now)) == Sum(docs, OverdueBy(now, Some(31), Some(60)))
    ensures Sum(docs, InBucket(UpTo90, now)) == Sum(docs, OverdueBy(now, Some(61), Some(90)))
    ensures Sum(docs, InBucket(Over90, now)) == Sum(docs, OverdueBy(now, Some(91), None))
  {
    if docs != [] {
      BucketsAre(docs[1..], now);
    }
  }

  method FillBuckets(docs: seq<Document>, now: int) returns (totals: map<Bucket, int>)
    ensures forall bucket :: bucket in totals && totals[bucket] == Sum(docs, InBucket(bucket, now))
  {
    totals := map[Current := 0, UpTo30 := 0, UpTo60 := 0, UpTo90 := 0, Over90 := 0];
    forall bucket: Bucket
      ensures bucket in totals
    {
      match bucket
      case Current =>
      case UpTo30 =>
      case UpTo60 =>
      case UpTo90 =>
      case Over90 =>
    }
    for i := 0 to |docs|
      invariant forall bucket :: bucket in totals
      invariant forall bucket :: totals[bucket] == Sum(docs[..i], InBucket(bucket, now))
    {
      var doc := docs[i];
      assert docs[..i + 1] == docs[..i] + [doc];
      forall bucket
        ensures Sum(docs[..i + 1], InBucket(bucket, now))
             == Sum(docs[..i], InBucket(bucket, now)) + InBucket(bucket, now)(doc)
      {
        SumSnoc(docs[..i], doc, InBucket(bucket, now));
      }
      if Open(doc) {
        var bucket := BucketFor(now - doc.dueDate);
        totals := totals[bucket := totals[bucket] + (doc.total - doc.paid)];
      }
    }
    assert docs[..|docs|] == docs;
  }

  method Aging(docs: seq<Document>, now: int) returns (totals: map<Bucket, int>, total: int)
    ensures forall bucket :: bucket in totals && totals[bucket] == Sum(docs, InBucket(bucket, now))
    ensures Current in totals && totals[Current] == Sum(docs, OverdueBy(now, None, Some(0)))
    ensures UpTo30 in totals && totals[UpTo30] == Sum(docs, OverdueBy(now, Some(1), Some(30)))
    ensures UpTo60 in totals && totals[UpTo60] == Sum(docs, OverdueBy(now, Some(31), Some(60)))
    ensures UpTo90 in totals && totals[UpTo90] == Sum(docs, OverdueBy(now, Some(61), Some(90)))
    ensures Over90 in totals && totals[Over90] == Sum(docs, OverdueBy(now, Some(91), None))
    ensures (forall doc :: doc in docs ==> DocOk(doc)) ==> total == Sum(docs, Outstanding)
  {
    totals := FillBuckets(docs, now);
    BucketsAre(docs, now);
    total := totals[Current] + totals[UpTo30] + totals[UpTo60] + totals[UpTo90] + totals[Over90];
    if forall doc :: doc in docs ==> DocOk(doc) {
      BucketsPartition(docs, now);
    }
  }

  /** The buckets split exactly what the control account carries. */
  lemma AgingMatchesControl(chart: set<Account>, requests: seq<Request>, now: int)
    requires forall r :: r in requests ==> WellFormed(r)
    ensures var b := Run(chart, requests);
            ControlBalance(b, InvoiceDoc)
            == Sum(b.invoices, InBucket(Current, now)) + Sum(b.invoices, InBucket(UpTo30, now))
             + Sum(b.invoices, InBucket(UpTo60, now)) + Sum(b.invoices, InBucket(UpTo90, now))
             + Sum(b.invoices, InBucket(Over90, now))
  {
    RunKeeps(chart, requests);
    BucketsPartition(Run(chart, requests).invoices, now);
  }

  lemma {:induction false} BucketsPartition(docs: seq<Document>, now: int)
    requires forall doc :: doc in docs ==> DocOk(doc)
    ensures Sum(docs, Outstanding)
         == Sum(docs, InBucket(Current, now)) + Sum(docs, InBucket(UpTo30, now))
          + Sum(docs, InBucket(UpTo60, now)) + Sum(docs, InBucket(UpTo90, now))
          + Sum(docs, InBucket(Over90, now))
  {
    if docs != [] {
      BucketsPartition(docs[1..], now);
      assert DocOk(docs[0]);
    }
  }

  // ---- sending an invoice that issues stock ------------------------------------------------------------

  predicate Itemised(lines: seq<DocLine>) {
    forall i :: 0 <= i < |lines| ==> lines[i].product.Some?
  }

  function Items(lines: seq<DocLine>): (items: seq<(nat, real)>)
    requires Itemised(lines)
    ensures |items| == |lines|
  {
    seq(|lines|, i requires 0 <= i < |lines| => (lines[i].product.value, lines[i].qty))
  }

  /** Every product's summed quantity fits what is on hand in the warehouse. */
  predicate DemandFits(levels: Levels, items: seq<(nat, real)>, warehouse: nat) {
    forall i :: 0 <= i < |items| ==>
      Total(items, DemandFor(items[i].0)) <= OnHand(levels, Key(items[i].0, warehouse))
  }

  lemma AcceptedWhenDemandFits(levels: Levels, items: seq<(nat, real)>, warehouse: nat)
    requires forall i :: 0 <= i < |items| ==> items[i].1 > 0.0
    ensures AllAccepted(levels, IssuePostings(warehouse, items), false) <==> DemandFits(levels, items, warehouse)
  {
    var postings := IssuePostings(warehouse, items);
    IssuesFitWhenTheirSumsDo(levels, postings);
    forall i | 0 <= i < |items|
      ensures Total(postings, PostedAt(Key(items[i].0, warehouse))) == -Total(items, DemandFor(items[i].0))
    {
      DemandIsPosted(items, Key(items[i].0, warehouse), warehouse);
    }
    assert forall i :: 0 <= i < |items| ==> postings[i] in postings;
  }

  /** With everything but stock in order, a send succeeds exactly when its stock side does. */
  lemma SendsExactlyWhenReady(b: Books, chart: set<Account>, id: nat, stockOk: bool)
    requires Live(b.invoices, id) && DocOk(b.invoices[id])
    requires var doc := b.invoices[id];
             doc.status == Draft && doc.total > 0 && doc.issuesStock && SaleAccounts(chart, doc)
    ensures SendInvoice(b, chart, id, stockOk).1.Success? <==> stockOk
  {
    SaleAlwaysPosts(b.invoices[id]);
  }

  /** One row per line is added, taking its quantity of its product out of the warehouse. */
  predicate IssuesLines(request: nat, lines: seq<DocLine>, warehouse: nat, before: seq<Row>, after: seq<Row>) {
    && |after| == |before| + |lines| && after[..|before|] == before
    && forall i :: 0 <= i < |lines| ==>
         && lines[i].product.Some?
         && after[|before| + i] == Row(RowId(request, i), Key(lines[i].product.value, warehouse), -lines[i].qty)
  }

  class Finance {
    const inventory: Inventory
    /** The codes of the live accounts; the control codes stay fixed. */
    const chart: set<Account>
    var invoices: seq<Document>
    var bills: seq<Document>
    var journal: seq<Entry>
    var payments: seq<Payment>
    var invoiceSeq: nat
    var billSeq: nat

    constructor (inventory: Inventory, chart: set<Account>)
      ensures this.inventory == inventory && this.chart == chart && State() == EmptyBooks
    {
      this.inventory, this.chart := inventory, chart;
      invoices, bills, journal, payments, invoiceSeq, billSeq := [], [], [], [], 0, 0;
    }

    ghost function State(): Books
      reads this
    {
      Books(invoices, bills, journal, payments, invoiceSeq, billSeq)
    }

    /** The only way into the journal. */
    method PostEntry(entry: Entry) returns (posted: bool)
      modifies this`journal
      ensures posted == Postable(entry.lines)
      ensures posted <==>
        && Sum(entry.lines, DebitOf) == Sum(entry.lines, CreditOf) && Sum(entry.lines, DebitOf) != 0
        && forall i :: 0 <= i < |entry.lines| ==> entry.lines[i].debit <= 0 || entry.lines[i].credit <= 0
      ensures journal == if posted then old(journal) + [entry] else old(journal)
    {
      var debit := Sum(entry.lines, DebitOf);
      var credit := Sum(entry.lines, CreditOf);
      if debit != credit || debit == 0 {
        return false;
      }
      for i := 0 to |entry.lines|
        invariant forall j :: 0 <= j < i ==> !(entry.lines[j].debit > 0 && entry.lines[j].credit > 0)
      {
        if entry.lines[i].debit > 0 && entry.lines[i].credit > 0 {
          assert entry.lines[i] in entry.lines;
          return false;
        }
      }
      journal := journal + [entry];
      posted := true;
    }

    /** Every line names a live product, and there is a warehouse to issue from. */
    predicate Issuable(lines: seq<DocLine>, warehouse: Option<nat>)
      reads inventory
    {
      && (forall i :: 0 <= i < |lines| ==> lines[i].product.Some? && lines[i].product.value in inventory.products)
      && (if warehouse.Some? then warehouse.value in inventory.warehouses else inventory.warehouses != [])
    }

    method ValidateIssueLines(lines: seq<DocLine>, warehouse: Option<nat>) returns (ok: bool)
      ensures ok == Issuable(lines, warehouse)
      ensures ok <==>
        && (forall i :: 0 <= i < |lines| ==> lines[i].product.Some? && lines[i].product.value in inventory.products)
        && (if warehouse.Some? then warehouse.value in inventory.warehouses else inventory.warehouses != [])
    {
      for i := 0 to |lines|
        invariant forall j :: 0 <= j < i ==> lines[j].product.Some?
      {
        if lines[i].product.None? {
          return false;
        }
      }
      for i := 0 to |lines|
        invariant forall j :: 0 <= j < i ==> lines[j].product.value in inventory.products
      {
        if lines[i].product.value !in inventory.products {
          return false;
        }
      }
      ok := if warehouse.Some? then warehouse.value in inventory.warehouses else inventory.warehouses != [];
    }

    method AddInvoice(lines: seq<DocLine>, issueDate: int, dueDate: int, issuesStock: bool,
                      warehouse: Option<nat>) returns (reply: Reply)
      modifies this`invoices
      ensures (State(), reply)
           == CreateInvoice(old(State()), NewDraft(lines, issueDate, dueDate, issuesStock, warehouse),
                            Issuable(lines, warehouse))
      ensures reply.Failure? ==> reply == Failure(Refused) && invoices == old(invoices)
      ensures reply.Failure? <==> issuesStock && !Issuable(lines, warehouse)
      ensures reply.Success? ==>
        && reply == Success(|old(invoices)|)
        && invoices == old(invoices) + [Document(
             lines, Sum(PriceAll(lines), AmountOf), Sum(PriceAll(lines), TaxOf),
             Sum(PriceAll(lines), AmountOf) + Sum(PriceAll(lines), TaxOf), 0, Draft, issueDate, dueDate,
             issuesStock, warehouse, None, None, false)]
    {
      var out, subtotal, taxTotal, total := PricedLines(lines);
      if issuesStock {
        var ok := ValidateIssueLines(lines, warehouse);
        if !ok {
          return Failure(Refused);
        }
      }
      reply := Success(|invoices|);
      invoices := invoices + [Document(lines, subtotal, taxTotal, total, 0, Draft, issueDate, dueDate,
                                       issuesStock, warehouse, None, None, false)];
    }

    method EditInvoice(id: nat, patch: Patch) returns (reply: Reply)
      modifies this`invoices
      ensures (State(), reply) == PatchInvoice(old(State()), id, patch)
      ensures reply.Success? <==> id < |old(invoices)| && !old(invoices)[id].deleted && old(invoices)[id].status == Draft
      ensures !reply.Success? ==> invoices == old(invoices)
      ensures reply.Success? ==>
        var was := old(invoices)[id];
        && |invoices| == |old(invoices)| && (forall i :: 0 <= i < |invoices| && i != id ==> invoices[i] == old(invoices)[i])
        && var now := invoices[id];
           && (patch.lines.None? ==> now.lines == was.lines && now.total == was.total)
           && (patch.lines.Some? ==>
                 && now.lines == patch.lines.value
                 && now.subtotal == Sum(PriceAll(now.lines), AmountOf) && now.taxTotal == Sum(PriceAll(now.lines), TaxOf)
                 && now.total == now.subtotal + now.taxTotal)
           && now.issueDate == (if patch.issueDate.Some? then patch.issueDate.value else was.issueDate)
           && now.dueDate == (if patch.dueDate.Some? then patch.dueDate.value else was.dueDate)
           && now.issuesStock == (if patch.issuesStock.Some? then patch.issuesStock.value else was.issuesStock)
           && now.warehouse == (if patch.warehouse.Some? then patch.warehouse else was.warehouse)
           && now.status == Draft && !now.deleted && now.paid == was.paid && now.number == was.number
    {
      if !Live(invoices, id) {
        return Failure(Missing);
      }
      if invoices[id].status != Draft {
        return Failure(WrongState);
      }
      var doc := invoices[id];
      if patch.lines.Some? {
        var out, subtotal, taxTotal, total := PricedLines(patch.lines.value);
        doc := doc.(lines := patch.lines.value, subtotal := subtotal, taxTotal := taxTotal, total := total);
      }
      if patch.issueDate.Some? { doc := doc.(issueDate := patch.issueDate.value); }
      if patch.dueDate.Some? { doc := doc.(dueDate := patch.dueDate.value); }
      if patch.issuesStock.Some? { doc := doc.(issuesStock := patch.issuesStock.value); }
      if patch.warehouse.Some? { doc := doc.(warehouse := patch.warehouse); }
      invoices := invoices[id := doc];
      reply := Success(id);
    }

    method DropInvoice(id: nat) returns (reply: Reply)
      modifies this`invoices
      ensures (State(), reply) == DeleteInvoice(old(State()), id)
      ensures reply.Success? <==> id < |old(invoices)| && !old(invoices)[id].deleted && old(invoices)[id].status == Draft
      ensures invoices == if reply.Success? then old(invoices)[id := old(invoices)[id].(deleted := true)] else old(invoices)
    {
      if !Live(invoices, id) {
        return Failure(Missing);
      }
      if invoices[id].status != Draft {
        return Failure(WrongState);
      }
      invoices := invoices[id := invoices[id].(deleted := true)];
      reply := Success(id);
    }

    /** The warehouse an invoice draws on: its own, or the first by code. */
    function Source(warehouse: Option<nat>): nat
      requires warehouse.Some? || inventory.warehouses != []
      reads inventory
    {
      if warehouse.Some? then warehouse.value else inventory.warehouses[0]
    }

    /** The stock side of a send would go through. */
    predicate StockReady(doc: Document, insertFails: nat -> bool)
      reads inventory
    {
      && Issuable(doc.lines, doc.warehouse)
      && inventory.Serviceable(Source(doc.warehouse), Items(doc.lines), |doc.lines|, insertFails)
      && AllAccepted(inventory.levels, IssuePostings(Source(doc.warehouse), Items(doc.lines)),
                     inventory.allowNegative)
    }

    /** A draft with nothing wrong but perhaps its stock: references, accounts and inserts are all in order. */
    ghost predicate Sellable(id: nat, insertFails: nat -> bool)
      reads this, inventory
    {
      && Live(invoices, id) && DocOk(invoices[id]) && !inventory.allowNegative
      && var doc := invoices[id];
         && doc.status == Draft && doc.total > 0 && doc.issuesStock && SaleAccounts(chart, doc)
         && Issuable(doc.lines, doc.warehouse)
         && (forall i :: 0 <= i < |doc.lines| ==> doc.lines[i].qty > 0.0 && !insertFails(i))
    }

    /** Summed over its lines, every product of the document fits what its warehouse holds. */
    predicate StockFits(doc: Document)
      requires Issuable(doc.lines, doc.warehouse)
      reads inventory
    {
      DemandFits(inventory.levels, Items(doc.lines), Source(doc.warehouse))
    }

    lemma ReadyExactlyWhenStockFits(id: nat, insertFails: nat -> bool)
      requires Sellable(id, insertFails)
      ensures StockReady(invoices[id], insertFails) <==> StockFits(invoices[id])
    {
      var doc := invoices[id];
      AcceptedWhenDemandFits(inventory.levels, Items(doc.lines), Source(doc.warehouse));
    }

    /** The postings a send makes. */
    function Shipment(doc: Document): seq<Posting>
      requires Issuable(doc.lines, doc.warehouse)
      reads inventory
    {
      IssuePostings(Source(doc.warehouse), Items(doc.lines))
    }

    /** An invoice draws on its own warehouse, or on the first by code. */
    function SourceOf(doc: Document): nat
      requires Issuable(doc.lines, doc.warehouse)
      reads inventory
    {
      if doc.warehouse.Some? then doc.warehouse.value else inventory.warehouses[0]
    }

    lemma ShipmentIssuesLines(request: nat, doc: Document, before: seq<Row>)
      requires Issuable(doc.lines, doc.warehouse)
      ensures IssuesLines(request, doc.lines, SourceOf(doc), before, before + RowsOf(request, 0, Shipment(doc)))
    {
    }

    method Ship(doc: Document, request: nat, insertFails: nat -> bool) returns (ok: bool, shipped: seq<Row>)
      requires inventory.Unused(request)
      modifies inventory`levels, inventory`rows
      ensures ok == old(StockReady(doc, insertFails))
      ensures ok ==>
        && shipped == RowsOf(request, 0, old(Shipment(doc)))
        && inventory.rows == old(inventory.rows) + shipped
        && inventory.levels == ClaimedAll(old(inventory.levels), old(Shipment(doc)))
      ensures !ok ==>
        && inventory.rows == old(inventory.rows)
        && SameStock(old(inventory.levels), inventory.levels)
        && (!inventory.allowNegative ==> inventory.levels == old(inventory.levels))
    {
      shipped := [];
      ok := ValidateIssueLines(doc.lines, doc.warehouse);
      if ok {
        var outcome := inventory.IssueStockFor(request, Source(doc.warehouse), Items(doc.lines), insertFails);
        ok := outcome.Posted?;
        if ok {
          shipped := outcome.posted;
        }
      }
    }

    method Unship(shipped: seq<Row>, ghost before: Levels, ghost base: seq<Row>, ghost request: nat,
                  ghost postings: seq<Posting>)
      requires forall row :: row in base ==> row.id.request != request
      requires shipped == RowsOf(request, 0, postings) && inventory.rows == base + shipped
      requires inventory.levels == ClaimedAll(before, postings)
      requires AllAccepted(before, postings, inventory.allowNegative)
      requires forall p :: p in postings ==> p.qty < 0.0
      modifies inventory`levels, inventory`rows
      ensures inventory.rows == base && SameStock(before, inventory.levels)
      ensures !inventory.allowNegative ==> inventory.levels == before
    {
      ClaimedAllMoves(before, postings);
      ClaimedAllCovers(before, postings);
      if !inventory.allowNegative {
        IssuesKeepKeys(before, postings);
      }
      inventory.UnwindIssues(shipped, before, base, request, postings);
    }

    /** The accounting side of a send: the entry, and the document it makes final. */
    method BookSale(id: nat, doc: Document) returns (fault: Option<Fault>)
      requires id < |invoices|
      modifies this`invoices, this`journal
      ensures fault == if !SaleAccounts(chart, doc) then Some(NoAccount)
                       else if !Postable(SaleLines(doc)) then Some(Unbalanced) else None
      ensures fault.Some? ==> invoices == old(invoices) && journal == old(journal)
      ensures fault.None? ==>
        && journal == old(journal) + [Entry(doc.issueDate, OfInvoice, Some(id), SaleLines(doc), None)]
        && invoices == old(invoices)[id := doc.(number := Some(invoiceSeq), status := Sent,
                                                entry := Some(|old(journal)|))]
    {
      if !SaleAccounts(chart, doc) {
        return Some(NoAccount);
      }
      var posted := PostEntry(Entry(doc.issueDate, OfInvoice, Some(id), SaleLines(doc), None));
      if !posted {
        return Some(Unbalanced);
      }
      invoices := invoices[id := doc.(number := Some(invoiceSeq), status := Sent, entry := Some(|journal| - 1))];
      fault := None;
    }

    /** Stock first, so that an out-of-stock send leaves no accounting trace. */
    method SendDraft(id: nat, request: nat, insertFails: nat -> bool) returns (reply: Reply)
      requires inventory.Unused(request)
      modifies this`invoices, this`journal, this`invoiceSeq, inventory`levels, inventory`rows
      ensures (State(), reply)
           == SendInvoice(old(State()), chart, id,
                          old(Live(invoices, id) && StockReady(invoices[id], insertFails)))
      ensures reply.Success? && old(invoices)[id].issuesStock ==>
        var postings := old(Shipment(invoices[id]));
        && inventory.rows == old(inventory.rows) + RowsOf(request, 0, postings)
        && inventory.levels == ClaimedAll(old(inventory.levels), postings)
      ensures reply.Failure? || !old(invoices)[id].issuesStock ==>
        && inventory.rows == old(inventory.rows)
        && SameStock(old(inventory.levels), inventory.levels)
        && (!inventory.allowNegative ==> inventory.levels == old(inventory.levels))
    {
      if !Live(invoices, id) {
        return Failure(Missing);
      }
      var doc := invoices[id];
      if doc.status != Draft {
        return Failure(WrongState);
      }
      if doc.total <= 0 {
        return Failure(Refused);
      }
      invoiceSeq := invoiceSeq + 1;
      ghost var before, base := inventory.levels, inventory.rows;
      ghost var postings: seq<Posting> := [];
      var shipped: seq<Row> := [];
      if doc.issuesStock {
        if Issuable(doc.lines, doc.warehouse) {
          postings := Shipment(doc);
        }
        var ok;
        ok, shipped := Ship(doc, request, insertFails);
        if !ok {
          return Failure(NoStock);
        }
      }
      var fault := BookSale(id, doc);
      if fault.None? {
        return Success(id);
      }
      if doc.issuesStock {
        Unship(shipped, before, base, request, postings);
      }
      reply := Failure(fault.value);
    }

    /**
     A draft goes out as one sale and one ledger row per line; one in order but for its stock, exactly when
     its summed quantities fit.
     */
    method PostInvoice(id: nat, request: nat, insertFails: nat -> bool) returns (reply: Reply)
      requires inventory.Unused(request)
      modifies this`invoices, this`journal, this`invoiceSeq, inventory`levels, inventory`rows
      ensures old(Sellable(id, insertFails)) ==> (reply.Success? <==> old(StockFits(invoices[id])))
      ensures (State(), reply)
           == SendInvoice(old(State()), chart, id,
                          old(Live(invoices, id) && StockReady(invoices[id], insertFails)))
      ensures reply.Success? && old(DocOk(invoices[id])) ==> SalePosted(old(State()), State(), id)
      ensures reply.Success? && old(invoices)[id].issuesStock ==>
        && IssuesLines(request, old(invoices)[id].lines, SourceOf(old(invoices)[id]), old(inventory.rows), inventory.rows)
        && inventory.levels == ClaimedAll(old(inventory.levels), old(Shipment(invoices[id])))
      ensures reply.Failure? || !old(invoices)[id].issuesStock ==>
        && inventory.rows == old(inventory.rows)
        && SameStock(old(inventory.levels), inventory.levels)
        && (!inventory.allowNegative ==> inventory.levels == old(inventory.levels))
    {
      ghost var b, ready := State(), Live(invoices, id) && StockReady(invoices[id], insertFails);
      if SendInvoice(b, chart, id, ready).1.Success? && DocOk(invoices[id]) {
        SendPosts(b, chart, id, ready);
      }
      if ready {
        ShipmentIssuesLines(request, invoices[id], inventory.rows);
      }
      if Sellable(id, insertFails) {
        ReadyExactlyWhenStockFits(id, insertFails);
        SendsExactlyWhenReady(b, chart, id, ready);
      }
      reply := SendDraft(id, request, insertFails);
    }

    method AddBill(lines: seq<DocLine>, issueDate: int, dueDate: int) returns (reply: Reply)
      modifies this`bills
      ensures (State(), reply)
           == CreateBill(old(State()), NewDraft(lines, issueDate, dueDate, false, None))
      ensures reply == Success(|old(bills)|)
      ensures bills == old(bills) + [Document(
                lines, Sum(PriceAll(lines), AmountOf), Sum(PriceAll(lines), TaxOf),
                Sum(PriceAll(lines), AmountOf) + Sum(PriceAll(lines), TaxOf), 0, Draft, issueDate, dueDate,
                false, None, None, None, false)]
    {
      var out, subtotal, taxTotal, total := PricedLines(lines);
      reply := Success(|bills|);
      bills := bills + [Document(lines, subtotal, taxTotal, total, 0, Draft, issueDate, dueDate,
                                 false, None, None, None, false)];
    }

    method PostBill(id: nat) returns (reply: Reply)
      modifies this`bills, this`journal, this`billSeq
      ensures (State(), reply) == SendBill(old(State()), chart, id)
      ensures reply.Success? && old(DocOk(bills[id])) ==> PurchasePosted(old(State()), State(), id)
    {
      if SendBill(State(), chart, id).1.Success? && DocOk(bills[id]) {
        BillPosts(State(), chart, id);
      }
      if !Live(bills, id) {
        return Failure(Missing);
      }
      var doc := bills[id];
      if doc.status != Draft {
        return Failure(WrongState);
      }
      if doc.total <= 0 {
        return Failure(Refused);
      }
      billSeq := billSeq + 1;
      if !PurchaseAccounts(chart, doc) {
        return Failure(NoAccount);
      }
      var posted := PostEntry(Entry(doc.issueDate, OfBill, Some(id), PurchaseLines(doc), None));
      if !posted {
        return Failure(Unbalanced);
      }
      bills := bills[id := doc.(number := Some(billSeq), status := Sent, entry := Some(|journal| - 1))];
      reply := Success(id);
    }

    method CancelInvoice(id: nat, date: int) returns (reply: Reply)
      modifies this`invoices, this`journal
      ensures (State(), reply) == VoidInvoice(old(State()), id, date)
    {
      if !Live(invoices, id) {
        return Failure(Missing);
      }
      var doc := invoices[id];
      if doc.status == Void || doc.status == Draft || doc.paid > 0 {
        return Failure(WrongState);
      }
      var found := FindEntry(journal, id);
      if found.None? {
        found := doc.entry;
      }
      if found.None? || found.value >= |journal| {
        return Failure(WrongState);
      }
      var posted := PostEntry(Entry(date, OfInvoice, Some(id), Reversed(journal[found.value].lines), found));
      if !posted {
        return Failure(Unbalanced);
      }
      invoices := invoices[id := doc.(status := Void)];
      reply := Success(id);
    }

    method Pay(kind: DocKind, id: nat, ptype: PaymentType, amount: int, means: PayMethod, date: int)
      returns (reply: Reply)
      modifies this`invoices, this`bills, this`journal, this`payments
      ensures (State(), reply) == CreatePayment(old(State()), chart, kind, id, ptype, amount, means, date)
      ensures reply.Success? && amount > 0 && old(DocOk(DocsOf(State(), kind)[id])) ==>
        PaymentPosted(old(State()), State(), kind, id, amount, means, date)
    {
      if CreatePayment(State(), chart, kind, id, ptype, amount, means, date).1.Success? && amount > 0
         && DocOk(DocsOf(State(), kind)[id]) {
        PayPosts(State(), chart, kind, id, ptype, amount, means, date);
      }
      var docs := if kind.InvoiceDoc? then invoices else bills;
      if !Live(docs, id) {
        return Failure(Missing);
      }
      var doc := docs[id];
      if ptype != ExpectedType(kind) {
        return Failure(Refused);
      }
      if doc.status == Draft || doc.status == Void {
        return Failure(WrongState);
      }
      if amount > doc.total - doc.paid {
        return Failure(Refused);
      }
      if MethodAccount(means) !in chart || ControlAccount(kind) !in chart {
        return Failure(NoAccount);
      }
      var posted := PostEntry(
        Entry(date, OfPayment, Some(id), PaymentLines(kind, MethodAccount(means), amount), None));
      if !posted {
        return Failure(Unbalanced);
      }
      payments := payments + [Payment(ptype, kind, id, amount, date, means, |journal| - 1)];
      var paid := doc.paid + amount;
      var settled := doc.(paid := paid, status := StatusFor(paid, doc.total));
      if kind.InvoiceDoc? {
        invoices := invoices[id := settled];
      } else {
        bills := bills[id := settled];
      }
      reply := Success(|payments| - 1);
    }
  }
}
