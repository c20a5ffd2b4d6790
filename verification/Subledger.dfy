/**
 The journal against the documents, account by account: what entries of each origin have put on an
 account is what the documents and payments of that origin call for.
 */
module Subledger {
  import opened Ledger
  import opened Money
  import opened Options
  import opened Receivables
  import opened Sums

  /** What the entries of one origin put on an account. */
  function Of(origin: Origin, account: Account): Entry -> int {
    (entry: Entry) => if entry.origin == origin then NetAt(account)(entry) else 0
  }

  /** What a posted invoice that was not voided stands for on an account. */
  function SoldAt(account: Account): Document -> int {
    (doc: Document) => if doc.status != Draft && doc.status != Void then SaleNet(doc, account) else 0
  }

  function BoughtAt(account: Account): Document -> int {
    (doc: Document) => if doc.status != Draft then PurchaseNet(doc, account) else 0
  }

  function PaidAt(account: Account): Payment -> int {
    (p: Payment) => PaidNet(p.kind, p.means, p.amount, account)
  }

  /** What one document has been paid. */
  function PaidTo(kind: DocKind, id: nat): Payment -> int {
    (p: Payment) => if p.kind == kind && p.doc == id then p.amount else 0
  }

  ghost predicate Explained(b: Books, account: Account) {
    && Sum(b.journal, Of(OfInvoice, account)) == Sum(b.invoices, SoldAt(account))
    && Sum(b.journal, Of(OfBill, account)) == Sum(b.bills, BoughtAt(account))
    && Sum(b.journal, Of(OfPayment, account)) == Sum(b.payments, PaidAt(account))
  }

  /** One more entry. */
  lemma EntrySums(b: Books, e: Entry, account: Account)
    ensures forall origin ::
      Sum(b.journal + [e], Of(origin, account)) == Sum(b.journal, Of(origin, account)) + Of(origin, account)(e)
  {
    forall origin
      ensures Sum(b.journal + [e], Of(origin, account)) == Sum(b.journal, Of(origin, account)) + Of(origin, account)(e)
    {
      SumSnoc(b.journal, e, Of(origin, account));
    }
  }

  lemma DraftExplained(b: Books, kind: DocKind, id: nat, doc: Document, account: Account)
    requires Explained(b, account) && id < |DocsOf(b, kind)|
    requires DocsOf(b, kind)[id].status == Draft && doc.status == Draft
    ensures Explained(WithDoc(b, kind, id, doc), account)
  {
    if kind.InvoiceDoc? {
      SumUpdate(b.invoices, id, doc, SoldAt(account));
    } else {
      SumUpdate(b.bills, id, doc, BoughtAt(account));
    }
  }

  lemma AddedExplained(b: Books, doc: Document, account: Account)
    requires Explained(b, account) && doc.status == Draft
    ensures Explained(b.(invoices := b.invoices + [doc]), account)
    ensures Explained(b.(bills := b.bills + [doc]), account)
  {
    SumSnoc(b.invoices, doc, SoldAt(account));
    SumSnoc(b.bills, doc, BoughtAt(account));
  }

  lemma SaleStep(b: Books, c: Books, id: nat, account: Account)
    requires Explained(b, account) && SalePosted(b, c, id) && b.invoices[id].status == Draft
    ensures Explained(c, account)
  {
    var e := c.journal[|b.journal|];
    assert c.journal == b.journal + [e];
    EntrySums(b, e, account);
    SumUpdate(b.invoices, id, c.invoices[id], SoldAt(account));
    assert NetAt(account)(e) == SaleNet(b.invoices[id], account);
  }

  lemma PurchaseStep(b: Books, c: Books, id: nat, account: Account)
    requires Explained(b, account) && PurchasePosted(b, c, id) && b.bills[id].status == Draft
    ensures Explained(c, account)
  {
    var e := c.journal[|b.journal|];
    assert c.journal == b.journal + [e];
    EntrySums(b, e, account);
    SumUpdate(b.bills, id, c.bills[id], BoughtAt(account));
    assert NetAt(account)(e) == PurchaseNet(b.bills[id], account);
  }

  /** Paying a posted document changes nothing about what it stands for. */
  lemma PaymentKeepsDocs(b: Books, c: Books, kind: DocKind, id: nat, amount: int, means: PayMethod, date: int,
                         account: Account)
    requires PaymentPosted(b, c, kind, id, amount, means, date)
    requires DocsOf(b, kind)[id].status != Draft && DocsOf(b, kind)[id].status != Void
    ensures Sum(c.invoices, SoldAt(account)) == Sum(b.invoices, SoldAt(account))
    ensures Sum(c.bills, BoughtAt(account)) == Sum(b.bills, BoughtAt(account))
  {
    if kind.InvoiceDoc? {
      SumUpdate(b.invoices, id, c.invoices[id], SoldAt(account));
    } else {
      SumUpdate(b.bills, id, c.bills[id], BoughtAt(account));
    }
  }

  lemma PaymentAdds(b: Books, c: Books, kind: DocKind, id: nat, amount: int, means: PayMethod, date: int,
                    account: Account)
    requires PaymentPosted(b, c, kind, id, amount, means, date)
    ensures Sum(c.payments, PaidAt(account)) == Sum(b.payments, PaidAt(account)) + PaidNet(kind, means, amount, account)
    ensures c.journal == b.journal + [c.journal[|b.journal|]] && c.journal[|b.journal|].origin == OfPayment
    ensures NetAt(account)(c.journal[|b.journal|]) == PaidNet(kind, means, amount, account)
  {
    var p := c.payments[|b.payments|];
    assert c.payments == b.payments + [p];
    SumSnoc(b.payments, p, PaidAt(account));
  }

  lemma PaymentStep(b: Books, c: Books, kind: DocKind, id: nat, amount: int, means: PayMethod, date: int,
                    account: Account)
    requires Explained(b, account) && PaymentPosted(b, c, kind, id, amount, means, date)
    requires DocsOf(b, kind)[id].status != Draft && DocsOf(b, kind)[id].status != Void
    ensures Explained(c, account)
  {
    PaymentKeepsDocs(b, c, kind, id, amount, means, date, account);
    PaymentAdds(b, c, kind, id, amount, means, date, account);
    EntrySums(b, c.journal[|b.journal|], account);
  }

  lemma VoidStep(b: Books, c: Books, id: nat, e: Entry, account: Account)
    requires Explained(b, account) && id < |b.invoices| && c.journal == b.journal + [e] && e.origin == OfInvoice
    requires b.invoices[id].status != Draft && b.invoices[id].status != Void
    requires c.invoices == b.invoices[id := b.invoices[id].(status := Void)]
    requires c.bills == b.bills && c.payments == b.payments
    requires NetAt(account)(e) == -SaleNet(b.invoices[id], account)
    ensures Explained(c, account)
  {
    EntrySums(b, e, account);
    SumUpdate(b.invoices, id, c.invoices[id], SoldAt(account));
  }

  /** A payment of nothing cannot be posted. */
  lemma PaymentMovesMoney(b: Books, chart: set<Account>, kind: DocKind, id: nat, ptype: PaymentType,
                          amount: int, means: PayMethod, date: int)
    requires CreatePayment(b, chart, kind, id, ptype, amount, means, date).1.Success? && amount >= 0
    ensures amount > 0
  {
    SumOfThree(PaymentLines(kind, MethodAccount(means), amount), DebitOf);
  }

  lemma SentExplained(b: Books, chart: set<Account>, id: nat, stockOk: bool, account: Account)
    requires Explained(b, account) && Receivables.Inv(b)
    ensures Explained(SendInvoice(b, chart, id, stockOk).0, account)
  {
    if SendInvoice(b, chart, id, stockOk).1.Success? {
      assert b.invoices[id] in b.invoices;
      SendPosts(b, chart, id, stockOk);
      SaleStep(b, SendInvoice(b, chart, id, stockOk).0, id, account);
    }
  }

  lemma BilledExplained(b: Books, chart: set<Account>, id: nat, account: Account)
    requires Explained(b, account) && Receivables.Inv(b)
    ensures Explained(SendBill(b, chart, id).0, account)
  {
    if SendBill(b, chart, id).1.Success? {
      assert b.bills[id] in b.bills;
      BillPosts(b, chart, id);
      PurchaseStep(b, SendBill(b, chart, id).0, id, account);
    }
  }

  lemma PaidExplained(b: Books, chart: set<Account>, kind: DocKind, id: nat, ptype: PaymentType,
                      amount: int, means: PayMethod, date: int, account: Account)
    requires Explained(b, account) && Receivables.Inv(b) && amount >= 0
    ensures Explained(CreatePayment(b, chart, kind, id, ptype, amount, means, date).0, account)
  {
    var (c, reply) := CreatePayment(b, chart, kind, id, ptype, amount, means, date);
    if reply.Success? {
      assert DocsOf(b, kind)[id] in DocsOf(b, kind);
      PaymentMovesMoney(b, chart, kind, id, ptype, amount, means, date);
      PayPosts(b, chart, kind, id, ptype, amount, means, date);
      PaymentStep(b, c, kind, id, amount, means, date, account);
    }
  }

  lemma VoidedExplained(b: Books, id: nat, date: int, account: Account)
    requires Explained(b, account) && Receivables.Inv(b)
    ensures Explained(VoidInvoice(b, id, date).0, account)
  {
    if VoidInvoice(b, id, date).1.Success? {
      var doc := b.invoices[id];
      assert doc in b.invoices;
      VoidFacts(b, id, date);
      ReversalCancels(SaleLines(doc), account);
      SaleNets(doc, account);
      VoidStep(b, VoidInvoice(b, id, date).0, id,
        Entry(date, OfInvoice, Some(id), Reversed(SaleLines(doc)), FindEntry(b.journal, id)), account);
    }
  }

  lemma OtherExplained(b: Books, chart: set<Account>, origin: Origin, date: int, lines: seq<Line>, account: Account)
    requires Explained(b, account) && (origin == Manual || origin == OfProject)
    ensures Explained(PostOther(b, chart, origin, date, lines).0, account)
  {
    EntrySums(b, Entry(date, origin, None, lines, None), account);
  }

  lemma ServeExplains(b: Books, chart: set<Account>, r: Request, account: Account)
    requires Explained(b, account) && Receivables.Inv(b) && Receivables.WellFormed(r)
    ensures Explained(Serve(b, chart, r).0, account)
  {
    match r
    case AddInvoice(lines, issueDate, dueDate, issuesStock, warehouse, issuable) =>
      AddedExplained(b, NewDraft(lines, issueDate, dueDate, issuesStock, warehouse), account);
    case AddBill(lines, issueDate, dueDate) =>
      AddedExplained(b, NewDraft(lines, issueDate, dueDate, false, None), account);
    case EditInvoice(id, patch) =>
      if Live(b.invoices, id) && b.invoices[id].status == Draft {
        DraftExplained(b, InvoiceDoc, id, Patched(b.invoices[id], patch), account);
      }
    case EditBill(id, patch) =>
      if Live(b.bills, id) && b.bills[id].status == Draft {
        DraftExplained(b, BillDoc, id, Patched(b.bills[id], patch), account);
      }
    case DropInvoice(id) =>
      if Live(b.invoices, id) && b.invoices[id].status == Draft {
        DraftExplained(b, InvoiceDoc, id, b.invoices[id].(deleted := true), account);
      }
    case PostInvoice(id, stockOk) => SentExplained(b, chart, id, stockOk, account);
    case PostBill(id) => BilledExplained(b, chart, id, account);
    case Pay(kind, id, ptype, value, means, date) =>
      CentsNonNegative(value);
      PaidExplained(b, chart, kind, id, ptype, Cents(value), means, date, account);
    case Cancel(id, date) => VoidedExplained(b, id, date, account);
    case Other(origin, date, lines) => OtherExplained(b, chart, origin, date, lines, account);
  }

  /**
   After any run of requests every account carries, from invoice entries, what the posted invoices that
   were not voided stand for; from bill entries, what the posted bills do; from payment entries, what the
   payments do: income the subtotals, tax the taxes, cash and bank the payments made their way.
   */
  lemma {:induction false} EveryAccountExplained(chart: set<Account>, requests: seq<Request>, account: Account)
    requires forall r :: r in requests ==> Receivables.WellFormed(r)
    ensures Explained(Run(chart, requests), account)
  {
    if requests != [] {
      var n := |requests| - 1;
      EveryAccountExplained(chart, requests[..n], account);
      RunKeeps(chart, requests[..n]);
      ServeExplains(Run(chart, requests[..n]), chart, requests[n], account);
    }
  }

  /** A document has been paid what the payments to it add up to; there are none to a document yet to come. */
  ghost predicate PaidUp(b: Books, kind: DocKind, id: nat) {
    Sum(b.payments, PaidTo(kind, id)) == (if id < |DocsOf(b, kind)| then DocsOf(b, kind)[id].paid else 0)
  }

  /** Everything but a payment leaves what was paid. */
  lemma UnpaidStep(b: Books, chart: set<Account>, r: Request, kind: DocKind, id: nat)
    requires !r.Pay?
    ensures var c := Serve(b, chart, r).0;
            && c.payments == b.payments && |DocsOf(c, kind)| >= |DocsOf(b, kind)|
            && (id < |DocsOf(b, kind)| ==> DocsOf(c, kind)[id].paid == DocsOf(b, kind)[id].paid)
            && (|DocsOf(b, kind)| <= id < |DocsOf(c, kind)| ==> DocsOf(c, kind)[id].paid == 0)
  {
  }

  lemma PayStep(b: Books, c: Books, to: DocKind, doc: nat, amount: int, means: PayMethod, date: int,
                kind: DocKind, id: nat)
    requires PaidUp(b, kind, id) && PaymentPosted(b, c, to, doc, amount, means, date)
    ensures PaidUp(c, kind, id)
  {
    var p := c.payments[|b.payments|];
    assert c.payments == b.payments + [p];
    SumSnoc(b.payments, p, PaidTo(kind, id));
  }

  /** After any run every document has been paid exactly what the payments made to it add up to. */
  lemma {:induction false} PaidIsPayments(chart: set<Account>, requests: seq<Request>, kind: DocKind, id: nat)
    requires forall r :: r in requests ==> Receivables.WellFormed(r)
    ensures PaidUp(Run(chart, requests), kind, id)
  {
    if requests != [] {
      var n := |requests| - 1;
      var b, r := Run(chart, requests[..n]), requests[n];
      PaidIsPayments(chart, requests[..n], kind, id);
      RunKeeps(chart, requests[..n]);
      if r.Pay? {
        PaidRequest(b, chart, r, kind, id);
      } else {
        UnpaidStep(b, chart, r, kind, id);
      }
    }
  }

  lemma PaidRequest(b: Books, chart: set<Account>, r: Request, kind: DocKind, id: nat)
    requires PaidUp(b, kind, id) && r.Pay? && Receivables.Inv(b) && Receivables.WellFormed(r)
    ensures PaidUp(Serve(b, chart, r).0, kind, id)
  {
    var amount := Cents(r.value);
    CentsNonNegative(r.value);
    var (c, reply) := CreatePayment(b, chart, r.kind, r.id, r.ptype, amount, r.means, r.date);
    if reply.Success? {
      assert DocsOf(b, r.kind)[r.id] in DocsOf(b, r.kind);
      PaymentMovesMoney(b, chart, r.kind, r.id, r.ptype, amount, r.means, r.date);
      PayPosts(b, chart, r.kind, r.id, r.ptype, amount, r.means, r.date);
      PayStep(b, c, r.kind, r.id, amount, r.means, r.date, kind, id);
    }
  }
}
