/**
 Runs in which the control account falls below the open items: whatever is invoiced, if a credit
 is applied to the invoice first and a payment allocated to it afterwards, the credit is owed again.
 */
module ReceivablesWitness {
  import opened Wrappers
  import opened Sums
  import opened StockModel
  import opened DocumentJournals
  import opened MovementLog
  import opened BooksModel
  import opened ReceivablesModel
  import opened ReceivablesConservation
  import opened OpenedBooks
  import L = LedgerModel
  import I = LedgerInvariant
  import T = ReceivablesTie

  /** Receivables on account 0, revenue on 1, the bank on 2. */
  const CONFIG := Settings(true, 0, None, None, None, Some(2))

  /** A line of services on the revenue account, without tax. */
  predicate Plain(l: CalculatedLine) {
    l.item.None? && l.account == 1 && l.tax == 0 && l.taxable > 0
  }

  /** One customer's invoice, credit note and payment, the last two for no more than is due. */
  datatype Story = Story(customer: nat, sale: CalculatedLine, credit: CalculatedLine, paid: pos)

  predicate Fits(s: Story) {
    Plain(s.sale) && Plain(s.credit) && s.credit.gross + s.paid <= s.sale.gross
  }

  // ---------- The documents as the story goes on ----------

  function Drafted(s: Story): Invoice {
    Invoice(s.customer, InvoiceDraft, 0, [s.sale], s.sale.gross, 0, s.sale.gross, None)
  }

  function Open(s: Story): Invoice {
    Drafted(s).(status := InvoiceSent, postedJournal := Some(0))
  }

  function Reduced(s: Story): Invoice {
    Open(s).(amountDue := s.sale.gross - s.credit.gross)
  }

  function Noted(s: Story): Note {
    Note(s.customer, NoteDraft, 0, [s.credit], s.credit.gross, s.credit.gross, None)
  }

  function Posted(s: Story): Note {
    Noted(s).(status := NotePosted, postedJournal := Some(1))
  }

  function Applied(s: Story): Note {
    Posted(s).(status := NoteApplied, unapplied := 0)
  }

  function Received(s: Story): Payment {
    Payment(s.customer, PaymentDraft, 0, s.paid, s.paid, None, None)
  }

  function Banked(s: Story): Payment {
    Received(s).(status := PaymentPosted, postedJournal := Some(2))
  }

  /** Opened books without stock, and exactly these documents and so many journals. */
  predicate Holds(st: State, invoices: seq<Invoice>, notes: seq<Note>, payments: seq<Payment>, journals: nat) {
    && Ready(st.books.ledger) && |st.books.ledger.journals| == journals
    && st.books.inventory == Inventory([], {}, map[], []) && st.books.bills == []
    && st.invoices == invoices && st.notes == notes && st.payments == payments
  }

  /** The step succeeds, is clean and met its guard. */
  predicate Proceeds(st: State, op: Op) {
    Step(st, CONFIG, op).Ok? && T.Clean(st, CONFIG, op) && T.Guarded(st, op)
  }

  lemma OneLine(l: CalculatedLine)
    requires l.tax == 0
    ensures InvoiceTotal([l]) == l.gross && SumBy(Lines([l]), Tax()) == 0
    ensures RevenueLines(Lines([l])) == [L.Line(l.account, 0, BaseAmount(l))]
    ensures ChargeLines(Lines([l])) == [L.Line(l.account, BaseAmount(l), 0)]
  {
    var lines: seq<DocLine> := Lines([l]);
    var one: DocLine := l;
    assert lines == [one] && [] + [one] == lines && lines[..0] == [];
    SumSnoc([], one, Gross());
    SumSnoc([], one, Tax());
  }

  // ---------- The steps ----------

  lemma SaleCreated(st: State, s: Story)
    requires Fits(s) && Holds(st, [], [], [], 0)
    ensures var op := NewInvoice(s.customer, 0, [s.sale]);
            Proceeds(st, op) && Holds(Step(st, CONFIG, op).value, [Drafted(s)], [], [], 0)
  {
    OneLine(s.sale);
    assert st.invoices + [Drafted(s)] == [Drafted(s)];
  }

  lemma SaleApproved(st: State, s: Story)
    requires Holds(st, [Drafted(s)], [], [], 0)
    ensures Proceeds(st, Approve(0)) && Holds(Step(st, CONFIG, Approve(0)).value, [Drafted(s).(status := InvoiceApproved)], [], [], 0)
  {
    assert st.invoices[0 := Drafted(s).(status := InvoiceApproved)] == [Drafted(s).(status := InvoiceApproved)];
  }

  lemma SalePosts(b: Books, l: CalculatedLine)
    requires Ready(b.ledger) && b.inventory == Inventory([], {}, map[], []) && Plain(l)
    ensures var t := InvoicePosting(b, CONFIG, Document(0, 0, Lines([l]), l.gross));
            && t.Ok? && Ready(t.value.ledger) && |t.value.ledger.journals| == |b.ledger.journals| + 1
            && t.value.inventory == b.inventory && t.value.bills == b.bills
  {
    OneLine(l);
    var lines: seq<DocLine> := Lines([l]);
    assert lines[..0] == [];
    assert InvoiceMovements(b.inventory, DateError(b.ledger.periods, 0), 0, lines) == Ok(Issued(b.inventory, []));
    assert InvoiceJournal(0, None, l.gross, lines, []) == [L.Line(0, l.gross, 0), L.Line(1, 0, l.gross)];
    TwoLinesPost(b.ledger, 0, 1, l.gross);
  }

  lemma SaleGoesThrough(st: State, s: Story)
    requires Fits(s) && Holds(st, [Drafted(s).(status := InvoiceApproved)], [], [], 0)
    ensures var t := PostInvoice(st, CONFIG, 0, true);
            t.Ok? && Holds(t.value, [Open(s)], [], [], 1)
  {
    SalePosts(st.books, s.sale);
    assert st.invoices[0 := Open(s)] == [Open(s)];
  }

  lemma SalePosted(st: State, s: Story)
    requires Fits(s) && Holds(st, [Drafted(s).(status := InvoiceApproved)], [], [], 0)
    ensures Proceeds(st, Post(0, true)) && Holds(Step(st, CONFIG, Post(0, true)).value, [Open(s)], [], [], 1)
  {
    SaleGoesThrough(st, s);
  }

  lemma CreditCreated(st: State, s: Story)
    requires Fits(s) && Holds(st, [Open(s)], [], [], 1)
    ensures var op := NewNote(s.customer, 0, [s.credit]);
            Proceeds(st, op) && Holds(Step(st, CONFIG, op).value, [Open(s)], [Noted(s)], [], 1)
  {
    OneLine(s.credit);
    assert st.notes + [Noted(s)] == [Noted(s)];
  }

  lemma CreditApproved(st: State, s: Story)
    requires Holds(st, [Open(s)], [Noted(s)], [], 1)
    ensures Proceeds(st, ApproveCredit(0))
    ensures Holds(Step(st, CONFIG, ApproveCredit(0)).value, [Open(s)], [Noted(s).(status := NoteApproved)], [], 1)
  {
    assert st.notes[0 := Noted(s).(status := NoteApproved)] == [Noted(s).(status := NoteApproved)];
  }

  lemma CreditPosted(st: State, s: Story)
    requires Fits(s) && Holds(st, [Open(s)], [Noted(s).(status := NoteApproved)], [], 1)
    ensures Proceeds(st, PostCredit(0)) && Holds(Step(st, CONFIG, PostCredit(0)).value, [Open(s)], [Posted(s)], [], 2)
  {
    OneLine(s.credit);
    var gross := s.credit.gross;
    assert ChargeJournal(0, None, gross, Lines([s.credit])) == [L.Line(1, gross, 0), L.Line(0, 0, gross)];
    TwoLinesPost(st.books.ledger, 1, 0, gross);
    assert st.notes[0 := Posted(s)] == [Posted(s)];
  }

  lemma CreditApplied(st: State, s: Story)
    requires Fits(s) && Holds(st, [Open(s)], [Posted(s)], [], 2)
    ensures var op := ApplyCredit(0, 0, s.credit.gross);
            Proceeds(st, op) && Holds(Step(st, CONFIG, op).value, [Reduced(s)], [Applied(s)], [], 2)
  {
    assert st.notes[0 := Applied(s)] == [Applied(s)] && st.invoices[0 := Reduced(s)] == [Reduced(s)];
  }

  lemma ReceiptCreated(st: State, s: Story)
    requires Holds(st, [Reduced(s)], [Applied(s)], [], 2)
    ensures var op := NewPayment(s.customer, 0, s.paid, None);
            Proceeds(st, op) && Holds(Step(st, CONFIG, op).value, [Reduced(s)], [Applied(s)], [Received(s)], 2)
  {
    assert st.payments + [Received(s)] == [Received(s)];
  }

  lemma ReceiptPosted(st: State, s: Story)
    requires Holds(st, [Reduced(s)], [Applied(s)], [Received(s)], 2)
    ensures Proceeds(st, PostReceipt(0)) && Holds(Step(st, CONFIG, PostReceipt(0)).value, [Reduced(s)], [Applied(s)], [Banked(s)], 3)
  {
    TwoLinesPost(st.books.ledger, 2, 0, s.paid);
    assert st.payments[0 := Banked(s)] == [Banked(s)];
  }

  // ---------- The run ----------

  function Start(): State {
    NoDocuments(EmptyBooks([], {}))
  }

  /** A clean run whose every request succeeded and met its guard leads here. */
  ghost predicate Reached(ops: seq<Op>, st: State) {
    st == Run(Start(), CONFIG, ops) && T.CleanRun(Start(), CONFIG, ops) && T.GuardedRun(Start(), CONFIG, ops)
  }

  lemma Extend(ops: seq<Op>, st: State, op: Op) returns (longer: seq<Op>, t: State)
    requires Reached(ops, st) && Proceeds(st, op)
    ensures longer == ops + [op] && Step(st, CONFIG, op) == Ok(t) && Reached(longer, t)
  {
    longer, t := ops + [op], Step(st, CONFIG, op).value;
    assert longer[..|longer| - 1] == ops;
  }

  lemma Opening() returns (ops: seq<Op>, st: State)
    ensures Reached(ops, st) && Holds(st, [], [], [], 0)
  {
    var account, period := Elsewhere(LedgerOp(L.OpenAccount(true, false))), Elsewhere(LedgerOp(L.AddPeriod(PERIOD)));
    ops, st := [], Start();
    ops, st := Extend(ops, st, account);
    ops, st := Extend(ops, st, account);
    ops, st := Extend(ops, st, account);
    assert st.books.ledger.accounts == OPENED.accounts;
    ops, st := Extend(ops, st, period);
    assert st.books.ledger.periods == OPENED.periods;
  }

  lemma SaleTold(s: Story) returns (ops: seq<Op>, st: State)
    requires Fits(s)
    ensures Reached(ops, st) && Holds(st, [Open(s)], [], [], 1)
  {
    ops, st := Opening();
    SaleCreated(st, s);
    ops, st := Extend(ops, st, NewInvoice(s.customer, 0, [s.sale]));
    SaleApproved(st, s);
    ops, st := Extend(ops, st, Approve(0));
    SalePosted(st, s);
    ops, st := Extend(ops, st, Post(0, true));
  }

  lemma CreditTold(s: Story) returns (ops: seq<Op>, st: State)
    requires Fits(s)
    ensures Reached(ops, st) && Holds(st, [Reduced(s)], [Applied(s)], [], 2)
  {
    ops, st := SaleTold(s);
    CreditCreated(st, s);
    ops, st := Extend(ops, st, NewNote(s.customer, 0, [s.credit]));
    CreditApproved(st, s);
    ops, st := Extend(ops, st, ApproveCredit(0));
    CreditPosted(st, s);
    ops, st := Extend(ops, st, PostCredit(0));
    CreditApplied(st, s);
    ops, st := Extend(ops, st, ApplyCredit(0, 0, s.credit.gross));
  }

  lemma PaymentTold(s: Story) returns (ops: seq<Op>, st: State)
    requires Fits(s)
    ensures Reached(ops, st) && Holds(st, [Reduced(s)], [Applied(s)], [Banked(s)], 3)
  {
    ops, st := CreditTold(s);
    ReceiptCreated(st, s);
    ops, st := Extend(ops, st, NewPayment(s.customer, 0, s.paid, None));
    ReceiptPosted(st, s);
    ops, st := Extend(ops, st, PostReceipt(0));
  }

  lemma StartIsSound()
    ensures T.Sound(Start()) && T.DraftsUnposted(Start()) && T.Difference(Start(), CONFIG) == 0
  {
    I.EmptyHasInv();
  }

  lemma ReachedAgrees(ops: seq<Op>, st: State)
    requires Reached(ops, st)
    ensures T.Sound(st) && T.Difference(st, CONFIG) == 0
  {
    StartIsSound();
    T.RunLeaks(Start(), CONFIG, ops);
  }

  lemma CreditForgotten(st: State, s: Story)
    requires Fits(s) && T.Sound(st) && Holds(st, [Reduced(s)], [Applied(s)], [Banked(s)], 3)
    ensures var op := AllocatePayment(0, 0, s.paid);
            && T.Clean(st, CONFIG, op) && !T.Guarded(st, op) && Step(st, CONFIG, op).Ok?
            && T.Difference(Step(st, CONFIG, op).value, CONFIG) == T.Difference(st, CONFIG) - s.credit.gross
  {
    T.AllocateLeaks(st, CONFIG, 0, 0, s.paid);
  }

  lemma PlainLine(gross: pos) returns (l: CalculatedLine)
    ensures Plain(l) && l.gross == gross
  {
    var line := DocLine(None, None, 1, 1, gross, gross, 0, gross);
    assert TaxedLine(line);
    l := line;
  }

  /** A sale of 100, a credit of 40 and a payment of 50 are such a story. */
  lemma HundredFits() returns (s: Story)
    ensures Fits(s) && s.sale.gross == 100 && s.credit.gross == 40 && s.paid == 50
  {
    var sale := PlainLine(100);
    var credit := PlainLine(40);
    s := Story(7, sale, credit, 50);
  }

  /**
   However much is invoiced, credited and paid: a clean run leads to a state in which control
   account and open items agree and the payment can be allocated to the credited invoice, and once
   it is, the control account lies below the open items by the whole credit.
   */
  lemma CreditOwedAgain(s: Story) returns (ops: seq<Op>, before: State, after: State)
    requires Fits(s)
    ensures before == Run(Start(), CONFIG, ops) && T.CleanRun(Start(), CONFIG, ops)
    ensures T.Difference(before, CONFIG) == 0
    ensures var op := AllocatePayment(0, 0, s.paid);
            T.Clean(before, CONFIG, op) && !T.Guarded(before, op) && Step(before, CONFIG, op) == Ok(after)
    ensures T.Difference(after, CONFIG) == -s.credit.gross < 0
  {
    ops, before := PaymentTold(s);
    ReachedAgrees(ops, before);
    CreditForgotten(before, s);
    after := Step(before, CONFIG, AllocatePayment(0, 0, s.paid)).value;
  }
}
