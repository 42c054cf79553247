/**
 The receivables control account against the open-items list. Every step changes their difference
 by an amount read off its own branch, never upwards; so they agree at the end of a run exactly
 when every credit went to a posted invoice for at most its amount due, and every allocation went
 to an invoice whose amount due was its total less what was paid.
 */
module ReceivablesTie {
  import opened Wrappers
  import opened Sums
  import opened Rounding
  import opened StockModel
  import opened MovementLog
  import opened DocumentJournals
  import opened BooksModel
  import opened LedgerReports
  import opened ReceivablesModel
  import opened ReceivablesConservation
  import L = LedgerModel
  import I = LedgerInvariant

  // ---------- Who may post to the control account ----------

  predicate DocLinesAvoid(lines: seq<DocLine>, a: nat) {
    forall l :: l in lines ==> l.account != a
  }

  predicate ItemsAvoid(items: seq<Item>, a: nat) {
    forall item :: item in items ==> item.asset != Some(a) && item.expense != Some(a)
  }

  predicate BooksOpAvoids(b: Books, cfg: Settings, op: BooksOp, a: nat) {
    match op
    case BillOp(i, _) =>
      cfg.payable != Some(a) && cfg.inputTax != Some(a) && (i < |b.bills| ==> DocLinesAvoid(Lines(b.bills[i].lines), a))
    case VoidBillOp(i, _) =>
      i < |b.bills| && b.bills[i].postedJournal.Some? && b.bills[i].postedJournal.value < |b.ledger.journals| ==>
        LinesAvoid(b.ledger.journals[b.bills[i].postedJournal.value].lines, a)
    case InvoiceOp(_) => false
    case AdjustOp(adj) => adj.offset != a && ItemsAvoid(b.inventory.items, a)
    case LedgerOp(o) => OpAvoids(b.ledger, o, a)
    case _ => true
  }

  /** Only receivable documents post to the control account, and payments are allocated between posted documents. */
  predicate Clean(st: State, cfg: Settings, op: Op) {
    var a := cfg.receivable;
    match op
    case Post(i, _) =>
      i < |st.invoices| ==>
        DocLinesAvoid(Lines(st.invoices[i].lines), a) && cfg.outputTax != Some(a) && ItemsAvoid(st.books.inventory.items, a)
    case PostReceipt(p) =>
      p < |st.payments| ==> if st.payments[p].deposit.Some? then st.payments[p].deposit.value != a else cfg.receipts != Some(a)
    case PostCredit(n) => n < |st.notes| ==> DocLinesAvoid(Lines(st.notes[n].lines), a) && cfg.outputTax != Some(a)
    case AllocatePayment(p, i, _) =>
      p < |st.payments| && i < |st.invoices| ==> st.payments[p].postedJournal.Some? && st.invoices[i].postedJournal.Some?
    case Elsewhere(o) => BooksOpAvoids(st.books, cfg, o, a)
    case _ => true
  }

  predicate CleanRun(st: State, cfg: Settings, ops: seq<Op>) {
    if |ops| == 0 then true
    else CleanRun(st, cfg, ops[..|ops| - 1]) && Clean(Run(st, cfg, ops[..|ops| - 1]), cfg, ops[|ops| - 1])
  }

  // ---------- The difference and what lowers it ----------

  function Difference(st: State, cfg: Settings): int {
    L.Net(st.books.ledger, cfg.receivable) - OpenTotal(st)
  }

  /** What a step lets the open items keep although the control account has given it up. */
  function Leak(st: State, cfg: Settings, op: Op): int {
    if Step(st, cfg, op).Err? then 0
    else
      match op
      case AllocatePayment(p, i, amount) => st.invoices[i].total - st.invoices[i].amountPaid - st.invoices[i].amountDue
      case ApplyCredit(n, i, amount) =>
        if st.invoices[i].postedJournal.Some? then Max(0, amount - st.invoices[i].amountDue) else amount
      case _ => 0
  }

  /** What a caller can check before the call. */
  predicate Guarded(st: State, op: Op) {
    match op
    case AllocatePayment(p, i, amount) =>
      i < |st.invoices| ==> st.invoices[i].amountDue == st.invoices[i].total - st.invoices[i].amountPaid
    case ApplyCredit(n, i, amount) =>
      i < |st.invoices| ==> st.invoices[i].postedJournal.Some? && amount <= st.invoices[i].amountDue
    case _ => true
  }

  /** Each request of the run met its guard or was refused. */
  predicate GuardedRun(st: State, cfg: Settings, ops: seq<Op>) {
    if |ops| == 0 then true
    else
      var before, op := Run(st, cfg, ops[..|ops| - 1]), ops[|ops| - 1];
      GuardedRun(st, cfg, ops[..|ops| - 1]) && (Step(before, cfg, op).Ok? ==> Guarded(before, op))
  }

  /** Documents that have not been posted have not been spent. */
  predicate UnpostedUntouched(st: State) {
    && InvoicesUntouched(st.invoices)
    && PaymentsUntouched(st.payments)
    && NotesUntouched(st.notes)
  }

  predicate InvoicesUntouched(invoices: seq<Invoice>) {
    forall i :: 0 <= i < |invoices| ==> invoices[i].postedJournal.None? ==> invoices[i].amountPaid == 0
  }

  predicate PaymentUntouched(p: Payment) {
    && (p.status == PaymentDraft <==> p.postedJournal.None?)
    && (p.postedJournal.None? ==> p.unapplied == p.amount)
  }

  predicate PaymentsUntouched(payments: seq<Payment>) {
    forall i :: 0 <= i < |payments| ==> PaymentUntouched(payments[i])
  }

  predicate NotesUntouched(notes: seq<Note>) {
    forall i :: 0 <= i < |notes| ==> (notes[i].status == NoteDraft || notes[i].status == NoteApproved <==> notes[i].postedJournal.None?)
  }

  ghost predicate Sound(st: State) {
    I.Inv(st.books.ledger) && Conserved(st) && UnpostedUntouched(st)
  }

  // ---------- One step ----------

  lemma OpenInvoiceReplaced(st: State, i: nat, inv: Invoice)
    requires i < |st.invoices|
    ensures SumBy(st.invoices[i := inv], OpenInvoice())
            == SumBy(st.invoices, OpenInvoice()) - OpenInvoice()(st.invoices[i]) + OpenInvoice()(inv)
  {
    SumUpdate(st.invoices, i, inv, OpenInvoice());
  }

  lemma {:induction false} CostLinesAvoid(items: seq<Item>, hooks: seq<Hook>, a: nat)
    requires ItemsAvoid(items, a) && CostLines(items, hooks).Ok?
    ensures LinesAvoid(CostLines(items, hooks).value, a)
  {
    if |hooks| > 0 {
      CostLinesAvoid(items, hooks[..|hooks| - 1], a);
      var h := hooks[|hooks| - 1];
      assert items[h.item] in items;
    }
  }

  lemma PostInvoiceMovesNet(b: Books, cfg: Settings, doc: Document)
    requires I.Inv(b.ledger) && InvoicePosting(b, cfg, doc).Ok?
    requires DocLinesAvoid(doc.lines, cfg.receivable) && cfg.outputTax != Some(cfg.receivable) && ItemsAvoid(b.inventory.items, cfg.receivable)
    ensures var t := InvoicePosting(b, cfg, doc).value;
            L.Net(t.ledger, cfg.receivable) == L.Net(b.ledger, cfg.receivable) + doc.total && I.Inv(t.ledger)
  {
    var closed, a := DateError(b.ledger.periods, doc.date), cfg.receivable;
    var issued := InvoiceMovements(b.inventory, closed, doc.id, doc.lines).value;
    InvoiceMovementsKeepItems(b.inventory, closed, doc.id, doc.lines);
    var taxAccount := TaxAccount(cfg.outputTax, SumBy(doc.lines, Tax())).value;
    var costs := CostLines(issued.inventory.items, issued.hooks).value;
    var journal := InvoiceJournal(a, taxAccount, doc.total, doc.lines, costs);
    CreateAndPostMovesNet(b.ledger, doc.date, journal, a);
    I.CreateAndPostKeepsInv(b.ledger, doc.date, journal);
    InvoiceJournalNet(a, taxAccount, doc.total, doc.lines, costs, a);
    CostLinesAvoid(issued.inventory.items, issued.hooks, a);
    AvoidedHasNoNet(costs, a);
    SumZero(doc.lines, BaseOn(a));
  }

  lemma BillKeepsControl(b: Books, cfg: Settings, i: nat, active: bool, a: nat)
    requires I.Inv(b.ledger) && PostBill(b, cfg, i, active).Ok? && BooksOpAvoids(b, cfg, BillOp(i, active), a)
    ensures var t := PostBill(b, cfg, i, active).value;
            L.Net(t.ledger, a) == L.Net(b.ledger, a) && I.Inv(t.ledger)
  {
    var bill := BillDocument(b, i);
    var taxAccount := TaxAccount(cfg.inputTax, SumBy(bill.lines, Tax())).value;
    var journal := ChargeJournal(cfg.payable.value, taxAccount, bill.total, bill.lines);
    CreateAndPostMovesNet(b.ledger, bill.date, journal, a);
    I.CreateAndPostKeepsInv(b.ledger, bill.date, journal);
    ChargeJournalNet(cfg.payable.value, taxAccount, bill.total, bill.lines, a);
    SumZero(bill.lines, BaseOn(a));
  }

  lemma AdjustmentKeepsControl(b: Books, cfg: Settings, adj: Adjustment, a: nat)
    requires I.Inv(b.ledger) && AdjustmentPosting(b, adj).Ok? && BooksOpAvoids(b, cfg, AdjustOp(adj), a)
    ensures var t := AdjustmentPosting(b, adj).value;
            L.Net(t.ledger, a) == L.Net(b.ledger, a) && I.Inv(t.ledger)
  {
    var t, item := AdjustmentPosting(b, adj).value, b.inventory.items[adj.key.item];
    var moved := Abs(t.inventory.log[|t.inventory.log| - 1].totalCost);
    var journal := AdjustmentJournal(item.asset.value, adj.offset, adj.quantity, moved);
    CreateAndPostMovesNet(b.ledger, adj.date, journal, a);
    I.CreateAndPostKeepsInv(b.ledger, adj.date, journal);
    assert item in b.inventory.items;
    TwoLinesNet(journal[0], journal[1], a);
  }

  lemma ReversalKeepsControl(ledger: L.State, id: nat, date: int, a: nat)
    requires I.Inv(ledger) && L.Reverse(ledger, id, date).Ok? && LinesAvoid(ledger.journals[id].lines, a)
    ensures var t := L.Reverse(ledger, id, date).value;
            L.Net(t, a) == L.Net(ledger, a) && I.Inv(t)
  {
    OpKeepsNet(ledger, L.ReverseJournal(id, date), a);
    I.ReverseKeepsInv(ledger, id, date);
  }

  lemma BooksOpKeepsControl(b: Books, cfg: Settings, op: BooksOp, a: nat)
    requires I.Inv(b.ledger) && BooksStep(b, cfg, op).Ok? && BooksOpAvoids(b, cfg, op, a)
    ensures var t := BooksStep(b, cfg, op).value;
            L.Net(t.ledger, a) == L.Net(b.ledger, a) && I.Inv(t.ledger)
  {
    match op
    case BillOp(i, active) => BillKeepsControl(b, cfg, i, active, a);
    case AdjustOp(adj) => AdjustmentKeepsControl(b, cfg, adj, a);
    case VoidBillOp(i, _) =>
      if b.bills[i].postedJournal.Some? && b.bills[i].voidedJournal.None? {
        ReversalKeepsControl(b.ledger, b.bills[i].postedJournal.value, b.bills[i].date, a);
      }
    case LedgerOp(o) =>
      OpKeepsNet(b.ledger, o, a);
      I.StepKeepsInv(b.ledger, o);
    case _ =>
  }

  /** What a refused request leaves of the books leaves the control account alone as well. */
  lemma RemainsKeepsControl(b: Books, cfg: Settings, op: BooksOp, a: nat)
    requires I.Inv(b.ledger) && BooksOpAvoids(b, cfg, op, a)
    ensures L.Net(Remains(b, op).ledger, a) == L.Net(b.ledger, a) && I.Inv(Remains(b, op).ledger)
  {
    if Remains(b, op) != b {
      ReversalKeepsControl(b.ledger, b.bills[op.bill].postedJournal.value, b.bills[op.bill].date, a);
    }
  }

  lemma PostLeaksNothing(st: State, cfg: Settings, i: nat, active: bool)
    requires Sound(st) && Clean(st, cfg, Post(i, active)) && PostInvoice(st, cfg, i, active).Ok?
    ensures var t := PostInvoice(st, cfg, i, active).value;
            Difference(t, cfg) == Difference(st, cfg) && I.Inv(t.books.ledger)
  {
    var inv, t := st.invoices[i], PostInvoice(st, cfg, i, active).value;
    assert InvoiceOk(st, i);
    PostInvoiceMovesNet(st.books, cfg, Document(i, inv.date, Lines(inv.lines), inv.total));
    OpenInvoiceReplaced(st, i, t.invoices[i]);
  }

  lemma PostReceiptLeaksNothing(st: State, cfg: Settings, p: nat)
    requires Sound(st) && Clean(st, cfg, PostReceipt(p)) && PostPayment(st, cfg, p).Ok?
    ensures var t := PostPayment(st, cfg, p).value;
            Difference(t, cfg) == Difference(st, cfg) && I.Inv(t.books.ledger)
  {
    var pay, t := st.payments[p], PostPayment(st, cfg, p).value;
    var journal := PaymentJournal(DepositAccount(cfg, pay).value, cfg.receivable, pay.amount);
    CreateAndPostMovesNet(st.books.ledger, pay.date, journal, cfg.receivable);
    I.CreateAndPostKeepsInv(st.books.ledger, pay.date, journal);
    TwoLinesNet(journal[0], journal[1], cfg.receivable);
    SumUpdate(st.payments, p, t.payments[p], OpenPayment());
  }

  lemma PostCreditLeaksNothing(st: State, cfg: Settings, n: nat)
    requires Sound(st) && Clean(st, cfg, PostCredit(n)) && PostNote(st, cfg, n).Ok?
    ensures var t := PostNote(st, cfg, n).value;
            Difference(t, cfg) == Difference(st, cfg) && I.Inv(t.books.ledger)
  {
    var note, t := st.notes[n], PostNote(st, cfg, n).value;
    assert NoteOk(st, n);
    var lines := Lines(note.lines);
    var taxAccount := TaxAccount(cfg.outputTax, SumBy(lines, Tax())).value;
    var journal := ChargeJournal(cfg.receivable, taxAccount, note.total, lines);
    CreateAndPostMovesNet(st.books.ledger, note.date, journal, cfg.receivable);
    I.CreateAndPostKeepsInv(st.books.ledger, note.date, journal);
    ChargeJournalNet(cfg.receivable, taxAccount, note.total, lines, cfg.receivable);
    SumZero(lines, BaseOn(cfg.receivable));
    SumUpdate(st.notes, n, t.notes[n], OpenNote());
  }

  lemma AllocateLeaks(st: State, cfg: Settings, p: nat, i: nat, amount: pos)
    requires Sound(st) && Clean(st, cfg, AllocatePayment(p, i, amount)) && Allocate(st, p, i, amount).Ok?
    ensures Difference(Allocate(st, p, i, amount).value, cfg) == Difference(st, cfg) - Leak(st, cfg, AllocatePayment(p, i, amount))
  {
    var t := Allocate(st, p, i, amount).value;
    assert InvoiceOk(st, i) && PaymentOk(st, p);
    OpenInvoiceReplaced(st, i, t.invoices[i]);
    SumUpdate(st.payments, p, t.payments[p], OpenPayment());
  }

  lemma ApplyLeaks(st: State, cfg: Settings, n: nat, i: nat, amount: pos)
    requires Sound(st) && Apply(st, n, i, amount).Ok?
    ensures Difference(Apply(st, n, i, amount).value, cfg) == Difference(st, cfg) - Leak(st, cfg, ApplyCredit(n, i, amount))
  {
    var t := Apply(st, n, i, amount).value;
    assert InvoiceOk(st, i) && NoteOk(st, n);
    OpenInvoiceReplaced(st, i, t.invoices[i]);
    SumUpdate(st.notes, n, t.notes[n], OpenNote());
  }

  /** A change of one unposted invoice, or of an approved invoice's status, opens nothing. */
  lemma InvoiceDraftsLeakNothing(st: State, cfg: Settings, op: Op)
    requires Sound(st) && Step(st, cfg, op).Ok?
    requires op.NewInvoice? || op.ExtendInvoice? || op.Approve? || op.Send?
    requires op.ExtendInvoice? ==> st.invoices[op.invoice].postedJournal.None?
    ensures Difference(Step(st, cfg, op).value, cfg) == Difference(st, cfg)
  {
    var t := Step(st, cfg, op).value;
    if op.NewInvoice? {
      SumSnoc(st.invoices, t.invoices[|st.invoices|], OpenInvoice());
    } else {
      OpenInvoiceReplaced(st, op.invoice, t.invoices[op.invoice]);
    }
  }

  /** A new payment or note is not posted yet, and approving a note opens nothing. */
  lemma OtherDraftsLeakNothing(st: State, cfg: Settings, op: Op)
    requires Sound(st) && Step(st, cfg, op).Ok?
    requires op.NewPayment? || op.NewNote? || op.ApproveCredit?
    ensures Difference(Step(st, cfg, op).value, cfg) == Difference(st, cfg)
  {
    var t := Step(st, cfg, op).value;
    match op
    case NewPayment(_, _, _, _) => SumSnoc(st.payments, t.payments[|st.payments|], OpenPayment());
    case NewNote(_, _, _) => SumSnoc(st.notes, t.notes[|st.notes|], OpenNote());
    case ApproveCredit(n) => SumUpdate(st.notes, n, t.notes[n], OpenNote());
  }

  /** Drafts have no journal. */
  predicate DraftsUnposted(st: State) {
    forall inv :: inv in st.invoices ==> (inv.status == InvoiceDraft ==> inv.postedJournal.None?)
  }

  lemma StepKeepsDrafts(st: State, cfg: Settings, op: Op)
    requires DraftsUnposted(st)
    ensures DraftsUnposted(Next(st, cfg, op))
  {
    assert forall i :: 0 <= i < |st.invoices| ==> st.invoices[i] in st.invoices;
  }

  lemma StepKeepsInvoicesUntouched(st: State, cfg: Settings, op: Op)
    requires InvoicesUntouched(st.invoices) && Clean(st, cfg, op)
    ensures InvoicesUntouched(Next(st, cfg, op).invoices)
  {
  }

  lemma StepKeepsPaymentsUntouched(st: State, cfg: Settings, op: Op)
    requires PaymentsUntouched(st.payments) && Clean(st, cfg, op)
    ensures PaymentsUntouched(Next(st, cfg, op).payments)
  {
  }

  lemma StepKeepsNotesUntouched(st: State, cfg: Settings, op: Op)
    requires NotesUntouched(st.notes)
    ensures NotesUntouched(Next(st, cfg, op).notes)
  {
  }

  predicate PostsJournals(op: Op) {
    op.Post? || op.PostReceipt? || op.PostCredit? || op.Elsewhere?
  }

  /** Posting moves the control account and the open items together. */
  lemma PostingLeaksNothing(st: State, cfg: Settings, op: Op)
    requires Sound(st) && Clean(st, cfg, op) && Step(st, cfg, op).Ok? && PostsJournals(op)
    ensures I.Inv(Step(st, cfg, op).value.books.ledger) && Difference(Step(st, cfg, op).value, cfg) == Difference(st, cfg)
  {
    match op
    case Post(i, active) => PostLeaksNothing(st, cfg, i, active);
    case PostReceipt(p) => PostReceiptLeaksNothing(st, cfg, p);
    case PostCredit(n) => PostCreditLeaksNothing(st, cfg, n);
    case Elsewhere(o) => BooksOpKeepsControl(st.books, cfg, o, cfg.receivable);
  }

  /** Without a journal, only allocations and credits lower the difference. */
  lemma DocumentStepLeaks(st: State, cfg: Settings, op: Op)
    requires Sound(st) && DraftsUnposted(st) && Clean(st, cfg, op) && Step(st, cfg, op).Ok? && !PostsJournals(op)
    ensures Difference(Step(st, cfg, op).value, cfg) == Difference(st, cfg) - Leak(st, cfg, op)
  {
    if op.AllocatePayment? {
      AllocateLeaks(st, cfg, op.payment, op.invoice, op.amount);
    } else if op.ApplyCredit? {
      ApplyLeaks(st, cfg, op.note, op.invoice, op.amount);
    } else if op.NewPayment? || op.NewNote? || op.ApproveCredit? {
      OtherDraftsLeakNothing(st, cfg, op);
    } else {
      assert op.ExtendInvoice? ==> st.invoices[op.invoice] in st.invoices;
      InvoiceDraftsLeakNothing(st, cfg, op);
    }
  }

  lemma DocumentStepKeepsBooks(st: State, cfg: Settings, op: Op)
    requires Step(st, cfg, op).Ok? && !PostsJournals(op)
    ensures Step(st, cfg, op).value.books == st.books
  {
  }

  /** A step that succeeds lowers the difference by its leak. */
  lemma StepLowersDifference(st: State, cfg: Settings, op: Op)
    requires Sound(st) && DraftsUnposted(st) && Clean(st, cfg, op) && Step(st, cfg, op).Ok?
    ensures I.Inv(Step(st, cfg, op).value.books.ledger)
    ensures Difference(Step(st, cfg, op).value, cfg) == Difference(st, cfg) - Leak(st, cfg, op)
  {
    if PostsJournals(op) {
      PostingLeaksNothing(st, cfg, op);
    } else {
      DocumentStepLeaks(st, cfg, op);
      DocumentStepKeepsBooks(st, cfg, op);
    }
  }

  /** A leak is never negative, and there is none exactly when the request met its guard or was refused. */
  lemma LeakMeaning(st: State, cfg: Settings, op: Op)
    requires Conserved(st)
    ensures Leak(st, cfg, op) >= 0
    ensures Leak(st, cfg, op) == 0 <==> (Step(st, cfg, op).Ok? ==> Guarded(st, op))
  {
    if op.AllocatePayment? && op.invoice < |st.invoices| {
      assert InvoiceOk(st, op.invoice);
    }
  }

  /** Each step lowers the difference by its leak. */
  lemma StepLeaks(st: State, cfg: Settings, op: Op)
    requires Sound(st) && DraftsUnposted(st) && Clean(st, cfg, op)
    ensures Sound(Next(st, cfg, op)) && DraftsUnposted(Next(st, cfg, op))
    ensures Difference(Next(st, cfg, op), cfg) == Difference(st, cfg) - Leak(st, cfg, op)
  {
    StepKeepsConserved(st, cfg, op);
    StepKeepsInvoicesUntouched(st, cfg, op);
    StepKeepsPaymentsUntouched(st, cfg, op);
    StepKeepsNotesUntouched(st, cfg, op);
    StepKeepsDrafts(st, cfg, op);
    if Step(st, cfg, op).Ok? {
      StepLowersDifference(st, cfg, op);
    } else if op.Elsewhere? {
      RemainsKeepsControl(st.books, cfg, op.op, cfg.receivable);
    }
  }

  // ---------- Runs ----------

  lemma {:induction false} RunLeaks(st: State, cfg: Settings, ops: seq<Op>)
    requires Sound(st) && DraftsUnposted(st) && CleanRun(st, cfg, ops)
    ensures Sound(Run(st, cfg, ops)) && DraftsUnposted(Run(st, cfg, ops))
    ensures Difference(Run(st, cfg, ops), cfg) <= Difference(st, cfg)
    ensures Difference(Run(st, cfg, ops), cfg) == Difference(st, cfg) <==> GuardedRun(st, cfg, ops)
  {
    if |ops| > 0 {
      var init := ops[..|ops| - 1];
      RunLeaks(st, cfg, init);
      StepLeaks(Run(st, cfg, init), cfg, ops[|ops| - 1]);
      LeakMeaning(Run(st, cfg, init), cfg, ops[|ops| - 1]);
    }
  }

  /**
   From books whose control account is clear, over any run in which only receivable documents post
   to it and payments are allocated between posted documents: the control account never exceeds the
   open items, and equals them exactly when every successful credit and allocation met its guard.
   */
  lemma ControlAccountEqualsOpenItems(books: Books, cfg: Settings, ops: seq<Op>)
    requires I.Inv(books.ledger) && L.Net(books.ledger, cfg.receivable) == 0
    requires CleanRun(NoDocuments(books), cfg, ops)
    ensures var st := Run(NoDocuments(books), cfg, ops);
            && L.Net(st.books.ledger, cfg.receivable) <= OpenTotal(st)
            && (L.Net(st.books.ledger, cfg.receivable) == OpenTotal(st) <==> GuardedRun(NoDocuments(books), cfg, ops))
  {
    RunLeaks(NoDocuments(books), cfg, ops);
  }
}
