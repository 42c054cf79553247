/**
 What a document's status says of its figures, over every run: paid when nothing is due, partly paid
 when something was paid and something is due, and voided until a payment is allocated to it.
 */
module DocumentStatuses {
  import opened Wrappers
  import opened Sums
  import opened Rounding
  import opened StockModel
  import opened MovementLog
  import opened DocumentJournals
  import opened BooksModel
  import opened ReceivablesModel
  import opened ReceivablesConservation
  import opened LedgerMeaning

  // ---------- Invoices, notes and payments ----------

  predicate InvoiceStatusOk(inv: Invoice) {
    && inv.amountPaid >= 0 && 0 <= inv.amountDue <= inv.total - inv.amountPaid
    && (inv.status == PartiallyPaid <==> inv.amountPaid > 0 && inv.amountDue > 0)
    && (inv.status == Paid ==> inv.amountDue == 0)
    && (inv.postedJournal.Some? && inv.amountDue == 0 ==> inv.status == Paid)
    && (inv.amountPaid > 0 ==> inv.status == PartiallyPaid || inv.status == Paid)
    && (inv.status == InvoiceDraft || inv.status == InvoiceApproved ==> inv.postedJournal.None?)
  }

  predicate NoteStatusOk(note: Note) {
    && (note.status == NoteDraft || note.status == NoteApproved <==> note.postedJournal.None?)
    && (note.status == NoteApplied <==> note.unapplied < note.total) && note.unapplied <= note.total
  }

  predicate PaymentStatusOk(p: Payment) {
    p.status == PaymentPosted <==> p.postedJournal.Some?
  }

  /** Every allocation is between a payment and an invoice of one customer. */
  predicate SameCustomer(payments: seq<Payment>, invoices: seq<Invoice>, a: Allocation) {
    a.payment < |payments| && a.invoice < |invoices| && payments[a.payment].customer == invoices[a.invoice].customer
  }

  predicate StatusesOk(st: State) {
    && (forall i :: 0 <= i < |st.invoices| ==> InvoiceStatusOk(st.invoices[i]))
    && (forall n :: 0 <= n < |st.notes| ==> NoteStatusOk(st.notes[n]))
    && (forall p :: 0 <= p < |st.payments| ==> PaymentStatusOk(st.payments[p]))
    && (forall k :: 0 <= k < |st.allocations| ==> SameCustomer(st.payments, st.invoices, st.allocations[k]))
  }

  lemma SettlingKeepsInvoiceStatus(st: State, cfg: Settings, op: Op, i: nat)
    requires Conserved(st) && StatusesOk(st) && Step(st, cfg, op).Ok? && i < |st.invoices|
    requires op.AllocatePayment? || op.ApplyCredit?
    ensures InvoiceStatusOk(Step(st, cfg, op).value.invoices[i])
  {
    assert InvoiceOk(st, i) && InvoiceStatusOk(st.invoices[i]);
  }

  lemma DraftingKeepsInvoiceStatus(st: State, cfg: Settings, op: Op, i: nat)
    requires StatusesOk(st) && Step(st, cfg, op).Ok? && i < |Step(st, cfg, op).value.invoices|
    requires op.NewInvoice? || op.ExtendInvoice?
    ensures InvoiceStatusOk(Step(st, cfg, op).value.invoices[i])
  {
    TotalIsNonNegative(Step(st, cfg, op).value.invoices[i].lines);
    assert i < |st.invoices| ==> InvoiceStatusOk(st.invoices[i]);
  }

  lemma StepKeepsInvoiceStatus(st: State, cfg: Settings, op: Op, i: nat)
    requires Conserved(st) && StatusesOk(st) && Step(st, cfg, op).Ok? && i < |Step(st, cfg, op).value.invoices|
    ensures InvoiceStatusOk(Step(st, cfg, op).value.invoices[i])
  {
    if op.AllocatePayment? || op.ApplyCredit? {
      SettlingKeepsInvoiceStatus(st, cfg, op, i);
    } else if op.NewInvoice? || op.ExtendInvoice? {
      DraftingKeepsInvoiceStatus(st, cfg, op, i);
    } else {
      assert i < |st.invoices| ==> InvoiceStatusOk(st.invoices[i]);
    }
  }

  lemma StepKeepsNoteStatus(st: State, cfg: Settings, op: Op, n: nat)
    requires Conserved(st) && StatusesOk(st) && Step(st, cfg, op).Ok? && n < |Step(st, cfg, op).value.notes|
    ensures NoteStatusOk(Step(st, cfg, op).value.notes[n])
  {
    assert n < |st.notes| ==> NoteOk(st, n) && NoteStatusOk(st.notes[n]);
  }

  lemma StepKeepsPaymentStatus(st: State, cfg: Settings, op: Op, p: nat)
    requires StatusesOk(st) && Step(st, cfg, op).Ok? && p < |Step(st, cfg, op).value.payments|
    ensures PaymentStatusOk(Step(st, cfg, op).value.payments[p])
  {
    assert p < |st.payments| ==> PaymentStatusOk(st.payments[p]);
  }

  /** Documents never change customers, and come after one another. */
  lemma StepKeepsCustomers(st: State, cfg: Settings, op: Op)
    requires Step(st, cfg, op).Ok?
    ensures var t := Step(st, cfg, op).value;
            && |st.payments| <= |t.payments| && |st.invoices| <= |t.invoices|
            && (forall p :: 0 <= p < |st.payments| ==> t.payments[p].customer == st.payments[p].customer)
            && (forall i :: 0 <= i < |st.invoices| ==> t.invoices[i].customer == st.invoices[i].customer)
  {
  }

  lemma AllocationsGrow(st: State, cfg: Settings, op: Op)
    requires Step(st, cfg, op).Ok?
    ensures var t := Step(st, cfg, op).value;
            t.allocations == st.allocations
            || (&& op.AllocatePayment? && t.allocations == st.allocations + [Allocation(op.payment, op.invoice, op.amount)]
                && op.payment < |st.payments| && op.invoice < |st.invoices| && st.payments[op.payment].customer == st.invoices[op.invoice].customer)
  {
  }

  lemma StepKeepsSameCustomer(st: State, cfg: Settings, op: Op, k: nat)
    requires StatusesOk(st) && Step(st, cfg, op).Ok? && k < |Step(st, cfg, op).value.allocations|
    ensures var t := Step(st, cfg, op).value; SameCustomer(t.payments, t.invoices, t.allocations[k])
  {
    StepKeepsCustomers(st, cfg, op);
    AllocationsGrow(st, cfg, op);
    assert k < |st.allocations| ==> SameCustomer(st.payments, st.invoices, st.allocations[k]);
  }

  lemma StepKeepsStatuses(st: State, cfg: Settings, op: Op)
    requires Conserved(st) && StatusesOk(st)
    ensures StatusesOk(Next(st, cfg, op))
  {
    var t := Next(st, cfg, op);
    if Step(st, cfg, op).Ok? {
      forall i | 0 <= i < |t.invoices| { StepKeepsInvoiceStatus(st, cfg, op, i); }
      forall n | 0 <= n < |t.notes| { StepKeepsNoteStatus(st, cfg, op, n); }
      forall p | 0 <= p < |t.payments| { StepKeepsPaymentStatus(st, cfg, op, p); }
      forall k | 0 <= k < |t.allocations| { StepKeepsSameCustomer(st, cfg, op, k); }
    }
  }

  lemma {:induction false} RunKeepsStatuses(st: State, cfg: Settings, ops: seq<Op>)
    requires Conserved(st) && StatusesOk(st)
    ensures StatusesOk(Run(st, cfg, ops))
  {
    if |ops| > 0 {
      var init := ops[..|ops| - 1];
      RunKeepsStatuses(st, cfg, init);
      RunKeepsConserved(st, cfg, init);
      StepKeepsStatuses(Run(st, cfg, init), cfg, ops[|ops| - 1]);
    }
  }

  /**
   In every run an invoice is partly paid exactly when something was paid and something is due, is
   paid only when nothing is due, and once posted is paid exactly then; a note is applied exactly when
   some of it was spent; and every allocation is between one customer's payment and invoice.
   */
  lemma StatusesFollowFigures(books: Books, cfg: Settings, ops: seq<Op>, i: nat, n: nat, p: nat, k: nat)
    ensures var st := Run(NoDocuments(books), cfg, ops);
            && (i < |st.invoices| ==>
                  var inv := st.invoices[i];
                  && (inv.status == PartiallyPaid <==> inv.amountPaid > 0 && inv.amountDue > 0)
                  && (inv.status == Paid ==> inv.amountDue == 0)
                  && (inv.postedJournal.Some? ==> (inv.status == Paid <==> inv.amountDue == 0))
                  && (inv.postedJournal.Some? ==> inv.status == InvoiceSent || inv.status == PartiallyPaid || inv.status == Paid))
            && (n < |st.notes| ==>
                  && (st.notes[n].status == NoteApplied <==> st.notes[n].unapplied < st.notes[n].total)
                  && (st.notes[n].status == NoteDraft || st.notes[n].status == NoteApproved <==> st.notes[n].postedJournal.None?))
            && (p < |st.payments| ==> (st.payments[p].status == PaymentPosted <==> st.payments[p].postedJournal.Some?))
            && (k < |st.allocations| ==> SameCustomer(st.payments, st.invoices, st.allocations[k]))
  {
    RunKeepsStatuses(NoDocuments(books), cfg, ops);
    var st := Run(NoDocuments(books), cfg, ops);
    assert i < |st.invoices| ==> InvoiceStatusOk(st.invoices[i]);
    assert n < |st.notes| ==> NoteStatusOk(st.notes[n]);
    assert p < |st.payments| ==> PaymentStatusOk(st.payments[p]);
    assert k < |st.allocations| ==> SameCustomer(st.payments, st.invoices, st.allocations[k]);
  }

  // ---------- Bills ----------

  predicate BillStatusOk(bill: Bill) {
    && bill.amountPaid >= 0 && bill.amountDue == bill.total - bill.amountPaid >= 0
    && bill.total == SumBy(Lines(bill.lines), Base()) + SumBy(Lines(bill.lines), Tax())
    && (bill.status == BillPartiallyPaid <==> bill.amountPaid > 0 && bill.amountDue > 0)
    && (bill.status == BillPaid ==> bill.amountDue == 0)
    && (bill.amountPaid > 0 && bill.amountDue == 0 ==> bill.status == BillPaid)
    && (bill.status == BillPosted ==> bill.postedJournal.Some? && bill.amountDue > 0)
    && (bill.status == BillDraft || bill.status == BillApproved ==> bill.postedJournal.None?)
  }

  predicate BillStatusesOk(b: Books) {
    forall i :: 0 <= i < |b.bills| ==> BillStatusOk(b.bills[i])
  }

  lemma NewBillStatus(lines: seq<CalculatedLine>)
    ensures var total := CalculateHeader(Lines(lines)).total;
            total >= 0 && total == SumBy(Lines(lines), Base()) + SumBy(Lines(lines), Tax())
  {
    TotalIsNonNegative(lines);
    var plain: seq<DocLine> := Lines(lines);
    forall l | l in plain
      ensures TaxedLine(l)
    {
      var k :| 0 <= k < |lines| && lines[k] == l;
    }
    HeaderAddsUp(plain);
  }

  lemma PostingKeepsBillStatus(b: Books, cfg: Settings, op: BooksOp, i: nat)
    requires BillStatusesOk(b) && BooksStep(b, cfg, op).Ok? && i < |b.bills| && (op.BillOp? || op.VoidBillOp?)
    ensures |BooksStep(b, cfg, op).value.bills| == |b.bills| && BillStatusOk(BooksStep(b, cfg, op).value.bills[i])
  {
    assert BillStatusOk(b.bills[i]);
  }

  lemma StepKeepsBillStatus(b: Books, cfg: Settings, op: BooksOp, i: nat)
    requires BillStatusesOk(b) && BooksStep(b, cfg, op).Ok? && i < |BooksStep(b, cfg, op).value.bills|
    ensures BillStatusOk(BooksStep(b, cfg, op).value.bills[i])
  {
    if op.BillOp? || op.VoidBillOp? {
      PostingKeepsBillStatus(b, cfg, op, if i < |b.bills| then i else 0);
    } else {
      assert i < |b.bills| ==> BillStatusOk(b.bills[i]);
      if op.NewBillOp? {
        NewBillStatus(BooksStep(b, cfg, op).value.bills[i].lines);
      }
    }
  }

  lemma {:induction false} RunKeepsBillStatuses(b: Books, cfg: Settings, ops: seq<BooksOp>)
    requires BillStatusesOk(b)
    ensures BillStatusesOk(BooksRun(b, cfg, ops))
  {
    if |ops| > 0 {
      var before, op := BooksRun(b, cfg, ops[..|ops| - 1]), ops[|ops| - 1];
      RunKeepsBillStatuses(b, cfg, ops[..|ops| - 1]);
      if BooksStep(before, cfg, op).Ok? {
        forall i | 0 <= i < |BooksStep(before, cfg, op).value.bills| {
          StepKeepsBillStatus(before, cfg, op, i);
        }
      }
    }
  }

  /** In every run a bill's total is the prices and taxes of its lines, what is due is what has not been paid, and its status follows the two. */
  lemma BillStatusFollowsFigures(items: seq<Item>, locations: set<nat>, cfg: Settings, ops: seq<BooksOp>, i: nat)
    ensures var b := BooksRun(EmptyBooks(items, locations), cfg, ops);
            i < |b.bills| ==>
              var bill := b.bills[i];
              && bill.total == SumBy(Lines(bill.lines), Base()) + SumBy(Lines(bill.lines), Tax())
              && bill.amountDue == bill.total - bill.amountPaid && 0 <= bill.amountPaid <= bill.total
              && (bill.status == BillPartiallyPaid <==> bill.amountPaid > 0 && bill.amountDue > 0)
              && (bill.status == BillPaid ==> bill.amountDue == 0)
              && (bill.amountPaid > 0 && bill.amountDue == 0 ==> bill.status == BillPaid)
              && (bill.status == BillPosted ==> bill.postedJournal.Some? && bill.amountDue > 0)
  {
    RunKeepsBillStatuses(EmptyBooks(items, locations), cfg, ops);
    var b := BooksRun(EmptyBooks(items, locations), cfg, ops);
    assert i < |b.bills| ==> BillStatusOk(b.bills[i]);
  }

  lemma StepKeepsVoided(b: Books, cfg: Settings, op: BooksOp, i: nat)
    requires BooksStep(b, cfg, op).Ok? && i < |b.bills| && b.bills[i].amountPaid >= 0
    requires b.bills[i].status == BillVoided <==> b.bills[i].amountPaid == 0
    ensures var t := BooksStep(b, cfg, op).value;
            && i < |t.bills| && t.bills[i].amountPaid >= b.bills[i].amountPaid
            && (t.bills[i].status == BillVoided <==> t.bills[i].amountPaid == 0)
  {
  }

  /**
   A voided bill is not safe from payments: allocating one does not look at its status. So over any
   later run it is still voided exactly as long as nothing has been allocated to it.
   */
  lemma {:induction false} VoidedUntilPaid(b: Books, cfg: Settings, i: nat, ops: seq<BooksOp>)
    requires i < |b.bills| && b.bills[i].status == BillVoided && b.bills[i].amountPaid == 0
    ensures var t := BooksRun(b, cfg, ops);
            && i < |t.bills| && t.bills[i].amountPaid >= 0
            && (t.bills[i].status == BillVoided <==> t.bills[i].amountPaid == 0)
  {
    if |ops| > 0 {
      var before, op := BooksRun(b, cfg, ops[..|ops| - 1]), ops[|ops| - 1];
      VoidedUntilPaid(b, cfg, i, ops[..|ops| - 1]);
      if BooksStep(before, cfg, op).Ok? {
        StepKeepsVoided(before, cfg, op, i);
      }
    }
  }

  /** And a payment of anything up to what the bill still shows as due goes through. */
  lemma VoidedCanBePaid(b: Books, cfg: Settings, i: nat, amount: pos)
    requires i < |b.bills| && b.bills[i].status == BillVoided
    ensures BooksStep(b, cfg, SettleBillOp(i, amount)).Ok? <==> amount <= b.bills[i].amountDue
    ensures BillStatusOk(b.bills[i]) && amount <= b.bills[i].amountDue ==>
              BooksStep(b, cfg, SettleBillOp(i, amount)).value.bills[i].status
              == if amount == b.bills[i].amountDue then BillPaid else BillPartiallyPaid
  {
  }

  // ---------- What is accepted ----------

  /** A payment is allocated exactly when it and the invoice are one customer's and both have that much left; what is due is recomputed from what has been paid. */
  lemma AllocationMeaning(st: State, p: nat, i: nat, amount: pos)
    ensures Allocate(st, p, i, amount).Ok?
            <==> && p < |st.payments| && i < |st.invoices| && st.payments[p].customer == st.invoices[i].customer
                 && amount <= st.payments[p].unapplied && amount <= st.invoices[i].amountDue
    ensures Allocate(st, p, i, amount).Ok? ==>
              var t, inv := Allocate(st, p, i, amount).value, st.invoices[i];
              && t.allocations == st.allocations + [Allocation(p, i, amount)]
              && t.payments == st.payments[p := st.payments[p].(unapplied := st.payments[p].unapplied - amount)]
              && t.invoices == st.invoices[i := inv.(amountPaid := inv.amountPaid + amount, amountDue := inv.total - inv.amountPaid - amount,
                                                     status := t.invoices[i].status)]
  {
  }

  /** A credit is applied exactly when its note is posted and has that much left, whatever the invoice, whose amount due does not fall below zero. */
  lemma ApplicationMeaning(st: State, n: nat, i: nat, amount: pos)
    ensures Apply(st, n, i, amount).Ok?
            <==> && n < |st.notes| && i < |st.invoices| && amount <= st.notes[n].unapplied
                 && (st.notes[n].status == NotePosted || st.notes[n].status == NoteApplied)
    ensures Apply(st, n, i, amount).Ok? ==>
              var t, inv := Apply(st, n, i, amount).value, st.invoices[i];
              && t.applications == st.applications + [Application(n, i, amount)]
              && t.notes == st.notes[n := st.notes[n].(unapplied := st.notes[n].unapplied - amount, status := t.notes[n].status)]
              && t.invoices == st.invoices[i := inv.(amountDue := if amount < inv.amountDue then inv.amountDue - amount else 0,
                                                     status := t.invoices[i].status)]
  {
  }

  /** A supplier payment is allocated exactly when the bill has that much due, whatever its status. */
  lemma SettlementMeaning(b: Books, i: nat, amount: pos)
    ensures SettleBill(b, i, amount).Ok? <==> i < |b.bills| && amount <= b.bills[i].amountDue
    ensures SettleBill(b, i, amount).Ok? ==>
              var t, bill := SettleBill(b, i, amount).value, b.bills[i];
              t == b.(bills := b.bills[i := bill.(amountPaid := bill.amountPaid + amount, amountDue := bill.total - bill.amountPaid - amount,
                                                  status := t.bills[i].status)])
  {
  }

  /** Bills, invoices and notes are approved exactly when they are drafts with lines, and an invoice is sent once approved. */
  lemma ApprovalIsAccepted(st: State, b: Books, i: nat)
    ensures ApproveBill(b, i).Ok? <==> i < |b.bills| && b.bills[i].status == BillDraft && b.bills[i].lines != []
    ensures ApproveInvoice(st, i).Ok? <==> i < |st.invoices| && st.invoices[i].status == InvoiceDraft && st.invoices[i].lines != []
    ensures ApproveNote(st, i).Ok? <==> i < |st.notes| && st.notes[i].status == NoteDraft && st.notes[i].lines != []
    ensures SendInvoice(st, i).Ok?
            <==> i < |st.invoices| && (st.invoices[i].status == InvoiceApproved || st.invoices[i].status == InvoiceSent)
    ensures ApproveBill(b, i).Ok? ==> ApproveBill(b, i).value == b.(bills := b.bills[i := b.bills[i].(status := BillApproved)])
    ensures ApproveInvoice(st, i).Ok? ==>
              ApproveInvoice(st, i).value == st.(invoices := st.invoices[i := st.invoices[i].(status := InvoiceApproved)])
    ensures ApproveNote(st, i).Ok? ==> ApproveNote(st, i).value == st.(notes := st.notes[i := st.notes[i].(status := NoteApproved)])
    ensures SendInvoice(st, i).Ok? ==>
              SendInvoice(st, i).value == st.(invoices := st.invoices[i := st.invoices[i].(status := InvoiceSent)])
  {
  }

  function GrossOf(lines: seq<CalculatedLine>): int {
    SumBy(Lines(lines), (l: DocLine) => l.gross)
  }

  lemma GrossIsTotal(lines: seq<CalculatedLine>)
    ensures InvoiceTotal(lines) == GrossOf(lines)
  {
    SumEqual(Lines(lines), (l: DocLine) => l.gross, Gross());
  }

  /** A draft invoice or note totals its lines' gross amounts, of which all is due but what was paid; a line is added only to a draft. */
  lemma DraftMeaning(st: State, i: nat, customer: nat, date: int, lines: seq<CalculatedLine>, line: CalculatedLine)
    ensures CreateInvoice(st, customer, date, lines).Ok? <==> forall l :: l in lines ==> TakesPostings(st.books.ledger.accounts, l.account)
    ensures CreateInvoice(st, customer, date, lines).Ok? ==>
              CreateInvoice(st, customer, date, lines).value
              == st.(invoices := st.invoices + [Invoice(customer, InvoiceDraft, date, lines, GrossOf(lines), 0, GrossOf(lines), None)])
    ensures CreateNote(st, customer, date, lines)
            == Ok(st.(notes := st.notes + [Note(customer, NoteDraft, date, lines, GrossOf(lines), GrossOf(lines), None)]))
    ensures forall amount: pos, deposit ::
              CreatePayment(st, customer, date, amount, deposit)
              == Ok(st.(payments := st.payments + [Payment(customer, PaymentDraft, date, amount, amount, deposit, None)]))
    ensures AddInvoiceLine(st, i, line).Ok? ==>
              && i < |st.invoices| && st.invoices[i].status == InvoiceDraft
              && var inv, t := st.invoices[i], AddInvoiceLine(st, i, line).value;
                 && t.invoices == st.invoices[i := t.invoices[i]] && t.invoices[i].lines == inv.lines + [line]
                 && t.invoices[i].total == GrossOf(inv.lines + [line]) && t.invoices[i].amountDue == t.invoices[i].total - inv.amountPaid >= 0
  {
    GrossIsTotal(lines);
    if i < |st.invoices| {
      GrossIsTotal(st.invoices[i].lines + [line]);
    }
  }
}
