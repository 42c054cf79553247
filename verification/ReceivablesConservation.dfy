/** Nothing is lost between payments, credit notes and invoices: in every run the documents' own balances are the sums of what was allocated and applied. */
module ReceivablesConservation {
  import opened Sums
  import opened DocumentJournals
  import opened BooksModel
  import opened ReceivablesModel

  function FromPayment(p: nat): Allocation -> int { (a: Allocation) => if a.payment == p then a.amount else 0 }
  function ToInvoice(i: nat): Allocation -> int { (a: Allocation) => if a.invoice == i then a.amount else 0 }
  function FromNote(n: nat): Application -> int { (a: Application) => if a.note == n then a.amount else 0 }
  function CreditTo(i: nat): Application -> int { (a: Application) => if a.invoice == i then a.amount else 0 }

  predicate PaymentOk(st: State, p: nat)
    requires p < |st.payments|
  {
    var pay := st.payments[p];
    pay.unapplied >= 0 && pay.amount == pay.unapplied + SumBy(st.allocations, FromPayment(p))
  }

  predicate InvoiceOk(st: State, i: nat)
    requires i < |st.invoices|
  {
    var inv := st.invoices[i];
    && inv.amountPaid == SumBy(st.allocations, ToInvoice(i))
    && 0 <= inv.amountDue <= inv.total - inv.amountPaid
    && inv.amountPaid >= 0
    && (SumBy(st.applications, CreditTo(i)) == 0 ==> inv.amountDue == inv.total - inv.amountPaid)
  }

  predicate NoteOk(st: State, n: nat)
    requires n < |st.notes|
  {
    var note := st.notes[n];
    && note.unapplied >= 0 && note.total == note.unapplied + SumBy(st.applications, FromNote(n))
    && (note.status == NoteDraft || note.status == NoteApproved ==> note.unapplied == note.total)
  }

  /** Every allocation and application names documents that exist. */
  predicate TrailOk(st: State) {
    && (forall k :: 0 <= k < |st.allocations| ==> st.allocations[k].payment < |st.payments| && st.allocations[k].invoice < |st.invoices|)
    && (forall k :: 0 <= k < |st.applications| ==> st.applications[k].note < |st.notes| && st.applications[k].invoice < |st.invoices|)
  }

  predicate Conserved(st: State) {
    && (forall p :: 0 <= p < |st.payments| ==> PaymentOk(st, p))
    && (forall i :: 0 <= i < |st.invoices| ==> InvoiceOk(st, i))
    && (forall n :: 0 <= n < |st.notes| ==> NoteOk(st, n))
    && TrailOk(st)
  }

  /** A document created now has no allocation or application yet. */
  lemma NewDocumentUntouched(st: State)
    requires TrailOk(st)
    ensures SumBy(st.allocations, FromPayment(|st.payments|)) == 0
    ensures SumBy(st.allocations, ToInvoice(|st.invoices|)) == 0
    ensures SumBy(st.applications, FromNote(|st.notes|)) == 0
  {
    SumZero(st.allocations, FromPayment(|st.payments|));
    SumZero(st.allocations, ToInvoice(|st.invoices|));
    SumZero(st.applications, FromNote(|st.notes|));
  }

  lemma {:induction false} TotalIsNonNegative(lines: seq<CalculatedLine>)
    ensures InvoiceTotal(lines) >= 0
  {
    SumNonNegative(Lines(lines), Gross());
  }

  /** A change that leaves the trail alone and each old document's figures as they were keeps everything conserved. */
  lemma FiguresKeptMeansConserved(st: State, t: State)
    requires Conserved(st) && t.allocations == st.allocations && t.applications == st.applications
    requires |t.payments| == |st.payments| && |t.invoices| == |st.invoices| && |t.notes| == |st.notes|
    requires forall p :: 0 <= p < |st.payments| ==> t.payments[p].amount == st.payments[p].amount && t.payments[p].unapplied == st.payments[p].unapplied
    requires forall i :: 0 <= i < |st.invoices| ==>
                           t.invoices[i].amountPaid == st.invoices[i].amountPaid
                           && (|| (t.invoices[i].total == st.invoices[i].total && t.invoices[i].amountDue == st.invoices[i].amountDue)
                               || 0 <= t.invoices[i].amountDue == t.invoices[i].total - t.invoices[i].amountPaid)
    requires forall n :: 0 <= n < |st.notes| ==> (t.notes[n].total == st.notes[n].total && t.notes[n].unapplied == st.notes[n].unapplied)
    requires forall n :: 0 <= n < |st.notes| ==> (st.notes[n].status == t.notes[n].status || st.notes[n].unapplied == st.notes[n].total)
    ensures Conserved(t)
  {
    forall p | 0 <= p < |t.payments| ensures PaymentOk(t, p) { assert PaymentOk(st, p); }
    forall i | 0 <= i < |t.invoices| ensures InvoiceOk(t, i) { assert InvoiceOk(st, i); }
    forall n | 0 <= n < |t.notes| ensures NoteOk(t, n) { assert NoteOk(st, n); }
  }

  lemma NewDocumentKeeps(st: State, cfg: Settings, op: Op)
    requires Conserved(st) && (op.NewInvoice? || op.NewPayment? || op.NewNote?)
    ensures Conserved(Next(st, cfg, op))
  {
    var t := Next(st, cfg, op);
    NewDocumentUntouched(st);
    if op.NewInvoice? || op.NewNote? { TotalIsNonNegative(op.lines); }
    forall p | 0 <= p < |t.payments| ensures PaymentOk(t, p) { assert p < |st.payments| ==> PaymentOk(st, p); }
    forall i | 0 <= i < |t.invoices| ensures InvoiceOk(t, i) { assert i < |st.invoices| ==> InvoiceOk(st, i); }
    forall n | 0 <= n < |t.notes| ensures NoteOk(t, n) { assert n < |st.notes| ==> NoteOk(st, n); }
  }

  lemma AllocateKeeps(st: State, p: nat, i: nat, amount: pos)
    requires Conserved(st) && Allocate(st, p, i, amount).Ok?
    ensures Conserved(Allocate(st, p, i, amount).value)
  {
    var t, a := Allocate(st, p, i, amount).value, Allocation(p, i, amount);
    forall q | 0 <= q < |t.payments|
      ensures PaymentOk(t, q)
    {
      assert PaymentOk(st, q);
      SumSnoc(st.allocations, a, FromPayment(q));
    }
    forall k | 0 <= k < |t.invoices|
      ensures InvoiceOk(t, k)
    {
      assert InvoiceOk(st, k);
      SumSnoc(st.allocations, a, ToInvoice(k));
    }
    forall n | 0 <= n < |t.notes| ensures NoteOk(t, n) { assert NoteOk(st, n); }
  }

  lemma ApplyKeeps(st: State, n: nat, i: nat, amount: pos)
    requires Conserved(st) && Apply(st, n, i, amount).Ok?
    ensures Conserved(Apply(st, n, i, amount).value)
  {
    var t, a := Apply(st, n, i, amount).value, Application(n, i, amount);
    forall p | 0 <= p < |t.payments| ensures PaymentOk(t, p) { assert PaymentOk(st, p); }
    forall k | 0 <= k < |t.invoices|
      ensures InvoiceOk(t, k)
    {
      assert InvoiceOk(st, k);
      SumSnoc(st.applications, a, CreditTo(k));
      SumNonNegative(st.applications, CreditTo(k));
    }
    forall m | 0 <= m < |t.notes|
      ensures NoteOk(t, m)
    {
      assert NoteOk(st, m);
      SumSnoc(st.applications, a, FromNote(m));
    }
  }

  /** Requests that neither add a document nor spend one. */
  predicate KeepsFigures(op: Op) {
    !(op.AllocatePayment? || op.ApplyCredit? || op.NewInvoice? || op.NewPayment? || op.NewNote?)
  }

  lemma OtherStepKeepsConserved(st: State, cfg: Settings, op: Op)
    requires Conserved(st) && Step(st, cfg, op).Ok? && KeepsFigures(op)
    ensures Conserved(Step(st, cfg, op).value)
  {
    assert op.Post? ==> InvoiceOk(st, op.invoice);
    assert op.PostCredit? || op.ApproveCredit? ==> NoteOk(st, op.note);
    FiguresKeptMeansConserved(st, Step(st, cfg, op).value);
  }

  lemma StepKeepsConserved(st: State, cfg: Settings, op: Op)
    requires Conserved(st)
    ensures Conserved(Next(st, cfg, op))
  {
    if Step(st, cfg, op).Err? {
      FiguresKeptMeansConserved(st, Next(st, cfg, op));
    } else if KeepsFigures(op) {
      OtherStepKeepsConserved(st, cfg, op);
    } else if op.AllocatePayment? {
      AllocateKeeps(st, op.payment, op.invoice, op.amount);
    } else if op.ApplyCredit? {
      ApplyKeeps(st, op.note, op.invoice, op.amount);
    } else {
      NewDocumentKeeps(st, cfg, op);
    }
  }

  lemma {:induction false} RunKeepsConserved(st: State, cfg: Settings, ops: seq<Op>)
    requires Conserved(st)
    ensures Conserved(Run(st, cfg, ops))
  {
    if |ops| > 0 {
      RunKeepsConserved(st, cfg, ops[..|ops| - 1]);
      StepKeepsConserved(Run(st, cfg, ops[..|ops| - 1]), cfg, ops[|ops| - 1]);
    }
  }

  function NoDocuments(books: Books): State {
    State(books, [], [], [], [], [])
  }

  /**
   In every run, a payment is what is left of it plus its allocations, an invoice's paid amount is
   its allocations, a credit note is what is left of it plus what was applied, nothing is
   over-spent, and the amount due lies between zero and total less paid; with no credit applied it
   is exactly that difference.
   */
  lemma AllocationConservation(books: Books, cfg: Settings, ops: seq<Op>, p: nat, i: nat, n: nat)
    ensures var st := Run(NoDocuments(books), cfg, ops);
            && (p < |st.payments| ==>
                  st.payments[p].unapplied >= 0 && st.payments[p].amount == st.payments[p].unapplied + SumBy(st.allocations, FromPayment(p)))
            && (i < |st.invoices| ==>
                  && st.invoices[i].amountPaid == SumBy(st.allocations, ToInvoice(i))
                  && 0 <= st.invoices[i].amountDue <= st.invoices[i].total - st.invoices[i].amountPaid
                  && (SumBy(st.applications, CreditTo(i)) == 0 ==> st.invoices[i].amountDue == st.invoices[i].total - st.invoices[i].amountPaid))
            && (n < |st.notes| ==>
                  st.notes[n].unapplied >= 0 && st.notes[n].total == st.notes[n].unapplied + SumBy(st.applications, FromNote(n)))
  {
    RunKeepsConserved(NoDocuments(books), cfg, ops);
    var st := Run(NoDocuments(books), cfg, ops);
    assert p < |st.payments| ==> PaymentOk(st, p);
    assert i < |st.invoices| ==> InvoiceOk(st, i);
    assert n < |st.notes| ==> NoteOk(st, n);
  }
}
