/** The receivables services: posting invoices, payments and credit notes, allocating, applying, and listing what is open. */
module ReceivablesServices {
  import opened Wrappers
  import opened Sums
  import opened DocumentJournals
  import opened BooksModel
  import opened ReceivablesModel
  import opened ReceivablesConservation
  import opened Session
  import L = LedgerModel
  import LedgerServices
  import PostingServices

  /** add_item with _recalc: the totals are recomputed from all lines. */
  method AddItem(db: Session, i: nat, line: CalculatedLine) returns (r: Outcome)
    modifies db`invoices
    ensures Agrees(old(db.Receivables()), AddInvoiceLine(old(db.Receivables()), i, line), r, db.Receivables())
  {
    if i >= |db.invoices| {
      return Refused(DocumentNotFound);
    }
    var inv := db.invoices[i];
    if inv.status != InvoiceDraft {
      return Refused(WrongStatus);
    }
    if !L.Usable(db.accounts, line.account) {
      return Refused(InvalidAccount);
    }
    var lines := inv.lines + [line];
    var total := 0;
    for k := 0 to |lines|
      invariant db.invoices == old(db.invoices)
      invariant total == SumBy(Lines(lines)[..k], Gross())
    {
      SumPrefix(Lines(lines), k, Gross());
      total := total + lines[k].gross;
    }
    assert Lines(lines)[..|lines|] == Lines(lines);
    if total - inv.amountPaid < 0 {
      return Refused(ConstraintViolation);
    }
    db.invoices := db.invoices[i := inv.(lines := lines, total := total, amountDue := total - inv.amountPaid)];
    r := Done;
  }

  method MarkInvoicePosted(db: Session, i: nat, journal: nat)
    requires i < |db.invoices|
    modifies db`invoices
    ensures db.invoices == old(db.invoices)[i := PostedInvoice(old(db.invoices)[i], journal)]
  {
    var inv := db.invoices[i];
    var due := inv.total - inv.amountPaid;
    db.invoices := db.invoices[i := inv.(postedJournal := Some(journal), amountDue := due, status := if due > 0 then InvoiceSent else Paid)];
  }

  /** InvoicePostingService.post */
  method PostInvoiceService(db: Session, i: nat, customerActive: bool) returns (r: Outcome)
    modifies db`invoices, db`stock, db`movements, db`journals, db`balances, db`periodBalances
    ensures Agrees(old(db.Receivables()), PostInvoice(old(db.Receivables()), db.settings, i, customerActive), r, db.Receivables())
  {
    if i >= |db.invoices| {
      return Refused(DocumentNotFound);
    }
    var inv := db.invoices[i];
    if inv.status != InvoiceApproved && inv.status != InvoiceSent {
      return Refused(WrongStatus);
    }
    if inv.postedJournal.Some? {
      return Refused(AlreadyPosted);
    }
    if !customerActive {
      return Refused(InactiveCustomer);
    }
    var journal := |db.journals|;
    r := PostingServices.PostInvoiceDocument(db, Document(i, inv.date, Lines(inv.lines), inv.total));
    if r.Done? {
      MarkInvoicePosted(db, i, journal);
    }
  }

  method PostCustomerPayment(db: Session, p: nat) returns (r: Outcome)
    modifies db`payments, db`journals, db`balances, db`periodBalances
    ensures Agrees(old(db.Receivables()), PostPayment(old(db.Receivables()), db.settings, p), r, db.Receivables())
    ensures r.Done? ==>
              var pay := old(db.payments)[p];
              && (pay.deposit.Some? || db.settings.receipts.Some?) && |db.journals| == |old(db.journals)| + 1
              && db.journals[|old(db.journals)|].lines
                 == [L.Line(if pay.deposit.Some? then pay.deposit.value else db.settings.receipts.value, pay.amount, 0),
                     L.Line(db.settings.receivable, 0, pay.amount)]
  {
    if p >= |db.payments| {
      return Refused(DocumentNotFound);
    }
    var payment := db.payments[p];
    if payment.status != PaymentDraft {
      return Refused(WrongStatus);
    }
    if !db.settings.configured {
      return Refused(MissingSettings);
    }
    var deposit := if payment.deposit.Some? then payment.deposit else db.settings.receipts;
    if deposit.None? {
      return Refused(MissingAccount);
    }
    var lines := [L.Line(deposit.value, payment.amount, 0), L.Line(db.settings.receivable, 0, payment.amount)];
    var posted := LedgerServices.CreateAndPostEntry(db, payment.date, lines);
    if posted.Err? {
      return Refused(posted.error);
    }
    db.payments := db.payments[p := payment.(status := PaymentPosted, postedJournal := Some(posted.value))];
    r := Done;
  }

  method PostCreditNote(db: Session, n: nat) returns (r: Outcome)
    modifies db`notes, db`journals, db`balances, db`periodBalances
    ensures Agrees(old(db.Receivables()), PostNote(old(db.Receivables()), db.settings, n), r, db.Receivables())
  {
    if n >= |db.notes| {
      return Refused(DocumentNotFound);
    }
    var note := db.notes[n];
    if note.status != NoteApproved {
      return Refused(WrongStatus);
    }
    if note.postedJournal.Some? {
      return Refused(AlreadyPosted);
    }
    if !db.settings.configured {
      return Refused(MissingSettings);
    }
    if |note.lines| == 0 {
      return Refused(NoLines);
    }
    var tax := PostingServices.TaxTotal(Lines(note.lines));
    var taxAccount := TaxAccount(db.settings.outputTax, tax);
    if taxAccount.Err? {
      return Refused(taxAccount.error);
    }
    var journal := PostingServices.BuildChargeJournal(db.settings.receivable, taxAccount.value, note.total, Lines(note.lines));
    var posted := LedgerServices.CreateAndPostEntry(db, note.date, journal);
    if posted.Err? {
      return Refused(posted.error);
    }
    db.notes := db.notes[n := note.(status := NotePosted, unapplied := note.total, postedJournal := Some(posted.value))];
    r := Done;
  }

  /** PaymentAllocationService.allocate: the amount due is recomputed from total and paid, whatever credit had lowered it. */
  method AllocateToInvoice(db: Session, p: nat, i: nat, amount: pos) returns (r: Outcome)
    modifies db`payments, db`invoices, db`allocations
    ensures Agrees(old(db.Receivables()), Allocate(old(db.Receivables()), p, i, amount), r, db.Receivables())
    ensures old(Conserved(db.Receivables())) ==> Conserved(db.Receivables())
  {
    ghost var st := db.Receivables();
    if p >= |db.payments| || i >= |db.invoices| {
      return Refused(DocumentNotFound);
    }
    if db.payments[p].customer != db.invoices[i].customer {
      return Refused(CustomerMismatch);
    }
    if amount > db.payments[p].unapplied {
      return Refused(OverAllocated);
    }
    if amount > db.invoices[i].amountDue {
      return Refused(ExceedsDue);
    }
    db.allocations := db.allocations + [Allocation(p, i, amount)];
    db.payments := db.payments[p := db.payments[p].(unapplied := db.payments[p].unapplied - amount)];
    db.invoices := db.invoices[i := db.invoices[i].(amountPaid := db.invoices[i].amountPaid + amount)];
    db.invoices := db.invoices[i := db.invoices[i].(amountDue := db.invoices[i].total - db.invoices[i].amountPaid)];
    if db.invoices[i].amountDue == 0 {
      db.invoices := db.invoices[i := db.invoices[i].(status := Paid)];
    } else if db.invoices[i].amountPaid > 0 {
      db.invoices := db.invoices[i := db.invoices[i].(status := PartiallyPaid)];
    }
    if Conserved(st) {
      AllocateKeeps(st, p, i, amount);
    }
    r := Done;
  }

  /** CreditNoteService.apply: the amount due is clamped at zero. */
  method ApplyCreditNote(db: Session, n: nat, i: nat, amount: pos) returns (r: Outcome)
    modifies db`notes, db`invoices, db`applications
    ensures Agrees(old(db.Receivables()), Apply(old(db.Receivables()), n, i, amount), r, db.Receivables())
    ensures old(Conserved(db.Receivables())) ==> Conserved(db.Receivables())
  {
    ghost var st := db.Receivables();
    if n >= |db.notes| || i >= |db.invoices| {
      return Refused(DocumentNotFound);
    }
    if db.notes[n].status != NotePosted && db.notes[n].status != NoteApplied {
      return Refused(WrongStatus);
    }
    if amount > db.notes[n].unapplied {
      return Refused(OverAllocated);
    }
    db.applications := db.applications + [Application(n, i, amount)];
    db.notes := db.notes[n := db.notes[n].(unapplied := db.notes[n].unapplied - amount)];
    var due := if db.invoices[i].amountDue - amount < 0 then 0 else db.invoices[i].amountDue - amount;
    db.invoices := db.invoices[i := db.invoices[i].(amountDue := due)];
    if due == 0 {
      db.invoices := db.invoices[i := db.invoices[i].(status := Paid)];
    }
    if db.notes[n].unapplied < db.notes[n].total {
      db.notes := db.notes[n := db.notes[n].(status := NoteApplied)];
    }
    if Conserved(st) {
      ApplyKeeps(st, n, i, amount);
    }
    r := Done;
  }

  // ---------- Open items ----------

  datatype DocumentType = InvoiceDocument | NoteDocument | PaymentDocument
  datatype OpenItem = OpenItem(document: DocumentType, id: nat, due: int)

  function Due(): OpenItem -> int {
    (item: OpenItem) => item.due
  }

  function OpenInvoices(invoices: seq<Invoice>): seq<OpenItem> {
    if |invoices| == 0 then []
    else
      var n := |invoices| - 1;
      var due := OpenInvoice()(invoices[n]);
      OpenInvoices(invoices[..n]) + (if due != 0 then [OpenItem(InvoiceDocument, n, due)] else [])
  }

  function OpenNotes(notes: seq<Note>): seq<OpenItem> {
    if |notes| == 0 then []
    else
      var n := |notes| - 1;
      var due := OpenNote()(notes[n]);
      OpenNotes(notes[..n]) + (if due != 0 then [OpenItem(NoteDocument, n, due)] else [])
  }

  function OpenPayments(payments: seq<Payment>): seq<OpenItem> {
    if |payments| == 0 then []
    else
      var n := |payments| - 1;
      var due := OpenPayment()(payments[n]);
      OpenPayments(payments[..n]) + (if due != 0 then [OpenItem(PaymentDocument, n, due)] else [])
  }

  lemma OneMoreItem(items: seq<OpenItem>, item: OpenItem)
    ensures SumBy(items + (if item.due != 0 then [item] else []), Due()) == SumBy(items, Due()) + item.due
  {
    if item.due != 0 {
      SumSnoc(items, item, Due());
    } else {
      assert items + [] == items;
    }
  }

  lemma {:induction false} OpenInvoicesSum(invoices: seq<Invoice>)
    ensures SumBy(OpenInvoices(invoices), Due()) == SumBy(invoices, OpenInvoice())
  {
    if |invoices| > 0 {
      var n := |invoices| - 1;
      OpenInvoicesSum(invoices[..n]);
      OneMoreItem(OpenInvoices(invoices[..n]), OpenItem(InvoiceDocument, n, OpenInvoice()(invoices[n])));
    }
  }

  lemma {:induction false} OpenNotesSum(notes: seq<Note>)
    ensures SumBy(OpenNotes(notes), Due()) == SumBy(notes, OpenNote())
  {
    if |notes| > 0 {
      var n := |notes| - 1;
      OpenNotesSum(notes[..n]);
      OneMoreItem(OpenNotes(notes[..n]), OpenItem(NoteDocument, n, OpenNote()(notes[n])));
    }
  }

  lemma {:induction false} OpenPaymentsSum(payments: seq<Payment>)
    ensures SumBy(OpenPayments(payments), Due()) == SumBy(payments, OpenPayment())
  {
    if |payments| > 0 {
      var n := |payments| - 1;
      OpenPaymentsSum(payments[..n]);
      OneMoreItem(OpenPayments(payments[..n]), OpenItem(PaymentDocument, n, OpenPayment()(payments[n])));
    }
  }

  method ListOpenInvoices(invoices: seq<Invoice>) returns (items: seq<OpenItem>)
    ensures items == OpenInvoices(invoices)
  {
    items := [];
    for i := 0 to |invoices|
      invariant items == OpenInvoices(invoices[..i])
    {
      assert invoices[..i + 1][..i] == invoices[..i];
      if invoices[i].amountDue > 0 && invoices[i].postedJournal.Some? {
        items := items + [OpenItem(InvoiceDocument, i, invoices[i].amountDue)];
      }
    }
    assert invoices[..|invoices|] == invoices;
  }

  method ListOpenNotes(notes: seq<Note>) returns (items: seq<OpenItem>)
    ensures items == OpenNotes(notes)
  {
    items := [];
    for n := 0 to |notes|
      invariant items == OpenNotes(notes[..n])
    {
      assert notes[..n + 1][..n] == notes[..n];
      if notes[n].unapplied > 0 && notes[n].postedJournal.Some? {
        items := items + [OpenItem(NoteDocument, n, -notes[n].unapplied)];
      }
    }
    assert notes[..|notes|] == notes;
  }

  method ListOpenPayments(payments: seq<Payment>) returns (items: seq<OpenItem>)
    ensures items == OpenPayments(payments)
  {
    items := [];
    for p := 0 to |payments|
      invariant items == OpenPayments(payments[..p])
    {
      assert payments[..p + 1][..p] == payments[..p];
      if payments[p].unapplied > 0 && payments[p].postedJournal.Some? {
        items := items + [OpenItem(PaymentDocument, p, -payments[p].unapplied)];
      }
    }
    assert payments[..|payments|] == payments;
  }

  /** open_items: three passes over the posted documents that still have something on them. */
  method OpenItems(db: Session) returns (items: seq<OpenItem>)
    ensures items == OpenInvoices(db.invoices) + OpenNotes(db.notes) + OpenPayments(db.payments)
    ensures SumBy(items, Due()) == OpenTotal(db.Receivables())
  {
    var invoices := ListOpenInvoices(db.invoices);
    var notes := ListOpenNotes(db.notes);
    var payments := ListOpenPayments(db.payments);
    items := invoices + notes + payments;
    OpenInvoicesSum(db.invoices);
    OpenNotesSum(db.notes);
    OpenPaymentsSum(db.payments);
    SumConcat(OpenInvoices(db.invoices), OpenNotes(db.notes), Due());
    SumConcat(OpenInvoices(db.invoices) + OpenNotes(db.notes), OpenPayments(db.payments), Due());
  }
}
