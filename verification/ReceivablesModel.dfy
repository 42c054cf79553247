/**
 Receivables: invoices, customer payments, credit notes, the allocations and credit applications
 between them, and the posting of each into the books.
 */
module ReceivablesModel {
  import opened Wrappers
  import opened Sums
  import opened Rounding
  import opened DocumentJournals
  import opened BooksModel
  import L = LedgerModel

  datatype InvoiceStatus = InvoiceDraft | InvoiceApproved | InvoiceSent | PartiallyPaid | Paid
  datatype NoteStatus = NoteDraft | NoteApproved | NotePosted | NoteApplied
  datatype PaymentStatus = PaymentDraft | PaymentPosted

  datatype Invoice = Invoice(
    customer: nat, status: InvoiceStatus, date: int, lines: seq<CalculatedLine>,
    total: int, amountPaid: int, amountDue: int, postedJournal: Option<nat>)

  datatype Note = Note(
    customer: nat, status: NoteStatus, date: int, lines: seq<CalculatedLine>,
    total: int, unapplied: int, postedJournal: Option<nat>)

  datatype Payment = Payment(
    customer: nat, status: PaymentStatus, date: int, amount: pos, unapplied: int, deposit: Option<nat>, postedJournal: Option<nat>)

  datatype Allocation = Allocation(payment: nat, invoice: nat, amount: pos)

  /** The audit trail's record of a credit application, with its amount. */
  datatype Application = Application(note: nat, invoice: nat, amount: pos)

  datatype State = State(
    books: Books, invoices: seq<Invoice>, notes: seq<Note>, payments: seq<Payment>,
    allocations: seq<Allocation>, applications: seq<Application>)

  // ---------- Invoices ----------

  function InvoiceTotal(lines: seq<CalculatedLine>): int {
    CalculateHeader(Lines(lines)).total
  }

  predicate AccountsUsable(st: State, lines: seq<CalculatedLine>) {
    forall l :: l in lines ==> L.Usable(st.books.ledger.accounts, l.account)
  }

  function CreateInvoice(st: State, customer: nat, date: int, lines: seq<CalculatedLine>): Result<State> {
    var total := InvoiceTotal(lines);
    if !AccountsUsable(st, lines) then Err(InvalidAccount)
    else Ok(st.(invoices := st.invoices + [Invoice(customer, InvoiceDraft, date, lines, total, 0, total, None)]))
  }

  /** add_item followed by _recalc; the check constraint keeps the amount due from going negative. */
  function AddInvoiceLine(st: State, i: nat, line: CalculatedLine): Result<State> {
    if i >= |st.invoices| then Err(DocumentNotFound)
    else
      var inv := st.invoices[i];
      var lines := inv.lines + [line];
      var total := InvoiceTotal(lines);
      if inv.status != InvoiceDraft then Err(WrongStatus)
      else if !L.Usable(st.books.ledger.accounts, line.account) then Err(InvalidAccount)
      else if total - inv.amountPaid < 0 then Err(ConstraintViolation)
      else Ok(st.(invoices := st.invoices[i := inv.(lines := lines, total := total, amountDue := total - inv.amountPaid)]))
  }

  function ApproveInvoice(st: State, i: nat): Result<State> {
    if i >= |st.invoices| then Err(DocumentNotFound)
    else if st.invoices[i].status != InvoiceDraft then Err(WrongStatus)
    else if |st.invoices[i].lines| == 0 then Err(NoLines)
    else Ok(st.(invoices := st.invoices[i := st.invoices[i].(status := InvoiceApproved)]))
  }

  function SendInvoice(st: State, i: nat): Result<State> {
    if i >= |st.invoices| then Err(DocumentNotFound)
    else if st.invoices[i].status != InvoiceApproved && st.invoices[i].status != InvoiceSent then Err(WrongStatus)
    else Ok(st.(invoices := st.invoices[i := st.invoices[i].(status := InvoiceSent)]))
  }

  function PostedInvoice(inv: Invoice, journal: nat): Invoice {
    var due := inv.total - inv.amountPaid;
    inv.(postedJournal := Some(journal), amountDue := due, status := if due > 0 then InvoiceSent else Paid)
  }

  function PostInvoice(st: State, cfg: Settings, i: nat, customerActive: bool): Result<State> {
    if i >= |st.invoices| then Err(DocumentNotFound)
    else
      var inv := st.invoices[i];
      if inv.status != InvoiceApproved && inv.status != InvoiceSent then Err(WrongStatus)
      else if inv.postedJournal.Some? then Err(AlreadyPosted)
      else if !customerActive then Err(InactiveCustomer)
      else
        var books :- InvoicePosting(st.books, cfg, Document(i, inv.date, Lines(inv.lines), inv.total));
        Ok(st.(books := books, invoices := st.invoices[i := PostedInvoice(inv, |st.books.ledger.journals|)]))
  }

  // ---------- Payments ----------

  function CreatePayment(st: State, customer: nat, date: int, amount: pos, deposit: Option<nat>): Result<State> {
    Ok(st.(payments := st.payments + [Payment(customer, PaymentDraft, date, amount, amount, deposit, None)]))
  }

  function DepositAccount(cfg: Settings, p: Payment): Option<nat> {
    if p.deposit.Some? then p.deposit else cfg.receipts
  }

  function PostPayment(st: State, cfg: Settings, i: nat): Result<State> {
    if i >= |st.payments| then Err(DocumentNotFound)
    else
      var p := st.payments[i];
      if p.status != PaymentDraft then Err(WrongStatus)
      else if !cfg.configured then Err(MissingSettings)
      else if DepositAccount(cfg, p).None? then Err(MissingAccount)
      else
        var ledger :- L.CreateAndPost(st.books.ledger, p.date, PaymentJournal(DepositAccount(cfg, p).value, cfg.receivable, p.amount));
        Ok(st.(books := st.books.(ledger := ledger),
               payments := st.payments[i := p.(status := PaymentPosted, postedJournal := Some(|st.books.ledger.journals|))]))
  }

  function Allocated(inv: Invoice, amount: pos): Invoice {
    var paid := inv.amountPaid + amount;
    var due := inv.total - paid;
    inv.(amountPaid := paid, amountDue := due, status := if due == 0 then Paid else if paid > 0 then PartiallyPaid else inv.status)
  }

  function Allocate(st: State, p: nat, i: nat, amount: pos): Result<State> {
    if p >= |st.payments| || i >= |st.invoices| then Err(DocumentNotFound)
    else if st.payments[p].customer != st.invoices[i].customer then Err(CustomerMismatch)
    else if amount > st.payments[p].unapplied then Err(OverAllocated)
    else if amount > st.invoices[i].amountDue then Err(ExceedsDue)
    else Ok(st.(
              allocations := st.allocations + [Allocation(p, i, amount)],
              payments := st.payments[p := st.payments[p].(unapplied := st.payments[p].unapplied - amount)],
              invoices := st.invoices[i := Allocated(st.invoices[i], amount)]))
  }

  // ---------- Credit notes ----------

  function CreateNote(st: State, customer: nat, date: int, lines: seq<CalculatedLine>): Result<State> {
    var total := InvoiceTotal(lines);
    Ok(st.(notes := st.notes + [Note(customer, NoteDraft, date, lines, total, total, None)]))
  }

  function ApproveNote(st: State, n: nat): Result<State> {
    if n >= |st.notes| then Err(DocumentNotFound)
    else if st.notes[n].status != NoteDraft then Err(WrongStatus)
    else if |st.notes[n].lines| == 0 then Err(NoLines)
    else Ok(st.(notes := st.notes[n := st.notes[n].(status := NoteApproved)]))
  }

  function PostNote(st: State, cfg: Settings, n: nat): Result<State> {
    if n >= |st.notes| then Err(DocumentNotFound)
    else
      var note := st.notes[n];
      if note.status != NoteApproved then Err(WrongStatus)
      else if note.postedJournal.Some? then Err(AlreadyPosted)
      else if !cfg.configured then Err(MissingSettings)
      else if |note.lines| == 0 then Err(NoLines)
      else
        var taxAccount :- TaxAccount(cfg.outputTax, SumBy(Lines(note.lines), Tax()));
        var ledger :- L.CreateAndPost(st.books.ledger, note.date, ChargeJournal(cfg.receivable, taxAccount, note.total, Lines(note.lines)));
        Ok(st.(books := st.books.(ledger := ledger),
               notes := st.notes[n := note.(status := NotePosted, unapplied := note.total, postedJournal := Some(|st.books.ledger.journals|))]))
  }

  function Credited(inv: Invoice, amount: pos): Invoice {
    var due := Max(0, inv.amountDue - amount);
    inv.(amountDue := due, status := if due == 0 then Paid else inv.status)
  }

  function Spent(note: Note, amount: pos): Note {
    var unapplied := note.unapplied - amount;
    note.(unapplied := unapplied, status := if unapplied < note.total then NoteApplied else note.status)
  }

  function Apply(st: State, n: nat, i: nat, amount: pos): Result<State> {
    if n >= |st.notes| || i >= |st.invoices| then Err(DocumentNotFound)
    else if st.notes[n].status != NotePosted && st.notes[n].status != NoteApplied then Err(WrongStatus)
    else if amount > st.notes[n].unapplied then Err(OverAllocated)
    else Ok(st.(
              applications := st.applications + [Application(n, i, amount)],
              notes := st.notes[n := Spent(st.notes[n], amount)],
              invoices := st.invoices[i := Credited(st.invoices[i], amount)]))
  }

  // ---------- Runs ----------

  /** Whether a customer is active is an input of each posting. */
  datatype Op =
    | NewInvoice(customer: nat, date: int, lines: seq<CalculatedLine>)
    | ExtendInvoice(invoice: nat, line: CalculatedLine)
    | Approve(invoice: nat)
    | Send(invoice: nat)
    | Post(invoice: nat, customerActive: bool)
    | NewPayment(customer: nat, date: int, amount: pos, deposit: Option<nat>)
    | PostReceipt(payment: nat)
    | AllocatePayment(payment: nat, invoice: nat, amount: pos)
    | NewNote(customer: nat, date: int, lines: seq<CalculatedLine>)
    | ApproveCredit(note: nat)
    | PostCredit(note: nat)
    | ApplyCredit(note: nat, invoice: nat, amount: pos)
    | Elsewhere(op: BooksOp)

  function Step(st: State, cfg: Settings, op: Op): Result<State> {
    match op
    case NewInvoice(customer, date, lines) => CreateInvoice(st, customer, date, lines)
    case ExtendInvoice(i, line) => AddInvoiceLine(st, i, line)
    case Approve(i) => ApproveInvoice(st, i)
    case Send(i) => SendInvoice(st, i)
    case Post(i, customerActive) => PostInvoice(st, cfg, i, customerActive)
    case NewPayment(customer, date, amount, deposit) => CreatePayment(st, customer, date, amount, deposit)
    case PostReceipt(p) => PostPayment(st, cfg, p)
    case AllocatePayment(p, i, amount) => Allocate(st, p, i, amount)
    case NewNote(customer, date, lines) => CreateNote(st, customer, date, lines)
    case ApproveCredit(n) => ApproveNote(st, n)
    case PostCredit(n) => PostNote(st, cfg, n)
    case ApplyCredit(n, i, amount) => Apply(st, n, i, amount)
    case Elsewhere(o) =>
      var books :- BooksStep(st.books, cfg, o);
      Ok(st.(books := books))
  }

  function Next(st: State, cfg: Settings, op: Op): State {
    match Step(st, cfg, op)
    case Ok(t) => t
    case Err(_) => if op.Elsewhere? then st.(books := Remains(st.books, op.op)) else st
  }

  function Run(st: State, cfg: Settings, ops: seq<Op>): State {
    if |ops| == 0 then st else Next(Run(st, cfg, ops[..|ops| - 1]), cfg, ops[|ops| - 1])
  }

  // ---------- Open items ----------

  function OpenInvoice(): Invoice -> int {
    (inv: Invoice) => if inv.amountDue > 0 && inv.postedJournal.Some? then inv.amountDue else 0
  }

  function OpenNote(): Note -> int {
    (n: Note) => if n.unapplied > 0 && n.postedJournal.Some? then -n.unapplied else 0
  }

  function OpenPayment(): Payment -> int {
    (p: Payment) => if p.unapplied > 0 && p.postedJournal.Some? then -p.unapplied else 0
  }

  function OpenTotal(st: State): int {
    SumBy(st.invoices, OpenInvoice()) + SumBy(st.notes, OpenNote()) + SumBy(st.payments, OpenPayment())
  }
}
