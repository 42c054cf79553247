/**
 The ledger and the inventory as one state, and the requests that move both at once: posting a
 bill, posting an invoice, adjusting stock.
 */
module BooksModel {
  import opened Wrappers
  import opened Sums
  import opened Rounding
  import opened StockModel
  import opened MovementLog
  import opened DocumentJournals
  import L = LedgerModel

  datatype BillStatus = BillDraft | BillApproved | BillPosted | BillPartiallyPaid | BillPaid | BillVoided

  datatype Bill = Bill(
    date: int, lines: seq<CalculatedLine>, total: int, amountPaid: int, amountDue: int,
    status: BillStatus, postedJournal: Option<nat>, voidedJournal: Option<nat>)

  datatype Books = Books(ledger: L.State, inventory: Inventory, bills: seq<Bill>)

  function EmptyBooks(items: seq<Item>, locations: set<nat>): Books {
    Books(L.EMPTY, Inventory(items, locations, map[], []), [])
  }

  datatype Document = Document(id: nat, date: int, lines: seq<DocLine>, total: int)

  datatype AdjustmentKind = OpeningStock | WriteUp | WriteDown

  /** `unitCost` is zero when the request gives none. */
  datatype Adjustment = Adjustment(key: Key, kind: AdjustmentKind, quantity: int, unitCost: int, offset: nat, date: int)

  /** Why a date cannot be posted to, if it cannot. */
  function DateError(periods: seq<L.Period>, date: int): Option<Error> {
    var p := L.ResolveByDate(periods, date);
    if p.None? then Some(NoPeriod)
    else if periods[p.value].status != L.Open then Some(PeriodClosed)
    else None
  }

  /** A tracked bill line always posts to the item's stock account; other lines fall back on the item's expense account. */
  function BillLineAccount(items: seq<Item>, item: Option<nat>, account: Option<nat>): Result<nat> {
    var chosen :=
      if item.None? || item.value >= |items| then account
      else if items[item.value].isTracked then items[item.value].asset
      else if account.None? then items[item.value].expense
      else account;
    if chosen.None? then Err(MissingAccount) else Ok(chosen.value)
  }

  function BillPosting(b: Books, cfg: Settings, bill: Document): Result<Books> {
    if !cfg.configured || cfg.payable.None? then Err(MissingAccount)
    else if |bill.lines| == 0 then Err(NoLines)
    else
      var inventory :- BillMovements(b.inventory, DateError(b.ledger.periods, bill.date), bill.id, bill.lines);
      var taxAccount :- TaxAccount(cfg.inputTax, SumBy(bill.lines, Tax()));
      var ledger :- L.CreateAndPost(b.ledger, bill.date, ChargeJournal(cfg.payable.value, taxAccount, bill.total, bill.lines));
      Ok(b.(ledger := ledger, inventory := inventory))
  }

  function InvoicePosting(b: Books, cfg: Settings, invoice: Document): Result<Books> {
    if !cfg.configured then Err(MissingSettings)
    else if |invoice.lines| == 0 then Err(NoLines)
    else
      var issued :- InvoiceMovements(b.inventory, DateError(b.ledger.periods, invoice.date), invoice.id, invoice.lines);
      var taxAccount :- TaxAccount(cfg.outputTax, SumBy(invoice.lines, Tax()));
      var costs :- CostLines(issued.inventory.items, issued.hooks);
      var ledger :- L.CreateAndPost(b.ledger, invoice.date, InvoiceJournal(cfg.receivable, taxAccount, invoice.total, invoice.lines, costs));
      Ok(b.(ledger := ledger, inventory := issued.inventory))
  }

  function AdjustmentMovement(adj: Adjustment): MovementType {
    if adj.kind == OpeningStock then Opening
    else if adj.quantity > 0 then AdjustmentIn
    else AdjustmentOut
  }

  function AdjustmentCost(inv: Inventory, item: Item, adj: Adjustment): Result<int> {
    if adj.quantity > 0 then
      var cost := if adj.unitCost != 0 then adj.unitCost else item.purchasePrice;
      if cost <= 0 then Err(UnitCostRequired) else Ok(cost)
    else
      var cost := if adj.unitCost != 0 then adj.unitCost else OnHand(inv.stock, adj.key).average;
      if cost < 0 then Err(NegativeUnitCost) else Ok(cost)
  }

  function AdjustmentRequest(adj: Adjustment, cost: int): Request {
    Request(adj.key, AdjustmentMovement(adj), FromAdjustment, adj.quantity, cost, None)
  }

  function AdjustmentPosting(b: Books, adj: Adjustment): Result<Books> {
    var inv := b.inventory;
    if adj.key.item >= |inv.items| then Err(ItemNotFound)
    else
      var item := inv.items[adj.key.item];
      if !item.isTracked then Err(NotTracked)
      else if item.asset.None? then Err(MissingAccount)
      else if adj.quantity == 0 then Err(ZeroQuantity)
      else if !L.Usable(b.ledger.accounts, adj.offset) then Err(InvalidAccount)
      else
        var cost :- AdjustmentCost(inv, item, adj);
        var inventory :- Record(inv, DateError(b.ledger.periods, adj.date), AdjustmentRequest(adj, cost));
        var moved := Abs(inventory.log[|inventory.log| - 1].totalCost);
        var ledger :- L.CreateAndPost(b.ledger, adj.date, AdjustmentJournal(item.asset.value, adj.offset, adj.quantity, moved));
        Ok(b.(ledger := ledger, inventory := inventory))
  }

  // ---------- Bills ----------

  /** A requested bill line, with what the tax calculation makes of its price. */
  datatype LineRequest = LineRequest(item: Option<nat>, location: Option<nat>, quantity: pos, account: Option<nat>, taxable: nat, tax: nat)

  function ResolveBillLine(b: Books, r: LineRequest): Result<CalculatedLine> {
    if ItemError(b.inventory.items, r.item).Some? then Err(ItemError(b.inventory.items, r.item).value)
    else
      var account :- BillLineAccount(b.inventory.items, r.item, r.account);
      if !L.Usable(b.ledger.accounts, account) then Err(InvalidAccount)
      else Ok(DocLine(r.item, r.location, r.quantity, account, r.taxable, r.taxable, r.tax, r.taxable + r.tax))
  }

  function ResolveBillLines(b: Books, requests: seq<LineRequest>): Result<seq<CalculatedLine>> {
    if |requests| == 0 then Ok([])
    else
      var earlier :- ResolveBillLines(b, requests[..|requests| - 1]);
      var line :- ResolveBillLine(b, requests[|requests| - 1]);
      Ok(earlier + [line])
  }

  function CreateBill(b: Books, date: int, due: int, supplierKnown: bool, requests: seq<LineRequest>): Result<Books> {
    if due < date then Err(DueBeforeIssue)
    else if !supplierKnown then Err(SupplierNotFound)
    else
      var lines :- ResolveBillLines(b, requests);
      var total := CalculateHeader(Lines(lines)).total;
      Ok(b.(bills := b.bills + [Bill(date, lines, total, 0, total, BillDraft, None, None)]))
  }

  function ApproveBill(b: Books, i: nat): Result<Books> {
    if i >= |b.bills| then Err(DocumentNotFound)
    else if b.bills[i].status != BillDraft then Err(WrongStatus)
    else if |b.bills[i].lines| == 0 then Err(NoLines)
    else Ok(b.(bills := b.bills[i := b.bills[i].(status := BillApproved)]))
  }

  function BillDocument(b: Books, i: nat): Document
    requires i < |b.bills|
  {
    Document(i, b.bills[i].date, Lines(b.bills[i].lines), b.bills[i].total)
  }

  function PostedBill(bill: Bill, journal: nat): Bill {
    var due := bill.total - bill.amountPaid;
    bill.(postedJournal := Some(journal), amountDue := due, status := if due > 0 then BillPosted else BillPaid)
  }

  function PostBill(b: Books, cfg: Settings, i: nat, supplierActive: bool): Result<Books> {
    if i >= |b.bills| then Err(DocumentNotFound)
    else if b.bills[i].status != BillApproved then Err(WrongStatus)
    else if b.bills[i].postedJournal.Some? then Err(AlreadyPosted)
    else if !supplierActive then Err(InactiveSupplier)
    else
      var t :- BillPosting(b, cfg, BillDocument(b, i));
      Ok(t.(bills := b.bills[i := PostedBill(b.bills[i], |b.ledger.journals|)]))
  }

  /** What a supplier payment's allocation does to the bill. */
  function SettledBill(bill: Bill, amount: pos): Bill {
    var paid := bill.amountPaid + amount;
    var due := bill.total - paid;
    bill.(amountPaid := paid, amountDue := due, status := if due == 0 then BillPaid else if paid > 0 then BillPartiallyPaid else bill.status)
  }

  function SettleBill(b: Books, i: nat, amount: pos): Result<Books> {
    if i >= |b.bills| then Err(DocumentNotFound)
    else if amount > b.bills[i].amountDue then Err(ExceedsDue)
    else Ok(b.(bills := b.bills[i := SettledBill(b.bills[i], amount)]))
  }

  /** The journal is reversed first; `listed` is the order in which the query returns the bill's movements. */
  function VoidBill(b: Books, i: nat, listed: seq<nat>): Result<Books> {
    if i >= |b.bills| then Err(DocumentNotFound)
    else
      var bill := b.bills[i];
      if bill.amountPaid > 0 then Err(HasPayments)
      else if bill.postedJournal.Some? && bill.voidedJournal.None? then
        var ledger :- L.Reverse(b.ledger, bill.postedJournal.value, bill.date);
        var inventory :- ReverseDocument(b.inventory, DateError(b.ledger.periods, bill.date), FromBill(i), listed);
        Ok(Books(ledger, inventory, b.bills[i := bill.(status := BillVoided, voidedJournal := Some(|b.ledger.journals|))]))
      else Ok(b.(bills := b.bills[i := bill.(status := BillVoided)]))
  }

  /**
   What a refused void leaves behind. Reversing the journal commits on its own before any stock is
   reversed, so a void whose stock cannot be taken back leaves its journal reversed, and the stock
   and the bill as they were.
   */
  function VoidRemains(b: Books, i: nat): Books {
    if i < |b.bills| && b.bills[i].amountPaid <= 0 && b.bills[i].postedJournal.Some? && b.bills[i].voidedJournal.None? then
      match L.Reverse(b.ledger, b.bills[i].postedJournal.value, b.bills[i].date)
      case Ok(ledger) => b.(ledger := ledger)
      case Err(_) => b
    else b
  }

  // ---------- Runs ----------

  /** What the supplier table and the order of queries contribute are inputs of each request. */
  datatype BooksOp =
    | NewBillOp(date: int, due: int, supplierKnown: bool, requests: seq<LineRequest>)
    | ApproveBillOp(bill: nat)
    | BillOp(bill: nat, supplierActive: bool)
    | SettleBillOp(bill: nat, amount: pos)
    | VoidBillOp(bill: nat, listed: seq<nat>)
    | InvoiceOp(invoice: Document)
    | AdjustOp(adjustment: Adjustment)
    | LedgerOp(op: L.Op)

  function BooksStep(b: Books, cfg: Settings, op: BooksOp): Result<Books> {
    match op
    case NewBillOp(date, due, known, requests) => CreateBill(b, date, due, known, requests)
    case ApproveBillOp(i) => ApproveBill(b, i)
    case BillOp(i, supplierActive) => PostBill(b, cfg, i, supplierActive)
    case SettleBillOp(i, amount) => SettleBill(b, i, amount)
    case VoidBillOp(i, listed) => VoidBill(b, i, listed)
    case InvoiceOp(invoice) => InvoicePosting(b, cfg, invoice)
    case AdjustOp(adj) => AdjustmentPosting(b, adj)
    case LedgerOp(o) =>
      var ledger :- L.Step(b.ledger, o);
      Ok(b.(ledger := ledger))
  }

  /** What a refused request leaves: nothing but, for a void, what it had committed. */
  function Remains(b: Books, op: BooksOp): Books {
    if op.VoidBillOp? then VoidRemains(b, op.bill) else b
  }

  function BooksNext(b: Books, cfg: Settings, op: BooksOp): Books {
    match BooksStep(b, cfg, op)
    case Ok(t) => t
    case Err(_) => Remains(b, op)
  }

  function BooksRun(b: Books, cfg: Settings, ops: seq<BooksOp>): Books {
    if |ops| == 0 then b else BooksNext(BooksRun(b, cfg, ops[..|ops| - 1]), cfg, ops[|ops| - 1])
  }
}
