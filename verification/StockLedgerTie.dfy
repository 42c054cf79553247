/**
 The stock account in the ledger follows the perpetual inventory: over any run of bills and their
 voids, invoices, adjustments and unrelated ledger work, the two differ by no more than the
 rounding of the movements in between.
 */
module StockLedgerTie {
  import opened Wrappers
  import opened Sums
  import opened Rounding
  import opened StockModel
  import opened MovementLog
  import opened DocumentJournals
  import opened BooksModel
  import opened LedgerReports
  import opened BillVoiding
  import L = LedgerModel
  import I = LedgerInvariant

  // ---------- The allowance ----------

  /**
   Each movement of the key may leave (larger quantity around it) / S + 1 units behind; here times S.
   A reversal counts twice: once for its own rounding, once for that of the movement it takes back,
   whose journal was booked at the document's amount.
   */
  function SlackAt(key: Key): Movement -> int {
    (m: Movement) =>
      if m.key == key then (Max(m.after.quantity - m.quantity, m.after.quantity) + SCALE) * (if m.kind == Reversal then 2 else 1) else 0
  }

  function Slack(inv: Inventory, key: Key): int {
    SumBy(inv.log, SlackAt(key))
  }

  function Value(inv: Inventory, key: Key): int {
    OnHand(inv.stock, key).value
  }

  /** Every movement of `key` between two inventories, less the amount booked for it, fits in the allowance. */
  predicate WithinSlack(before: Inventory, after: Inventory, key: Key, booked: int) {
    SCALE * Abs(Value(after, key) - Value(before, key) - booked) <= Slack(after, key) - Slack(before, key)
  }

  // ---------- One movement ----------

  lemma OtherKeyUntouched(inv: Inventory, closed: Option<Error>, req: Request, key: Key)
    requires Record(inv, closed, req).Ok? && req.key != key
    ensures WithinSlack(inv, Record(inv, closed, req).value, key, 0)
  {
    var t := Record(inv, closed, req).value;
    SumSnoc(inv.log, t.log[|inv.log|], SlackAt(key));
  }

  /** What one movement of the key adds to the allowance, counted once. */
  function Share(before: Stock, after: Stock): int {
    Max(before.quantity, after.quantity) + SCALE
  }

  lemma SlackGrows(inv: Inventory, closed: Option<Error>, req: Request)
    requires LogOk(inv) && Record(inv, closed, req).Ok?
    ensures var t := Record(inv, closed, req).value;
            Slack(t, req.key) == Slack(inv, req.key)
              + Share(OnHand(inv.stock, req.key), OnHand(t.stock, req.key)) * (if req.kind == Reversal then 2 else 1)
  {
    var t := Record(inv, closed, req).value;
    SumSnoc(inv.log, t.log[|inv.log|], SlackAt(req.key));
  }

  /** A receipt booked at `paid` instead of its rounded total cost, when that cost came from paid / quantity. */
  lemma ReceiptWithinSlack(inv: Inventory, closed: Option<Error>, req: Request, paid: int)
    requires LogOk(inv) && Record(inv, closed, req).Ok?
    requires req.kind == Purchase && req.quantity > 0 && req.unitCost == Over(paid, req.quantity)
    ensures WithinSlack(inv, Record(inv, closed, req).value, req.key, paid)
  {
    var s := OnHand(inv.stock, req.key);
    StockIsOk(inv, req.key);
    SlackGrows(inv, closed, req);
    ReceiptIsNear(s, req.kind, req.quantity, req.unitCost);
    var m := Move(s, req.kind, req.quantity, req.unitCost).value;
    RevaluedIsNear(paid, req.quantity);
    assert req.quantity * Over(paid, req.quantity) == Over(paid, req.quantity) * req.quantity;
    assert 2 * SCALE * Abs(m.totalCost - paid) <= req.quantity + SCALE;
    assert m.stock.quantity == s.quantity + req.quantity;
  }

  /** A movement booked at its own total cost, unless it empties the stock at a cost other than the average. */
  lemma MovementWithinSlack(inv: Inventory, closed: Option<Error>, req: Request)
    requires LogOk(inv) && Record(inv, closed, req).Ok?
    requires var m := Move(OnHand(inv.stock, req.key), req.kind, req.quantity, req.unitCost).value;
             m.stock.quantity == 0 ==> m.unitCost == OnHand(inv.stock, req.key).average
    ensures var t := Record(inv, closed, req).value;
            WithinSlack(inv, t, req.key, t.log[|inv.log|].totalCost)
  {
    var s := OnHand(inv.stock, req.key);
    StockIsOk(inv, req.key);
    SlackGrows(inv, closed, req);
    MoveIsNear(s, req.kind, req.quantity, req.unitCost);
  }

  // ---------- An account of its own ----------

  /** `acc` is the stock account of exactly one tracked item and nobody's expense account. */
  predicate OwnAccount(items: seq<Item>, acc: nat, item: nat) {
    && item < |items| && items[item].isTracked && items[item].asset == Some(acc)
    && (forall i :: 0 <= i < |items| ==> items[i].expense != Some(acc) && (i != item ==> items[i].asset != Some(acc)))
  }

  /** Does the line move this item's stock. */
  predicate Moves(items: seq<Item>, l: DocLine, item: nat) {
    l.item == Some(item) && item < |items| && items[item].isTracked
  }

  predicate CleanBillLine(items: seq<Item>, acc: nat, key: Key, l: DocLine) {
    if Moves(items, l, key.item) then l.location == key.location && BillLineAccount(items, l.item, Some(l.account)) == Ok(l.account)
    else l.account != acc
  }

  predicate CleanInvoiceLine(items: seq<Item>, acc: nat, key: Key, l: DocLine) {
    l.account != acc && (Moves(items, l, key.item) ==> l.location == key.location)
  }

  /** The guard of the one branch that loses value: stock is emptied at a cost that is not its average. */
  predicate EmptiesAtOtherCost(inv: Inventory, adj: Adjustment) {
    && adj.quantity < 0 && adj.quantity == -OnHand(inv.stock, adj.key).quantity
    && adj.unitCost != 0 && adj.unitCost != OnHand(inv.stock, adj.key).average
  }

  /** The same guard for withdrawals one after another: only one priced at the average then held may empty the key. */
  predicate EmptiesCleanly(inv: Inventory, closed: Option<Error>, reqs: seq<Request>, key: Key) {
    |reqs| > 0 ==>
      var init, q := reqs[..|reqs| - 1], reqs[|reqs| - 1];
      EmptiesCleanly(inv, closed, init, key)
      && (RecordAll(inv, closed, init).Ok? && q.key == key ==>
            var s := OnHand(RecordAll(inv, closed, init).value.stock, key);
            s.quantity + q.quantity == 0 ==> q.unitCost == s.average)
  }

  /**
   The stock covers what the bill received, and taking it back returns no free receipt of the key and
   does not empty it at another cost; `listed` is a listing of the bill's movements.
   */
  ghost predicate VoidsCleanly(b: Books, key: Key, i: nat, listed: seq<nat>)
    requires i < |b.bills|
  {
    var log := b.inventory.log;
    && Lists(log, FromBill(i), listed) && Covered(b.inventory, i)
    && (forall k :: 0 <= k < |log| && IsOriginal(log[k], FromBill(i)) && log[k].key == key ==> log[k].unitCost != 0)
    && EmptiesCleanly(b.inventory, DateError(b.ledger.periods, b.bills[i].date), DocumentReversals(log, FromBill(i), listed), key)
  }

  /** Nothing but the item's own bills, invoices and adjustments at one location touches the account. */
  ghost predicate Clean(b: Books, cfg: Settings, acc: nat, key: Key, op: BooksOp) {
    match op
    case BillOp(i, _) =>
      && cfg.payable != Some(acc) && cfg.inputTax != Some(acc)
      && (i < |b.bills| ==> forall l :: l in b.bills[i].lines ==> CleanBillLine(b.inventory.items, acc, key, l))
    case VoidBillOp(i, listed) => Voidable(b, i) ==> VoidsCleanly(b, key, i, listed)
    case InvoiceOp(invoice) =>
      cfg.receivable != acc && cfg.outputTax != Some(acc) && forall l :: l in invoice.lines ==> CleanInvoiceLine(b.inventory.items, acc, key, l)
    case AdjustOp(adj) =>
      adj.offset != acc && (adj.key.item == key.item ==> adj.key == key && !EmptiesAtOtherCost(b.inventory, adj))
    case LedgerOp(o) =>
      OpAvoids(b.ledger, o, acc)
    case _ => true
  }

  ghost predicate CleanRun(b: Books, cfg: Settings, acc: nat, key: Key, ops: seq<BooksOp>) {
    if |ops| == 0 then true
    else
      var init := ops[..|ops| - 1];
      CleanRun(b, cfg, acc, key, init) && Clean(BooksRun(b, cfg, init), cfg, acc, key, ops[|ops| - 1])
  }

  // ---------- Bills ----------

  /**
   A bill line whose account was resolved from its item is clean exactly when it stays at the
   item's location and, unless its own item is tracked, did not ask for the stock account.
   */
  lemma ResolvedLineIsClean(items: seq<Item>, acc: nat, key: Key, l: DocLine, requested: Option<nat>)
    requires OwnAccount(items, acc, key.item) && BillLineAccount(items, l.item, requested) == Ok(l.account)
    ensures CleanBillLine(items, acc, key, l)
            <==> && (Moves(items, l, key.item) ==> l.location == key.location)
                 && (l.item.None? || l.item.value >= |items| || !items[l.item.value].isTracked ==> requested != Some(acc))
  {
  }

  lemma {:induction false} BillWithinSlack(inv: Inventory, closed: Option<Error>, bill: nat, lines: seq<DocLine>, acc: nat, key: Key)
    requires LogOk(inv) && OwnAccount(inv.items, acc, key.item)
    requires BillMovements(inv, closed, bill, lines).Ok?
    requires forall l :: l in lines ==> CleanBillLine(inv.items, acc, key, l)
    ensures WithinSlack(inv, BillMovements(inv, closed, bill, lines).value, key, SumBy(lines, BaseOn(acc)))
  {
    if |lines| > 0 {
      var init, l := lines[..|lines| - 1], lines[|lines| - 1];
      assert forall x :: x in init ==> x in lines;
      assert CleanBillLine(inv.items, acc, key, l);
      BillWithinSlack(inv, closed, bill, init, acc, key);
      BillMovementsKeepLog(inv, closed, bill, init);
      BillLineWithinSlack(BillMovements(inv, closed, bill, init).value, closed, bill, l, acc, key);
    }
  }

  lemma BillLineWithinSlack(inv: Inventory, closed: Option<Error>, bill: nat, l: DocLine, acc: nat, key: Key)
    requires LogOk(inv) && OwnAccount(inv.items, acc, key.item)
    requires BillLine(inv, closed, bill, l).Ok? && CleanBillLine(inv.items, acc, key, l)
    ensures WithinSlack(inv, BillLine(inv, closed, bill, l).value, key, BaseOn(acc)(l))
  {
    var item := ResolveItem(inv.items, l).value;
    if item.Some? {
      var req := Request(LineKey(l, item.value), Purchase, FromBill(bill), l.quantity, BillUnitCost(l), None);
      if Moves(inv.items, l, key.item) {
        ReceiptWithinSlack(inv, closed, req, BaseAmount(l));
      } else {
        OtherKeyUntouched(inv, closed, req, key);
      }
    }
  }

  // ---------- What a bill booked ----------

  function ShareFrom(source: Source, key: Key): Movement -> int {
    (m: Movement) => if m.key == key && IsOriginal(m, source) then Abs(m.quantity) + SCALE else 0
  }

  /** What was booked for a document and what its movements cost differ by the rounding of their unit costs. */
  predicate BookedNear(log: seq<Movement>, source: Source, key: Key, booked: int) {
    2 * SCALE * Abs(booked - SumBy(log, CostFrom(source, key))) <= SumBy(log, ShareFrom(source, key))
  }

  lemma UnusedBooksNothing(log: seq<Movement>, source: Source, key: Key)
    requires Unused(log, source)
    ensures SumBy(log, CostFrom(source, key)) == 0 && SumBy(log, ShareFrom(source, key)) == 0
  {
    SumZero(log, CostFrom(source, key));
    SumZero(log, ShareFrom(source, key));
  }

  /** A tracked line is received at the line's amount, up to the rounding of its unit cost. */
  lemma BillRowNear(inv: Inventory, closed: Option<Error>, bill: nat, l: DocLine)
    requires BillLine(inv, closed, bill, l).Ok? && ResolveItem(inv.items, l).value.Some?
    ensures var t := BillLine(inv, closed, bill, l).value;
            && |t.log| == |inv.log| + 1 && t.log == inv.log + [t.log[|inv.log|]]
            && var row := t.log[|inv.log|];
               && row.key == LineKey(l, l.item.value) && row.quantity == l.quantity > 0 && IsOriginal(row, FromBill(bill))
               && 2 * SCALE * Abs(BaseAmount(l) - row.totalCost) <= l.quantity + SCALE
  {
    RevaluedIsNear(BaseAmount(l), l.quantity);
    assert l.quantity * BillUnitCost(l) == BillUnitCost(l) * l.quantity;
  }

  /** One more movement, booked at `amount` if it is the document's and of the key. */
  lemma BookedNearSnoc(log: seq<Movement>, row: Movement, source: Source, key: Key, booked: int, amount: int)
    requires BookedNear(log, source, key, booked)
    requires if row.key == key && IsOriginal(row, source) then 2 * SCALE * Abs(amount - row.totalCost) <= Abs(row.quantity) + SCALE
             else amount == 0
    ensures BookedNear(log + [row], source, key, booked + amount)
  {
    SumSnoc(log, row, CostFrom(source, key));
    SumSnoc(log, row, ShareFrom(source, key));
  }

  /** A line that does not move the item books nothing on its account, and records nothing on the key. */
  lemma OtherLineBooksNothing(inv: Inventory, closed: Option<Error>, bill: nat, l: DocLine, acc: nat, key: Key)
    requires OwnAccount(inv.items, acc, key.item) && CleanBillLine(inv.items, acc, key, l)
    requires BillLine(inv, closed, bill, l).Ok? && !Moves(inv.items, l, key.item)
    ensures BaseOn(acc)(l) == 0
    ensures ResolveItem(inv.items, l).value.Some? ==> l.item.value != key.item
  {
  }

  /** A line that moves the item books its amount on the account, and is recorded on the key. */
  lemma OwnLineBooksAmount(inv: Inventory, closed: Option<Error>, bill: nat, l: DocLine, acc: nat, key: Key)
    requires OwnAccount(inv.items, acc, key.item) && CleanBillLine(inv.items, acc, key, l)
    requires BillLine(inv, closed, bill, l).Ok? && Moves(inv.items, l, key.item)
    ensures BaseOn(acc)(l) == BaseAmount(l)
    ensures ResolveItem(inv.items, l).value == Some(key.item) && LineKey(l, key.item) == key
  {
  }

  lemma BillLineBookedNear(inv: Inventory, closed: Option<Error>, bill: nat, l: DocLine, acc: nat, key: Key, booked: int)
    requires OwnAccount(inv.items, acc, key.item) && CleanBillLine(inv.items, acc, key, l)
    requires BookedNear(inv.log, FromBill(bill), key, booked) && BillLine(inv, closed, bill, l).Ok?
    ensures BookedNear(BillLine(inv, closed, bill, l).value.log, FromBill(bill), key, booked + BaseOn(acc)(l))
  {
    var log := BillLine(inv, closed, bill, l).value.log;
    if Moves(inv.items, l, key.item) {
      OwnLineBooksAmount(inv, closed, bill, l, acc, key);
      BillRowNear(inv, closed, bill, l);
      BookedNearSnoc(inv.log, log[|inv.log|], FromBill(bill), key, booked, BaseAmount(l));
    } else {
      OtherLineBooksNothing(inv, closed, bill, l, acc, key);
      if ResolveItem(inv.items, l).value.Some? {
        BillRowNear(inv, closed, bill, l);
        BookedNearSnoc(inv.log, log[|inv.log|], FromBill(bill), key, booked, 0);
      }
    }
  }

  lemma {:induction false} BillBookedNear(inv: Inventory, closed: Option<Error>, bill: nat, lines: seq<DocLine>, acc: nat, key: Key)
    requires OwnAccount(inv.items, acc, key.item) && Unused(inv.log, FromBill(bill))
    requires BillMovements(inv, closed, bill, lines).Ok?
    requires forall l :: l in lines ==> CleanBillLine(inv.items, acc, key, l)
    ensures var t := BillMovements(inv, closed, bill, lines).value;
            t.items == inv.items && BookedNear(t.log, FromBill(bill), key, SumBy(lines, BaseOn(acc)))
  {
    if |lines| == 0 {
      UnusedBooksNothing(inv.log, FromBill(bill), key);
    } else {
      var init, l := lines[..|lines| - 1], lines[|lines| - 1];
      assert forall x :: x in init ==> x in lines;
      assert CleanBillLine(inv.items, acc, key, l);
      BillBookedNear(inv, closed, bill, init, acc, key);
      BillLineBookedNear(BillMovements(inv, closed, bill, init).value, closed, bill, l, acc, key, SumBy(init, BaseOn(acc)));
    }
  }

  /** Movements of other documents, and reversals, leave what a document booked alone. */
  lemma BookedNearStays(before: Inventory, after: Inventory, op: BooksOp, source: Source, key: Key, booked: int)
    requires Appends(before, after, op) && BookedNear(before.log, source, key, booked)
    requires forall m: Movement :: RowOf(op, m) ==> !IsOriginal(m, source)
    ensures BookedNear(after.log, source, key, booked)
  {
    var added := after.log[|before.log|..];
    assert after.log == before.log + added;
    forall m | m in added
      ensures CostFrom(source, key)(m) == 0 && ShareFrom(source, key)(m) == 0
    {
      var k :| 0 <= k < |added| && added[k] == m;
      assert RowOf(op, after.log[|before.log| + k]);
    }
    SumConcat(before.log, added, CostFrom(source, key));
    SumConcat(before.log, added, ShareFrom(source, key));
    SumZero(added, CostFrom(source, key));
    SumZero(added, ShareFrom(source, key));
  }

  // ---------- Taking a bill back ----------

  function RequestShare(key: Key): Request -> int {
    (q: Request) => if q.key == key then Abs(q.quantity) + SCALE else 0
  }

  lemma ReversalsShareAlike(log: seq<Movement>, source: Source, listed: seq<nat>, key: Key)
    requires Lists(log, source, listed)
    ensures SumBy(DocumentReversals(log, source, listed), RequestShare(key)) == SumBy(log, ShareFrom(source, key))
  {
    ReversalsMirror(log, source, listed, RequestShare(key), ShareFrom(source, key));
  }

  lemma ReversalsWithdraw(log: seq<Movement>, i: nat, listed: seq<nat>, key: Key)
    requires BillRowsAreReceipts(log)
    requires forall k :: 0 <= k < |log| && IsOriginal(log[k], FromBill(i)) && log[k].key == key ==> log[k].unitCost != 0
    ensures forall q :: q in DocumentReversals(log, FromBill(i), listed) ==> PricedWithdrawal(q, key)
  {
    ReversalsUndo(log, FromBill(i), listed);
    forall q | q in DocumentReversals(log, FromBill(i), listed)
      ensures PricedWithdrawal(q, key)
    {
      assert Undoes(log, FromBill(i), q);
    }
  }

  predicate PricedWithdrawal(q: Request, key: Key) {
    q.kind == Reversal && q.quantity < 0 && (q.key == key ==> q.unitCost != 0)
  }

  /** The rounding of the withdrawals uses one share of each; the other is left over. */
  predicate WithinHalf(before: Inventory, after: Inventory, key: Key, booked: int, spare: int) {
    SCALE * Abs(Value(after, key) - Value(before, key) - booked) + spare <= Slack(after, key) - Slack(before, key)
  }

  lemma WithdrawalWithinHalf(inv: Inventory, closed: Option<Error>, q: Request, key: Key)
    requires LogOk(inv) && Record(inv, closed, q).Ok? && PricedWithdrawal(q, key)
    requires q.key == key && OnHand(inv.stock, key).quantity + q.quantity == 0 ==> q.unitCost == OnHand(inv.stock, key).average
    ensures WithinHalf(inv, Record(inv, closed, q).value, key, RequestCost(key)(q), RequestShare(key)(q))
  {
    if q.key == key {
      StockIsOk(inv, key);
      SlackGrows(inv, closed, q);
      MoveIsNear(OnHand(inv.stock, key), q.kind, q.quantity, q.unitCost);
    } else {
      OtherKeyUntouched(inv, closed, q, key);
    }
  }

  lemma HalvesAddUp(inv: Inventory, mid: Inventory, t: Inventory, key: Key, a: int, b: int, x: int, y: int)
    requires WithinHalf(inv, mid, key, a, x) && WithinHalf(mid, t, key, b, y)
    ensures WithinHalf(inv, t, key, a + b, x + y)
  {
  }

  lemma {:induction false} WithdrawalsWithinHalf(inv: Inventory, closed: Option<Error>, reqs: seq<Request>, key: Key)
    requires LogOk(inv) && RecordAll(inv, closed, reqs).Ok? && EmptiesCleanly(inv, closed, reqs, key)
    requires forall q :: q in reqs ==> PricedWithdrawal(q, key)
    ensures WithinHalf(inv, RecordAll(inv, closed, reqs).value, key, SumBy(reqs, RequestCost(key)), SumBy(reqs, RequestShare(key)))
  {
    if |reqs| > 0 {
      var init, q := reqs[..|reqs| - 1], reqs[|reqs| - 1];
      assert forall x :: x in init ==> x in reqs;
      assert PricedWithdrawal(q, key);
      WithdrawalsWithinHalf(inv, closed, init, key);
      RecordAllKeepsLog(inv, closed, init);
      var before := RecordAll(inv, closed, init).value;
      WithdrawalWithinHalf(before, closed, q, key);
      HalvesAddUp(inv, before, Record(before, closed, q).value, key,
                  SumBy(init, RequestCost(key)), RequestCost(key)(q), SumBy(init, RequestShare(key)), RequestShare(key)(q));
    }
  }

  // ---------- Invoices ----------

  function CostOf(item: nat): Hook -> int {
    (h: Hook) => if h.item == item then h.cost else 0
  }

  lemma {:induction false} InvoiceWithinSlack(inv: Inventory, closed: Option<Error>, invoice: nat, lines: seq<DocLine>, acc: nat, key: Key)
    requires LogOk(inv) && OwnAccount(inv.items, acc, key.item)
    requires InvoiceMovements(inv, closed, invoice, lines).Ok?
    requires forall l :: l in lines ==> CleanInvoiceLine(inv.items, acc, key, l) && l.quantity > 0
    ensures var issued := InvoiceMovements(inv, closed, invoice, lines).value;
            WithinSlack(inv, issued.inventory, key, -SumBy(issued.hooks, CostOf(key.item)))
  {
    if |lines| > 0 {
      var init, l := lines[..|lines| - 1], lines[|lines| - 1];
      assert forall x :: x in init ==> x in lines;
      assert CleanInvoiceLine(inv.items, acc, key, l);
      InvoiceWithinSlack(inv, closed, invoice, init, acc, key);
      InvoiceMovementsKeepLog(inv, closed, invoice, init);
      InvoiceLineWithinSlack(InvoiceMovements(inv, closed, invoice, init).value, closed, invoice, l, acc, key);
    }
  }

  lemma InvoiceLineWithinSlack(issued: Issued, closed: Option<Error>, invoice: nat, l: DocLine, acc: nat, key: Key)
    requires LogOk(issued.inventory) && InvoiceLine(issued, closed, invoice, l).Ok?
    requires CleanInvoiceLine(issued.inventory.items, acc, key, l) && l.quantity > 0
    requires OwnAccount(issued.inventory.items, acc, key.item)
    ensures var next := InvoiceLine(issued, closed, invoice, l).value;
            WithinSlack(issued.inventory, next.inventory, key, SumBy(issued.hooks, CostOf(key.item)) - SumBy(next.hooks, CostOf(key.item)))
  {
    var before, item := issued.inventory, ResolveItem(issued.inventory.items, l).value;
    if item.Some? {
      var s := OnHand(before.stock, LineKey(l, item.value));
      var req := Request(LineKey(l, item.value), Sale, FromInvoice(invoice), l.quantity, s.average, None);
      var cost := Record(before, closed, req).value.log[|before.log|].totalCost;
      SumSnoc(issued.hooks, Hook(item.value, Abs(cost)), CostOf(key.item));
      if item.value == key.item {
        SaleCostIsNegative(s, l.quantity);
        MovementWithinSlack(before, closed, req);
      } else {
        OtherKeyUntouched(before, closed, req, key);
      }
    }
  }

  lemma SaleCostIsNegative(s: Stock, quantity: int)
    requires quantity > 0 && s.average >= 0
    requires Move(s, Sale, quantity, s.average).Ok?
    ensures Move(s, Sale, quantity, s.average).value.totalCost <= 0
    ensures Move(s, Sale, quantity, s.average).value.unitCost == s.average
  {
    TimesIsNonNegative(quantity, s.average);
  }

  lemma {:induction false} CostLinesNet(items: seq<Item>, hooks: seq<Hook>, acc: nat, item: nat)
    requires OwnAccount(items, acc, item) && CostLines(items, hooks).Ok?
    ensures L.NetOn(CostLines(items, hooks).value, acc) == -SumBy(hooks, CostOf(item))
  {
    if |hooks| > 0 {
      var init, h := hooks[..|hooks| - 1], hooks[|hooks| - 1];
      CostLinesNet(items, init, acc, item);
      if h.cost != 0 {
        var d, c := L.Line(items[h.item].expense.value, h.cost, 0), L.Line(items[h.item].asset.value, 0, h.cost);
        OnConcat(CostLines(items, init).value, [d, c], acc);
        TwoLinesNet(d, c, acc);
      }
    }
  }

  // ---------- Runs ----------

  /** A bill that is posted and not voided booked on the account what its receipts cost, up to their rounding. */
  predicate BillBooked(b: Books, acc: nat, key: Key, i: nat)
    requires i < |b.bills|
  {
    b.bills[i].postedJournal.Some? && b.bills[i].voidedJournal.None? ==>
      var j := b.bills[i].postedJournal.value;
      && j < |b.ledger.journals| && b.ledger.journals[j].effective
      && BookedNear(b.inventory.log, FromBill(i), key, L.NetOn(b.ledger.journals[j].lines, acc))
  }

  ghost predicate Sound(b: Books, acc: nat, key: Key) {
    && BooksOk(b) && OwnAccount(b.inventory.items, acc, key.item)
    && (forall i :: 0 <= i < |b.bills| ==> BillBooked(b, acc, key, i))
  }

  function Gap(b: Books, acc: nat, key: Key): int {
    L.Net(b.ledger, acc) - Value(b.inventory, key)
  }

  /** The bound on every movement so far, times S. */
  predicate Tied(b: Books, acc: nat, key: Key) {
    SCALE * Abs(Gap(b, acc, key)) <= Slack(b.inventory, key)
  }

  lemma TieKept(b: Books, t: Books, acc: nat, key: Key, booked: int)
    requires Tied(b, acc, key) && WithinSlack(b.inventory, t.inventory, key, booked)
    requires L.Net(t.ledger, acc) == L.Net(b.ledger, acc) + booked
    ensures Tied(t, acc, key)
  {
  }

  /** What a bill receives and books: the stock account rises by the amounts of its lines on it. */
  lemma BillLedgerSide(b: Books, cfg: Settings, i: nat, active: bool, acc: nat, key: Key)
    requires Sound(b, acc, key) && Clean(b, cfg, acc, key, BillOp(i, active)) && PostBill(b, cfg, i, active).Ok?
    ensures var t, lines, j := PostBill(b, cfg, i, active).value, Lines(b.bills[i].lines), |b.ledger.journals|;
            && L.Net(t.ledger, acc) == L.Net(b.ledger, acc) + SumBy(lines, BaseOn(acc))
            && |t.ledger.journals| == j + 1 && t.ledger.journals[j].effective
            && L.NetOn(t.ledger.journals[j].lines, acc) == SumBy(lines, BaseOn(acc))
  {
    var bill := BillDocument(b, i);
    var taxAccount := TaxAccount(cfg.inputTax, SumBy(bill.lines, Tax())).value;
    var journal := ChargeJournal(cfg.payable.value, taxAccount, bill.total, bill.lines);
    CreateAndPostMovesNet(b.ledger, bill.date, journal, acc);
    ChargeJournalNet(cfg.payable.value, taxAccount, bill.total, bill.lines, acc);
  }

  lemma BillKeepsTie(b: Books, cfg: Settings, i: nat, active: bool, acc: nat, key: Key)
    requires Sound(b, acc, key) && Tied(b, acc, key)
    requires Clean(b, cfg, acc, key, BillOp(i, active)) && PostBill(b, cfg, i, active).Ok?
    ensures Tied(PostBill(b, cfg, i, active).value, acc, key) && BillBooked(PostBill(b, cfg, i, active).value, acc, key, i)
  {
    var closed, lines, t := DateError(b.ledger.periods, b.bills[i].date), Lines(b.bills[i].lines), PostBill(b, cfg, i, active).value;
    assert BillOk(b, i);
    BillLedgerSide(b, cfg, i, active, acc, key);
    BillWithinSlack(b.inventory, closed, i, lines, acc, key);
    BillBookedNear(b.inventory, closed, i, lines, acc, key);
    TieKept(b, t, acc, key, SumBy(lines, BaseOn(acc)));
  }

  lemma VoidLedgerSide(b: Books, i: nat, listed: seq<nat>, acc: nat)
    requires I.Inv(b.ledger) && VoidBill(b, i, listed).Ok? && Voidable(b, i)
    ensures var j := b.bills[i].postedJournal.value;
            && j < |b.ledger.journals|
            && L.Net(VoidBill(b, i, listed).value.ledger, acc) == L.Net(b.ledger, acc) - L.NetOn(b.ledger.journals[j].lines, acc)
  {
    ReversalSkewsReport(b.ledger, b.bills[i].postedJournal.value, b.bills[i].date, acc);
  }

  /** Taking back what was booked instead of what the receipts cost fits in the share left over. */
  lemma VoidedTieKept(b: Books, t: Books, acc: nat, key: Key, booked: int, cost: int, spare: int)
    requires Tied(b, acc, key) && WithinHalf(b.inventory, t.inventory, key, -cost, spare)
    requires 2 * SCALE * Abs(booked - cost) <= spare
    requires L.Net(t.ledger, acc) == L.Net(b.ledger, acc) - booked
    ensures Tied(t, acc, key)
  {
    ThreeParts(Gap(b, acc, key), Value(t.inventory, key) - Value(b.inventory, key) + cost, booked - cost,
               Slack(b.inventory, key), Slack(t.inventory, key) - Slack(b.inventory, key), spare);
  }

  lemma ThreeParts(gap: int, moved: int, rounding: int, slack: int, grown: int, spare: int)
    requires SCALE * Abs(gap) <= slack && SCALE * Abs(moved) + spare <= grown && 2 * SCALE * Abs(rounding) <= spare
    ensures SCALE * Abs(gap - moved - rounding) <= slack + grown
  {
    assert Abs(gap - moved - rounding) <= Abs(gap) + Abs(moved) + Abs(rounding);
  }

  lemma VoidWithinHalf(b: Books, i: nat, listed: seq<nat>, key: Key, cost: int, spare: int)
    requires BooksOk(b) && Voidable(b, i) && VoidsCleanly(b, key, i, listed) && VoidBill(b, i, listed).Ok?
    requires cost == SumBy(b.inventory.log, CostFrom(FromBill(i), key)) && spare == SumBy(b.inventory.log, ShareFrom(FromBill(i), key))
    ensures WithinHalf(b.inventory, VoidBill(b, i, listed).value.inventory, key, -cost, spare)
  {
    var log := b.inventory.log;
    var closed, reqs := DateError(b.ledger.periods, b.bills[i].date), DocumentReversals(log, FromBill(i), listed);
    ReversalsCostOpposite(log, FromBill(i), listed, key);
    ReversalsShareAlike(log, FromBill(i), listed, key);
    ReversalsWithdraw(log, i, listed, key);
    WithdrawalsWithinHalf(b.inventory, closed, reqs, key);
  }

  /** What a bill booked and what its receipts cost, as far apart as its shares allow. */
  lemma BookedAndCost(b: Books, i: nat, acc: nat, key: Key) returns (booked: int, cost: int, spare: int)
    requires Sound(b, acc, key) && Voidable(b, i)
    ensures b.bills[i].postedJournal.value < |b.ledger.journals|
    ensures booked == L.NetOn(b.ledger.journals[b.bills[i].postedJournal.value].lines, acc)
    ensures cost == SumBy(b.inventory.log, CostFrom(FromBill(i), key)) && spare == SumBy(b.inventory.log, ShareFrom(FromBill(i), key))
    ensures 2 * SCALE * Abs(booked - cost) <= spare
  {
    assert BillBooked(b, acc, key, i);
    booked := L.NetOn(b.ledger.journals[b.bills[i].postedJournal.value].lines, acc);
    cost, spare := SumBy(b.inventory.log, CostFrom(FromBill(i), key)), SumBy(b.inventory.log, ShareFrom(FromBill(i), key));
  }

  /** A void within its guard goes through and keeps the tie. */
  lemma VoidKeepsTie(b: Books, i: nat, listed: seq<nat>, acc: nat, key: Key)
    requires Sound(b, acc, key) && Tied(b, acc, key)
    requires Voidable(b, i) && VoidsCleanly(b, key, i, listed)
    ensures VoidBill(b, i, listed).Ok? && Tied(VoidBill(b, i, listed).value, acc, key)
  {
    VoidNeedsCover(b, i, listed);
    var t := VoidBill(b, i, listed).value;
    var booked, cost, spare := BookedAndCost(b, i, acc, key);
    assert L.Net(t.ledger, acc) == L.Net(b.ledger, acc) - booked by {
      VoidLedgerSide(b, i, listed, acc);
    }
    assert WithinHalf(b.inventory, t.inventory, key, -cost, spare) by {
      VoidWithinHalf(b, i, listed, key, cost, spare);
    }
    VoidedTieKept(b, t, acc, key, booked, cost, spare);
  }

  /**
   A void that comes too late, the stock no longer covering what the bill received: it is refused,
   yet the account gives up what the bill had booked while the inventory keeps its value, and the
   tie survives exactly when that still fits in the allowance.
   */
  lemma LateVoidDrift(b: Books, cfg: Settings, i: nat, listed: seq<nat>, acc: nat, key: Key)
    requires Sound(b, acc, key) && Voidable(b, i) && Lists(b.inventory.log, FromBill(i), listed) && !Covered(b.inventory, i)
    ensures BooksStep(b, cfg, VoidBillOp(i, listed)).Err?
    ensures var t, j := BooksNext(b, cfg, VoidBillOp(i, listed)), b.bills[i].postedJournal.value;
            && j < |b.ledger.journals| && t.inventory == b.inventory && t.bills == b.bills && Stuck(t, i)
            && Gap(t, acc, key) == Gap(b, acc, key) - L.NetOn(b.ledger.journals[j].lines, acc)
            && (Tied(t, acc, key)
                <==> SCALE * Abs(Gap(b, acc, key) - L.NetOn(b.ledger.journals[j].lines, acc)) <= Slack(b.inventory, key))
  {
    LateVoid(b, cfg, i, listed, acc);
  }

  lemma {:induction false} CleanLinesHaveNoBase(lines: seq<DocLine>, acc: nat)
    requires forall l :: l in lines ==> l.account != acc
    ensures SumBy(lines, BaseOn(acc)) == 0
  {
    SumZero(lines, BaseOn(acc));
  }

  /** What an invoice issues and books: the stock account falls by the cost of the item's own lines. */
  lemma InvoiceLedgerSide(b: Books, cfg: Settings, invoice: Document, acc: nat, key: Key)
    requires I.Inv(b.ledger) && InvoicePosting(b, cfg, invoice).Ok? && OwnAccount(b.inventory.items, acc, key.item)
    requires Clean(b, cfg, acc, key, InvoiceOp(invoice))
    ensures var t := InvoicePosting(b, cfg, invoice).value;
            var issued := InvoiceMovements(b.inventory, DateError(b.ledger.periods, invoice.date), invoice.id, invoice.lines);
            && I.Inv(t.ledger) && issued.Ok? && t.inventory == issued.value.inventory
            && L.Net(t.ledger, acc) == L.Net(b.ledger, acc) - SumBy(issued.value.hooks, CostOf(key.item))
  {
    var closed := DateError(b.ledger.periods, invoice.date);
    var issued := InvoiceMovements(b.inventory, closed, invoice.id, invoice.lines).value;
    InvoiceMovementsKeepItems(b.inventory, closed, invoice.id, invoice.lines);
    var taxAccount := TaxAccount(cfg.outputTax, SumBy(invoice.lines, Tax())).value;
    var costs := CostLines(issued.inventory.items, issued.hooks).value;
    var journal := InvoiceJournal(cfg.receivable, taxAccount, invoice.total, invoice.lines, costs);
    CreateAndPostMovesNet(b.ledger, invoice.date, journal, acc);
    I.CreateAndPostKeepsInv(b.ledger, invoice.date, journal);
    InvoiceJournalNet(cfg.receivable, taxAccount, invoice.total, invoice.lines, costs, acc);
    CostLinesNet(issued.inventory.items, issued.hooks, acc, key.item);
    CleanLinesHaveNoBase(invoice.lines, acc);
  }

  lemma InvoiceKeepsTie(b: Books, cfg: Settings, invoice: Document, acc: nat, key: Key)
    requires Sound(b, acc, key) && Tied(b, acc, key)
    requires forall l :: l in invoice.lines ==> l.quantity > 0
    requires Clean(b, cfg, acc, key, InvoiceOp(invoice)) && InvoicePosting(b, cfg, invoice).Ok?
    ensures Tied(InvoicePosting(b, cfg, invoice).value, acc, key)
  {
    var closed, t := DateError(b.ledger.periods, invoice.date), InvoicePosting(b, cfg, invoice).value;
    InvoiceLedgerSide(b, cfg, invoice, acc, key);
    var issued := InvoiceMovements(b.inventory, closed, invoice.id, invoice.lines).value;
    InvoiceWithinSlack(b.inventory, closed, invoice.id, invoice.lines, acc, key);
    TieKept(b, t, acc, key, -SumBy(issued.hooks, CostOf(key.item)));
  }

  /** What an adjustment books on the item's stock account: its cost, with the sign of its quantity. */
  function BookedCost(adj: Adjustment, totalCost: int): int {
    if adj.quantity > 0 then Abs(totalCost) else -Abs(totalCost)
  }

  /** An adjustment's movement keeps its quantity and takes its sign; it never empties the stock at another cost unless asked to. */
  lemma AdjustmentSigned(inv: Inventory, item: Item, adj: Adjustment)
    requires RepOk(OnHand(inv.stock, adj.key)) && adj.quantity != 0 && AdjustmentCost(inv, item, adj).Ok?
    requires Move(OnHand(inv.stock, adj.key), AdjustmentMovement(adj), adj.quantity, AdjustmentCost(inv, item, adj).value).Ok?
    ensures var s, cost := OnHand(inv.stock, adj.key), AdjustmentCost(inv, item, adj).value;
            var m := Move(s, AdjustmentMovement(adj), adj.quantity, cost).value;
            && m.quantity == adj.quantity && m.totalCost == BookedCost(adj, m.totalCost)
            && (!EmptiesAtOtherCost(inv, adj) && m.stock.quantity == 0 ==> m.unitCost == s.average)
  {
    TimesIsNonNegative(Abs(adj.quantity), AdjustmentCost(inv, item, adj).value);
  }

  lemma AdjustmentWithinSlack(inv: Inventory, closed: Option<Error>, item: Item, adj: Adjustment, key: Key)
    requires LogOk(inv) && adj.quantity != 0
    requires AdjustmentCost(inv, item, adj).Ok?
    requires Record(inv, closed, AdjustmentRequest(adj, AdjustmentCost(inv, item, adj).value)).Ok?
    requires adj.key == key ==> !EmptiesAtOtherCost(inv, adj)
    ensures var t := Record(inv, closed, AdjustmentRequest(adj, AdjustmentCost(inv, item, adj).value)).value;
            WithinSlack(inv, t, key, if adj.key == key then BookedCost(adj, t.log[|inv.log|].totalCost) else 0)
  {
    var cost := AdjustmentCost(inv, item, adj).value;
    var req := AdjustmentRequest(adj, cost);
    if adj.key == key {
      StockIsOk(inv, key);
      AdjustmentSigned(inv, item, adj);
      MovementWithinSlack(inv, closed, req);
    } else {
      OtherKeyUntouched(inv, closed, req, key);
    }
  }

  lemma AdjustmentJournalNet(items: seq<Item>, adj: Adjustment, moved: int, acc: nat, item: nat)
    requires OwnAccount(items, acc, item) && adj.offset != acc
    requires adj.key.item < |items| && items[adj.key.item].asset.Some?
    ensures L.NetOn(AdjustmentJournal(items[adj.key.item].asset.value, adj.offset, adj.quantity, Abs(moved)), acc)
            == if adj.key.item == item then BookedCost(adj, moved) else 0
  {
    var journal := AdjustmentJournal(items[adj.key.item].asset.value, adj.offset, adj.quantity, Abs(moved));
    TwoLinesNet(journal[0], journal[1], acc);
  }

  function AdjustmentMoved(b: Books, adj: Adjustment): Result<Inventory>
    requires adj.key.item < |b.inventory.items|
  {
    var cost :- AdjustmentCost(b.inventory, b.inventory.items[adj.key.item], adj);
    Record(b.inventory, DateError(b.ledger.periods, adj.date), AdjustmentRequest(adj, cost))
  }

  /** What the adjustment books on the account `acc`, given the total cost of its movement. */
  function AdjustmentBooked(adj: Adjustment, inventory: Inventory, item: nat): int
    requires |inventory.log| > 0
  {
    if adj.key.item == item then BookedCost(adj, inventory.log[|inventory.log| - 1].totalCost) else 0
  }

  lemma AdjustmentLedgerSide(b: Books, adj: Adjustment, acc: nat, item: nat)
    requires I.Inv(b.ledger) && AdjustmentPosting(b, adj).Ok?
    requires OwnAccount(b.inventory.items, acc, item) && adj.offset != acc
    ensures AdjustmentMoved(b, adj) == Ok(AdjustmentPosting(b, adj).value.inventory)
    ensures var t := AdjustmentPosting(b, adj).value;
            && I.Inv(t.ledger) && |t.inventory.log| > 0 && adj.quantity != 0
            && L.Net(t.ledger, acc) == L.Net(b.ledger, acc) + AdjustmentBooked(adj, t.inventory, item)
  {
    var t := AdjustmentPosting(b, adj).value;
    var moved := t.inventory.log[|t.inventory.log| - 1].totalCost;
    var journal := AdjustmentJournal(b.inventory.items[adj.key.item].asset.value, adj.offset, adj.quantity, Abs(moved));
    CreateAndPostMovesNet(b.ledger, adj.date, journal, acc);
    I.CreateAndPostKeepsInv(b.ledger, adj.date, journal);
    AdjustmentJournalNet(b.inventory.items, adj, moved, acc, item);
  }

  lemma AdjustmentKeepsTie(b: Books, cfg: Settings, adj: Adjustment, acc: nat, key: Key)
    requires Sound(b, acc, key) && Tied(b, acc, key)
    requires Clean(b, cfg, acc, key, AdjustOp(adj)) && AdjustmentPosting(b, adj).Ok?
    ensures Tied(AdjustmentPosting(b, adj).value, acc, key)
  {
    var closed, item := DateError(b.ledger.periods, adj.date), b.inventory.items[adj.key.item];
    AdjustmentLedgerSide(b, adj, acc, key.item);
    var t := AdjustmentPosting(b, adj).value;
    AdjustmentWithinSlack(b.inventory, closed, item, adj, key);
    TieKept(b, t, acc, key, AdjustmentBooked(adj, t.inventory, key.item));
  }

  /** A withdrawal of all the stock at a stated cost, on the inventory's side. */
  lemma EmptyingSide(inv: Inventory, closed: Option<Error>, req: Request)
    requires LogOk(inv) && Record(inv, closed, req).Ok? && req.kind != Reversal
    requires req.quantity < 0 && req.quantity == -OnHand(inv.stock, req.key).quantity && req.unitCost >= 0
    requires req.unitCost == 0 ==> OnHand(inv.stock, req.key).average == 0
    ensures var t, s := Record(inv, closed, req).value, OnHand(inv.stock, req.key);
            && OnHand(t.stock, req.key) == NO_STOCK
            && Slack(t, req.key) == Slack(inv, req.key) + s.quantity + SCALE
            && Abs(t.log[|inv.log|].totalCost) == Times(s.quantity, req.unitCost)
  {
    SlackGrows(inv, closed, req);
    TimesIsNonNegative(OnHand(inv.stock, req.key).quantity, req.unitCost);
  }

  /**
   Emptying the stock by an adjustment, at whatever cost: the value held is forgotten, the cost is
   booked, and the tie survives exactly when what the two leave behind still fits in the allowance.
   */
  lemma EmptyingDrift(b: Books, adj: Adjustment, acc: nat, key: Key)
    requires Sound(b, acc, key) && adj.key == key && adj.offset != acc && AdjustmentPosting(b, adj).Ok?
    requires adj.quantity < 0 && adj.quantity == -OnHand(b.inventory.stock, key).quantity
    ensures var t, s := AdjustmentPosting(b, adj).value, OnHand(b.inventory.stock, key);
            var charged := Times(s.quantity, if adj.unitCost != 0 then adj.unitCost else s.average);
            && OnHand(t.inventory.stock, key) == NO_STOCK
            && Gap(t, acc, key) == Gap(b, acc, key) + s.value - charged
            && (Tied(t, acc, key)
                <==> SCALE * Abs(Gap(b, acc, key) + s.value - charged) <= Slack(b.inventory, key) + s.quantity + SCALE)
  {
    var closed, item := DateError(b.ledger.periods, adj.date), b.inventory.items[key.item];
    AdjustmentLedgerSide(b, adj, acc, key.item);
    EmptyingSide(b.inventory, closed, AdjustmentRequest(adj, AdjustmentCost(b.inventory, item, adj).value));
  }

  /** The check constraint on invoice lines. */
  predicate StorableInvoice(op: BooksOp) {
    op.InvoiceOp? ==> forall l :: l in op.invoice.lines ==> l.quantity > 0
  }

  lemma StepKeepsOthersBooked(b: Books, cfg: Settings, op: BooksOp, acc: nat, key: Key, i: nat)
    requires Sound(b, acc, key) && BooksStep(b, cfg, op).Ok?
    requires i < |BooksStep(b, cfg, op).value.bills| && !(op.BillOp? && op.bill == i)
    ensures BillBooked(BooksStep(b, cfg, op).value, acc, key, i)
  {
    var t := BooksStep(b, cfg, op).value;
    if t.bills[i].postedJournal.Some? && t.bills[i].voidedJournal.None? {
      assert BillBooked(b, acc, key, i);
      var j := b.bills[i].postedJournal.value;
      NextKeepsEntry(b, cfg, op, j);
      StepAppends(b, cfg, op);
      BookedNearStays(b.inventory, t.inventory, op, FromBill(i), key, L.NetOn(b.ledger.journals[j].lines, acc));
    }
  }

  lemma StepKeepsSound(b: Books, cfg: Settings, op: BooksOp, acc: nat, key: Key)
    requires Sound(b, acc, key) && BooksStep(b, cfg, op).Ok?
    requires op.BillOp? ==> BillBooked(BooksStep(b, cfg, op).value, acc, key, op.bill)
    ensures Sound(BooksStep(b, cfg, op).value, acc, key)
  {
    var t := BooksStep(b, cfg, op).value;
    StepKeepsLedger(b, cfg, op);
    StepKeepsLog(b, cfg, op);
    StepKeepsBillsOk(b, cfg, op);
    StepAppends(b, cfg, op);
    forall i | 0 <= i < |t.bills|
      ensures BillBooked(t, acc, key, i)
    {
      if !(op.BillOp? && op.bill == i) {
        StepKeepsOthersBooked(b, cfg, op, acc, key, i);
      }
    }
  }

  /** What a clean request leaves when it is refused is what there was. */
  lemma CleanRefusalLeavesNothing(b: Books, cfg: Settings, op: BooksOp, acc: nat, key: Key)
    requires Sound(b, acc, key) && Clean(b, cfg, acc, key, op) && BooksStep(b, cfg, op).Err?
    ensures BooksNext(b, cfg, op) == b
  {
    if op.VoidBillOp? && Voidable(b, op.bill) {
      VoidNeedsCover(b, op.bill, op.listed);
    }
  }

  lemma StepSucceedsTied(b: Books, cfg: Settings, op: BooksOp, acc: nat, key: Key)
    requires Sound(b, acc, key) && Tied(b, acc, key) && Clean(b, cfg, acc, key, op) && StorableInvoice(op)
    requires BooksStep(b, cfg, op).Ok? && !op.BillOp?
    ensures Tied(BooksStep(b, cfg, op).value, acc, key)
  {
    match op
    case VoidBillOp(i, listed) =>
      if Voidable(b, i) {
        VoidKeepsTie(b, i, listed, acc, key);
      }
    case InvoiceOp(invoice) => InvoiceKeepsTie(b, cfg, invoice, acc, key);
    case AdjustOp(adj) => AdjustmentKeepsTie(b, cfg, adj, acc, key);
    case LedgerOp(o) => OpKeepsNet(b.ledger, o, acc);
    case _ =>
  }

  lemma StepKeepsTie(b: Books, cfg: Settings, op: BooksOp, acc: nat, key: Key)
    requires Sound(b, acc, key) && Tied(b, acc, key) && Clean(b, cfg, acc, key, op) && StorableInvoice(op)
    ensures Sound(BooksNext(b, cfg, op), acc, key) && Tied(BooksNext(b, cfg, op), acc, key)
  {
    if BooksStep(b, cfg, op).Err? {
      CleanRefusalLeavesNothing(b, cfg, op, acc, key);
    } else {
      if op.BillOp? {
        BillKeepsTie(b, cfg, op.bill, op.supplierActive, acc, key);
      } else {
        StepSucceedsTied(b, cfg, op, acc, key);
      }
      StepKeepsSound(b, cfg, op, acc, key);
    }
  }

  lemma {:induction false} RunKeepsTie(b: Books, cfg: Settings, ops: seq<BooksOp>, acc: nat, key: Key)
    requires Sound(b, acc, key) && Tied(b, acc, key)
    requires CleanRun(b, cfg, acc, key, ops) && forall op :: op in ops ==> StorableInvoice(op)
    ensures Sound(BooksRun(b, cfg, ops), acc, key) && Tied(BooksRun(b, cfg, ops), acc, key)
  {
    if |ops| > 0 {
      var init := ops[..|ops| - 1];
      assert forall op :: op in init ==> op in ops;
      RunKeepsTie(b, cfg, init, acc, key);
      StepKeepsTie(BooksRun(b, cfg, init), cfg, ops[|ops| - 1], acc, key);
    }
  }

  /**
   From empty books, over any clean run, the stock account's net balance in the ledger and the
   inventory value differ by at most the sum over the key's movements of Q / S + 1 units, Q being
   the larger quantity held around the movement, with reversals counted twice.
   */
  lemma StockAccountFollowsInventory(items: seq<Item>, locations: set<nat>, cfg: Settings, ops: seq<BooksOp>, acc: nat, key: Key)
    requires OwnAccount(items, acc, key.item)
    requires CleanRun(EmptyBooks(items, locations), cfg, acc, key, ops)
    requires forall op :: op in ops ==> StorableInvoice(op)
    ensures var b := BooksRun(EmptyBooks(items, locations), cfg, ops);
            SCALE * Abs(L.Net(b.ledger, acc) - OnHand(b.inventory.stock, key).value) <= SumBy(b.inventory.log, SlackAt(key))
  {
    NothingBookedIsOk(items, locations);
    RunKeepsTie(EmptyBooks(items, locations), cfg, ops, acc, key);
  }
}
