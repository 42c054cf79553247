/**
 The life of bills in the books, and what voiding one takes back. Done right after posting it
 always succeeds, and restores every account's net balance and every key's quantity exactly, and
 every key's value up to the rounding of the bill's own receipts when none of them was free.
 */
module BillVoiding {
  import opened Wrappers
  import opened Sums
  import opened Rounding
  import opened StockModel
  import opened MovementLog
  import opened DocumentJournals
  import opened BooksModel
  import opened LedgerReports
  import L = LedgerModel
  import I = LedgerInvariant

  // ---------- What a bill records ----------

  predicate Unused(log: seq<Movement>, source: Source) {
    forall k :: 0 <= k < |log| ==> log[k].source != source
  }

  /** Everything a bill adds to the log is a receipt of its own that was not there before. */
  predicate BillRow(inv: Inventory, bill: nat, m: Movement) {
    && m.source == FromBill(bill) && m.reversalOf.None? && m.quantity > 0
    && (m.key.location.Some? ==> m.key.location.value in inv.locations)
  }

  lemma {:induction false} BillAppendsReceipts(inv: Inventory, closed: Option<Error>, bill: nat, lines: seq<DocLine>)
    requires BillMovements(inv, closed, bill, lines).Ok?
    ensures var t := BillMovements(inv, closed, bill, lines).value;
            && |t.log| >= |inv.log| && t.log[..|inv.log|] == inv.log
            && (forall i :: |inv.log| <= i < |t.log| ==> BillRow(inv, bill, t.log[i]))
            && t.locations == inv.locations
            && (|t.log| > |inv.log| ==> closed.None?)
  {
    if |lines| > 0 {
      BillAppendsReceipts(inv, closed, bill, lines[..|lines| - 1]);
    }
  }

  // ---------- Quantity and value the bill puts on a key ----------

  function CostAt(key: Key): Movement -> int {
    (m: Movement) => if m.key == key then m.totalCost else 0
  }

  /** The rounding a receipt may leave behind, times 2S. */
  function ReceiptSlack(key: Key): Movement -> int {
    (m: Movement) => if m.key == key then m.after.quantity + SCALE else 0
  }

  /** What the log gained between two inventories. */
  function Received(t: Inventory, from: Inventory, f: Movement -> int): int {
    SumBy(t.log, f) - SumBy(from.log, f)
  }

  predicate ValueIsNear(inv: Inventory, t: Inventory, key: Key, booked: int) {
    2 * SCALE * Abs(OnHand(t.stock, key).value - OnHand(inv.stock, key).value - booked) <= Received(t, inv, ReceiptSlack(key))
  }

  lemma NearnessAddsUp(inv: Inventory, mid: Inventory, t: Inventory, key: Key)
    requires ValueIsNear(inv, mid, key, Received(mid, inv, CostAt(key)))
    requires ValueIsNear(mid, t, key, Received(t, mid, CostAt(key)))
    ensures ValueIsNear(inv, t, key, Received(t, inv, CostAt(key)))
  {
  }

  lemma BillLineValueIsNear(inv: Inventory, closed: Option<Error>, bill: nat, l: DocLine, key: Key)
    requires LogOk(inv) && BillLine(inv, closed, bill, l).Ok?
    ensures var t := BillLine(inv, closed, bill, l).value;
            ValueIsNear(inv, t, key, Received(t, inv, CostAt(key)))
  {
    var item, t := ResolveItem(inv.items, l).value, BillLine(inv, closed, bill, l).value;
    if item.Some? {
      SumSnoc(inv.log, t.log[|inv.log|], CostAt(key));
      SumSnoc(inv.log, t.log[|inv.log|], ReceiptSlack(key));
      if LineKey(l, item.value) == key {
        StockIsOk(inv, key);
        ReceiptIsNear(OnHand(inv.stock, key), Purchase, l.quantity, BillUnitCost(l));
      }
    }
  }

  lemma {:induction false} BillValueIsNear(inv: Inventory, closed: Option<Error>, bill: nat, lines: seq<DocLine>, key: Key)
    requires LogOk(inv) && BillMovements(inv, closed, bill, lines).Ok?
    ensures var t := BillMovements(inv, closed, bill, lines).value;
            ValueIsNear(inv, t, key, Received(t, inv, CostAt(key)))
  {
    if |lines| > 0 {
      var init, l := lines[..|lines| - 1], lines[|lines| - 1];
      BillValueIsNear(inv, closed, bill, init, key);
      BillMovementsKeepLog(inv, closed, bill, init);
      var before := BillMovements(inv, closed, bill, init).value;
      BillLineValueIsNear(before, closed, bill, l, key);
      NearnessAddsUp(inv, before, BillLine(before, closed, bill, l).value, key);
    }
  }

  // ---------- The reversals ----------

  /** A request that takes out stock at a stated cost. */
  predicate Withdrawal(locations: set<nat>, q: Request) {
    && q.kind == Reversal && q.reversalOf.Some? && q.quantity < 0
    && (q.key.location.Some? ==> q.key.location.value in locations)
  }

  /** Withdrawals whose sum the stock covers are all recorded. */
  lemma {:induction false} CoveredWithdrawalsSucceed(inv: Inventory, reqs: seq<Request>)
    requires forall q :: q in reqs ==> Withdrawal(inv.locations, q)
    requires forall key :: OnHand(inv.stock, key).quantity + SumBy(reqs, RequestedAt(key)) >= 0
    ensures RecordAll(inv, None, reqs).Ok? && RecordAll(inv, None, reqs).value.locations == inv.locations
  {
    if |reqs| > 0 {
      var init, q := reqs[..|reqs| - 1], reqs[|reqs| - 1];
      assert forall x :: x in init ==> x in reqs;
      assert q in reqs && Withdrawal(inv.locations, q);
      forall key
        ensures OnHand(inv.stock, key).quantity + SumBy(init, RequestedAt(key)) >= 0
      {
        assert OnHand(inv.stock, key).quantity + SumBy(reqs, RequestedAt(key)) >= 0;
        assert RequestedAt(key)(q) <= 0;
      }
      CoveredWithdrawalsSucceed(inv, init);
      var before := RecordAll(inv, None, init).value;
      RecordAllMovesQuantity(inv, None, init, q.key);
      assert OnHand(inv.stock, q.key).quantity + SumBy(reqs, RequestedAt(q.key)) >= 0;
      assert RequestedAt(q.key)(q) == q.quantity;
      assert Move(OnHand(before.stock, q.key), q.kind, q.quantity, q.unitCost).Ok?;
    }
  }

  function RequestCost(key: Key): Request -> int {
    (q: Request) => if q.key == key then TotalCost(q.quantity, q.unitCost) else 0
  }

  /** Withdrawals at stated costs that leave stock on hand move the value by exactly those costs. */
  lemma {:induction false} WithdrawalsAreExact(inv: Inventory, closed: Option<Error>, reqs: seq<Request>, key: Key)
    requires RecordAll(inv, closed, reqs).Ok?
    requires forall q :: q in reqs ==> q.kind == Reversal && q.quantity < 0 && q.unitCost != 0
    requires OnHand(RecordAll(inv, closed, reqs).value.stock, key).quantity > 0
    ensures OnHand(RecordAll(inv, closed, reqs).value.stock, key).value
            == OnHand(inv.stock, key).value + SumBy(reqs, RequestCost(key))
  {
    if |reqs| > 0 {
      var init, q := reqs[..|reqs| - 1], reqs[|reqs| - 1];
      assert forall x :: x in init ==> x in reqs;
      var before := RecordAll(inv, closed, init).value;
      if q.key == key {
        IssueIsExact(OnHand(before.stock, key), q.kind, q.quantity, q.unitCost);
      }
      WithdrawalsAreExact(inv, closed, init, key);
    }
  }

  lemma ReversalIsOpposite(log: seq<Movement>, i: nat, key: Key)
    requires i < |log| && RowOk(log, i)
    ensures RequestedAt(key)(ReversalOf(log, i)) == -QuantityAt(key)(log[i])
    ensures RequestCost(key)(ReversalOf(log, i)) == -CostAt(key)(log[i])
  {
    OppositeCost(log[i].quantity, log[i].unitCost);
  }

  lemma OppositeCost(quantity: int, unitCost: int)
    requires quantity != 0
    ensures TotalCost(-quantity, unitCost) == -TotalCost(quantity, unitCost)
  {
    assert Abs(-quantity) == Abs(quantity);
  }

  // ---------- What the originals of a document amount to ----------

  function CostFrom(source: Source, key: Key): Movement -> int {
    (m: Movement) => if m.key == key && IsOriginal(m, source) then m.totalCost else 0
  }

  lemma ReversalsCostOpposite(log: seq<Movement>, source: Source, listed: seq<nat>, key: Key)
    requires Lists(log, source, listed) && forall i :: 0 <= i < |log| ==> RowOk(log, i)
    ensures SumBy(DocumentReversals(log, source, listed), RequestCost(key)) == -SumBy(log, CostFrom(source, key))
  {
    forall k | 0 <= k < |log| && IsOriginal(log[k], source)
      ensures RequestCost(key)(ReversalOf(log, k)) == -CostFrom(source, key)(log[k])
    {
      ReversalIsOpposite(log, k, key);
    }
    ReversalsMirror(log, source, listed, RequestCost(key), Opposite(CostFrom(source, key)));
    SumOpposite(log, CostFrom(source, key));
  }

  // ---------- Just posted ----------

  /** `t` is `inv` with a bill's receipts appended, each key's value near what they cost. */
  ghost predicate BillExtends(inv: Inventory, t: Inventory, bill: nat) {
    && LogOk(inv) && LogOk(t) && t.locations == inv.locations && Unused(inv.log, FromBill(bill))
    && |inv.log| <= |t.log| && t.log[..|inv.log|] == inv.log
    && (forall i :: |inv.log| <= i < |t.log| ==> BillRow(inv, bill, t.log[i]))
  }

  lemma BillMovementsExtend(inv: Inventory, closed: Option<Error>, bill: nat, lines: seq<DocLine>)
    requires LogOk(inv) && BillMovements(inv, closed, bill, lines).Ok? && Unused(inv.log, FromBill(bill))
    ensures BillExtends(inv, BillMovements(inv, closed, bill, lines).value, bill)
  {
    BillMovementsKeepLog(inv, closed, bill, lines);
    BillAppendsReceipts(inv, closed, bill, lines);
  }

  /** The rows a posted bill added are all the originals there are of it. */
  lemma NewRowsAreOriginals(inv: Inventory, t: Inventory, bill: nat, f: Movement -> int, g: Movement -> int)
    requires BillExtends(inv, t, bill)
    requires forall m: Movement :: g(m) == if IsOriginal(m, FromBill(bill)) then f(m) else 0
    ensures SumBy(t.log, g) == Received(t, inv, f)
  {
    var added := t.log[|inv.log|..];
    assert t.log == inv.log + added;
    SumConcat(inv.log, added, f);
    SumConcat(inv.log, added, g);
    SumZero(inv.log, g);
    forall m | m in added
      ensures IsOriginal(m, FromBill(bill))
    {
      var k :| 0 <= k < |added| && added[k] == m;
      assert BillRow(inv, bill, t.log[|inv.log| + k]);
    }
    SumEqual(added, g, f);
  }

  /** The requests that voiding a just-posted bill records. */
  function VoidRequests(t: Inventory, bill: nat, listed: seq<nat>): seq<Request> {
    DocumentReversals(t.log, FromBill(bill), listed)
  }

  /** The document's rows all come after those there were before it. */
  lemma NewRowIsLater(inv: Inventory, t: Inventory, bill: nat, k: nat)
    requires BillExtends(inv, t, bill) && k < |t.log| && t.log[k].source == FromBill(bill)
    ensures k >= |inv.log|
  {
    assert forall n :: 0 <= n < |inv.log| ==> t.log[..|inv.log|][n] == t.log[n];
  }

  lemma VoidRequestsShape(inv: Inventory, t: Inventory, bill: nat, listed: seq<nat>)
    requires BillExtends(inv, t, bill)
    ensures forall q :: q in VoidRequests(t, bill, listed) ==> Withdrawal(t.locations, q) && Undoes(t.log, FromBill(bill), q)
  {
    ReversalsUndo(t.log, FromBill(bill), listed);
    forall q | q in VoidRequests(t, bill, listed)
      ensures Withdrawal(t.locations, q)
    {
      assert Undoes(t.log, FromBill(bill), q);
      NewRowIsLater(inv, t, bill, q.reversalOf.value);
      assert BillRow(inv, bill, t.log[q.reversalOf.value]);
    }
  }

  lemma VoidRequestsSums(inv: Inventory, t: Inventory, bill: nat, listed: seq<nat>, key: Key)
    requires BillExtends(inv, t, bill) && Lists(t.log, FromBill(bill), listed)
    ensures OnHand(t.stock, key).quantity + SumBy(VoidRequests(t, bill, listed), RequestedAt(key)) == OnHand(inv.stock, key).quantity
    ensures SumBy(VoidRequests(t, bill, listed), RequestCost(key)) == -Received(t, inv, CostAt(key))
  {
    ReversalsRequestOpposite(t.log, FromBill(bill), listed, key);
    ReversalsCostOpposite(t.log, FromBill(bill), listed, key);
    NewRowsAreOriginals(inv, t, bill, QuantityAt(key), OriginalAt(FromBill(bill), key));
    NewRowsAreOriginals(inv, t, bill, CostAt(key), CostFrom(FromBill(bill), key));
    assert OnHand(t.stock, key).quantity == SumBy(t.log, QuantityAt(key));
    assert OnHand(inv.stock, key).quantity == SumBy(inv.log, QuantityAt(key));
  }

  lemma VoidSucceeds(inv: Inventory, t: Inventory, bill: nat, listed: seq<nat>)
    requires BillExtends(inv, t, bill) && Lists(t.log, FromBill(bill), listed)
    ensures ReverseDocument(t, None, FromBill(bill), listed).Ok?
  {
    VoidRequestsShape(inv, t, bill, listed);
    forall key
      ensures OnHand(t.stock, key).quantity + SumBy(VoidRequests(t, bill, listed), RequestedAt(key)) >= 0
    {
      VoidRequestsSums(inv, t, bill, listed, key);
      StockIsOk(inv, key);
    }
    CoveredWithdrawalsSucceed(t, VoidRequests(t, bill, listed));
  }

  lemma VoidRestoresQuantity(inv: Inventory, t: Inventory, bill: nat, listed: seq<nat>, key: Key)
    requires BillExtends(inv, t, bill) && Lists(t.log, FromBill(bill), listed)
    ensures ReverseDocument(t, None, FromBill(bill), listed).Ok?
    ensures var u := ReverseDocument(t, None, FromBill(bill), listed).value;
            OnHand(u.stock, key).quantity == OnHand(inv.stock, key).quantity && LogOk(u)
  {
    VoidSucceeds(inv, t, bill, listed);
    VoidRequestsShape(inv, t, bill, listed);
    VoidRequestsSums(inv, t, bill, listed, key);
    RecordAllMovesQuantity(t, None, VoidRequests(t, bill, listed), key);
    RecordAllKeepsLog(t, None, VoidRequests(t, bill, listed));
  }

  /** No row from here on received stock for free. */
  predicate CostedRows(log: seq<Movement>, from: nat) {
    forall i :: from <= i < |log| ==> log[i].unitCost != 0
  }

  /** A tracked line's price does not round to nothing per unit. */
  predicate CostedLine(items: seq<Item>, l: DocLine) {
    l.item.Some? && l.item.value < |items| && items[l.item.value].isTracked ==> 2 * BaseAmount(l) * SCALE >= l.quantity
  }

  predicate CostedLines(items: seq<Item>, lines: seq<DocLine>) {
    forall l :: l in lines ==> CostedLine(items, l)
  }

  lemma CostedLineMeaning(inv: Inventory, closed: Option<Error>, bill: nat, l: DocLine)
    requires BillLine(inv, closed, bill, l).Ok? && BaseAmount(l) >= 0
    ensures var t := BillLine(inv, closed, bill, l).value;
            && t.items == inv.items
            && ((t.log == inv.log && CostedLine(inv.items, l))
                || (|t.log| == |inv.log| + 1 && t.log[..|inv.log|] == inv.log && (t.log[|inv.log|].unitCost != 0 <==> CostedLine(inv.items, l))))
  {
    if ResolveItem(inv.items, l).value.Some? {
      OverIsZero(BaseAmount(l), l.quantity);
    }
  }

  /** A bill receives nothing for free exactly when the price of each tracked line is at least half a unit for each unit of its quantity. */
  lemma {:induction false} CostedLinesMeaning(inv: Inventory, closed: Option<Error>, bill: nat, lines: seq<DocLine>)
    requires BillMovements(inv, closed, bill, lines).Ok? && forall l :: l in lines ==> BaseAmount(l) >= 0
    ensures var t := BillMovements(inv, closed, bill, lines).value;
            && t.items == inv.items && |t.log| >= |inv.log|
            && (CostedRows(t.log, |inv.log|) <==> CostedLines(inv.items, lines))
  {
    if |lines| > 0 {
      var init, l := lines[..|lines| - 1], lines[|lines| - 1];
      CostedLinesMeaning(inv, closed, bill, init);
      assert lines == init + [l];
      assert CostedLines(inv.items, lines) <==> CostedLines(inv.items, init) && CostedLine(inv.items, l) by {
        assert forall x :: x in lines <==> x in init || x == l;
      }
      var before := BillMovements(inv, closed, bill, init).value;
      CostedLineMeaning(before, closed, bill, l);
      CostedRowsSnoc(before.log, BillLine(before, closed, bill, l).value.log, |inv.log|);
    }
  }

  lemma CostedRowsSnoc(log: seq<Movement>, longer: seq<Movement>, from: nat)
    requires from <= |log| && (longer == log || (|longer| == |log| + 1 && longer[..|log|] == log))
    ensures CostedRows(longer, from) <==> CostedRows(log, from) && (longer == log || longer[|log|].unitCost != 0)
  {
    assert forall i :: 0 <= i < |log| ==> longer[i] == longer[..|log|][i] || longer == log;
  }

  lemma VoidRequestsAreCosted(inv: Inventory, t: Inventory, bill: nat, listed: seq<nat>)
    requires BillExtends(inv, t, bill) && CostedRows(t.log, |inv.log|)
    ensures forall q :: q in VoidRequests(t, bill, listed) ==> q.kind == Reversal && q.quantity < 0 && q.unitCost != 0
  {
    VoidRequestsShape(inv, t, bill, listed);
    forall q | q in VoidRequests(t, bill, listed)
      ensures q.unitCost != 0
    {
      assert Undoes(t.log, FromBill(bill), q);
      NewRowIsLater(inv, t, bill, q.reversalOf.value);
    }
  }

  /** Between `inv` and `u` the key's value moved no further than rounding the receipts up to `t` allows. */
  predicate KeyValueRestored(inv: Inventory, t: Inventory, u: Inventory, key: Key) {
    2 * SCALE * Abs(OnHand(u.stock, key).value - OnHand(inv.stock, key).value) <= Received(t, inv, ReceiptSlack(key))
  }

  lemma VoidTakesBackCost(inv: Inventory, t: Inventory, bill: nat, listed: seq<nat>, key: Key)
    requires BillExtends(inv, t, bill) && Lists(t.log, FromBill(bill), listed)
    requires CostedRows(t.log, |inv.log|) && OnHand(inv.stock, key).quantity > 0
    ensures ReverseDocument(t, None, FromBill(bill), listed).Ok?
    ensures OnHand(ReverseDocument(t, None, FromBill(bill), listed).value.stock, key).value
            == OnHand(t.stock, key).value - Received(t, inv, CostAt(key))
  {
    VoidRestoresQuantity(inv, t, bill, listed, key);
    VoidRequestsSums(inv, t, bill, listed, key);
    VoidRequestsAreCosted(inv, t, bill, listed);
    WithdrawalsAreExact(t, None, VoidRequests(t, bill, listed), key);
  }

  lemma VoidRestoresValue(inv: Inventory, t: Inventory, bill: nat, listed: seq<nat>, key: Key)
    requires BillExtends(inv, t, bill) && Lists(t.log, FromBill(bill), listed) && CostedRows(t.log, |inv.log|)
    requires ValueIsNear(inv, t, key, Received(t, inv, CostAt(key)))
    ensures ReverseDocument(t, None, FromBill(bill), listed).Ok?
    ensures KeyValueRestored(inv, t, ReverseDocument(t, None, FromBill(bill), listed).value, key)
  {
    StockIsOk(inv, key);
    if OnHand(inv.stock, key).quantity > 0 {
      VoidTakesBackCost(inv, t, bill, listed, key);
    } else {
      VoidRestoresQuantity(inv, t, bill, listed, key);
      StockIsOk(ReverseDocument(t, None, FromBill(bill), listed).value, key);
      BillSlackIsNonNegative(inv, t, bill, key);
    }
  }

  lemma BillSlackIsNonNegative(inv: Inventory, t: Inventory, bill: nat, key: Key)
    requires BillExtends(inv, t, bill)
    ensures Received(t, inv, ReceiptSlack(key)) >= 0
  {
    var added := t.log[|inv.log|..];
    assert t.log == inv.log + added;
    SumConcat(inv.log, added, ReceiptSlack(key));
    forall m | m in added
      ensures ReceiptSlack(key)(m) >= 0
    {
      var k :| 0 <= k < |added| && added[k] == m;
      assert RowOk(t.log, |inv.log| + k);
    }
    SumNonNegative(added, ReceiptSlack(key));
  }

  // ---------- The life of bills ----------

  /** Before it is posted a bill has no payments, no journals and no movements; payments are never negative. */
  predicate BillOk(b: Books, i: nat)
    requires i < |b.bills|
  {
    var bill := b.bills[i];
    && bill.amountPaid >= 0
    && (bill.status == BillDraft || bill.status == BillApproved ==> bill.amountPaid == 0 && bill.postedJournal.None?)
    && (bill.postedJournal.None? ==> bill.voidedJournal.None? && Unused(b.inventory.log, FromBill(i)))
  }

  /** Bills only ever received. */
  predicate BillRowsAreReceipts(log: seq<Movement>) {
    forall k :: 0 <= k < |log| ==> log[k].source.FromBill? && log[k].reversalOf.None? ==> log[k].quantity > 0
  }

  /** Every movement happened somewhere that exists. */
  predicate Placed(locations: set<nat>, m: Movement) {
    m.key.location.Some? ==> m.key.location.value in locations
  }

  predicate RowsPlaced(inv: Inventory) {
    forall k :: 0 <= k < |inv.log| ==> Placed(inv.locations, inv.log[k])
  }

  ghost predicate BillsOk(b: Books) {
    && BillRowsAreReceipts(b.inventory.log) && RowsPlaced(b.inventory)
    && (forall i :: 0 <= i < |b.bills| ==> BillOk(b, i))
    && (forall i: nat :: i >= |b.bills| ==> Unused(b.inventory.log, FromBill(i)))
  }

  ghost predicate BooksOk(b: Books) {
    I.Inv(b.ledger) && LogOk(b.inventory) && BillsOk(b)
  }

  /** What an operation's rows in the log look like. */
  predicate RowOf(op: BooksOp, m: Movement) {
    match op
    case BillOp(i, _) => m.source == FromBill(i) && m.reversalOf.None? && m.quantity > 0
    case VoidBillOp(i, _) => m.source == FromBill(i) && m.reversalOf.Some?
    case InvoiceOp(_) => m.source.FromInvoice?
    case AdjustOp(_) => m.source == FromAdjustment
    case _ => false
  }

  /** The log grows by the operation's own rows; items and locations stay as they are. */
  predicate Appends(before: Inventory, after: Inventory, op: BooksOp) {
    && |after.log| >= |before.log| && after.log[..|before.log|] == before.log
    && after.items == before.items && after.locations == before.locations
    && (forall k :: |before.log| <= k < |after.log| ==> RowOf(op, after.log[k]) && Placed(before.locations, after.log[k]))
  }

  lemma {:induction false} InvoiceAppends(inv: Inventory, closed: Option<Error>, invoice: Document, lines: seq<DocLine>)
    requires InvoiceMovements(inv, closed, invoice.id, lines).Ok?
    ensures Appends(inv, InvoiceMovements(inv, closed, invoice.id, lines).value.inventory, InvoiceOp(invoice))
  {
    if |lines| > 0 {
      InvoiceAppends(inv, closed, invoice, lines[..|lines| - 1]);
    }
  }

  lemma {:induction false} ReversalsAppend(inv: Inventory, closed: Option<Error>, reqs: seq<Request>, i: nat, listed: seq<nat>)
    requires RecordAll(inv, closed, reqs).Ok? && forall q :: q in reqs ==> q.source == FromBill(i) && q.reversalOf.Some?
    ensures Appends(inv, RecordAll(inv, closed, reqs).value, VoidBillOp(i, listed))
  {
    if |reqs| > 0 {
      var init := reqs[..|reqs| - 1];
      assert forall q :: q in init ==> q in reqs;
      ReversalsAppend(inv, closed, init, i, listed);
    }
  }

  lemma BillAppends(inv: Inventory, closed: Option<Error>, i: nat, lines: seq<DocLine>, active: bool)
    requires LogOk(inv) && BillMovements(inv, closed, i, lines).Ok?
    ensures Appends(inv, BillMovements(inv, closed, i, lines).value, BillOp(i, active))
  {
    BillAppendsReceipts(inv, closed, i, lines);
    BillMovementsKeepLog(inv, closed, i, lines);
    var t := BillMovements(inv, closed, i, lines).value;
    forall k | |inv.log| <= k < |t.log|
      ensures RowOf(BillOp(i, active), t.log[k])
    {
      assert BillRow(inv, i, t.log[k]);
    }
  }

  lemma StepAppends(b: Books, cfg: Settings, op: BooksOp)
    requires LogOk(b.inventory) && BooksStep(b, cfg, op).Ok?
    ensures Appends(b.inventory, BooksStep(b, cfg, op).value.inventory, op)
  {
    var log := b.inventory.log;
    match op
    case BillOp(i, active) =>
      BillAppends(b.inventory, DateError(b.ledger.periods, b.bills[i].date), i, Lines(b.bills[i].lines), active);
    case VoidBillOp(i, listed) =>
      ReversalsUndo(log, FromBill(i), listed);
      assert forall q :: q in DocumentReversals(log, FromBill(i), listed) ==> Undoes(log, FromBill(i), q);
      if b.bills[i].postedJournal.Some? && b.bills[i].voidedJournal.None? {
        ReversalsAppend(b.inventory, DateError(b.ledger.periods, b.bills[i].date), DocumentReversals(log, FromBill(i), listed), i, listed);
      }
    case InvoiceOp(invoice) =>
      InvoiceAppends(b.inventory, DateError(b.ledger.periods, invoice.date), invoice, invoice.lines);
    case _ =>
  }

  lemma StepKeepsLog(b: Books, cfg: Settings, op: BooksOp)
    requires LogOk(b.inventory) && BooksStep(b, cfg, op).Ok?
    ensures LogOk(BooksStep(b, cfg, op).value.inventory)
  {
    match op
    case BillOp(i, _) => BillMovementsKeepLog(b.inventory, DateError(b.ledger.periods, b.bills[i].date), i, Lines(b.bills[i].lines));
    case VoidBillOp(i, listed) =>
      if b.bills[i].postedJournal.Some? && b.bills[i].voidedJournal.None? {
        RecordAllKeepsLog(b.inventory, DateError(b.ledger.periods, b.bills[i].date),
                          DocumentReversals(b.inventory.log, FromBill(i), listed));
      }
    case InvoiceOp(invoice) => InvoiceMovementsKeepLog(b.inventory, DateError(b.ledger.periods, invoice.date), invoice.id, invoice.lines);
    case AdjustOp(adj) =>
      var cost := AdjustmentCost(b.inventory, b.inventory.items[adj.key.item], adj).value;
      RecordKeepsLog(b.inventory, DateError(b.ledger.periods, adj.date), AdjustmentRequest(adj, cost));
    case _ =>
  }

  lemma BillPostsEntry(b: Books, cfg: Settings, i: nat, active: bool) returns (lines: seq<L.Line>)
    requires PostBill(b, cfg, i, active).Ok?
    ensures L.CreateAndPost(b.ledger, b.bills[i].date, lines) == Ok(PostBill(b, cfg, i, active).value.ledger)
  {
    var bill := BillDocument(b, i);
    lines := ChargeJournal(cfg.payable.value, TaxAccount(cfg.inputTax, SumBy(bill.lines, Tax())).value, bill.total, bill.lines);
  }

  lemma InvoicePostsEntry(b: Books, cfg: Settings, invoice: Document) returns (lines: seq<L.Line>)
    requires InvoicePosting(b, cfg, invoice).Ok?
    ensures L.CreateAndPost(b.ledger, invoice.date, lines) == Ok(InvoicePosting(b, cfg, invoice).value.ledger)
  {
    var taxAccount := TaxAccount(cfg.outputTax, SumBy(invoice.lines, Tax())).value;
    var issued := InvoiceMovements(b.inventory, DateError(b.ledger.periods, invoice.date), invoice.id, invoice.lines).value;
    lines := InvoiceJournal(cfg.receivable, taxAccount, invoice.total, invoice.lines, CostLines(issued.inventory.items, issued.hooks).value);
  }

  lemma AdjustmentPostsEntry(b: Books, adj: Adjustment) returns (lines: seq<L.Line>)
    requires AdjustmentPosting(b, adj).Ok?
    ensures L.CreateAndPost(b.ledger, adj.date, lines) == Ok(AdjustmentPosting(b, adj).value.ledger)
  {
    var inventory, item := AdjustmentPosting(b, adj).value.inventory, b.inventory.items[adj.key.item];
    lines := AdjustmentJournal(item.asset.value, adj.offset, adj.quantity, Abs(inventory.log[|inventory.log| - 1].totalCost));
  }

  lemma EntryIsLedgerStep(st: L.State, date: int, lines: seq<L.Line>) returns (o: L.Op)
    ensures L.Step(st, o) == L.CreateAndPost(st, date, lines)
  {
    o := L.CreateAndPostJournal(date, lines);
  }

  lemma VoidIsLedgerStep(b: Books, i: nat, listed: seq<nat>) returns (o: L.Op)
    requires VoidBill(b, i, listed).Ok?
    ensures var t := VoidBill(b, i, listed).value.ledger; t == b.ledger || L.Step(b.ledger, o) == Ok(t)
  {
    o := L.ReverseJournal(if b.bills[i].postedJournal.Some? then b.bills[i].postedJournal.value else 0, b.bills[i].date);
  }

  /** Every change of the ledger is one of the ledger's own operations. */
  lemma StepIsLedgerStep(b: Books, cfg: Settings, op: BooksOp) returns (o: L.Op)
    requires BooksStep(b, cfg, op).Ok?
    ensures var t := BooksStep(b, cfg, op).value.ledger; t == b.ledger || L.Step(b.ledger, o) == Ok(t)
  {
    match op
    case BillOp(i, active) =>
      var lines := BillPostsEntry(b, cfg, i, active);
      o := EntryIsLedgerStep(b.ledger, b.bills[i].date, lines);
    case InvoiceOp(invoice) =>
      var lines := InvoicePostsEntry(b, cfg, invoice);
      o := EntryIsLedgerStep(b.ledger, invoice.date, lines);
    case AdjustOp(adj) =>
      var lines := AdjustmentPostsEntry(b, adj);
      o := EntryIsLedgerStep(b.ledger, adj.date, lines);
    case VoidBillOp(i, listed) => o := VoidIsLedgerStep(b, i, listed);
    case LedgerOp(l) => o := l;
    case _ => o := L.DeleteJournal(0);
  }

  lemma StepKeepsLedger(b: Books, cfg: Settings, op: BooksOp)
    requires I.Inv(b.ledger) && BooksStep(b, cfg, op).Ok?
    ensures I.Inv(BooksStep(b, cfg, op).value.ledger)
  {
    var o := StepIsLedgerStep(b, cfg, op);
    I.StepKeepsInv(b.ledger, o);
  }

  /** A refused request changes the ledger by one journal's reversal, if at all. */
  lemma RemainsIsLedgerStep(b: Books, op: BooksOp) returns (o: L.Op)
    ensures var t := Remains(b, op); t == b || (t == b.(ledger := t.ledger) && L.Step(b.ledger, o) == Ok(t.ledger))
  {
    o := L.DeleteJournal(0);
    if Remains(b, op) != b {
      o := L.ReverseJournal(b.bills[op.bill].postedJournal.value, b.bills[op.bill].date);
    }
  }

  /** What a refused void leaves is consistent too: at most one journal more is reversed. */
  lemma RemainsOk(b: Books, op: BooksOp)
    requires BooksOk(b)
    ensures BooksOk(Remains(b, op)) && Remains(b, op).inventory == b.inventory && Remains(b, op).bills == b.bills
  {
    var t := Remains(b, op);
    var o := RemainsIsLedgerStep(b, op);
    if t != b {
      I.StepKeepsInv(b.ledger, o);
    }
    forall i | 0 <= i < |t.bills|
      ensures BillOk(t, i)
    {
      assert BillOk(b, i);
    }
  }

  lemma UnusedStays(before: Inventory, after: Inventory, op: BooksOp, source: Source)
    requires Appends(before, after, op) && Unused(before.log, source)
    requires forall m: Movement :: RowOf(op, m) ==> m.source != source
    ensures Unused(after.log, source)
  {
    forall k | 0 <= k < |after.log|
      ensures after.log[k].source != source
    {
      if k < |before.log| {
        assert after.log[k] == after.log[..|before.log|][k];
      }
    }
  }

  lemma StepKeepsBillsOk(b: Books, cfg: Settings, op: BooksOp)
    requires LogOk(b.inventory) && BillsOk(b) && BooksStep(b, cfg, op).Ok?
    ensures BillsOk(BooksStep(b, cfg, op).value)
  {
    var t := BooksStep(b, cfg, op).value;
    StepAppends(b, cfg, op);
    forall k | 0 <= k < |t.inventory.log|
      ensures Placed(t.inventory.locations, t.inventory.log[k])
      ensures t.inventory.log[k].source.FromBill? && t.inventory.log[k].reversalOf.None? ==> t.inventory.log[k].quantity > 0
    {
      if k < |b.inventory.log| {
        assert t.inventory.log[k] == t.inventory.log[..|b.inventory.log|][k];
      }
    }
    forall i: nat | i >= |t.bills| || t.bills[i].postedJournal.None?
      ensures Unused(t.inventory.log, FromBill(i))
    {
      assert i < |b.bills| ==> BillOk(b, i);
      if !(op.VoidBillOp? && op.bill == i) {
        UnusedStays(b.inventory, t.inventory, op, FromBill(i));
      }
    }
    forall i | 0 <= i < |t.bills|
      ensures BillOk(t, i)
    {
      assert i < |b.bills| ==> BillOk(b, i);
    }
  }

  lemma {:induction false} RunKeepsBooksOk(b: Books, cfg: Settings, ops: seq<BooksOp>)
    requires BooksOk(b)
    ensures BooksOk(BooksRun(b, cfg, ops))
  {
    if |ops| > 0 {
      var before, op := BooksRun(b, cfg, ops[..|ops| - 1]), ops[|ops| - 1];
      RunKeepsBooksOk(b, cfg, ops[..|ops| - 1]);
      if BooksStep(before, cfg, op).Ok? {
        StepKeepsLedger(before, cfg, op);
        StepKeepsLog(before, cfg, op);
        StepKeepsBillsOk(before, cfg, op);
      } else {
        RemainsOk(before, op);
      }
    }
  }

  lemma NothingBookedIsOk(items: seq<Item>, locations: set<nat>)
    ensures BooksOk(EmptyBooks(items, locations))
  {
    I.EmptyHasInv();
    NothingRecordedIsOk(items, locations);
  }

  // ---------- Post, then void ----------

  lemma PostedBillExtends(b: Books, cfg: Settings, bill: Document, key: Key)
    requires LogOk(b.inventory) && Unused(b.inventory.log, FromBill(bill.id)) && BillPosting(b, cfg, bill).Ok?
    ensures var t := BillPosting(b, cfg, bill).value.inventory;
            BillExtends(b.inventory, t, bill.id) && ValueIsNear(b.inventory, t, key, Received(t, b.inventory, CostAt(key)))
  {
    var closed := DateError(b.ledger.periods, bill.date);
    BillMovementsExtend(b.inventory, closed, bill.id, bill.lines);
    BillValueIsNear(b.inventory, closed, bill.id, bill.lines, key);
  }

  /** Voiding right after posting is reversing the journal and the document's movements. */
  lemma VoidReversesDocument(b: Books, cfg: Settings, i: nat, active: bool, listed: seq<nat>, acc: nat)
    requires BooksOk(b) && PostBill(b, cfg, i, active).Ok?
    requires Lists(PostBill(b, cfg, i, active).value.inventory.log, FromBill(i), listed)
    ensures var posted := PostBill(b, cfg, i, active).value;
            && VoidBill(posted, i, listed).Ok?
            && ReverseDocument(posted.inventory, None, FromBill(i), listed).Ok?
            && VoidBill(posted, i, listed).value.inventory == ReverseDocument(posted.inventory, None, FromBill(i), listed).value
            && L.Net(VoidBill(posted, i, listed).value.ledger, acc) == L.Net(b.ledger, acc)
  {
    var bill := BillDocument(b, i);
    assert BillOk(b, i);
    PostedBillExtends(b, cfg, bill, Key(0, None));
    PostedBillReverses(b, cfg, bill, acc);
    VoidSucceeds(b.inventory, BillPosting(b, cfg, bill).value.inventory, i, listed);
  }

  /**
   Posting a bill and voiding it at once: the void goes through, and leaves every account's net
   balance and every key's quantity as they were.
   */
  lemma PostThenVoid(b: Books, cfg: Settings, i: nat, active: bool, listed: seq<nat>, acc: nat, key: Key)
    requires BooksOk(b) && PostBill(b, cfg, i, active).Ok?
    requires Lists(PostBill(b, cfg, i, active).value.inventory.log, FromBill(i), listed)
    ensures var posted := PostBill(b, cfg, i, active).value;
            && VoidBill(posted, i, listed).Ok?
            && L.Net(VoidBill(posted, i, listed).value.ledger, acc) == L.Net(b.ledger, acc)
            && OnHand(VoidBill(posted, i, listed).value.inventory.stock, key).quantity == OnHand(b.inventory.stock, key).quantity
  {
    VoidReversesDocument(b, cfg, i, active, listed, acc);
    assert BillOk(b, i);
    PostedBillExtends(b, cfg, BillDocument(b, i), key);
    VoidRestoresQuantity(b.inventory, PostBill(b, cfg, i, active).value.inventory, i, listed, key);
  }

  /** The value of each key is restored too, up to the rounding of the bill's receipts, provided no tracked line's price rounds to nothing per unit. */
  lemma PostThenVoidValue(b: Books, cfg: Settings, i: nat, active: bool, listed: seq<nat>, key: Key)
    requires BooksOk(b) && PostBill(b, cfg, i, active).Ok?
    requires Lists(PostBill(b, cfg, i, active).value.inventory.log, FromBill(i), listed)
    requires CostedLines(b.inventory.items, Lines(b.bills[i].lines))
    ensures var posted := PostBill(b, cfg, i, active).value;
            && VoidBill(posted, i, listed).Ok?
            && KeyValueRestored(b.inventory, posted.inventory, VoidBill(posted, i, listed).value.inventory, key)
  {
    VoidReversesDocument(b, cfg, i, active, listed, 0);
    assert BillOk(b, i);
    PostedBillExtends(b, cfg, BillDocument(b, i), key);
    CostedLinesMeaning(b.inventory, DateError(b.ledger.periods, b.bills[i].date), i, Lines(b.bills[i].lines));
    VoidRestoresValue(b.inventory, PostBill(b, cfg, i, active).value.inventory, i, listed, key);
  }

  /** In every run from empty books, any bill that can be posted can be posted and voided, to no effect on any account or quantity. */
  lemma PostThenVoidInEveryRun(items: seq<Item>, locations: set<nat>, cfg: Settings, ops: seq<BooksOp>, i: nat, active: bool,
                               listed: seq<nat>, acc: nat, key: Key)
    requires var b := BooksRun(EmptyBooks(items, locations), cfg, ops);
             PostBill(b, cfg, i, active).Ok? && Lists(PostBill(b, cfg, i, active).value.inventory.log, FromBill(i), listed)
    ensures var b := BooksRun(EmptyBooks(items, locations), cfg, ops);
            var posted := PostBill(b, cfg, i, active).value;
            && VoidBill(posted, i, listed).Ok?
            && L.Net(VoidBill(posted, i, listed).value.ledger, acc) == L.Net(b.ledger, acc)
            && OnHand(VoidBill(posted, i, listed).value.inventory.stock, key).quantity == OnHand(b.inventory.stock, key).quantity
  {
    NothingBookedIsOk(items, locations);
    RunKeepsBooksOk(EmptyBooks(items, locations), cfg, ops);
    PostThenVoid(BooksRun(EmptyBooks(items, locations), cfg, ops), cfg, i, active, listed, acc, key);
  }

  // ---------- A void that comes too late ----------

  /** There is on hand, of every key, what the bill put there. */
  ghost predicate Covered(inv: Inventory, i: nat) {
    forall key: Key :: OnHand(inv.stock, key).quantity >= SumBy(inv.log, OriginalAt(FromBill(i), key))
  }

  /** The bill is posted, not voided, without payments, and its journal can be reversed on its date. */
  predicate Voidable(b: Books, i: nat) {
    && i < |b.bills| && b.bills[i].amountPaid <= 0 && b.bills[i].postedJournal.Some? && b.bills[i].voidedJournal.None?
    && L.Reverse(b.ledger, b.bills[i].postedJournal.value, b.bills[i].date).Ok?
  }

  lemma ReversalNeedsOpenDate(st: L.State, id: nat, date: int)
    requires L.Reverse(st, id, date).Ok?
    ensures DateError(st.periods, date).None?
  {
  }

  lemma ReversalsAreWithdrawals(b: Books, i: nat, listed: seq<nat>)
    requires BillsOk(b)
    ensures forall q :: q in DocumentReversals(b.inventory.log, FromBill(i), listed) ==> Withdrawal(b.inventory.locations, q)
  {
    var log := b.inventory.log;
    ReversalsUndo(log, FromBill(i), listed);
    forall q | q in DocumentReversals(log, FromBill(i), listed)
      ensures Withdrawal(b.inventory.locations, q)
    {
      assert Undoes(log, FromBill(i), q);
      assert Placed(b.inventory.locations, log[q.reversalOf.value]);
    }
  }

  /** A voidable bill's void goes through exactly when the stock covers what the bill received. */
  lemma VoidNeedsCover(b: Books, i: nat, listed: seq<nat>)
    requires BooksOk(b) && Voidable(b, i) && Lists(b.inventory.log, FromBill(i), listed)
    ensures VoidBill(b, i, listed).Ok? <==> Covered(b.inventory, i)
  {
    var inv, source := b.inventory, FromBill(i);
    ReversalNeedsOpenDate(b.ledger, b.bills[i].postedJournal.value, b.bills[i].date);
    if VoidBill(b, i, listed).Ok? {
      var t := ReverseDocument(inv, None, source, listed).value;
      RecordAllKeepsLog(inv, None, DocumentReversals(inv.log, source, listed));
      forall key: Key
        ensures OnHand(inv.stock, key).quantity >= SumBy(inv.log, OriginalAt(source, key))
      {
        ReverseDocumentRestoresQuantity(inv, None, source, listed, key);
        StockIsOk(t, key);
      }
    }
    if Covered(inv, i) {
      ReversalsAreWithdrawals(b, i, listed);
      forall key
        ensures OnHand(inv.stock, key).quantity + SumBy(DocumentReversals(inv.log, source, listed), RequestedAt(key)) >= 0
      {
        ReversalsRequestOpposite(inv.log, source, listed, key);
        assert OnHand(inv.stock, key).quantity >= SumBy(inv.log, OriginalAt(source, key));
      }
      CoveredWithdrawalsSucceed(inv, DocumentReversals(inv.log, source, listed));
    }
  }

  /** The bill is posted and not voided, and its journal has been reversed. */
  predicate Stuck(b: Books, i: nat) {
    && i < |b.bills| && b.bills[i].postedJournal.Some? && b.bills[i].voidedJournal.None?
    && var j := b.bills[i].postedJournal.value;
       j < |b.ledger.journals| && b.ledger.journals[j].effective && b.ledger.journals[j].reversal.Some?
  }

  lemma StuckCannotVoid(b: Books, i: nat, listed: seq<nat>)
    requires BooksOk(b) && Stuck(b, i)
    ensures VoidBill(b, i, listed).Err? && VoidRemains(b, i) == b
  {
    assert I.JournalOk(b.ledger, b.ledger.journals[b.bills[i].postedJournal.value]);
  }

  /** A journal that has taken effect is kept by whatever the books do next. */
  lemma NextKeepsEntry(b: Books, cfg: Settings, op: BooksOp, j: nat)
    requires I.Inv(b.ledger) && j < |b.ledger.journals| && b.ledger.journals[j].effective
    ensures var t := BooksNext(b, cfg, op).ledger;
            j < |t.journals| && SameEntry(b.ledger.journals[j], t.journals[j])
  {
    var o: L.Op;
    if BooksStep(b, cfg, op).Ok? {
      o := StepIsLedgerStep(b, cfg, op);
    } else {
      o := RemainsIsLedgerStep(b, op);
    }
    if BooksNext(b, cfg, op).ledger != b.ledger {
      StepKeepsEntry(b.ledger, o, j);
    }
  }

  /** No request but a void touches the journals a posted bill names. */
  lemma StepKeepsJournals(b: Books, cfg: Settings, op: BooksOp, i: nat)
    requires BooksOk(b) && i < |b.bills| && b.bills[i].postedJournal.Some? && BooksStep(b, cfg, op).Ok?
    requires !(op.VoidBillOp? && op.bill == i)
    ensures var t := BooksStep(b, cfg, op).value.bills;
            i < |t| && t[i].postedJournal == b.bills[i].postedJournal && t[i].voidedJournal == b.bills[i].voidedJournal
  {
    assert BillOk(b, i);
  }

  lemma StepKeepsStuck(b: Books, cfg: Settings, op: BooksOp, i: nat)
    requires BooksOk(b) && Stuck(b, i)
    ensures Stuck(BooksNext(b, cfg, op), i)
  {
    NextKeepsEntry(b, cfg, op, b.bills[i].postedJournal.value);
    if op.VoidBillOp? && op.bill == i {
      StuckCannotVoid(b, i, op.listed);
    } else if BooksStep(b, cfg, op).Ok? {
      StepKeepsJournals(b, cfg, op, i);
    }
  }

  /** After a void that came too late the bill is never voided: whatever happens next, every further try is refused. */
  lemma {:induction false} LateVoidIsForGood(b: Books, cfg: Settings, i: nat, ops: seq<BooksOp>, listed: seq<nat>)
    requires BooksOk(b) && Stuck(b, i)
    ensures Stuck(BooksRun(b, cfg, ops), i) && VoidBill(BooksRun(b, cfg, ops), i, listed).Err?
  {
    RunKeepsBooksOk(b, cfg, ops);
    if |ops| > 0 {
      var init := ops[..|ops| - 1];
      LateVoidIsForGood(b, cfg, i, init, listed);
      RunKeepsBooksOk(b, cfg, init);
      StepKeepsStuck(BooksRun(b, cfg, init), cfg, ops[|ops| - 1], i);
    }
    StuckCannotVoid(BooksRun(b, cfg, ops), i, listed);
  }

  /** A void the stock does not cover is refused, with the journal reversed and stock and bill as they were. */
  lemma LateVoid(b: Books, cfg: Settings, i: nat, listed: seq<nat>, acc: nat)
    requires BooksOk(b) && Voidable(b, i) && Lists(b.inventory.log, FromBill(i), listed) && !Covered(b.inventory, i)
    ensures BooksStep(b, cfg, VoidBillOp(i, listed)).Err?
    ensures var t, j := BooksNext(b, cfg, VoidBillOp(i, listed)), b.bills[i].postedJournal.value;
            && t.inventory == b.inventory && t.bills == b.bills && Stuck(t, i)
            && j < |b.ledger.journals| && L.Net(t.ledger, acc) == L.Net(b.ledger, acc) - L.NetOn(b.ledger.journals[j].lines, acc)
  {
    VoidNeedsCover(b, i, listed);
    var j, date := b.bills[i].postedJournal.value, b.bills[i].date;
    ReversalSkewsReport(b.ledger, j, date, acc);
    ReverseShape(b.ledger, j, date);
    assert I.JournalOk(b.ledger, b.ledger.journals[j]);
  }

  lemma PostedBillReverses(b: Books, cfg: Settings, bill: Document, acc: nat)
    requires I.Inv(b.ledger) && BillPosting(b, cfg, bill).Ok?
    ensures var posted, id := BillPosting(b, cfg, bill).value.ledger, |b.ledger.journals|;
            && DateError(posted.periods, bill.date).None?
            && L.Reverse(posted, id, bill.date).Ok?
            && L.Net(L.Reverse(posted, id, bill.date).value, acc) == L.Net(b.ledger, acc)
  {
    var taxAccount := TaxAccount(cfg.inputTax, SumBy(bill.lines, Tax())).value;
    var journal := ChargeJournal(cfg.payable.value, taxAccount, bill.total, bill.lines);
    EntryReverses(b.ledger, bill.date, journal, acc);
  }

  /** Any journal that could be created and posted can be reversed on the same date, to no net effect. */
  lemma EntryReverses(st: L.State, date: int, lines: seq<L.Line>, acc: nat)
    requires I.Inv(st) && L.CreateAndPost(st, date, lines).Ok?
    ensures var posted, id := L.CreateAndPost(st, date, lines).value, |st.journals|;
            && DateError(posted.periods, date).None?
            && L.Reverse(posted, id, date).Ok?
            && L.Net(L.Reverse(posted, id, date).value, acc) == L.Net(st, acc)
  {
    var posted, id := L.CreateAndPost(st, date, lines).value, |st.journals|;
    I.CreateAndPostKeepsInv(st, date, lines);
    CreateAndPostMovesNet(st, date, lines, acc);
    ReversalGoesThrough(posted, id, date);
    CreateAndPostMovesNet(posted, date, L.Swap(lines), acc);
    I.SwapExchangesSides(lines, acc);
  }
}
