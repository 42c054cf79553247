/**
 What the stock requests mean, said from the balances and the log alone: what one movement makes of
 a balance, what a logged row holds, and which rows bills, invoices and adjustments append.
 */
module StockMeaning {
  import opened Wrappers
  import opened Sums
  import opened Rounding
  import opened StockModel
  import opened MovementLog

  // ---------- One movement ----------

  /** The quantity a request moves: issues take out whatever sign they were given. */
  predicate Signed(kind: MovementType, requested: int, quantity: int) {
    if kind == Sale || kind == AdjustmentOut || kind == TransferOut then quantity <= 0 && (quantity == requested || quantity == -requested)
    else quantity == requested
  }

  /** An issue that names no cost is valued at the average held. */
  predicate Priced(s: Stock, quantity: int, requestedCost: int, unitCost: int) {
    unitCost == if quantity < 0 && requestedCost == 0 then s.average else requestedCost
  }

  /** `total` is quantity times unit cost, rounded half up, and negative when stock goes out. */
  predicate Costed(quantity: int, unitCost: int, total: int) {
    if quantity < 0 then IsHalfUp(-quantity * unitCost, SCALE, -total) else IsHalfUp(quantity * unitCost, SCALE, total)
  }

  /** Stock that received: the average is value over quantity and the value is revalued at it. */
  predicate Reaveraged(s: Stock, quantity: int, total: int, after: Stock) {
    && after.quantity == s.quantity + quantity > 0
    && IsHalfUp((s.value + total) * SCALE, after.quantity, after.average)
    && IsHalfUp(after.average * after.quantity, SCALE, after.value)
  }

  /** Stock that issued and is not empty: the value moves by the total cost, and the average follows it. */
  predicate Drawn(s: Stock, quantity: int, total: int, after: Stock) {
    && after.quantity == s.quantity + quantity > 0
    && after.value == s.value + total
    && IsHalfUp(after.value * SCALE, after.quantity, after.average)
  }

  /**
   A movement is accepted exactly when the stock covers it, and then fixes everything: the signed
   quantity, the unit cost, the total cost, and the stock it leaves.
   */
  lemma MovementMeaning(s: Stock, kind: MovementType, requested: int, requestedCost: int, quantity: int)
    requires s.quantity >= 0 && requested != 0 && Signed(kind, requested, quantity)
    ensures Move(s, kind, requested, requestedCost).Ok? <==> s.quantity + quantity >= 0
    ensures Move(s, kind, requested, requestedCost).Ok? ==>
              var m := Move(s, kind, requested, requestedCost).value;
              && m.quantity == quantity && Priced(s, quantity, requestedCost, m.unitCost) && Costed(quantity, m.unitCost, m.totalCost)
              && if s.quantity + quantity == 0 then m.stock == Stock(0, 0, 0)
                 else if quantity > 0 then Reaveraged(s, quantity, m.totalCost, m.stock)
                 else Drawn(s, quantity, m.totalCost, m.stock)
  {
    if Move(s, kind, requested, requestedCost).Ok? {
      var m := Move(s, kind, requested, requestedCost).value;
      RoundMeetsHalfUp(Abs(quantity) * m.unitCost, SCALE);
      if m.stock.quantity > 0 {
        RoundMeetsHalfUp((s.value + m.totalCost) * SCALE, m.stock.quantity);
        RoundMeetsHalfUp(m.stock.average * m.stock.quantity, SCALE);
      }
    }
  }

  // ---------- One row ----------

  /** Nothing but its date, its place or the stock stops a movement. */
  lemma MovementIsRecorded(inv: Inventory, closed: Option<Error>, req: Request, quantity: int)
    requires OnHand(inv.stock, req.key).quantity >= 0 && Signed(req.kind, req.quantity, quantity)
    ensures Record(inv, closed, req).Ok?
            <==> && closed.None? && (req.key.location.Some? ==> req.key.location.value in inv.locations)
                 && (req.kind == Reversal ==> req.reversalOf.Some?)
                 && req.quantity != 0 && OnHand(inv.stock, req.key).quantity + quantity >= 0
    ensures Record(inv, closed, req).Ok? ==>
              var t := Record(inv, closed, req).value;
              && t.items == inv.items && t.locations == inv.locations
              && |t.log| == |inv.log| + 1 && t.log[..|inv.log|] == inv.log
              && var row := t.log[|inv.log|];
                 && row.key == req.key && row.kind == req.kind && row.source == req.source && row.reversalOf == req.reversalOf
                 && row.quantity == quantity && row.after == OnHand(t.stock, req.key)
                 && Priced(OnHand(inv.stock, req.key), quantity, req.unitCost, row.unitCost) && Costed(quantity, row.unitCost, row.totalCost)
                 && forall key :: key != req.key ==> OnHand(t.stock, key) == OnHand(inv.stock, key)
  {
    if req.quantity != 0 {
      MovementMeaning(OnHand(inv.stock, req.key), req.kind, req.quantity, req.unitCost, quantity);
    }
  }

  // ---------- The rows of a document ----------

  /** The line names an item that keeps stock. */
  predicate Keeps(items: seq<Item>, l: DocLine) {
    l.item.Some? && l.item.value < |items| && items[l.item.value].isTracked
  }

  /** The lines that move stock, in their order. */
  function Stocked(items: seq<Item>, lines: seq<DocLine>): seq<DocLine> {
    if |lines| == 0 then []
    else
      var l := lines[|lines| - 1];
      Stocked(items, lines[..|lines| - 1]) + (if Keeps(items, l) then [l] else [])
  }

  lemma {:induction false} StockedMeaning(items: seq<Item>, lines: seq<DocLine>)
    ensures forall l :: l in Stocked(items, lines) <==> l in lines && Keeps(items, l)
  {
    if |lines| > 0 {
      var n := |lines| - 1;
      StockedMeaning(items, lines[..n]);
      assert lines == lines[..n] + [lines[n]];
    }
  }

  /** A line's item, if it names one, exists and is in use. */
  predicate Offered(items: seq<Item>, l: DocLine) {
    l.item.Some? ==> l.item.value < |items| && items[l.item.value].isActive
  }

  predicate KnownPlace(inv: Inventory, l: DocLine) {
    l.location.Some? ==> l.location.value in inv.locations
  }

  function Price(l: DocLine): int {
    if l.taxable != 0 then l.taxable else l.subtotal
  }

  /** The row received for a bill line: its quantity at price over quantity, rounded half up. */
  predicate ReceiptOf(bill: nat, l: DocLine, row: Movement) {
    && l.item.Some? && row.key == Key(l.item.value, l.location) && row.kind == Purchase && row.source == FromBill(bill) && row.reversalOf.None?
    && row.quantity == l.quantity > 0
    && IsHalfUp(Price(l) * SCALE, l.quantity, row.unitCost) && Costed(row.quantity, row.unitCost, row.totalCost)
  }

  /** A bill line is received exactly when its item is in use and, if that keeps stock, the date, the place, the quantity and the price allow it. */
  lemma LineIsReceived(inv: Inventory, closed: Option<Error>, bill: nat, l: DocLine)
    requires LogOk(inv)
    ensures BillLine(inv, closed, bill, l).Ok?
            <==> && Offered(inv.items, l)
                 && (Keeps(inv.items, l) ==>
                       closed.None? && KnownPlace(inv, l) && l.quantity > 0 && 2 * Price(l) * SCALE > -l.quantity)
    ensures BillLine(inv, closed, bill, l).Ok? ==>
              var t := BillLine(inv, closed, bill, l).value;
              && t.items == inv.items && t.locations == inv.locations
              && if Keeps(inv.items, l) then
                   |t.log| == |inv.log| + 1 && t.log[..|inv.log|] == inv.log && ReceiptOf(bill, l, t.log[|inv.log|])
                 else t == inv
  {
    if Keeps(inv.items, l) && l.quantity > 0 {
      var key := Key(l.item.value, l.location);
      StockIsOk(inv, key);
      RoundMeetsHalfUp(Price(l) * SCALE, l.quantity);
      UnitCostSign(Price(l), l.quantity);
      MovementIsRecorded(inv, closed, Request(key, Purchase, FromBill(bill), l.quantity, Over(Price(l), l.quantity), None), l.quantity);
    }
  }

  lemma UnitCostSign(price: int, quantity: int)
    requires quantity > 0
    ensures Over(price, quantity) >= 0 <==> 2 * price * SCALE > -quantity
  {
    RoundMeetsHalfUp(price * SCALE, quantity);
    RoundSign(price * SCALE, quantity);
    RoundIsHalfUp(price * SCALE, quantity, 0);
  }

  /** A bill appends one receipt for each of its lines that keep stock, in order, and nothing else. */
  lemma {:induction false} BillRows(inv: Inventory, closed: Option<Error>, bill: nat, lines: seq<DocLine>)
    requires LogOk(inv) && BillMovements(inv, closed, bill, lines).Ok?
    ensures var t, stocked := BillMovements(inv, closed, bill, lines).value, Stocked(inv.items, lines);
            && t.items == inv.items && t.locations == inv.locations
            && |t.log| == |inv.log| + |stocked| && t.log[..|inv.log|] == inv.log
            && forall n :: 0 <= n < |stocked| ==> ReceiptOf(bill, stocked[n], t.log[|inv.log| + n])
  {
    if |lines| > 0 {
      var init, l := lines[..|lines| - 1], lines[|lines| - 1];
      BillRows(inv, closed, bill, init);
      BillMovementsKeepLog(inv, closed, bill, init);
      LineIsReceived(BillMovements(inv, closed, bill, init).value, closed, bill, l);
    }
  }

  /** Is the whole bill received: every line is by itself. */
  lemma {:induction false} BillIsReceived(inv: Inventory, closed: Option<Error>, bill: nat, lines: seq<DocLine>)
    requires LogOk(inv)
    ensures BillMovements(inv, closed, bill, lines).Ok?
            <==> && (forall l :: l in lines ==> Offered(inv.items, l))
                 && (forall l :: l in lines && Keeps(inv.items, l) ==>
                       closed.None? && KnownPlace(inv, l) && l.quantity > 0 && 2 * Price(l) * SCALE > -l.quantity)
  {
    if |lines| > 0 {
      var n := |lines| - 1;
      var init, l := lines[..n], lines[n];
      assert lines == init + [l];
      assert forall x :: x in lines <==> x in init || x == l;
      BillIsReceived(inv, closed, bill, init);
      if BillMovements(inv, closed, bill, init).Ok? {
        BillMovementsKeepLog(inv, closed, bill, init);
        LineIsReceived(BillMovements(inv, closed, bill, init).value, closed, bill, l);
      }
    }
  }

  /** The row issued for an invoice line, given the log before it: its quantity at the average its item and place were left with. */
  predicate IssueOf(invoice: nat, l: DocLine, before: seq<Movement>, row: Movement) {
    && l.item.Some? && row.key == Key(l.item.value, l.location) && row.kind == Sale && row.source == FromInvoice(invoice) && row.reversalOf.None?
    && row.quantity == -l.quantity < 0
    && row.unitCost == LastAfter(before, row.key).average && Costed(row.quantity, row.unitCost, row.totalCost)
  }

  /** An invoice line is issued exactly when its item is in use and, if that keeps stock, the date, the place and the stock allow it. */
  lemma LineIsIssued(issued: Issued, closed: Option<Error>, invoice: nat, l: DocLine)
    requires LogOk(issued.inventory) && l.quantity > 0
    ensures var inv := issued.inventory;
            InvoiceLine(issued, closed, invoice, l).Ok?
            <==> && Offered(inv.items, l)
                 && (Keeps(inv.items, l) ==>
                       var held := OnHand(inv.stock, Key(l.item.value, l.location));
                       closed.None? && KnownPlace(inv, l) && held.quantity >= l.quantity && held.average >= 0)
    ensures InvoiceLine(issued, closed, invoice, l).Ok? ==>
              var inv, next := issued.inventory, InvoiceLine(issued, closed, invoice, l).value;
              var t := next.inventory;
              && t.items == inv.items && t.locations == inv.locations
              && if Keeps(inv.items, l) then
                   && |t.log| == |inv.log| + 1 && t.log[..|inv.log|] == inv.log && IssueOf(invoice, l, inv.log, t.log[|inv.log|])
                   && next.hooks == issued.hooks + [Hook(l.item.value, Abs(t.log[|inv.log|].totalCost))]
                 else next == issued
  {
    var inv := issued.inventory;
    if Keeps(inv.items, l) {
      var key := Key(l.item.value, l.location);
      StockIsOk(inv, key);
      assert OnHand(inv.stock, key) == LastAfter(inv.log, key);
      MovementIsRecorded(inv, closed, Request(key, Sale, FromInvoice(invoice), l.quantity, OnHand(inv.stock, key).average, None), -l.quantity);
    }
  }

  /** Row k of the log is the line's issue, and the hook names its item and its cost. */
  predicate HandedOn(invoice: nat, l: DocLine, log: seq<Movement>, k: nat, hook: Hook)
    requires k < |log|
  {
    IssueOf(invoice, l, log[..k], log[k]) && hook.item == log[k].key.item && hook.cost == Abs(log[k].totalCost)
  }

  /** From position `start` on, the log holds the lines' issues and the hooks name them. */
  predicate AllHandedOn(invoice: nat, start: nat, log: seq<Movement>, stocked: seq<DocLine>, hooks: seq<Hook>) {
    && |log| == start + |stocked| && |hooks| == |stocked|
    && forall n :: 0 <= n < |stocked| ==> HandedOn(invoice, stocked[n], log, start + n, hooks[n])
  }

  lemma OneMoreHandedOn(invoice: nat, start: nat, log: seq<Movement>, stocked: seq<DocLine>, hooks: seq<Hook>, l: DocLine, row: Movement)
    requires AllHandedOn(invoice, start, log, stocked, hooks) && IssueOf(invoice, l, log, row)
    ensures AllHandedOn(invoice, start, log + [row], stocked + [l], hooks + [Hook(l.item.value, Abs(row.totalCost))])
  {
    var longer, all, more := log + [row], stocked + [l], hooks + [Hook(l.item.value, Abs(row.totalCost))];
    forall n | 0 <= n < |all|
      ensures HandedOn(invoice, all[n], longer, start + n, more[n])
    {
      if n < |stocked| {
        assert HandedOn(invoice, stocked[n], log, start + n, hooks[n]);
        assert longer[..start + n] == log[..start + n];
      } else {
        assert longer[..start + n] == log;
      }
    }
  }

  lemma InvoiceRowsStep(inv: Inventory, before: Issued, closed: Option<Error>, invoice: nat, stocked: seq<DocLine>, l: DocLine)
    requires LogOk(before.inventory) && l.quantity > 0 && InvoiceLine(before, closed, invoice, l).Ok?
    requires before.inventory.items == inv.items && before.inventory.locations == inv.locations
    requires |inv.log| <= |before.inventory.log| && before.inventory.log[..|inv.log|] == inv.log
    requires AllHandedOn(invoice, |inv.log|, before.inventory.log, stocked, before.hooks)
    ensures var after := InvoiceLine(before, closed, invoice, l).value;
            var t := after.inventory;
            && t.items == inv.items && t.locations == inv.locations && |inv.log| <= |t.log| && t.log[..|inv.log|] == inv.log
            && AllHandedOn(invoice, |inv.log|, t.log, stocked + (if Keeps(inv.items, l) then [l] else []), after.hooks)
  {
    var after := InvoiceLine(before, closed, invoice, l).value;
    LineIsIssued(before, closed, invoice, l);
    if Keeps(inv.items, l) {
      var log, longer := before.inventory.log, after.inventory.log;
      OneMoreHandedOn(invoice, |inv.log|, log, stocked, before.hooks, l, longer[|log|]);
      assert longer == log + [longer[|log|]];
    } else {
      assert stocked + [] == stocked;
    }
  }

  /**
   An invoice appends one issue for each of its lines that keep stock, in order, each at the average
   current at that line, and hands on for each its item and what it cost.
   */
  lemma {:induction false} InvoiceRows(inv: Inventory, closed: Option<Error>, invoice: nat, lines: seq<DocLine>)
    requires LogOk(inv) && InvoiceMovements(inv, closed, invoice, lines).Ok? && forall l :: l in lines ==> l.quantity > 0
    ensures var issued := InvoiceMovements(inv, closed, invoice, lines).value;
            var t := issued.inventory;
            && t.items == inv.items && t.locations == inv.locations && |inv.log| <= |t.log| && t.log[..|inv.log|] == inv.log
            && AllHandedOn(invoice, |inv.log|, t.log, Stocked(inv.items, lines), issued.hooks)
  {
    if |lines| > 0 {
      var init, l := lines[..|lines| - 1], lines[|lines| - 1];
      assert forall x :: x in init ==> x in lines;
      InvoiceRows(inv, closed, invoice, init);
      InvoiceMovementsKeepLog(inv, closed, invoice, init);
      InvoiceRowsStep(inv, InvoiceMovements(inv, closed, invoice, init).value, closed, invoice, Stocked(inv.items, init), l);
    }
  }

  // ---------- The rows of a reversal ----------

  /** Of the rows listed, those that are no reversals themselves. */
  function Originals(log: seq<Movement>, source: Source, listed: seq<nat>): (r: seq<nat>)
    ensures forall n :: 0 <= n < |r| ==> r[n] < |log|
  {
    if |listed| == 0 then []
    else
      var k := listed[|listed| - 1];
      Originals(log, source, listed[..|listed| - 1]) + (if k < |log| && log[k].source == source && log[k].reversalOf.None? then [k] else [])
  }

  /** The row that takes back row k: its quantity out again at its own unit cost, or at the average if it cost nothing. */
  predicate TakesBack(log: seq<Movement>, k: nat, before: seq<Movement>, row: Movement)
    requires k < |log|
  {
    && row.key == log[k].key && row.kind == Reversal && row.source == log[k].source && row.reversalOf == Some(k)
    && row.quantity == -log[k].quantity
    && row.unitCost == (if log[k].unitCost == 0 && row.quantity < 0 then LastAfter(before, row.key).average else log[k].unitCost)
    && Costed(row.quantity, row.unitCost, row.totalCost)
  }

  lemma ReversalIsRecorded(inv: Inventory, closed: Option<Error>, log: seq<Movement>, k: nat)
    requires LogOk(inv) && k < |log| && Record(inv, closed, ReversalOf(log, k)).Ok?
    ensures var t := Record(inv, closed, ReversalOf(log, k)).value;
            LogOk(t) && |t.log| == |inv.log| + 1 && t.log[..|inv.log|] == inv.log && TakesBack(log, k, inv.log, t.log[|inv.log|])
  {
    StockIsOk(inv, log[k].key);
    assert OnHand(inv.stock, log[k].key) == LastAfter(inv.log, log[k].key);
    MovementIsRecorded(inv, closed, ReversalOf(log, k), -log[k].quantity);
    RecordKeepsLog(inv, closed, ReversalOf(log, k));
  }

  /** From position `start` on, `t` holds the rows that take the originals back. */
  predicate AllTakenBack(log: seq<Movement>, originals: seq<nat>, start: nat, t: seq<Movement>) {
    && |t| == start + |originals| && (forall n :: 0 <= n < |originals| ==> originals[n] < |log|)
    && forall n :: 0 <= n < |originals| ==> TakenBackAt(log, originals[n], t, start + n)
  }

  predicate TakenBackAt(log: seq<Movement>, k: nat, t: seq<Movement>, at: nat)
    requires k < |log| && at < |t|
  {
    TakesBack(log, k, t[..at], t[at])
  }

  lemma OneMoreTakenBack(log: seq<Movement>, originals: seq<nat>, start: nat, t: seq<Movement>, k: nat, row: Movement)
    requires AllTakenBack(log, originals, start, t) && k < |log| && TakesBack(log, k, t, row)
    ensures AllTakenBack(log, originals + [k], start, t + [row])
  {
    var all, longer := originals + [k], t + [row];
    forall n | 0 <= n < |all|
      ensures all[n] < |log| && TakenBackAt(log, all[n], longer, start + n)
    {
      if n < |originals| {
        assert TakenBackAt(log, originals[n], t, start + n);
        assert longer[..start + n] == t[..start + n];
      } else {
        assert longer[..start + n] == t;
      }
    }
  }

  lemma ReversalRowsStep(inv: Inventory, before: Inventory, closed: Option<Error>, log: seq<Movement>, originals: seq<nat>, k: nat)
    requires LogOk(before) && k < |log| && Record(before, closed, ReversalOf(log, k)).Ok?
    requires |inv.log| <= |before.log| && before.log[..|inv.log|] == inv.log && AllTakenBack(log, originals, |inv.log|, before.log)
    ensures var t := Record(before, closed, ReversalOf(log, k)).value;
            && LogOk(t) && |inv.log| <= |t.log| && t.log[..|inv.log|] == inv.log
            && AllTakenBack(log, originals + [k], |inv.log|, t.log)
  {
    ReversalIsRecorded(before, closed, log, k);
    var t := Record(before, closed, ReversalOf(log, k)).value;
    OneMoreTakenBack(log, originals, |inv.log|, before.log, k, t.log[|before.log|]);
    assert t.log == before.log + [t.log[|before.log|]];
  }

  lemma {:induction false} ReversalRowsFrom(inv: Inventory, closed: Option<Error>, log: seq<Movement>, source: Source, listed: seq<nat>)
    requires LogOk(inv) && RecordAll(inv, closed, DocumentReversals(log, source, listed)).Ok?
    ensures var t := RecordAll(inv, closed, DocumentReversals(log, source, listed)).value;
            && LogOk(t) && |inv.log| <= |t.log| && t.log[..|inv.log|] == inv.log
            && AllTakenBack(log, Originals(log, source, listed), |inv.log|, t.log)
  {
    if |listed| > 0 {
      var init, k := listed[..|listed| - 1], listed[|listed| - 1];
      var earlier := DocumentReversals(log, source, init);
      if k < |log| && IsOriginal(log[k], source) {
        assert DocumentReversals(log, source, listed)[..|earlier|] == earlier;
        ReversalRowsFrom(inv, closed, log, source, init);
        ReversalRowsStep(inv, RecordAll(inv, closed, earlier).value, closed, log, Originals(log, source, init), k);
      } else {
        ReversalRowsFrom(inv, closed, log, source, init);
        assert Originals(log, source, listed) == Originals(log, source, init);
      }
    }
  }

  /** Reversing a document appends one row for each of its originals, in the order listed, each taking its own original back. */
  lemma ReversalRows(inv: Inventory, closed: Option<Error>, source: Source, listed: seq<nat>)
    requires LogOk(inv) && ReverseDocument(inv, closed, source, listed).Ok?
    ensures var t := ReverseDocument(inv, closed, source, listed).value;
            && |inv.log| <= |t.log| && t.log[..|inv.log|] == inv.log
            && AllTakenBack(inv.log, Originals(inv.log, source, listed), |inv.log|, t.log)
  {
    ReversalRowsFrom(inv, closed, inv.log, source, listed);
  }
}
