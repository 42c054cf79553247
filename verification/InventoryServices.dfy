/** The inventory service: movements recorded one after another on the session's balances and log. */
module InventoryServices {
  import opened Wrappers
  import opened Rounding
  import opened StockModel
  import opened MovementLog
  import opened BooksModel
  import opened Session
  import L = LedgerModel
  import LedgerServices

  /** _apply_balance_delta: the balance row is rewritten in place, or left alone when stock would go negative. */
  method ApplyBalanceDelta(db: Session, key: Key, quantityDelta: int, costDelta: int, explicitAverage: Option<int>) returns (r: Outcome)
    modifies db`stock
    ensures match ApplyDelta(OnHand(old(db.stock), key), quantityDelta, costDelta, explicitAverage)
            case Ok(s) => r.Done? && db.stock == old(db.stock)[key := s]
            case Err(e) => r == Refused(e) && db.stock == old(db.stock)
  {
    var balance := OnHand(db.stock, key);
    var quantity, value := balance.quantity + quantityDelta, balance.value + costDelta;
    if quantity < 0 {
      return Refused(NegativeInventory);
    }
    var average;
    if quantity == 0 {
      average, value := 0, 0;
    } else if explicitAverage.Some? {
      average := explicitAverage.value;
      value := Times(average, quantity);
    } else {
      average := Over(value, quantity);
    }
    db.stock := db.stock[key := Stock(quantity, value, average)];
    r := Done;
  }

  /** record_movement */
  method RecordMovement(db: Session, date: int, req: Request) returns (r: Result<nat>)
    modifies db`stock, db`movements
    ensures match Record(old(db.Inventory()), DateError(db.periods, date), req)
            case Ok(inv) => r == Ok(|old(db.movements)|) && db.Inventory() == inv
            case Err(e) => r == Err(e) && db.Inventory() == old(db.Inventory())
  {
    var closed := DateError(db.periods, date);
    if closed.Some? {
      return Err(closed.value);
    }
    if req.key.location.Some? && req.key.location.value !in db.locations {
      return Err(LocationNotFound);
    }
    if req.kind == Reversal && req.reversalOf.None? {
      return Err(ReversalNeedsOriginal);
    }
    var stock, balance := db.stock, OnHand(db.stock, req.key);
    var quantity, unitCost := req.quantity, req.unitCost;
    if IsOutbound(req.kind) && quantity > 0 {
      quantity := -quantity;
    }
    if quantity < 0 && unitCost == 0 {
      unitCost := balance.average;
    }
    var totalCost := Times(Abs(quantity), unitCost);
    if quantity < 0 {
      totalCost := -totalCost;
    }
    var newAverage := ReceiptAverage(balance, req.kind, quantity, totalCost);
    var applied := ApplyBalanceDelta(db, req.key, quantity, totalCost, newAverage);
    if applied.Refused? {
      return Err(applied.error);
    }
    if quantity == 0 {
      db.stock := stock;
      return Err(ConstraintViolation);
    }
    r := Ok(|db.movements|);
    db.movements := db.movements + [Movement(req.key, req.kind, req.source, quantity, unitCost, totalCost, db.stock[req.key], req.reversalOf)];
  }

  method ResolveLineItem(db: Session, l: DocLine) returns (r: Result<Option<nat>>)
    ensures r == ResolveItem(db.items, l)
    ensures r.Ok? && r.value.Some? ==> r.value == l.item && r.value.value < |db.items|
                                       && db.items[r.value.value].isTracked && db.items[r.value.value].isActive
  {
    if l.item.None? {
      return Ok(None);
    }
    if l.item.value >= |db.items| {
      return Err(ItemNotFound);
    }
    if !db.items[l.item.value].isActive {
      return Err(ItemInactive);
    }
    r := Ok(if db.items[l.item.value].isTracked then l.item else None);
  }

  lemma {:induction false} BillRefusalStays(inv: Inventory, closed: Option<Error>, bill: nat, lines: seq<DocLine>, k: nat)
    requires k <= |lines| && BillMovements(inv, closed, bill, lines[..k]).Err?
    ensures BillMovements(inv, closed, bill, lines) == BillMovements(inv, closed, bill, lines[..k])
  {
    if k < |lines| {
      assert lines[..|lines| - 1][..k] == lines[..k];
      BillRefusalStays(inv, closed, bill, lines[..|lines| - 1], k);
    } else {
      assert lines[..k] == lines;
    }
  }

  lemma {:induction false} InvoiceRefusalStays(inv: Inventory, closed: Option<Error>, invoice: nat, lines: seq<DocLine>, k: nat)
    requires k <= |lines| && InvoiceMovements(inv, closed, invoice, lines[..k]).Err?
    ensures InvoiceMovements(inv, closed, invoice, lines) == InvoiceMovements(inv, closed, invoice, lines[..k])
  {
    if k < |lines| {
      assert lines[..|lines| - 1][..k] == lines[..k];
      InvoiceRefusalStays(inv, closed, invoice, lines[..|lines| - 1], k);
    } else {
      assert lines[..k] == lines;
    }
  }

  lemma {:induction false} RecordRefusalStays(inv: Inventory, closed: Option<Error>, reqs: seq<Request>, k: nat)
    requires k <= |reqs| && RecordAll(inv, closed, reqs[..k]).Err?
    ensures RecordAll(inv, closed, reqs) == RecordAll(inv, closed, reqs[..k])
  {
    if k < |reqs| {
      assert reqs[..|reqs| - 1][..k] == reqs[..k];
      RecordRefusalStays(inv, closed, reqs[..|reqs| - 1], k);
    } else {
      assert reqs[..k] == reqs;
    }
  }

  method PostBillLine(db: Session, date: int, bill: nat, l: DocLine) returns (r: Outcome)
    modifies db`stock, db`movements
    ensures Agrees(old(db.Inventory()), BillLine(old(db.Inventory()), DateError(db.periods, date), bill, l), r, db.Inventory())
  {
    var item := ResolveLineItem(db, l);
    if item.Err? {
      return Refused(item.error);
    }
    if item.value.None? {
      return Done;
    }
    if l.quantity <= 0 {
      return Refused(NonPositiveQuantity);
    }
    var unitCost := Over(BaseAmount(l), l.quantity);
    if unitCost < 0 {
      return Refused(NegativeUnitCost);
    }
    var recorded := RecordMovement(db, date, Request(LineKey(l, item.value.value), Purchase, FromBill(bill), l.quantity, unitCost, None));
    r := if recorded.Ok? then Done else Refused(recorded.error);
  }

  method PostBillMovements(db: Session, date: int, bill: nat, lines: seq<DocLine>) returns (r: Outcome)
    modifies db`stock, db`movements
    ensures Agrees(old(db.Inventory()), BillMovements(old(db.Inventory()), DateError(db.periods, date), bill, lines), r, db.Inventory())
  {
    var stock, movements := db.stock, db.movements;
    ghost var inv, closed := db.Inventory(), DateError(db.periods, date);
    for k := 0 to |lines|
      invariant db.periods == old(db.periods)
      invariant BillMovements(inv, closed, bill, lines[..k]) == Ok(db.Inventory())
    {
      assert lines[..k + 1][..k] == lines[..k];
      var posted := PostBillLine(db, date, bill, lines[k]);
      if posted.Refused? {
        BillRefusalStays(inv, closed, bill, lines, k + 1);
        db.stock, db.movements := stock, movements;
        return posted;
      }
    }
    assert lines[..|lines|] == lines;
    r := Done;
  }

  /** One invoice line: the stock is issued at its current average, and its cost handed on. */
  method PostInvoiceLine(db: Session, date: int, invoice: nat, l: DocLine, hooks: seq<Hook>) returns (r: Result<seq<Hook>>)
    modifies db`stock, db`movements
    ensures match InvoiceLine(Issued(old(db.Inventory()), hooks), DateError(db.periods, date), invoice, l)
            case Ok(issued) => r == Ok(issued.hooks) && db.Inventory() == issued.inventory
            case Err(e) => r == Err(e) && db.Inventory() == old(db.Inventory())
    ensures r.Ok? && l.item.Some? && l.quantity > 0 && db.items[l.item.value].isTracked ==>
              && |db.movements| == |old(db.movements)| + 1
              && var row := db.movements[|old(db.movements)|];
                 && row.kind == Sale && row.quantity == -l.quantity && row.key == Key(l.item.value, l.location)
                 && row.unitCost == OnHand(old(db.stock), row.key).average
                 && r.value == hooks + [Hook(l.item.value, Abs(row.totalCost))]
  {
    var item := ResolveLineItem(db, l);
    if item.Err? {
      return Err(item.error);
    }
    if item.value.None? {
      return Ok(hooks);
    }
    var unitCost := OnHand(db.stock, LineKey(l, item.value.value)).average;
    if unitCost < 0 {
      return Err(NegativeUnitCost);
    }
    var recorded := RecordMovement(db, date, Request(LineKey(l, item.value.value), Sale, FromInvoice(invoice), l.quantity, unitCost, None));
    if recorded.Err? {
      return Err(recorded.error);
    }
    r := Ok(hooks + [Hook(item.value.value, Abs(db.movements[recorded.value].totalCost))]);
  }

  method PostInvoiceMovements(db: Session, date: int, invoice: nat, lines: seq<DocLine>) returns (r: Result<seq<Hook>>)
    modifies db`stock, db`movements
    ensures match InvoiceMovements(old(db.Inventory()), DateError(db.periods, date), invoice, lines)
            case Ok(issued) => r == Ok(issued.hooks) && db.Inventory() == issued.inventory
            case Err(e) => r == Err(e) && db.Inventory() == old(db.Inventory())
  {
    var stock, movements := db.stock, db.movements;
    ghost var inv, closed := db.Inventory(), DateError(db.periods, date);
    var hooks: seq<Hook> := [];
    for k := 0 to |lines|
      invariant db.periods == old(db.periods)
      invariant InvoiceMovements(inv, closed, invoice, lines[..k]) == Ok(Issued(db.Inventory(), hooks))
    {
      assert lines[..k + 1][..k] == lines[..k];
      var posted := PostInvoiceLine(db, date, invoice, lines[k], hooks);
      if posted.Err? {
        InvoiceRefusalStays(inv, closed, invoice, lines, k + 1);
        db.stock, db.movements := stock, movements;
        return posted;
      }
      hooks := posted.value;
    }
    assert lines[..|lines|] == lines;
    r := Ok(hooks);
  }

  /** The originals among a document's rows, in the order the query listed them, each as the request that takes it back. */
  method CollectReversals(movements: seq<Movement>, source: Source, listed: seq<nat>) returns (reversals: seq<Request>)
    ensures reversals == DocumentReversals(movements, source, listed)
  {
    reversals := [];
    for n := 0 to |listed|
      invariant reversals == DocumentReversals(movements, source, listed[..n])
    {
      assert listed[..n + 1][..n] == listed[..n];
      var k := listed[n];
      if k < |movements| && movements[k].source == source && movements[k].reversalOf.None? {
        reversals := reversals + [ReversalOf(movements, k)];
      }
    }
    assert listed[..|listed|] == listed;
  }

  /** reverse_document_movements: the originals are collected first and then reversed in turn. */
  method ReverseDocumentMovements(db: Session, date: int, source: Source, listed: seq<nat>) returns (r: Outcome)
    modifies db`stock, db`movements
    ensures Agrees(old(db.Inventory()), ReverseDocument(old(db.Inventory()), DateError(db.periods, date), source, listed), r, db.Inventory())
  {
    var stock, movements := db.stock, db.movements;
    ghost var inv, closed := db.Inventory(), DateError(db.periods, date);
    var reversals := CollectReversals(movements, source, listed);
    for k := 0 to |reversals|
      invariant db.periods == old(db.periods)
      invariant RecordAll(inv, closed, reversals[..k]) == Ok(db.Inventory())
    {
      assert reversals[..k + 1][..k] == reversals[..k];
      var recorded := RecordMovement(db, date, reversals[k]);
      if recorded.Err? {
        RecordRefusalStays(inv, closed, reversals, k + 1);
        db.stock, db.movements := stock, movements;
        return Refused(recorded.error);
      }
    }
    assert reversals[..|reversals|] == reversals;
    r := Done;
  }

  /** The unit cost of an adjustment: as requested, or the purchase price for an increase, or the current average for a decrease. */
  method ChooseUnitCost(db: Session, item: Item, adj: Adjustment) returns (r: Result<int>)
    ensures r == AdjustmentCost(db.Inventory(), item, adj)
    ensures r.Ok? ==> r.value >= 0 && (adj.quantity > 0 ==> r.value > 0) && (adj.unitCost != 0 ==> r.value == adj.unitCost)
  {
    var unitCost := adj.unitCost;
    if adj.quantity > 0 {
      if unitCost == 0 {
        unitCost := item.purchasePrice;
      }
      if unitCost <= 0 {
        return Err(UnitCostRequired);
      }
    } else {
      if unitCost == 0 {
        unitCost := OnHand(db.stock, adj.key).average;
      }
      if unitCost < 0 {
        return Err(NegativeUnitCost);
      }
    }
    r := Ok(unitCost);
  }

  /** create_adjustment: a movement and its balancing journal, or neither. */
  method CreateAdjustment(db: Session, adj: Adjustment) returns (r: Outcome)
    modifies db`stock, db`movements, db`journals, db`balances, db`periodBalances
    ensures Agrees(old(db.Books()), AdjustmentPosting(old(db.Books()), adj), r, db.Books())
  {
    if adj.key.item >= |db.items| {
      return Refused(ItemNotFound);
    }
    var item := db.items[adj.key.item];
    if !item.isTracked {
      return Refused(NotTracked);
    }
    if item.asset.None? {
      return Refused(MissingAccount);
    }
    if adj.quantity == 0 {
      return Refused(ZeroQuantity);
    }
    if !L.Usable(db.accounts, adj.offset) {
      return Refused(InvalidAccount);
    }
    var unitCost := ChooseUnitCost(db, item, adj);
    if unitCost.Err? {
      return Refused(unitCost.error);
    }
    var stock, movements := db.stock, db.movements;
    var recorded := RecordMovement(db, adj.date, Request(adj.key, AdjustmentMovement(adj), FromAdjustment, adj.quantity, unitCost.value, None));
    if recorded.Err? {
      return Refused(recorded.error);
    }
    var cost := Abs(db.movements[recorded.value].totalCost);
    var lines;
    if adj.quantity > 0 {
      lines := [L.Line(item.asset.value, cost, 0), L.Line(adj.offset, 0, cost)];
    } else {
      lines := [L.Line(adj.offset, cost, 0), L.Line(item.asset.value, 0, cost)];
    }
    var posted := LedgerServices.CreateAndPostEntry(db, adj.date, lines);
    if posted.Err? {
      db.stock, db.movements := stock, movements;
      return Refused(posted.error);
    }
    r := Done;
  }
}
