/**
 The append-only movement log and the balances it drives, per item and location, and the
 movements that bills, invoices and document reversals record in it.
 */
module MovementLog {
  import opened Wrappers
  import opened Sums
  import opened Rounding
  import opened StockModel

  datatype Request = Request(
    key: Key, kind: MovementType, source: Source, quantity: int, unitCost: int, reversalOf: Option<nat>)

  function OnHand(stock: map<Key, Stock>, key: Key): Stock {
    if key in stock then stock[key] else NO_STOCK
  }

  /** Record one movement; `closed` is the refusal of the movement date's period, if any. */
  function Record(inv: Inventory, closed: Option<Error>, req: Request): Result<Inventory> {
    if closed.Some? then Err(closed.value)
    else if req.key.location.Some? && req.key.location.value !in inv.locations then Err(LocationNotFound)
    else if req.kind == Reversal && req.reversalOf.None? then Err(ReversalNeedsOriginal)
    else
      var m :- Move(OnHand(inv.stock, req.key), req.kind, req.quantity, req.unitCost);
      if m.quantity == 0 then Err(ConstraintViolation)
      else Ok(inv.(
                stock := inv.stock[req.key := m.stock],
                log := inv.log + [Movement(req.key, req.kind, req.source, m.quantity, m.unitCost, m.totalCost, m.stock, req.reversalOf)]))
  }

  function RecordAll(inv: Inventory, closed: Option<Error>, reqs: seq<Request>): Result<Inventory> {
    if |reqs| == 0 then Ok(inv)
    else
      var before :- RecordAll(inv, closed, reqs[..|reqs| - 1]);
      Record(before, closed, reqs[|reqs| - 1])
  }

  // ---------- The log accounts for the balances ----------

  function QuantityAt(key: Key): Movement -> int {
    (m: Movement) => if m.key == key then m.quantity else 0
  }

  /** The balance the last logged movement of a key left. */
  function LastAfter(log: seq<Movement>, key: Key): Stock {
    if |log| == 0 then NO_STOCK
    else if log[|log| - 1].key == key then log[|log| - 1].after
    else LastAfter(log[..|log| - 1], key)
  }

  predicate RowOk(log: seq<Movement>, i: nat)
    requires i < |log|
  {
    && RepOk(log[i].after)
    && log[i].quantity != 0
    && log[i].totalCost == TotalCost(log[i].quantity, log[i].unitCost)
    && log[i].after.quantity == SumBy(log[..i + 1], QuantityAt(log[i].key))
  }

  ghost predicate LogOk(inv: Inventory) {
    && (forall i :: 0 <= i < |inv.log| ==> RowOk(inv.log, i))
    && (forall key :: OnHand(inv.stock, key) == LastAfter(inv.log, key))
    && (forall key :: OnHand(inv.stock, key).quantity == SumBy(inv.log, QuantityAt(key)))
  }

  lemma NothingRecordedIsOk(items: seq<Item>, locations: set<nat>)
    ensures LogOk(Inventory(items, locations, map[], []))
  {
  }

  lemma {:induction false} LastAfterIsOk(log: seq<Movement>, key: Key)
    requires forall i :: 0 <= i < |log| ==> RepOk(log[i].after)
    ensures RepOk(LastAfter(log, key))
  {
    if |log| > 0 && log[|log| - 1].key != key {
      LastAfterIsOk(log[..|log| - 1], key);
    }
  }

  /** Every balance meets the weighted-average representation invariant. */
  lemma StockIsOk(inv: Inventory, key: Key)
    requires LogOk(inv)
    ensures RepOk(OnHand(inv.stock, key))
  {
    forall i | 0 <= i < |inv.log|
      ensures RepOk(inv.log[i].after)
    {
      assert RowOk(inv.log, i);
    }
    LastAfterIsOk(inv.log, key);
  }

  /** One movement, key by key: what is on hand is still the log's sum and its last row's balance. */
  lemma RecordKeepsKey(inv: Inventory, closed: Option<Error>, req: Request, key: Key)
    requires LogOk(inv) && Record(inv, closed, req).Ok?
    ensures var t := Record(inv, closed, req).value;
            OnHand(t.stock, key).quantity == SumBy(t.log, QuantityAt(key)) && OnHand(t.stock, key) == LastAfter(t.log, key)
  {
    var t := Record(inv, closed, req).value;
    SumSnoc(inv.log, t.log[|inv.log|], QuantityAt(key));
    assert t.log[..|inv.log|] == inv.log;
    assert OnHand(inv.stock, key) == LastAfter(inv.log, key);
    assert OnHand(inv.stock, key).quantity == SumBy(inv.log, QuantityAt(key));
  }

  /** The new row itself. */
  lemma RecordedRowIsOk(inv: Inventory, closed: Option<Error>, req: Request)
    requires LogOk(inv) && Record(inv, closed, req).Ok?
    ensures RowOk(Record(inv, closed, req).value.log, |inv.log|)
  {
    var t := Record(inv, closed, req).value;
    StockIsOk(inv, req.key);
    MoveKeepsRep(OnHand(inv.stock, req.key), req.kind, req.quantity, req.unitCost);
    RecordKeepsKey(inv, closed, req, req.key);
    assert t.log[..|inv.log| + 1] == t.log;
  }

  lemma RowStaysOk(log: seq<Movement>, longer: seq<Movement>, i: nat)
    requires i < |log| <= |longer| && longer[..|log|] == log && RowOk(log, i)
    ensures RowOk(longer, i)
  {
    assert longer[..i + 1] == longer[..|log|][..i + 1] == log[..i + 1];
    assert longer[i] == longer[..|log|][i];
  }

  /** Any movement of any type at any unit cost keeps the log and the balances in step. */
  lemma RecordKeepsLog(inv: Inventory, closed: Option<Error>, req: Request)
    requires LogOk(inv) && Record(inv, closed, req).Ok?
    ensures LogOk(Record(inv, closed, req).value)
  {
    var t := Record(inv, closed, req).value;
    assert t.log[..|inv.log|] == inv.log && |t.log| == |inv.log| + 1;
    forall key
      ensures OnHand(t.stock, key).quantity == SumBy(t.log, QuantityAt(key)) && OnHand(t.stock, key) == LastAfter(t.log, key)
    {
      RecordKeepsKey(inv, closed, req, key);
    }
    forall i | 0 <= i < |t.log|
      ensures RowOk(t.log, i)
    {
      if i < |inv.log| {
        RowStaysOk(inv.log, t.log, i);
      } else {
        RecordedRowIsOk(inv, closed, req);
      }
    }
  }

  lemma {:induction false} RecordAllKeepsLog(inv: Inventory, closed: Option<Error>, reqs: seq<Request>)
    requires LogOk(inv) && RecordAll(inv, closed, reqs).Ok?
    ensures LogOk(RecordAll(inv, closed, reqs).value)
  {
    if |reqs| > 0 {
      RecordAllKeepsLog(inv, closed, reqs[..|reqs| - 1]);
      RecordKeepsLog(RecordAll(inv, closed, reqs[..|reqs| - 1]).value, closed, reqs[|reqs| - 1]);
    }
  }

  /** At no point of the log has any key's logged quantity summed below zero. */
  lemma {:induction false} NoPrefixNegative(inv: Inventory, i: nat, key: Key)
    requires LogOk(inv) && i <= |inv.log|
    ensures SumBy(inv.log[..i], QuantityAt(key)) >= 0
  {
    if i > 0 {
      SumPrefix(inv.log, i - 1, QuantityAt(key));
      if inv.log[i - 1].key == key {
        assert RowOk(inv.log, i - 1);
      } else {
        NoPrefixNegative(inv, i - 1, key);
      }
    }
  }

  /** The whole of it, over any run of movements in any periods from an empty stock. */
  datatype Attempt = Attempt(closed: Option<Error>, request: Request)

  function RunMovements(inv: Inventory, attempts: seq<Attempt>): Inventory {
    if |attempts| == 0 then inv
    else
      var before := RunMovements(inv, attempts[..|attempts| - 1]);
      var last := attempts[|attempts| - 1];
      match Record(before, last.closed, last.request)
      case Ok(t) => t
      case Err(_) => before
  }

  lemma {:induction false} RunKeepsLog(inv: Inventory, attempts: seq<Attempt>)
    requires LogOk(inv)
    ensures LogOk(RunMovements(inv, attempts))
  {
    if |attempts| > 0 {
      RunKeepsLog(inv, attempts[..|attempts| - 1]);
      var before, last := RunMovements(inv, attempts[..|attempts| - 1]), attempts[|attempts| - 1];
      if Record(before, last.closed, last.request).Ok? {
        RecordKeepsLog(before, last.closed, last.request);
      }
    }
  }

  /** In every run: on-hand is the sum of the log, each row's balance is the prefix sum at its point, no prefix is negative, and every balance is a sound average. */
  lemma MovementConservation(items: seq<Item>, locations: set<nat>, attempts: seq<Attempt>, key: Key, i: nat)
    ensures var inv := RunMovements(Inventory(items, locations, map[], []), attempts);
            && OnHand(inv.stock, key).quantity == SumBy(inv.log, QuantityAt(key))
            && RepOk(OnHand(inv.stock, key))
            && (i <= |inv.log| ==> SumBy(inv.log[..i], QuantityAt(key)) >= 0)
            && (i < |inv.log| ==> inv.log[i].after.quantity == SumBy(inv.log[..i + 1], QuantityAt(inv.log[i].key)))
  {
    NothingRecordedIsOk(items, locations);
    RunKeepsLog(Inventory(items, locations, map[], []), attempts);
    var inv := RunMovements(Inventory(items, locations, map[], []), attempts);
    StockIsOk(inv, key);
    if i <= |inv.log| {
      NoPrefixNegative(inv, i, key);
    }
    if i < |inv.log| {
      assert RowOk(inv.log, i);
    }
  }

  ghost predicate AllFit(inv: Inventory) {
    forall key: Key :: AverageFits(OnHand(inv.stock, key))
  }

  lemma {:induction false} RunFits(inv: Inventory, attempts: seq<Attempt>)
    requires AllFit(inv)
    ensures AllFit(RunMovements(inv, attempts))
  {
    if |attempts| > 0 {
      RunFits(inv, attempts[..|attempts| - 1]);
      var before, last := RunMovements(inv, attempts[..|attempts| - 1]), attempts[|attempts| - 1];
      if Record(before, last.closed, last.request).Ok? {
        RecordFits(before, last.closed, last.request);
      }
    }
  }

  lemma RecordFits(inv: Inventory, closed: Option<Error>, req: Request)
    requires AllFit(inv) && Record(inv, closed, req).Ok?
    ensures AllFit(Record(inv, closed, req).value)
  {
    var t := Record(inv, closed, req).value;
    forall key: Key
      ensures AverageFits(OnHand(t.stock, key))
    {
      if key == req.key {
        MoveFits(OnHand(inv.stock, key), req.kind, req.quantity, req.unitCost);
      } else {
        assert AverageFits(OnHand(inv.stock, key));
      }
    }
  }

  /** In every run, selling all that is held of a key can be taken back: the quantity exactly, the value within (Q + S) / 2S units. */
  lemma SaleOfAllRestores(items: seq<Item>, locations: set<nat>, attempts: seq<Attempt>, key: Key)
    requires OnHand(RunMovements(Inventory(items, locations, map[], []), attempts).stock, key).quantity > 0
    ensures var s := OnHand(RunMovements(Inventory(items, locations, map[], []), attempts).stock, key);
            var sold := Move(s, Sale, s.quantity, s.average);
            && sold.Ok? && sold.value.stock == NO_STOCK && Reverse(sold.value).Ok?
            && Reverse(sold.value).value.stock.quantity == s.quantity && ValueRestored(s, sold.value, Reverse(sold.value).value)
  {
    var start := Inventory(items, locations, map[], []);
    NothingRecordedIsOk(items, locations);
    RunKeepsLog(start, attempts);
    RunFits(start, attempts);
    var inv := RunMovements(start, attempts);
    StockIsOk(inv, key);
    var s := OnHand(inv.stock, key);
    ReversalRestoresQuantity(s, Sale, s.quantity, s.average);
    EmptyingAtAverageRestores(s, Sale, s.quantity, s.average);
  }

  // ---------- Documents ----------

  /** A bill, invoice or credit note line. `taxable` and `subtotal` are both stored; a zero taxable amount falls back on the subtotal. */
  datatype DocLine = DocLine(
    item: Option<nat>, location: Option<nat>, quantity: int, account: nat,
    taxable: int, subtotal: int, tax: int, gross: int)

  function BaseAmount(l: DocLine): int {
    if l.taxable != 0 then l.taxable else l.subtotal
  }

  /** The item a line names must exist and be active. */
  function ItemError(items: seq<Item>, item: Option<nat>): Option<Error> {
    if item.None? then None
    else if item.value >= |items| then Some(ItemNotFound)
    else if !items[item.value].isActive then Some(ItemInactive)
    else None
  }

  /** The tracked item a line moves, if any. */
  function ResolveItem(items: seq<Item>, l: DocLine): Result<Option<nat>> {
    if ItemError(items, l.item).Some? then Err(ItemError(items, l.item).value)
    else Ok(if l.item.Some? && items[l.item.value].isTracked then l.item else None)
  }

  function LineKey(l: DocLine, item: nat): Key {
    Key(item, l.location)
  }

  function BillUnitCost(l: DocLine): int
    requires l.quantity > 0
  {
    Over(BaseAmount(l), l.quantity)
  }

  function BillLine(inv: Inventory, closed: Option<Error>, bill: nat, l: DocLine): Result<Inventory> {
    var item :- ResolveItem(inv.items, l);
    if item.None? then Ok(inv)
    else if l.quantity <= 0 then Err(NonPositiveQuantity)
    else if BillUnitCost(l) < 0 then Err(NegativeUnitCost)
    else Record(inv, closed, Request(LineKey(l, item.value), Purchase, FromBill(bill), l.quantity, BillUnitCost(l), None))
  }

  function BillMovements(inv: Inventory, closed: Option<Error>, bill: nat, lines: seq<DocLine>): Result<Inventory> {
    if |lines| == 0 then Ok(inv)
    else
      var before :- BillMovements(inv, closed, bill, lines[..|lines| - 1]);
      BillLine(before, closed, bill, lines[|lines| - 1])
  }

  /** A tracked invoice line's cost of goods, handed to the journal builder. */
  datatype Hook = Hook(item: nat, cost: int)

  datatype Issued = Issued(inventory: Inventory, hooks: seq<Hook>)

  function InvoiceLine(issued: Issued, closed: Option<Error>, invoice: nat, l: DocLine): Result<Issued> {
    var inv := issued.inventory;
    var item :- ResolveItem(inv.items, l);
    if item.None? then Ok(issued)
    else
      var unitCost := OnHand(inv.stock, LineKey(l, item.value)).average;
      if unitCost < 0 then Err(NegativeUnitCost)
      else
        var t :- Record(inv, closed, Request(LineKey(l, item.value), Sale, FromInvoice(invoice), l.quantity, unitCost, None));
        Ok(Issued(t, issued.hooks + [Hook(item.value, Abs(t.log[|t.log| - 1].totalCost))]))
  }

  function InvoiceMovements(inv: Inventory, closed: Option<Error>, invoice: nat, lines: seq<DocLine>): Result<Issued> {
    if |lines| == 0 then Ok(Issued(inv, []))
    else
      var before :- InvoiceMovements(inv, closed, invoice, lines[..|lines| - 1]);
      InvoiceLine(before, closed, invoice, lines[|lines| - 1])
  }

  lemma {:induction false} BillMovementsKeepLog(inv: Inventory, closed: Option<Error>, bill: nat, lines: seq<DocLine>)
    requires LogOk(inv) && BillMovements(inv, closed, bill, lines).Ok?
    ensures var t := BillMovements(inv, closed, bill, lines).value;
            LogOk(t) && t.items == inv.items && t.locations == inv.locations
  {
    if |lines| > 0 {
      var init, l := lines[..|lines| - 1], lines[|lines| - 1];
      BillMovementsKeepLog(inv, closed, bill, init);
      var before, item := BillMovements(inv, closed, bill, init).value, ResolveItem(inv.items, l).value;
      if item.Some? {
        RecordKeepsLog(before, closed, Request(LineKey(l, item.value), Purchase, FromBill(bill), l.quantity, BillUnitCost(l), None));
      }
    }
  }

  lemma {:induction false} InvoiceMovementsKeepLog(inv: Inventory, closed: Option<Error>, invoice: nat, lines: seq<DocLine>)
    requires LogOk(inv) && InvoiceMovements(inv, closed, invoice, lines).Ok?
    ensures var t := InvoiceMovements(inv, closed, invoice, lines).value.inventory;
            LogOk(t) && t.items == inv.items && t.locations == inv.locations
  {
    if |lines| > 0 {
      var init, l := lines[..|lines| - 1], lines[|lines| - 1];
      InvoiceMovementsKeepLog(inv, closed, invoice, init);
      var before, item := InvoiceMovements(inv, closed, invoice, init).value.inventory, ResolveItem(inv.items, l).value;
      if item.Some? {
        var unitCost := OnHand(before.stock, LineKey(l, item.value)).average;
        RecordKeepsLog(before, closed, Request(LineKey(l, item.value), Sale, FromInvoice(invoice), l.quantity, unitCost, None));
      }
    }
  }

  lemma {:induction false} InvoiceMovementsKeepItems(inv: Inventory, closed: Option<Error>, invoice: nat, lines: seq<DocLine>)
    requires InvoiceMovements(inv, closed, invoice, lines).Ok?
    ensures InvoiceMovements(inv, closed, invoice, lines).value.inventory.items == inv.items
  {
    if |lines| > 0 {
      InvoiceMovementsKeepItems(inv, closed, invoice, lines[..|lines| - 1]);
    }
  }

  /** The quantity of a line that names this key's item, if that is tracked, and its location. */
  function LineQuantity(items: seq<Item>, key: Key): DocLine -> int {
    (l: DocLine) => if ResolveItem(items, l) == Ok(Some(key.item)) && l.location == key.location then l.quantity else 0
  }

  /** A bill puts on each key exactly the quantities of its lines for that tracked item and location. */
  lemma {:induction false} BillReceivesItsLines(inv: Inventory, closed: Option<Error>, bill: nat, lines: seq<DocLine>, key: Key)
    requires BillMovements(inv, closed, bill, lines).Ok?
    ensures var t := BillMovements(inv, closed, bill, lines).value;
            t.items == inv.items && OnHand(t.stock, key).quantity == OnHand(inv.stock, key).quantity + SumBy(lines, LineQuantity(inv.items, key))
  {
    if |lines| > 0 {
      BillReceivesItsLines(inv, closed, bill, lines[..|lines| - 1], key);
    }
  }

  /** An invoice takes off each key exactly the quantities of its lines for that tracked item and location. */
  lemma {:induction false} InvoiceIssuesItsLines(inv: Inventory, closed: Option<Error>, invoice: nat, lines: seq<DocLine>, key: Key)
    requires InvoiceMovements(inv, closed, invoice, lines).Ok? && forall l :: l in lines ==> l.quantity > 0
    ensures var t := InvoiceMovements(inv, closed, invoice, lines).value.inventory;
            t.items == inv.items && OnHand(t.stock, key).quantity == OnHand(inv.stock, key).quantity - SumBy(lines, LineQuantity(inv.items, key))
  {
    if |lines| > 0 {
      var init, l := lines[..|lines| - 1], lines[|lines| - 1];
      assert forall x :: x in init ==> x in lines;
      InvoiceIssuesItsLines(inv, closed, invoice, init, key);
    }
  }

  // ---------- Reversing a document ----------

  /** The request that undoes logged movement i. */
  function ReversalOf(log: seq<Movement>, i: nat): Request
    requires i < |log|
  {
    Request(log[i].key, Reversal, log[i].source, -log[i].quantity, log[i].unitCost, Some(i))
  }

  predicate IsOriginal(m: Movement, source: Source) {
    m.source == source && m.reversalOf.None?
  }

  /** The positions of a document's rows, each once, in whatever order the query returned them. */
  ghost predicate Lists(log: seq<Movement>, source: Source, listed: seq<nat>) {
    EachOnce(listed) && (forall k: nat :: k in listed <==> k < |log| && log[k].source == source)
  }

  /** The reversals of a document's original movements, in the order its rows were listed. */
  function DocumentReversals(log: seq<Movement>, source: Source, listed: seq<nat>): seq<Request> {
    if |listed| == 0 then []
    else
      var earlier, k := DocumentReversals(log, source, listed[..|listed| - 1]), listed[|listed| - 1];
      if k < |log| && IsOriginal(log[k], source) then earlier + [ReversalOf(log, k)] else earlier
  }

  function ReverseDocument(inv: Inventory, closed: Option<Error>, source: Source, listed: seq<nat>): Result<Inventory> {
    RecordAll(inv, closed, DocumentReversals(inv.log, source, listed))
  }

  /** What a document's original movements contributed to one key. */
  function OriginalAt(source: Source, key: Key): Movement -> int {
    (m: Movement) => if m.key == key && IsOriginal(m, source) then m.quantity else 0
  }

  function RequestedAt(key: Key): Request -> int {
    (q: Request) => if q.key == key then q.quantity else 0
  }

  /** Every reversal undoes an original of the document, which it names. */
  predicate Undoes(log: seq<Movement>, source: Source, q: Request) {
    q.reversalOf.Some? && q.reversalOf.value < |log|
    && IsOriginal(log[q.reversalOf.value], source) && q == ReversalOf(log, q.reversalOf.value)
  }

  lemma {:induction false} ReversalsUndo(log: seq<Movement>, source: Source, listed: seq<nat>)
    ensures forall q :: q in DocumentReversals(log, source, listed) ==> Undoes(log, source, q)
  {
    if |listed| > 0 {
      ReversalsUndo(log, source, listed[..|listed| - 1]);
    }
  }

  function ReversalAt(log: seq<Movement>, source: Source, f: Request -> int): nat -> int {
    (k: nat) => if k < |log| && IsOriginal(log[k], source) then f(ReversalOf(log, k)) else 0
  }

  lemma {:induction false} ReversalsByPosition(log: seq<Movement>, source: Source, listed: seq<nat>, f: Request -> int)
    ensures SumBy(DocumentReversals(log, source, listed), f) == SumBy(listed, ReversalAt(log, source, f))
  {
    if |listed| > 0 {
      var init, k := listed[..|listed| - 1], listed[|listed| - 1];
      ReversalsByPosition(log, source, init, f);
      if k < |log| && IsOriginal(log[k], source) {
        SumSnoc(DocumentReversals(log, source, init), ReversalOf(log, k), f);
      }
    }
  }

  /** Whatever the order of listing, what is added up over the reversals is what is added up over the originals. */
  lemma ReversalsMirror(log: seq<Movement>, source: Source, listed: seq<nat>, f: Request -> int, g: Movement -> int)
    requires Lists(log, source, listed)
    requires forall k :: 0 <= k < |log| ==> if IsOriginal(log[k], source) then f(ReversalOf(log, k)) == g(log[k]) else g(log[k]) == 0
    ensures SumBy(DocumentReversals(log, source, listed), f) == SumBy(log, g)
  {
    ReversalsByPosition(log, source, listed, f);
    assert forall i :: 0 <= i < |listed| ==> listed[i] in listed;
    SumListed(log, listed, ReversalAt(log, source, f), g);
  }

  function Opposite<T>(f: T -> int): T -> int {
    (x: T) => -f(x)
  }

  lemma {:induction false} SumOpposite<T>(s: seq<T>, f: T -> int)
    ensures SumBy(s, Opposite(f)) == -SumBy(s, f)
  {
    if |s| > 0 {
      SumOpposite(s[..|s| - 1], f);
    }
  }

  lemma ReversalsRequestOpposite(log: seq<Movement>, source: Source, listed: seq<nat>, key: Key)
    requires Lists(log, source, listed)
    ensures SumBy(DocumentReversals(log, source, listed), RequestedAt(key)) == -SumBy(log, OriginalAt(source, key))
  {
    ReversalsMirror(log, source, listed, RequestedAt(key), Opposite(OriginalAt(source, key)));
    SumOpposite(log, OriginalAt(source, key));
  }

  lemma {:induction false} RecordAllMovesQuantity(inv: Inventory, closed: Option<Error>, reqs: seq<Request>, key: Key)
    requires RecordAll(inv, closed, reqs).Ok?
    requires forall q :: q in reqs ==> q.kind == Reversal
    ensures OnHand(RecordAll(inv, closed, reqs).value.stock, key).quantity
            == OnHand(inv.stock, key).quantity + SumBy(reqs, RequestedAt(key))
  {
    if |reqs| > 0 {
      var init := reqs[..|reqs| - 1];
      assert forall q :: q in init ==> q in reqs;
      RecordAllMovesQuantity(inv, closed, init, key);
    }
  }

  /** Reversing a document takes back, on every key and in any order, exactly the quantity its movements had put there. */
  lemma ReverseDocumentRestoresQuantity(inv: Inventory, closed: Option<Error>, source: Source, listed: seq<nat>, key: Key)
    requires Lists(inv.log, source, listed) && ReverseDocument(inv, closed, source, listed).Ok?
    ensures OnHand(ReverseDocument(inv, closed, source, listed).value.stock, key).quantity
            == OnHand(inv.stock, key).quantity - SumBy(inv.log, OriginalAt(source, key))
  {
    ReversalsRequestOpposite(inv.log, source, listed, key);
    ReversalsUndo(inv.log, source, listed);
    RecordAllMovesQuantity(inv, closed, DocumentReversals(inv.log, source, listed), key);
  }
}
