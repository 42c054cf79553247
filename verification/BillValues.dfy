/**
 What posting a bill and voiding it does to the value of a key, exactly: the key's receipts are
 taken in the order of the bill's lines and given back in whatever order the query lists them.
 */
module BillValues {
  import opened Wrappers
  import opened Sums
  import opened Rounding
  import opened StockModel
  import opened MovementLog
  import opened DocumentJournals
  import opened BooksModel
  import opened BillVoiding

  /** One receipt of a key, without its rounding. */
  datatype Receipt = Receipt(quantity: int, unitCost: int)

  function Receive(s: Stock, r: Receipt): Stock {
    match Move(s, Purchase, r.quantity, r.unitCost)
    case Ok(m) => m.stock
    case Err(_) => s
  }

  function ReceiveAll(s: Stock, rs: seq<Receipt>): Stock {
    if |rs| == 0 then s else Receive(ReceiveAll(s, rs[..|rs| - 1]), rs[|rs| - 1])
  }

  function Return(s: Stock, r: Receipt): Stock {
    match Move(s, Reversal, -r.quantity, r.unitCost)
    case Ok(m) => m.stock
    case Err(_) => s
  }

  function ReturnAll(s: Stock, rs: seq<Receipt>): Stock {
    if |rs| == 0 then s else Return(ReturnAll(s, rs[..|rs| - 1]), rs[|rs| - 1])
  }

  /** What a bill's lines receive on a key, in their order. */
  function LineReceipts(items: seq<Item>, lines: seq<DocLine>, key: Key): seq<Receipt> {
    if |lines| == 0 then []
    else
      var earlier, l := LineReceipts(items, lines[..|lines| - 1], key), lines[|lines| - 1];
      if ResolveItem(items, l) == Ok(Some(key.item)) && l.location == key.location && l.quantity > 0 then
        earlier + [Receipt(l.quantity, BillUnitCost(l))]
      else earlier
  }

  /** What a document's reversals give back on a key, in their order. */
  function Returned(reqs: seq<Request>, key: Key): seq<Receipt> {
    if |reqs| == 0 then []
    else
      var earlier, q := Returned(reqs[..|reqs| - 1], key), reqs[|reqs| - 1];
      if q.key == key then earlier + [Receipt(-q.quantity, q.unitCost)] else earlier
  }

  // ---------- The same receipts in another order ----------

  function Is(r: Receipt): Receipt -> int {
    (x: Receipt) => if x == r then 1 else 0
  }

  function Count(rs: seq<Receipt>, r: Receipt): int {
    SumBy(rs, Is(r))
  }

  /** Each receipt as often in one as in the other. */
  ghost predicate Reordered(a: seq<Receipt>, b: seq<Receipt>) {
    forall r :: Count(a, r) == Count(b, r)
  }

  function RequestIs(key: Key, r: Receipt): Request -> int {
    (q: Request) => if q.key == key && Receipt(-q.quantity, q.unitCost) == r then 1 else 0
  }

  function OriginalIs(source: Source, key: Key, r: Receipt): Movement -> int {
    (m: Movement) => if m.key == key && IsOriginal(m, source) && Receipt(m.quantity, m.unitCost) == r then 1 else 0
  }

  lemma {:induction false} ReturnedCount(reqs: seq<Request>, key: Key, r: Receipt)
    ensures Count(Returned(reqs, key), r) == SumBy(reqs, RequestIs(key, r))
  {
    if |reqs| > 0 {
      var init, q := reqs[..|reqs| - 1], reqs[|reqs| - 1];
      ReturnedCount(init, key, r);
      SumSnoc(Returned(init, key), Receipt(-q.quantity, q.unitCost), Is(r));
    }
  }

  lemma BillLineCount(inv: Inventory, closed: Option<Error>, bill: nat, l: DocLine, key: Key, r: Receipt)
    requires BillLine(inv, closed, bill, l).Ok?
    ensures var t, g := BillLine(inv, closed, bill, l).value, OriginalIs(FromBill(bill), key, r);
            t.items == inv.items
            && SumBy(t.log, g) == SumBy(inv.log, g)
               + (if ResolveItem(inv.items, l) == Ok(Some(key.item)) && l.location == key.location && l.quantity > 0
                     && Receipt(l.quantity, BillUnitCost(l)) == r then 1 else 0)
  {
    var t := BillLine(inv, closed, bill, l).value;
    if ResolveItem(inv.items, l).value.Some? {
      SumSnoc(inv.log, t.log[|inv.log|], OriginalIs(FromBill(bill), key, r));
    }
  }

  lemma {:induction false} BillCount(inv: Inventory, closed: Option<Error>, bill: nat, lines: seq<DocLine>, key: Key, r: Receipt)
    requires BillMovements(inv, closed, bill, lines).Ok? && Unused(inv.log, FromBill(bill))
    ensures var t := BillMovements(inv, closed, bill, lines).value;
            t.items == inv.items && SumBy(t.log, OriginalIs(FromBill(bill), key, r)) == Count(LineReceipts(inv.items, lines, key), r)
  {
    if |lines| == 0 {
      SumZero(inv.log, OriginalIs(FromBill(bill), key, r));
    } else {
      var init, l := lines[..|lines| - 1], lines[|lines| - 1];
      BillCount(inv, closed, bill, init, key, r);
      BillLineCount(BillMovements(inv, closed, bill, init).value, closed, bill, l, key, r);
      if l.quantity > 0 {
        SumSnoc(LineReceipts(inv.items, init, key), Receipt(l.quantity, BillUnitCost(l)), Is(r));
      }
    }
  }

  /** The void gives back what the bill's lines received, each receipt as often. */
  lemma VoidReturnsLines(inv: Inventory, closed: Option<Error>, bill: nat, lines: seq<DocLine>, listed: seq<nat>, key: Key)
    requires BillMovements(inv, closed, bill, lines).Ok? && Unused(inv.log, FromBill(bill))
    requires Lists(BillMovements(inv, closed, bill, lines).value.log, FromBill(bill), listed)
    ensures var t := BillMovements(inv, closed, bill, lines).value;
            Reordered(Returned(DocumentReversals(t.log, FromBill(bill), listed), key), LineReceipts(inv.items, lines, key))
  {
    var t := BillMovements(inv, closed, bill, lines).value;
    var reqs := DocumentReversals(t.log, FromBill(bill), listed);
    forall r
      ensures Count(Returned(reqs, key), r) == Count(LineReceipts(inv.items, lines, key), r)
    {
      ReturnedCount(reqs, key, r);
      ReversalsMirror(t.log, FromBill(bill), listed, RequestIs(key, r), OriginalIs(FromBill(bill), key, r));
      BillCount(inv, closed, bill, lines, key, r);
    }
  }

  // ---------- One key at a time ----------

  lemma {:induction false} BillAtKey(inv: Inventory, closed: Option<Error>, bill: nat, lines: seq<DocLine>, key: Key)
    requires BillMovements(inv, closed, bill, lines).Ok?
    ensures var t := BillMovements(inv, closed, bill, lines).value;
            t.items == inv.items && OnHand(t.stock, key) == ReceiveAll(OnHand(inv.stock, key), LineReceipts(inv.items, lines, key))
  {
    if |lines| > 0 {
      BillAtKey(inv, closed, bill, lines[..|lines| - 1], key);
    }
  }

  lemma ReversalAtKey(inv: Inventory, closed: Option<Error>, q: Request, key: Key)
    requires Record(inv, closed, q).Ok? && q.kind == Reversal
    ensures OnHand(Record(inv, closed, q).value.stock, key)
            == if q.key == key then Return(OnHand(inv.stock, key), Receipt(-q.quantity, q.unitCost)) else OnHand(inv.stock, key)
  {
    assert -(-q.quantity) == q.quantity;
  }

  lemma {:induction false} ReversalsAtKey(inv: Inventory, closed: Option<Error>, reqs: seq<Request>, key: Key)
    requires RecordAll(inv, closed, reqs).Ok? && forall q :: q in reqs ==> q.kind == Reversal
    ensures OnHand(RecordAll(inv, closed, reqs).value.stock, key) == ReturnAll(OnHand(inv.stock, key), Returned(reqs, key))
  {
    if |reqs| > 0 {
      var init, q := reqs[..|reqs| - 1], reqs[|reqs| - 1];
      assert forall x :: x in init ==> x in reqs;
      ReversalsAtKey(inv, closed, init, key);
      ReversalAtKey(RecordAll(inv, closed, init).value, closed, q, key);
    }
  }

  /**
   After a bill is posted and at once voided, a key's stock is exactly what receiving its lines and
   giving them back in the listed order makes of the stock there was.
   */
  lemma PostThenVoidExactly(b: Books, cfg: Settings, i: nat, active: bool, listed: seq<nat>, key: Key) returns (back: seq<Receipt>)
    requires BooksOk(b) && PostBill(b, cfg, i, active).Ok?
    requires Lists(PostBill(b, cfg, i, active).value.inventory.log, FromBill(i), listed)
    ensures var receipts := LineReceipts(b.inventory.items, Lines(b.bills[i].lines), key);
            var posted := PostBill(b, cfg, i, active).value;
            && Reordered(back, receipts)
            && VoidBill(posted, i, listed).Ok?
            && OnHand(posted.inventory.stock, key) == ReceiveAll(OnHand(b.inventory.stock, key), receipts)
            && OnHand(VoidBill(posted, i, listed).value.inventory.stock, key) == ReturnAll(OnHand(posted.inventory.stock, key), back)
  {
    var lines, closed := Lines(b.bills[i].lines), DateError(b.ledger.periods, b.bills[i].date);
    var t := PostBill(b, cfg, i, active).value.inventory;
    assert BillOk(b, i);
    VoidReversesDocument(b, cfg, i, active, listed, 0);
    BillAtKey(b.inventory, closed, i, lines, key);
    VoidReturnsLines(b.inventory, closed, i, lines, listed, key);
    var reqs := DocumentReversals(t.log, FromBill(i), listed);
    ReversalsUndo(t.log, FromBill(i), listed);
    ReversalsAtKey(t, None, reqs, key);
    back := Returned(reqs, key);
  }

  // ---------- A key with one line ----------

  lemma OnlyOneOrder(back: seq<Receipt>, r: Receipt)
    requires Reordered(back, [r])
    ensures back == [r]
  {
    var n := |back|;
    CountOne(r, r);
    assert Count(back, r) == Count([r], r);
    forall k | 0 <= k < n
      ensures back[k] == r
    {
      SumBoundsTerm(back, Is(back[k]), k);
      CountOne(r, back[k]);
      assert Count(back, back[k]) == Count([r], back[k]);
    }
    if n > 1 {
      SumBoundsTerm(back[..n - 1], Is(r), n - 2);
    }
  }

  lemma CountOne(r: Receipt, x: Receipt)
    ensures Count([r], x) == if r == x then 1 else 0
  {
    SumSnoc([], r, Is(x));
    assert [] + [r] == [r];
  }

  /** The value is kept within the rounding of receiving `r`. */
  predicate Kept(s: Stock, r: Receipt, after: Stock) {
    2 * SCALE * Abs(after.value - s.value) <= s.quantity + r.quantity + SCALE
  }

  lemma ReceiveIsMove(s: Stock, r: Receipt)
    requires RepOk(s) && r.quantity > 0
    ensures Move(s, Purchase, r.quantity, r.unitCost).Ok?
    ensures var m := Move(s, Purchase, r.quantity, r.unitCost).value;
            && m.quantity == r.quantity && m.unitCost == r.unitCost && m.stock.quantity == s.quantity + r.quantity
            && Receive(s, r) == m.stock
            && (Reverse(m).Ok? ==> Return(Receive(s, r), r) == Reverse(m).value.stock)
  {
  }

  lemma OneReceiptRoundTrip(s: Stock, r: Receipt)
    requires RepOk(s) && r.quantity > 0
    ensures Kept(s, r, Return(Receive(s, r), r)) <==> Restorable(s, r.quantity, r.unitCost)
  {
    ReceiveIsMove(s, r);
    RoundTrip(s, Purchase, r.quantity, r.unitCost);
  }

  lemma OneEach(s: Stock, r: Receipt)
    ensures ReceiveAll(s, [r]) == Receive(s, r) && ReturnAll(s, [r]) == Return(s, r)
  {
    assert [r][..0] == [];
  }

  lemma {:induction false} ReceiptsArePositive(items: seq<Item>, lines: seq<DocLine>, key: Key)
    ensures forall r :: r in LineReceipts(items, lines, key) ==> r.quantity > 0
  {
    if |lines| > 0 {
      ReceiptsArePositive(items, lines[..|lines| - 1], key);
    }
  }

  /**
   When one line of the bill moves the key, posting and voiding keep the key's value within the
   receipt's rounding if and only if the receipt was restorable from the stock there was.
   */
  lemma PostThenVoidValueIff(b: Books, cfg: Settings, i: nat, active: bool, listed: seq<nat>, key: Key, r: Receipt)
    requires BooksOk(b) && PostBill(b, cfg, i, active).Ok?
    requires Lists(PostBill(b, cfg, i, active).value.inventory.log, FromBill(i), listed)
    requires LineReceipts(b.inventory.items, Lines(b.bills[i].lines), key) == [r]
    ensures var posted, s := PostBill(b, cfg, i, active).value, OnHand(b.inventory.stock, key);
            && VoidBill(posted, i, listed).Ok? && s.quantity >= 0 && r.quantity > 0
            && (Kept(s, r, OnHand(VoidBill(posted, i, listed).value.inventory.stock, key)) <==> Restorable(s, r.quantity, r.unitCost))
  {
    var s := OnHand(b.inventory.stock, key);
    StockIsOk(b.inventory, key);
    var back := PostThenVoidExactly(b, cfg, i, active, listed, key);
    OnlyOneOrder(back, r);
    ReceiptsArePositive(b.inventory.items, Lines(b.bills[i].lines), key);
    assert r in [r];
    OneEach(s, r);
    OneEach(Receive(s, r), r);
    OneReceiptRoundTrip(s, r);
  }
}
