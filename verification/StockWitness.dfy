/**
 Stock whose account and value part for good: two requests that the exact conditions shut out. One
 unit is held at 10. Written down at a unit cost of 1, it takes the ledger and the inventory nine
 apart; and a bill that prices two million units at 0.01 in all takes the ten with it when it is voided.
 */
module StockWitness {
  import opened Wrappers
  import opened Sums
  import opened Rounding
  import opened StockModel
  import opened MovementLog
  import opened DocumentJournals
  import opened BooksModel
  import opened BillVoiding
  import opened StockLedgerTie
  import opened OpenedBooks
  import L = LedgerModel

  const ITEM := Item(true, true, Some(0), Some(1), 0)
  const ITEMS: seq<Item> := [ITEM]
  const KEY := Key(0, None)
  const CONFIG := Settings(true, 1, Some(2), None, None, None)
  const TEN := Stock(SCALE, 10 * SCALE, 10 * SCALE)

  const STOCKING := Adjustment(KEY, OpeningStock, SCALE, 10 * SCALE, 1, 0)
  const WRITE_DOWN := Adjustment(KEY, WriteDown, -SCALE, SCALE, 1, 0)

  const FIRST_OPS: seq<BooksOp> := [LedgerOp(OPENING[0]), LedgerOp(OPENING[1]), LedgerOp(OPENING[2]), LedgerOp(OPENING[3])]

  function Opened(): Books {
    EmptyBooks(ITEMS, {}).(ledger := OPENED)
  }

  lemma TenMoves()
    ensures Move(NO_STOCK, Opening, SCALE, 10 * SCALE) == Ok(Moved(TEN, SCALE, 10 * SCALE, 10 * SCALE))
  {
  }

  /** One unit at 10, received by an opening adjustment. */
  lemma StockedBooks()
    ensures AdjustmentPosting(Opened(), STOCKING).Ok?
    ensures var b := AdjustmentPosting(Opened(), STOCKING).value;
            && Ready(b.ledger) && b.bills == []
            && b.inventory == Inventory(ITEMS, {}, map[KEY := TEN], [Movement(KEY, Opening, FromAdjustment, SCALE, 10 * SCALE, 10 * SCALE, TEN, None)])
  {
    TenMoves();
    assert L.ResolveByDate(OPENED.periods, 0) == Some(0) by {
      assert OPENED.periods[..0] == [];
    }
    TwoLinesPost(OPENED, 0, 1, 10 * SCALE);
  }

  lemma OpeningIsClean(n: nat)
    requires n <= 4
    ensures CleanRun(EmptyBooks(ITEMS, {}), CONFIG, 0, KEY, FIRST_OPS[..n])
  {
    if n > 0 {
      assert FIRST_OPS[..n][..n - 1] == FIRST_OPS[..n - 1];
      OpeningIsClean(n - 1);
    }
  }

  predicate HoldsTen(b: Books) {
    && Ready(b.ledger) && b.bills == []
    && b.inventory == Inventory(ITEMS, {}, map[KEY := TEN], [Movement(KEY, Opening, FromAdjustment, SCALE, 10 * SCALE, 10 * SCALE, TEN, None)])
  }

  /** The books holding ten are reached by a clean run. */
  lemma StockedRun(start: Books, ops: seq<BooksOp>)
    requires start == EmptyBooks(ITEMS, {}) && ops == FIRST_OPS + [AdjustOp(STOCKING)]
    ensures AdjustmentPosting(Opened(), STOCKING) == Ok(BooksRun(start, CONFIG, ops))
    ensures CleanRun(start, CONFIG, 0, KEY, ops)
  {
    OpeningRun(start, CONFIG);
    RunSnoc(start, CONFIG, FIRST_OPS, AdjustOp(STOCKING));
    StockedBooks();
    OpeningIsClean(4);
    assert FIRST_OPS[..4] == FIRST_OPS && ops[..4] == FIRST_OPS;
  }

  /** So the tie holds in them. */
  lemma StockedInRun(start: Books, ops: seq<BooksOp>) returns (b: Books)
    requires start == EmptyBooks(ITEMS, {}) && ops == FIRST_OPS + [AdjustOp(STOCKING)]
    ensures b == BooksRun(start, CONFIG, ops) && CleanRun(start, CONFIG, 0, KEY, ops)
    ensures HoldsTen(b) && Gap(b, 0, KEY) == 0 && Sound(b, 0, KEY) && Tied(b, 0, KEY)
  {
    StockedRun(start, ops);
    b := BooksRun(start, CONFIG, ops);
    TenIsBooked(b);
    NothingBookedIsOk(ITEMS, {});
    RunKeepsTie(start, CONFIG, ops, 0, KEY);
  }

  lemma WriteDownRecorded(inv: Inventory, adj: Adjustment)
    requires OnHand(inv.stock, KEY) == TEN && adj == WRITE_DOWN
    ensures Record(inv, None, AdjustmentRequest(adj, SCALE)).Ok?
    ensures Record(inv, None, AdjustmentRequest(adj, SCALE)).value.log[|inv.log|].totalCost == -SCALE
  {
    assert Move(TEN, AdjustmentOut, -SCALE, SCALE) == Ok(Moved(NO_STOCK, -SCALE, SCALE, -SCALE));
  }

  lemma WriteDownPosts(b: Books, adj: Adjustment)
    requires HoldsTen(b) && adj == WRITE_DOWN
    ensures AdjustmentPosting(b, adj).Ok?
  {
    OpenToday(b.ledger);
    WriteDownRecorded(b.inventory, adj);
    assert AdjustmentCost(b.inventory, ITEM, adj) == Ok(SCALE);
    TwoLinesPost(b.ledger, 1, 0, SCALE);
  }

  lemma TenSlack(b: Books)
    requires HoldsTen(b)
    ensures Slack(b.inventory, KEY) == 2 * SCALE
  {
    SumSnoc([], b.inventory.log[0], SlackAt(KEY));
    assert [] + [b.inventory.log[0]] == b.inventory.log;
  }

  lemma TenIsBooked(b: Books)
    requires AdjustmentPosting(Opened(), STOCKING) == Ok(b)
    ensures HoldsTen(b) && Gap(b, 0, KEY) == 0
  {
    StockedBooks();
    NothingBookedIsOk(ITEMS, {});
    AdjustmentLedgerSide(Opened(), STOCKING, 0, 0);
    OpenedHasNoNet();
  }

  lemma OpenedHasNoNet()
    ensures L.Net(OPENED, 0) == 0
  {
  }

  lemma NineIsTooMuch(b: Books, t: Books)
    requires Sound(b, 0, KEY) && HoldsTen(b) && Gap(b, 0, KEY) == 0
    requires AdjustmentPosting(b, WRITE_DOWN) == Ok(t)
    ensures !Tied(t, 0, KEY)
  {
    TenSlack(b);
    RoundExact(SCALE, SCALE);
    EmptyingDrift(b, WRITE_DOWN, 0, KEY);
  }

  /**
   The tie can fail: from books that a clean run reached and in which it holds, a write-down of the
   one unit held, at a unit cost of 1 instead of 10, is accepted and breaks it.
   */
  lemma WriteDownBreaksTie(start: Books, ops: seq<BooksOp>) returns (b: Books, t: Books)
    requires start == EmptyBooks(ITEMS, {}) && ops == FIRST_OPS + [AdjustOp(STOCKING)]
    ensures b == BooksRun(start, CONFIG, ops) && CleanRun(start, CONFIG, 0, KEY, ops)
    ensures Tied(b, 0, KEY)
    ensures BooksStep(b, CONFIG, AdjustOp(WRITE_DOWN)) == Ok(t) && !Tied(t, 0, KEY)
  {
    b := StockedInRun(start, ops);
    WriteDownPosts(b, WRITE_DOWN);
    t := AdjustmentPosting(b, WRITE_DOWN).value;
    NineIsTooMuch(b, t);
  }

  // ---------- A bill that is all but free ----------

  const MANY := 2_000_001 * SCALE
  const REQUEST := LineRequest(Some(0), None, MANY, None, 1_000_000, 0)
  const LINE := DocLine(Some(0), None, MANY, 0, 1_000_000, 1_000_000, 0, 1_000_000)
  const DRAFT := Bill(0, [LINE], 1_000_000, 0, 1_000_000, BillDraft, None, None)
  const MIXED := Stock(2_000_002 * SCALE, 1_000_001_000, 500)
  const LEFT := Stock(SCALE, 500, 500)

  function AfterMany(b: Books): Inventory {
    Inventory(ITEMS, {}, b.inventory.stock[KEY := MIXED],
              b.inventory.log + [Movement(KEY, Purchase, FromBill(0), MANY, 0, 0, MIXED, None)])
  }

  lemma BillCreated(b: Books)
    requires HoldsTen(b)
    ensures CreateBill(b, 0, 0, true, [REQUEST]) == Ok(b.(bills := [DRAFT]))
  {
    assert ResolveBillLine(b, REQUEST) == Ok(LINE);
    assert [REQUEST][..0] == [] && [] + [LINE] == [LINE];
    assert ResolveBillLines(b, [REQUEST]) == Ok([LINE]);
    var lines: seq<DocLine> := Lines([LINE]);
    assert lines == [LINE] && [] + [LINE] == lines;
    SumSnoc([], LINE, Gross());
    assert CalculateHeader(lines).total == 1_000_000;
    assert b.bills + [DRAFT] == [DRAFT];
  }

  lemma ManyMove()
    ensures Move(TEN, Purchase, MANY, 0) == Ok(Moved(MIXED, MANY, 0, 0))
    ensures Move(MIXED, Reversal, -MANY, 0) == Ok(Moved(LEFT, -MANY, 500, -1_000_000_500))
    ensures Over(1_000_000, MANY) == 0
  {
  }

  lemma BillReceives(b: Books)
    requires HoldsTen(b)
    ensures BillMovements(b.inventory, None, 0, [LINE]) == Ok(AfterMany(b))
  {
    ManyMove();
    assert [LINE][..0] == [];
  }

  lemma OpenToday(st: L.State)
    requires Ready(st)
    ensures DateError(st.periods, 0) == None
  {
    assert st.periods[..0] == [];
  }

  lemma BillPosts(b: Books)
    requires HoldsTen(b.(bills := [])) && b.bills == [DRAFT.(status := BillApproved)]
    ensures PostBill(b, CONFIG, 0, true).Ok?
    ensures var t := PostBill(b, CONFIG, 0, true).value;
            Ready(t.ledger) && t.inventory == AfterMany(b)
  {
    OpenToday(b.ledger);
    BillReceives(b.(bills := []));
    var lines: seq<DocLine> := Lines([LINE]);
    assert lines == [LINE] && lines[..0] == [] && [] + [LINE] == lines;
    SumSnoc([], LINE, Tax());
    assert ChargeLines(lines) == [L.Line(0, 1_000_000, 0)];
    assert ChargeJournal(2, None, 1_000_000, [LINE]) == [L.Line(0, 1_000_000, 0), L.Line(2, 0, 1_000_000)];
    TwoLinesPost(b.ledger, 0, 2, 1_000_000);
  }

  const UNDO := Request(KEY, Reversal, FromBill(0), -MANY, 0, Some(1))

  lemma OneReversal(log: seq<Movement>)
    requires |log| == 2 && log[0].source == FromAdjustment
    requires log[1].key == KEY && log[1].source == FromBill(0) && log[1].quantity == MANY && log[1].unitCost == 0 && log[1].reversalOf.None?
    ensures DocumentReversals(log, FromBill(0), [1]) == [UNDO] && Lists(log, FromBill(0), [1])
  {
    assert [1][..0] == [];
    assert DocumentReversals(log, FromBill(0), []) == [];
    assert ReversalOf(log, 1) == UNDO;
  }

  lemma UndoRecorded(inv: Inventory)
    requires OnHand(inv.stock, KEY) == MIXED
    ensures Record(inv, None, UNDO).Ok?
    ensures var t := Record(inv, None, UNDO).value;
            && OnHand(t.stock, KEY) == LEFT
            && t.log == inv.log + [Movement(KEY, Reversal, FromBill(0), -MANY, 500, -1_000_000_500, LEFT, Some(1))]
  {
    ManyMove();
  }

  lemma RecordOne(inv: Inventory, q: Request)
    ensures RecordAll(inv, None, [q]) == Record(inv, None, q)
  {
    assert [q][..0] == [];
    assert RecordAll(inv, None, [q][..0]) == Ok(inv);
  }

  lemma BillTakenBack(b: Books)
    requires HoldsTen(b.(bills := []))
    ensures Lists(AfterMany(b).log, FromBill(0), [1]) && ReverseDocument(AfterMany(b), None, FromBill(0), [1]).Ok?
    ensures var t := ReverseDocument(AfterMany(b), None, FromBill(0), [1]).value;
            && OnHand(t.stock, KEY) == LEFT
            && t.log == AfterMany(b).log + [Movement(KEY, Reversal, FromBill(0), -MANY, 500, -1_000_000_500, LEFT, Some(1))]
  {
    OneReversal(AfterMany(b).log);
    RecordOne(AfterMany(b), UNDO);
    UndoRecorded(AfterMany(b));
  }

  const APPROVED := DRAFT.(status := BillApproved)

  lemma BillReady(held: Books) returns (created: Books, b: Books)
    requires HoldsTen(held) && BooksOk(held)
    ensures BooksStep(held, CONFIG, NewBillOp(0, 0, true, [REQUEST])) == Ok(created)
    ensures BooksStep(created, CONFIG, ApproveBillOp(0)) == Ok(b)
    ensures BooksOk(b) && b == held.(bills := [APPROVED])
  {
    BillCreated(held);
    created := held.(bills := [DRAFT]);
    b := held.(bills := [APPROVED]);
    assert created.bills[0 := APPROVED] == b.bills;
    StepKeepsBillsOk(held, CONFIG, NewBillOp(0, 0, true, [REQUEST]));
    StepKeepsBillsOk(created, CONFIG, ApproveBillOp(0));
  }

  lemma BillVoided(b: Books) returns (posted: Books, voided: Books)
    requires BooksOk(b) && HoldsTen(b.(bills := [])) && b.bills == [APPROVED]
    ensures PostBill(b, CONFIG, 0, true) == Ok(posted) && VoidBill(posted, 0, [1]) == Ok(voided)
    ensures posted.inventory == AfterMany(b) && OnHand(voided.inventory.stock, KEY) == LEFT
    ensures Lists(posted.inventory.log, FromBill(0), [1])
    ensures ReverseDocument(AfterMany(b), None, FromBill(0), [1]) == Ok(voided.inventory)
    ensures L.Net(voided.ledger, 0) == L.Net(b.ledger, 0)
  {
    BillPosts(b);
    posted := PostBill(b, CONFIG, 0, true).value;
    BillTakenBack(b);
    VoidReversesDocument(b, CONFIG, 0, true, [1], 0);
    voided := VoidBill(posted, 0, [1]).value;
  }

  /** All movements so far allow for some six million units; what is lost is a thousand million. */
  lemma LossIsTooMuch(b: Books, voided: Books)
    requires HoldsTen(b.(bills := [])) && Gap(b, 0, KEY) == 0
    requires ReverseDocument(AfterMany(b), None, FromBill(0), [1]) == Ok(voided.inventory)
    requires L.Net(voided.ledger, 0) == L.Net(b.ledger, 0)
    ensures !Tied(voided, 0, KEY)
  {
    BillTakenBack(b);
    TenSlack(b.(bills := []));
    var received := AfterMany(b).log[1];
    assert AfterMany(b).log == b.inventory.log + [received];
    SumSnoc(b.inventory.log, received, SlackAt(KEY));
    var log := voided.inventory.log;
    assert log == AfterMany(b).log + [log[2]];
    SumSnoc(AfterMany(b).log, log[2], SlackAt(KEY));
    assert Slack(voided.inventory, KEY) == 6_000_011 * SCALE;
    assert Gap(voided, 0, KEY) == 10 * SCALE - 500;
  }

  lemma TenIsLost(b: Books, voided: Inventory)
    requires HoldsTen(b.(bills := [])) && OnHand(voided.stock, KEY) == LEFT
    ensures !KeyValueRestored(b.inventory, AfterMany(b), voided, KEY)
  {
    var row := AfterMany(b).log[1];
    assert AfterMany(b).log == b.inventory.log + [row];
    SumSnoc(b.inventory.log, row, ReceiptSlack(KEY));
  }

  /** The two requests by the operations they stand for. */
  lemma PostAndVoidSteps(b: Books, posted: Books, cfg: Settings, i: nat, active: bool, listed: seq<nat>)
    ensures BooksStep(b, cfg, BillOp(i, active)) == PostBill(b, cfg, i, active)
    ensures BooksStep(posted, cfg, VoidBillOp(i, listed)) == VoidBill(posted, i, listed)
  {
  }

  lemma BillTakesValue(b: Books) returns (posted: Books, voided: Books)
    requires HoldsTen(b.(bills := [])) && BooksOk(b) && Gap(b, 0, KEY) == 0 && b.bills == [APPROVED]
    ensures PostBill(b, CONFIG, 0, true) == Ok(posted) && VoidBill(posted, 0, [1]) == Ok(voided)
    ensures OnHand(voided.inventory.stock, KEY) == LEFT
    ensures !KeyValueRestored(b.inventory, posted.inventory, voided.inventory, KEY) && !Tied(voided, 0, KEY)
  {
    posted, voided := BillVoided(b);
    TenIsLost(b, voided.inventory);
    LossIsTooMuch(b, voided);
  }

  /**
   The value round trip can fail for a bill the service accepts. In books that a clean run reached,
   the bill for 2,000,001 units at 0.01 in all is created, approved, posted and voided; of the value
   of 10 held before, 0.000005 is left, and the stock account parts from the inventory for good.
   */
  lemma AllButFreeBillTakesValue(start: Books, ops: seq<BooksOp>)
    returns (held: Books, created: Books, b: Books, posted: Books, voided: Books)
    requires start == EmptyBooks(ITEMS, {}) && ops == FIRST_OPS + [AdjustOp(STOCKING)]
    ensures held == BooksRun(start, CONFIG, ops)
    ensures BooksStep(held, CONFIG, NewBillOp(0, 0, true, [REQUEST])) == Ok(created)
    ensures BooksStep(created, CONFIG, ApproveBillOp(0)) == Ok(b)
    ensures BooksStep(b, CONFIG, BillOp(0, true)) == Ok(posted) && BooksStep(posted, CONFIG, VoidBillOp(0, [1])) == Ok(voided)
    ensures OnHand(b.inventory.stock, KEY).value == 10 * SCALE && OnHand(voided.inventory.stock, KEY).value == 500
    ensures Tied(held, 0, KEY) && !KeyValueRestored(b.inventory, posted.inventory, voided.inventory, KEY) && !Tied(voided, 0, KEY)
  {
    held := StockedInRun(start, ops);
    created, b := BillReady(held);
    posted, voided := BillTakesValue(b);
    PostAndVoidSteps(b, posted, CONFIG, 0, true, [1]);
  }
}
