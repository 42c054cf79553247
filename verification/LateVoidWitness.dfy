/**
 A void that comes too late, by ordinary requests: ten units are received by a bill, five of them
 sold, and the bill is voided. The request is refused, but the journal is reversed all the same.
 */
module LateVoidWitness {
  import opened Wrappers
  import opened Sums
  import opened Rounding
  import opened StockModel
  import opened MovementLog
  import opened DocumentJournals
  import opened BooksModel
  import opened LedgerReports
  import opened BillVoiding
  import opened StockLedgerTie
  import opened OpenedBooks
  import W = StockWitness
  import L = LedgerModel

  const ORDER := LineRequest(Some(0), None, 10 * SCALE, None, 100 * SCALE, 0)
  const ORDERED := DocLine(Some(0), None, 10 * SCALE, 0, 100 * SCALE, 100 * SCALE, 0, 100 * SCALE)
  const DRAFT := Bill(0, [ORDERED], 100 * SCALE, 0, 100 * SCALE, BillDraft, None, None)
  const APPROVED := DRAFT.(status := BillApproved)
  const BILLED := DRAFT.(status := BillPosted, postedJournal := Some(0))
  const CHARGE: seq<L.Line> := [L.Line(0, 100 * SCALE, 0), L.Line(2, 0, 100 * SCALE)]

  const SOLD := DocLine(Some(0), None, 5 * SCALE, 2, 80 * SCALE, 80 * SCALE, 0, 80 * SCALE)
  const SALE := Document(0, 0, [SOLD], 80 * SCALE)

  const HELD := Stock(10 * SCALE, 100 * SCALE, 10 * SCALE)
  const HALF := Stock(5 * SCALE, 50 * SCALE, 10 * SCALE)
  const RECEIPT := Movement(W.KEY, Purchase, FromBill(0), 10 * SCALE, 10 * SCALE, 100 * SCALE, HELD, None)
  const ISSUE := Movement(W.KEY, Sale, FromInvoice(0), -5 * SCALE, 10 * SCALE, -50 * SCALE, HALF, None)

  predicate Holds(b: Books, bills: seq<Bill>) {
    Ready(b.ledger) && b.ledger.journals == [] && b.inventory == Inventory(W.ITEMS, {}, map[], []) && b.bills == bills
  }

  /** The bill is posted as the first journal. */
  predicate Posted(b: Books) {
    && Ready(b.ledger) && b.ledger.journals == [L.Journal(0, 0, CHARGE, L.Posted, true, false, None, None)]
    && b.inventory == Inventory(W.ITEMS, {}, map[W.KEY := HELD], [RECEIPT]) && b.bills == [BILLED]
  }

  /** Half of what the bill received has been sold. */
  predicate HalfSold(b: Books) {
    && Ready(b.ledger) && |b.ledger.journals| == 2
    && b.ledger.journals[0] == L.Journal(0, 0, CHARGE, L.Posted, true, false, None, None)
    && b.inventory == Inventory(W.ITEMS, {}, map[W.KEY := HALF], [RECEIPT, ISSUE]) && b.bills == [BILLED]
  }

  // ---------- The steps ----------

  lemma OrderCreated(b: Books)
    requires Holds(b, [])
    ensures CreateBill(b, 0, 0, true, [ORDER]) == Ok(b.(bills := [DRAFT]))
  {
    assert ResolveBillLine(b, ORDER) == Ok(ORDERED);
    assert [ORDER][..0] == [] && [] + [ORDERED] == [ORDERED];
    assert ResolveBillLines(b, [ORDER]) == Ok([ORDERED]);
    var lines: seq<DocLine> := Lines([ORDERED]);
    assert lines == [ORDERED] && [] + [ORDERED] == lines;
    SumSnoc([], ORDERED, Gross());
    assert CalculateHeader(lines).total == 100 * SCALE;
    assert b.bills + [DRAFT] == [DRAFT];
  }

  lemma OrderReceived(inv: Inventory)
    requires inv == Inventory(W.ITEMS, {}, map[], [])
    ensures BillMovements(inv, None, 0, [ORDERED]) == Ok(Inventory(W.ITEMS, {}, map[W.KEY := HELD], [RECEIPT]))
  {
    assert Move(NO_STOCK, Purchase, 10 * SCALE, 10 * SCALE) == Ok(Moved(HELD, 10 * SCALE, 10 * SCALE, 100 * SCALE));
    assert Over(100 * SCALE, 10 * SCALE) == 10 * SCALE;
    assert [ORDERED][..0] == [] && [] + [RECEIPT] == [RECEIPT];
  }

  lemma OrderPosted(b: Books) returns (t: Books)
    requires Holds(b, [APPROVED])
    ensures PostBill(b, W.CONFIG, 0, true) == Ok(t) && Posted(t)
  {
    W.OpenToday(b.ledger);
    OrderReceived(b.inventory);
    var lines: seq<DocLine> := Lines([ORDERED]);
    assert lines == [ORDERED] && lines[..0] == [] && [] + [ORDERED] == lines;
    SumSnoc([], ORDERED, Tax());
    assert ChargeLines(lines) == [L.Line(0, 100 * SCALE, 0)];
    assert ChargeJournal(2, None, 100 * SCALE, [ORDERED]) == CHARGE;
    TwoLinesPost(b.ledger, 0, 2, 100 * SCALE);
    t := PostBill(b, W.CONFIG, 0, true).value;
  }

  lemma SaleIssued(inv: Inventory)
    requires inv == Inventory(W.ITEMS, {}, map[W.KEY := HELD], [RECEIPT])
    ensures InvoiceMovements(inv, None, 0, [SOLD])
            == Ok(Issued(Inventory(W.ITEMS, {}, map[W.KEY := HALF], [RECEIPT, ISSUE]), [Hook(0, 50 * SCALE)]))
  {
    assert Move(HELD, Sale, 5 * SCALE, 10 * SCALE) == Ok(Moved(HALF, -5 * SCALE, 10 * SCALE, -50 * SCALE));
    var hook := Hook(0, 50 * SCALE);
    assert [RECEIPT] + [ISSUE] == [RECEIPT, ISSUE] && [] + [hook] == [hook];
    assert map[W.KEY := HELD][W.KEY := HALF] == map[W.KEY := HALF];
    assert [SOLD][..0] == [] && InvoiceMovements(inv, None, 0, [SOLD][..0]) == Ok(Issued(inv, []));
  }

  /** Receivable against revenue, and the cost of the five units. */
  function SaleLines(): seq<L.Line> {
    [L.Line(1, 80 * SCALE, 0)] + [L.Line(2, 0, 80 * SCALE)] + [L.Line(1, 50 * SCALE, 0)] + [L.Line(0, 0, 50 * SCALE)]
  }

  lemma SaleBalances()
    ensures AllOneSided(SaleLines()) && Excess(SaleLines()) == 0 && |SaleLines()| == 4
    ensures forall l :: l in SaleLines() ==> l.account < 3 && L.NonNegative(l)
  {
    var a, c, d, e := L.Line(1, 80 * SCALE, 0), L.Line(2, 0, 80 * SCALE), L.Line(1, 50 * SCALE, 0), L.Line(0, 0, 50 * SCALE);
    Single(a);
    Single(c);
    Single(d);
    Single(e);
    Join([a], [c]);
    Join([a] + [c], [d]);
    Join([a] + [c] + [d], [e]);
  }

  lemma SaleJournal()
    ensures var lines: seq<DocLine> := [SOLD];
            && SumBy(lines, Tax()) == 0
            && CostLines(W.ITEMS, [Hook(0, 50 * SCALE)]).Ok?
            && InvoiceJournal(1, None, 80 * SCALE, lines, CostLines(W.ITEMS, [Hook(0, 50 * SCALE)]).value) == SaleLines()
  {
    var lines: seq<DocLine> := [SOLD];
    assert [] + [SOLD] == lines && lines[..0] == [];
    SumSnoc([], SOLD, Tax());
    assert RevenueLines(lines) == [L.Line(2, 0, 80 * SCALE)];
    var hook, cost, stock := Hook(0, 50 * SCALE), L.Line(1, 50 * SCALE, 0), L.Line(0, 0, 50 * SCALE);
    assert [hook][..0] == [] && CostLines(W.ITEMS, [hook][..0]) == Ok([]);
    assert [] + [cost, stock] == [cost, stock];
    assert CostLines(W.ITEMS, [hook]) == Ok([cost, stock]);
  }

  lemma SalePosted(b: Books) returns (t: Books)
    requires Posted(b)
    ensures InvoicePosting(b, W.CONFIG, SALE) == Ok(t) && HalfSold(t)
  {
    W.OpenToday(b.ledger);
    SaleIssued(b.inventory);
    SaleJournal();
    SaleBalances();
    LinesPost(b.ledger, SaleLines());
    t := InvoicePosting(b, W.CONFIG, SALE).value;
  }

  // ---------- The run ----------

  function Start(): Books {
    EmptyBooks(W.ITEMS, {})
  }

  /** A clean run leads here. */
  ghost predicate Reached(ops: seq<BooksOp>, b: Books) {
    && b == BooksRun(Start(), W.CONFIG, ops) && CleanRun(Start(), W.CONFIG, 0, W.KEY, ops)
    && forall op :: op in ops ==> StorableInvoice(op)
  }

  lemma Extend(ops: seq<BooksOp>, b: Books, op: BooksOp, t: Books) returns (longer: seq<BooksOp>)
    requires Reached(ops, b) && Clean(b, W.CONFIG, 0, W.KEY, op) && StorableInvoice(op) && BooksStep(b, W.CONFIG, op) == Ok(t)
    ensures longer == ops + [op] && Reached(longer, t)
  {
    longer := ops + [op];
    assert longer[..|longer| - 1] == ops;
  }

  lemma Opening() returns (ops: seq<BooksOp>, b: Books)
    ensures Reached(ops, b) && Holds(b, [])
  {
    ops, b := W.FIRST_OPS, Start().(ledger := OPENED);
    OpeningRun(Start(), W.CONFIG);
    W.OpeningIsClean(4);
    assert W.FIRST_OPS[..4] == W.FIRST_OPS;
  }

  lemma ReceiptTold() returns (ops: seq<BooksOp>, b: Books)
    ensures Reached(ops, b) && Posted(b)
  {
    ops, b := Opening();
    OrderCreated(b);
    var created := b.(bills := [DRAFT]);
    ops := Extend(ops, b, NewBillOp(0, 0, true, [ORDER]), created);
    b := created.(bills := [APPROVED]);
    assert created.bills[0 := APPROVED] == [APPROVED];
    ops := Extend(ops, created, ApproveBillOp(0), b);
    var posted := OrderPosted(b);
    ops := Extend(ops, b, BillOp(0, true), posted);
    b := posted;
  }

  lemma SaleTold() returns (ops: seq<BooksOp>, b: Books)
    ensures Reached(ops, b) && HalfSold(b)
  {
    ops, b := ReceiptTold();
    var sold := SalePosted(b);
    ops := Extend(ops, b, InvoiceOp(SALE), sold);
    b := sold;
  }

  lemma ReachedIsTied(ops: seq<BooksOp>, b: Books)
    requires Reached(ops, b)
    ensures Sound(b, 0, W.KEY) && Tied(b, 0, W.KEY)
  {
    NothingBookedIsOk(W.ITEMS, {});
    RunKeepsTie(Start(), W.CONFIG, ops, 0, W.KEY);
  }

  // ---------- The void ----------

  lemma VoidIsLate(b: Books)
    requires HalfSold(b)
    ensures Lists(b.inventory.log, FromBill(0), [0]) && !Covered(b.inventory, 0)
  {
    var f := OriginalAt(FromBill(0), W.KEY);
    assert b.inventory.log == [] + [RECEIPT] + [ISSUE];
    SumSnoc([RECEIPT], ISSUE, f);
    SumSnoc([], RECEIPT, f);
    assert OnHand(b.inventory.stock, W.KEY).quantity < SumBy(b.inventory.log, f);
  }

  lemma JournalReverses(b: Books)
    requires HalfSold(b) && BooksOk(b)
    ensures Voidable(b, 0) && L.NetOn(b.ledger.journals[0].lines, 0) == 100 * SCALE
  {
    assert L.ResolveByDate(b.ledger.periods, 0) == Some(0) by {
      assert b.ledger.periods[..0] == [];
    }
    ReversalGoesThrough(b.ledger, 0, 0);
    TwoLinesNet(CHARGE[0], CHARGE[1], 0);
  }

  lemma HundredIsTooMuch(b: Books)
    requires HalfSold(b) && Tied(b, 0, W.KEY)
    ensures SCALE * Abs(Gap(b, 0, W.KEY) - 100 * SCALE) > Slack(b.inventory, W.KEY)
  {
    assert b.inventory.log == [] + [RECEIPT] + [ISSUE];
    SumSnoc([RECEIPT], ISSUE, SlackAt(W.KEY));
    SumSnoc([], RECEIPT, SlackAt(W.KEY));
    assert Slack(b.inventory, W.KEY) == 22 * SCALE;
  }

  /**
   Ten units are received at 10 by a bill, five are sold, and the bill is voided, in books that a
   clean run reached: the void is refused, the account no longer follows the inventory, and whatever
   is asked of the books afterwards the bill can never be voided.
   */
  lemma ReceiveSellVoid(later: seq<BooksOp>, listed: seq<nat>) returns (ops: seq<BooksOp>, b: Books, after: Books)
    ensures b == BooksRun(EmptyBooks(W.ITEMS, {}), W.CONFIG, ops) && CleanRun(EmptyBooks(W.ITEMS, {}), W.CONFIG, 0, W.KEY, ops)
    ensures HalfSold(b) && Tied(b, 0, W.KEY) && Lists(b.inventory.log, FromBill(0), [0])
    ensures BooksStep(b, W.CONFIG, VoidBillOp(0, [0])).Err? && after == BooksNext(b, W.CONFIG, VoidBillOp(0, [0]))
    ensures after.inventory == b.inventory && after.bills == b.bills && !Tied(after, 0, W.KEY)
    ensures VoidBill(BooksRun(after, W.CONFIG, later), 0, listed).Err?
  {
    ops, b := SaleTold();
    ReachedIsTied(ops, b);
    VoidIsLate(b);
    JournalReverses(b);
    LateVoidDrift(b, W.CONFIG, 0, [0], 0, W.KEY);
    HundredIsTooMuch(b);
    after := BooksNext(b, W.CONFIG, VoidBillOp(0, [0]));
    RemainsOk(b, VoidBillOp(0, [0]));
    LateVoidIsForGood(after, W.CONFIG, 0, later, listed);
  }
}
