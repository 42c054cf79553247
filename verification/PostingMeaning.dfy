/**
 What posting a document does to the ledger, account by account, and exactly when it is accepted,
 said from the document, the settings and the tables alone.
 */
module PostingMeaning {
  import opened Wrappers
  import opened Sums
  import opened Rounding
  import opened StockModel
  import opened MovementLog
  import opened DocumentJournals
  import opened BooksModel
  import opened ReceivablesModel
  import opened LedgerReports
  import opened LedgerMeaning
  import opened StockMeaning
  import L = LedgerModel
  import I = LedgerInvariant

  // ---------- One entry ----------

  /** An entry is created and posted exactly when its date is open and its lines are proper, and becomes the last journal. */
  lemma EntryMeaning(st: L.State, date: int, lines: seq<L.Line>)
    ensures L.CreateAndPost(st, date, lines).Ok? <==> OpenOn(st.periods, date) && ProperLines(st.accounts, lines)
    ensures L.CreateAndPost(st, date, lines).Ok? ==>
              var t := L.CreateAndPost(st, date, lines).value;
              && t.accounts == st.accounts && t.periods == st.periods
              && |t.journals| == |st.journals| + 1 && t.journals[..|st.journals|] == st.journals
              && var j := t.journals[|st.journals|];
                 j.entryDate == date && j.lines == lines && j.status == L.Posted && j.effective && j.reversedFrom.None? && j.reversal.None?
  {
    JournalIsCreated(st, date, lines);
    if L.Create(st, date, lines).Ok? {
      CreatedJournalPosts(st, date, lines);
    }
  }

  lemma OpenDateMeaning(periods: seq<L.Period>, date: int)
    ensures DateError(periods, date).None? <==> OpenOn(periods, date)
  {
    OpenOnMeaning(periods, date);
  }

  lemma TwoProperLines(accounts: seq<L.Account>, a: nat, b: nat, amount: int)
    requires amount > 0
    ensures ProperLines(accounts, [L.Line(a, amount, 0), L.Line(b, 0, amount)]) <==> TakesPostings(accounts, a) && TakesPostings(accounts, b)
  {
    var d, c := L.Line(a, amount, 0), L.Line(b, 0, amount);
    assert [d, c] == [d] + [c];
    Single(d);
    Single(c);
    Join([d], [c]);
    I.ValidationMeansWellFormed([d, c]);
    I.InsertErrorMeaning(accounts, [d, c]);
    ProperLinesMeaning(accounts, [d, c]);
    assert d in [d, c] && c in [d, c];
  }

  /** What an amount moved onto one account and off another does to any account. */
  function Shifted(to: nat, from: nat, amount: int, a: nat): int {
    (if a == to then amount else 0) - (if a == from then amount else 0)
  }

  // ---------- Drafts ----------

  /** The account a bill line ends up on: a stocked item's own account, else the one asked for, else the item's expense account. */
  predicate LandsOn(items: seq<Item>, item: Option<nat>, asked: Option<nat>, account: nat) {
    if item.Some? && item.value < |items| && items[item.value].isTracked then items[item.value].asset == Some(account)
    else if asked.Some? then account == asked.value
    else item.Some? && item.value < |items| && items[item.value].expense == Some(account)
  }

  lemma BillLineLandsOn(items: seq<Item>, item: Option<nat>, asked: Option<nat>, account: nat)
    ensures BillLineAccount(items, item, asked) == Ok(account) <==> LandsOn(items, item, asked, account)
  {
  }

  /** The line makes of a request what its item allows, on an account that takes postings. */
  predicate Resolves(b: Books, r: LineRequest, l: DocLine) {
    && (r.item.Some? ==> r.item.value < |b.inventory.items| && b.inventory.items[r.item.value].isActive)
    && LandsOn(b.inventory.items, r.item, r.account, l.account) && TakesPostings(b.ledger.accounts, l.account)
    && l.item == r.item && l.location == r.location && l.quantity == r.quantity
    && l.taxable == l.subtotal == r.taxable && l.tax == r.tax && l.gross == r.taxable + r.tax
  }

  lemma LineResolves(b: Books, r: LineRequest, l: CalculatedLine)
    ensures ResolveBillLine(b, r) == Ok(l) <==> Resolves(b, r, l)
  {
    BillLineLandsOn(b.inventory.items, r.item, r.account, l.account);
  }

  ghost predicate Resolvable(b: Books, r: LineRequest) {
    exists l: CalculatedLine :: Resolves(b, r, l)
  }

  lemma LineIsResolvable(b: Books, r: LineRequest)
    ensures ResolveBillLine(b, r).Ok? <==> Resolvable(b, r)
    ensures ResolveBillLine(b, r).Ok? ==> Resolves(b, r, ResolveBillLine(b, r).value)
  {
    if ResolveBillLine(b, r).Ok? {
      LineResolves(b, r, ResolveBillLine(b, r).value);
    }
    if l: CalculatedLine :| Resolves(b, r, l) {
      LineResolves(b, r, l);
    }
  }

  lemma {:induction false} LinesResolve(b: Books, requests: seq<LineRequest>)
    ensures ResolveBillLines(b, requests).Ok? <==> forall k :: 0 <= k < |requests| ==> Resolvable(b, requests[k])
    ensures ResolveBillLines(b, requests).Ok? ==>
              var lines := ResolveBillLines(b, requests).value;
              |lines| == |requests| && forall k :: 0 <= k < |requests| ==> Resolves(b, requests[k], lines[k])
  {
    if |requests| > 0 {
      var n := |requests| - 1;
      LinesResolve(b, requests[..n]);
      assert forall k :: 0 <= k < n ==> requests[..n][k] == requests[k];
      LineIsResolvable(b, requests[n]);
      assert ResolveBillLines(b, requests).Ok? <==> ResolveBillLines(b, requests[..n]).Ok? && ResolveBillLine(b, requests[n]).Ok?;
    }
  }

  /** A bill is created exactly when it is not due before it is issued, its supplier is known and each line resolves; it starts as an unpaid draft of its lines' gross amounts. */
  lemma BillIsCreated(b: Books, date: int, due: int, known: bool, requests: seq<LineRequest>)
    ensures CreateBill(b, date, due, known, requests).Ok?
            <==> && date <= due && known
                 && forall k :: 0 <= k < |requests| ==> Resolvable(b, requests[k])
    ensures CreateBill(b, date, due, known, requests).Ok? ==>
              var t := CreateBill(b, date, due, known, requests).value;
              && t.ledger == b.ledger && t.inventory == b.inventory && |t.bills| == |b.bills| + 1 && t.bills[..|b.bills|] == b.bills
              && var bill := t.bills[|b.bills|];
                 && bill.date == date && bill.status == BillDraft && bill.postedJournal.None? && bill.voidedJournal.None?
                 && bill.amountPaid == 0 && bill.amountDue == bill.total == SumBy(Lines(bill.lines), (l: DocLine) => l.gross)
                 && |bill.lines| == |requests| && forall k :: 0 <= k < |requests| ==> Resolves(b, requests[k], bill.lines[k])
  {
    LinesResolve(b, requests);
    assert CreateBill(b, date, due, known, requests).Ok? <==> date <= due && known && ResolveBillLines(b, requests).Ok?;
    if CreateBill(b, date, due, known, requests).Ok? {
      SumEqual(Lines(ResolveBillLines(b, requests).value), (l: DocLine) => l.gross, Gross());
    }
  }

  // ---------- Customer payments ----------

  /** A payment is posted exactly when it is a draft, the settings exist, it or they name a deposit account, and date and accounts allow it. */
  lemma PaymentIsPosted(st: State, cfg: Settings, p: nat)
    ensures PostPayment(st, cfg, p).Ok?
            <==> && p < |st.payments| && st.payments[p].status == PaymentDraft && cfg.configured
                 && (st.payments[p].deposit.Some? || cfg.receipts.Some?)
                 && OpenOn(st.books.ledger.periods, st.payments[p].date)
                 && TakesPostings(st.books.ledger.accounts, cfg.receivable)
                 && TakesPostings(st.books.ledger.accounts, if st.payments[p].deposit.Some? then st.payments[p].deposit.value else cfg.receipts.value)
  {
    if p < |st.payments| && (st.payments[p].deposit.Some? || cfg.receipts.Some?) {
      var pay := st.payments[p];
      var deposit := if pay.deposit.Some? then pay.deposit.value else cfg.receipts.value;
      EntryMeaning(st.books.ledger, pay.date, PaymentJournal(deposit, cfg.receivable, pay.amount));
      TwoProperLines(st.books.ledger.accounts, deposit, cfg.receivable, pay.amount);
    }
  }

  /**
   A posted payment lands on the account it names, or on the default one when it names none: that
   account rises by the amount, the receivable account falls by it, and every other stands still.
   */
  lemma PaymentMovesNet(st: State, cfg: Settings, p: nat, a: nat)
    requires I.Inv(st.books.ledger) && PostPayment(st, cfg, p).Ok?
    ensures var t, pay := PostPayment(st, cfg, p).value, st.payments[p];
            && (pay.deposit.Some? ==>
                  L.Net(t.books.ledger, a) == L.Net(st.books.ledger, a) + Shifted(pay.deposit.value, cfg.receivable, pay.amount, a))
            && (pay.deposit.None? ==>
                  && cfg.receipts.Some?
                  && L.Net(t.books.ledger, a) == L.Net(st.books.ledger, a) + Shifted(cfg.receipts.value, cfg.receivable, pay.amount, a))
            && t.payments == st.payments[p := pay.(status := PaymentPosted, postedJournal := Some(|st.books.ledger.journals|))]
            && t.books.inventory == st.books.inventory && t.books.bills == st.books.bills && t.invoices == st.invoices && t.notes == st.notes
            && |t.books.ledger.journals| == |st.books.ledger.journals| + 1
            && t.books.ledger.journals[|st.books.ledger.journals|].entryDate == pay.date
  {
    var pay := st.payments[p];
    var deposit := if pay.deposit.Some? then pay.deposit.value else cfg.receipts.value;
    var journal := [L.Line(deposit, pay.amount, 0), L.Line(cfg.receivable, 0, pay.amount)];
    EntryMeaning(st.books.ledger, pay.date, journal);
    CreateAndPostMovesNet(st.books.ledger, pay.date, journal, a);
    TwoLinesNet(journal[0], journal[1], a);
  }

  // ---------- Bills and credit notes ----------

  /** What the lines of a document price on one account. */
  function PricedOn(a: nat): DocLine -> int {
    (l: DocLine) => if l.account == a then Price(l) else 0
  }

  function TaxOf(lines: seq<DocLine>): int {
    SumBy(lines, (l: DocLine) => l.tax)
  }

  function PriceOf(lines: seq<DocLine>): int {
    SumBy(lines, (l: DocLine) => Price(l))
  }

  lemma SumsAgree(lines: seq<DocLine>, a: nat)
    ensures SumBy(lines, PricedOn(a)) == SumBy(lines, BaseOn(a))
    ensures TaxOf(lines) == SumBy(lines, Tax()) && PriceOf(lines) == SumBy(lines, Base())
  {
    SumEqual(lines, PricedOn(a), BaseOn(a));
    SumEqual(lines, (l: DocLine) => l.tax, Tax());
    SumEqual(lines, (l: DocLine) => Price(l), Base());
  }

  lemma TaxIsNonNegative(lines: seq<CalculatedLine>)
    ensures TaxOf(Lines(lines)) >= 0
  {
    var plain: seq<DocLine> := Lines(lines);
    forall l | l in plain
      ensures l.tax >= 0
    {
      var k :| 0 <= k < |lines| && lines[k] == l;
    }
    SumNonNegative(plain, (l: DocLine) => l.tax);
  }

  /** The debits a bill or credit note books, less the credit on its control account. */
  function Charged(control: nat, tax: Option<nat>, total: int, lines: seq<DocLine>, a: nat): int {
    SumBy(lines, PricedOn(a)) + (if tax == Some(a) then TaxOf(lines) else 0) - (if a == control then total else 0)
  }

  lemma ChargeMovesNet(st: L.State, date: int, control: nat, configured: Option<nat>, total: int, lines: seq<CalculatedLine>, a: nat)
    requires I.Inv(st) && TaxAccount(configured, SumBy(Lines(lines), Tax())).Ok?
    requires L.CreateAndPost(st, date, ChargeJournal(control, TaxAccount(configured, SumBy(Lines(lines), Tax())).value, total, Lines(lines))).Ok?
    ensures var journal := ChargeJournal(control, TaxAccount(configured, SumBy(Lines(lines), Tax())).value, total, Lines(lines));
            L.Net(L.CreateAndPost(st, date, journal).value, a) == L.Net(st, a) + Charged(control, configured, total, Lines(lines), a)
  {
    var taxAccount := TaxAccount(configured, SumBy(Lines(lines), Tax())).value;
    SumsAgree(Lines(lines), a);
    TaxIsNonNegative(lines);
    CreateAndPostMovesNet(st, date, ChargeJournal(control, taxAccount, total, Lines(lines)), a);
    ChargeJournalNet(control, taxAccount, total, Lines(lines), a);
  }

  lemma {:induction false} ChargeLineAt(lines: seq<DocLine>, k: nat)
    requires k < |lines|
    ensures ChargeLines(lines)[k] == L.Line(lines[k].account, Price(lines[k]), 0)
  {
    if k < |lines| - 1 {
      ChargeLineAt(lines[..|lines| - 1], k);
    }
  }

  lemma ChargeLineAccounts(accounts: seq<L.Account>, lines: seq<DocLine>)
    ensures (forall c :: c in ChargeLines(lines) ==> TakesPostings(accounts, c.account)) <==> forall l :: l in lines ==> TakesPostings(accounts, l.account)
    ensures (forall l :: l in lines ==> Price(l) > 0) ==> forall c :: c in ChargeLines(lines) ==> L.NonNegative(c)
  {
    forall k | 0 <= k < |lines|
      ensures ChargeLines(lines)[k] == L.Line(lines[k].account, Price(lines[k]), 0)
    {
      ChargeLineAt(lines, k);
    }
    assert forall k :: 0 <= k < |lines| ==> lines[k] in lines && ChargeLines(lines)[k] in ChargeLines(lines);
  }

  /** The lines and the settings let a bill or credit note be booked: priced lines, a total that adds up, accounts that take postings. */
  predicate Chargeable(accounts: seq<L.Account>, control: nat, tax: Option<nat>, total: int, lines: seq<DocLine>) {
    && |lines| > 0 && (forall l :: l in lines ==> Price(l) > 0 && TakesPostings(accounts, l.account))
    && total == PriceOf(lines) + TaxOf(lines) && TakesPostings(accounts, control)
    && (TaxOf(lines) > 0 ==> tax.Some? && TakesPostings(accounts, tax.value))
  }

  lemma ChargeIsProper(accounts: seq<L.Account>, control: nat, tax: Option<nat>, total: int, lines: seq<CalculatedLine>)
    requires |lines| > 0
    ensures Chargeable(accounts, control, tax, total, Lines(lines))
            <==> && TaxAccount(tax, SumBy(Lines(lines), Tax())).Ok?
                 && ProperLines(accounts, ChargeJournal(control, TaxAccount(tax, SumBy(Lines(lines), Tax())).value, total, Lines(lines)))
  {
    var plain: seq<DocLine> := Lines(lines);
    SumsAgree(plain, 0);
    TaxIsNonNegative(lines);
    if TaxAccount(tax, SumBy(plain, Tax())).Ok? {
      var account := TaxAccount(tax, SumBy(plain, Tax())).value;
      var journal := ChargeJournal(control, account, total, plain);
      ChargeJournalValidates(control, account, total, plain);
      ProperLinesMeaning(accounts, journal);
      I.InsertErrorMeaning(accounts, journal);
      ChargeLineAccounts(accounts, plain);
      var taxes := if TaxOf(plain) > 0 then [L.Line(account.value, TaxOf(plain), 0)] else [];
      assert journal == ChargeLines(plain) + taxes + [L.Line(control, 0, total)];
      assert forall c :: c in journal <==> c in ChargeLines(plain) || c in taxes || c == L.Line(control, 0, total);
      assert AllPositive(plain) <==> forall l :: l in plain ==> Price(l) > 0;
      if TaxOf(plain) > 0 {
        assert L.Line(account.value, TaxOf(plain), 0) in taxes;
      }
      ControlLineBalances(total, plain, TaxOf(plain));
    }
  }

  /**
   A bill is posted exactly when it is approved, not posted yet, of an active supplier and
   chargeable, its date is open, its items are in use, and those that keep stock go to a known place.
   */
  lemma BillIsPosted(b: Books, cfg: Settings, i: nat, active: bool)
    requires LogOk(b.inventory)
    ensures PostBill(b, cfg, i, active).Ok?
            <==> && i < |b.bills| && b.bills[i].status == BillApproved && b.bills[i].postedJournal.None? && active
                 && cfg.configured && cfg.payable.Some?
                 && OpenOn(b.ledger.periods, b.bills[i].date)
                 && Chargeable(b.ledger.accounts, cfg.payable.value, cfg.inputTax, b.bills[i].total, Lines(b.bills[i].lines))
                 && (forall l :: l in Lines(b.bills[i].lines) ==> Offered(b.inventory.items, l) && (Keeps(b.inventory.items, l) ==> KnownPlace(b.inventory, l)))
  {
    if i < |b.bills| && |b.bills[i].lines| > 0 && cfg.payable.Some? {
      var bill, lines := b.bills[i], Lines(b.bills[i].lines);
      var tax := TaxAccount(cfg.inputTax, SumBy(lines, Tax()));
      OpenDateMeaning(b.ledger.periods, bill.date);
      BillIsReceived(b.inventory, DateError(b.ledger.periods, bill.date), i, lines);
      ChargeIsProper(b.ledger.accounts, cfg.payable.value, cfg.inputTax, bill.total, bill.lines);
      if tax.Ok? {
        EntryMeaning(b.ledger, bill.date, ChargeJournal(cfg.payable.value, tax.value, bill.total, lines));
      }
      LinesAreStored(bill.lines);
    }
  }

  lemma LinesAreStored(lines: seq<CalculatedLine>)
    ensures forall l :: l in Lines(lines) ==> l.quantity > 0
  {
    var plain: seq<DocLine> := Lines(lines);
    forall l | l in plain
      ensures l.quantity > 0
    {
      var k :| 0 <= k < |lines| && lines[k] == l;
    }
  }

  /** A credit note is posted exactly when it is approved, not posted yet and chargeable against receivables, and its date is open. */
  lemma NoteIsPosted(st: State, cfg: Settings, n: nat)
    ensures PostNote(st, cfg, n).Ok?
            <==> && n < |st.notes| && st.notes[n].status == NoteApproved && st.notes[n].postedJournal.None? && cfg.configured
                 && OpenOn(st.books.ledger.periods, st.notes[n].date)
                 && Chargeable(st.books.ledger.accounts, cfg.receivable, cfg.outputTax, st.notes[n].total, Lines(st.notes[n].lines))
  {
    if n < |st.notes| && |st.notes[n].lines| > 0 {
      var note, lines := st.notes[n], Lines(st.notes[n].lines);
      var tax := TaxAccount(cfg.outputTax, SumBy(lines, Tax()));
      ChargeIsProper(st.books.ledger.accounts, cfg.receivable, cfg.outputTax, note.total, note.lines);
      if tax.Ok? {
        EntryMeaning(st.books.ledger, note.date, ChargeJournal(cfg.receivable, tax.value, note.total, lines));
      }
    }
  }

  /** A posted bill debits its lines' accounts with their prices and the input tax account with the tax, and credits payables with its total. */
  lemma BillMovesNet(b: Books, cfg: Settings, i: nat, active: bool, a: nat)
    requires I.Inv(b.ledger) && PostBill(b, cfg, i, active).Ok?
    ensures var t, bill := PostBill(b, cfg, i, active).value, b.bills[i];
            && cfg.payable.Some?
            && L.Net(t.ledger, a) == L.Net(b.ledger, a) + Charged(cfg.payable.value, cfg.inputTax, bill.total, Lines(bill.lines), a)
            && |t.ledger.journals| == |b.ledger.journals| + 1 && t.ledger.journals[|b.ledger.journals|].entryDate == bill.date
            && t.bills == b.bills[i := t.bills[i]]
            && t.bills[i].postedJournal == Some(|b.ledger.journals|) && t.bills[i].voidedJournal == bill.voidedJournal
            && t.bills[i].lines == bill.lines && t.bills[i].total == bill.total && t.bills[i].amountPaid == bill.amountPaid
            && t.bills[i].amountDue == bill.total - bill.amountPaid
            && t.bills[i].status == if bill.total > bill.amountPaid then BillPosted else BillPaid
  {
    var bill := b.bills[i];
    var taxAccount := TaxAccount(cfg.inputTax, SumBy(Lines(bill.lines), Tax())).value;
    ChargeMovesNet(b.ledger, bill.date, cfg.payable.value, cfg.inputTax, bill.total, bill.lines, a);
    EntryMeaning(b.ledger, bill.date, ChargeJournal(cfg.payable.value, taxAccount, bill.total, Lines(bill.lines)));
  }

  /** A posted credit note debits its lines' accounts and the output tax account, and credits receivables with its total. */
  lemma NoteMovesNet(st: State, cfg: Settings, n: nat, a: nat)
    requires I.Inv(st.books.ledger) && PostNote(st, cfg, n).Ok?
    ensures var t, note := PostNote(st, cfg, n).value, st.notes[n];
            && L.Net(t.books.ledger, a) == L.Net(st.books.ledger, a) + Charged(cfg.receivable, cfg.outputTax, note.total, Lines(note.lines), a)
            && t.notes == st.notes[n := note.(status := NotePosted, unapplied := note.total, postedJournal := Some(|st.books.ledger.journals|))]
            && |t.books.ledger.journals| == |st.books.ledger.journals| + 1
            && t.books.ledger.journals[|st.books.ledger.journals|].entryDate == note.date
  {
    var note := st.notes[n];
    var taxAccount := TaxAccount(cfg.outputTax, SumBy(Lines(note.lines), Tax())).value;
    ChargeMovesNet(st.books.ledger, note.date, cfg.receivable, cfg.outputTax, note.total, note.lines, a);
    EntryMeaning(st.books.ledger, note.date, ChargeJournal(cfg.receivable, taxAccount, note.total, Lines(note.lines)));
  }

  // ---------- Invoices ----------

  /** What a movement's cost of goods moves between two accounts of its item. */
  function GoodsOn(items: seq<Item>, a: nat): Movement -> int {
    (m: Movement) =>
      if m.key.item < |items| then
        (if items[m.key.item].expense == Some(a) then Abs(m.totalCost) else 0) - (if items[m.key.item].asset == Some(a) then Abs(m.totalCost) else 0)
      else 0
  }

  function HookOn(items: seq<Item>, a: nat): Hook -> int {
    (h: Hook) =>
      if h.item < |items| then
        (if items[h.item].expense == Some(a) then h.cost else 0) - (if items[h.item].asset == Some(a) then h.cost else 0)
      else 0
  }

  lemma {:induction false} CostLinesMoveHooks(items: seq<Item>, hooks: seq<Hook>, a: nat)
    requires CostLines(items, hooks).Ok?
    ensures L.NetOn(CostLines(items, hooks).value, a) == SumBy(hooks, HookOn(items, a))
  {
    if |hooks| > 0 {
      var init, h := hooks[..|hooks| - 1], hooks[|hooks| - 1];
      CostLinesMoveHooks(items, init, a);
      if h.cost != 0 {
        var d, c := L.Line(items[h.item].expense.value, h.cost, 0), L.Line(items[h.item].asset.value, 0, h.cost);
        OnConcat(CostLines(items, init).value, [d, c], a);
        TwoLinesNet(d, c, a);
      }
    }
  }

  lemma {:induction false} HooksAreRows(items: seq<Item>, hooks: seq<Hook>, rows: seq<Movement>, a: nat)
    requires |hooks| == |rows|
    requires forall n :: 0 <= n < |hooks| ==> hooks[n].item == rows[n].key.item && hooks[n].cost == Abs(rows[n].totalCost)
    ensures SumBy(hooks, HookOn(items, a)) == SumBy(rows, GoodsOn(items, a))
  {
    if |hooks| > 0 {
      HooksAreRows(items, hooks[..|hooks| - 1], rows[..|rows| - 1], a);
    }
  }

  lemma {:induction false} RevenueLineAt(lines: seq<DocLine>, k: nat)
    requires k < |lines|
    ensures RevenueLines(lines)[k] == L.Line(lines[k].account, 0, Price(lines[k]))
  {
    if k < |lines| - 1 {
      RevenueLineAt(lines[..|lines| - 1], k);
    }
  }

  lemma RevenueAccounts(accounts: seq<L.Account>, lines: seq<DocLine>)
    ensures (forall c :: c in RevenueLines(lines) ==> TakesPostings(accounts, c.account)) <==> forall l :: l in lines ==> TakesPostings(accounts, l.account)
    ensures (forall l :: l in lines ==> Price(l) > 0) ==> forall c :: c in RevenueLines(lines) ==> L.NonNegative(c)
  {
    forall k | 0 <= k < |lines|
      ensures RevenueLines(lines)[k] == L.Line(lines[k].account, 0, Price(lines[k]))
    {
      RevenueLineAt(lines, k);
    }
    assert forall k :: 0 <= k < |lines| ==> lines[k] in lines && RevenueLines(lines)[k] in RevenueLines(lines);
  }

  /** The item has both accounts that its cost of goods moves between. */
  predicate Bookable(items: seq<Item>, h: Hook) {
    h.item < |items| && items[h.item].expense.Some? && items[h.item].asset.Some?
  }

  /** What it cost can be booked. */
  predicate BookableOn(accounts: seq<L.Account>, items: seq<Item>, h: Hook) {
    && Bookable(items, h)
    && (h.cost != 0 ==> TakesPostings(accounts, items[h.item].expense.value) && TakesPostings(accounts, items[h.item].asset.value))
  }

  lemma {:induction false} CostLinesMeaning(items: seq<Item>, hooks: seq<Hook>)
    ensures CostLines(items, hooks).Ok? <==> forall h :: h in hooks ==> Bookable(items, h)
  {
    if |hooks| > 0 {
      var n := |hooks| - 1;
      CostLinesMeaning(items, hooks[..n]);
      assert hooks == hooks[..n] + [hooks[n]];
      assert forall h :: h in hooks <==> h in hooks[..n] || h == hooks[n];
      assert CostLines(items, hooks).Ok? <==> CostLines(items, hooks[..n]).Ok? && Bookable(items, hooks[n]);
    }
  }

  lemma {:induction false} CostAccounts(accounts: seq<L.Account>, items: seq<Item>, hooks: seq<Hook>)
    requires CostLines(items, hooks).Ok? && forall h :: h in hooks ==> h.cost >= 0
    ensures (forall c :: c in CostLines(items, hooks).value ==> TakesPostings(accounts, c.account) && L.NonNegative(c))
            <==> forall h :: h in hooks ==> BookableOn(accounts, items, h)
  {
    if |hooks| > 0 {
      var n := |hooks| - 1;
      var init, h := hooks[..n], hooks[n];
      assert forall x :: x in init ==> x in hooks;
      CostAccounts(accounts, items, init);
      assert hooks == init + [h];
      assert forall x :: x in hooks <==> x in init || x == h;
      if h.cost != 0 {
        CostPairAccounts(accounts, items, CostLines(items, init).value, h);
      }
    }
  }

  lemma CostPairAccounts(accounts: seq<L.Account>, items: seq<Item>, earlier: seq<L.Line>, h: Hook)
    requires Bookable(items, h) && h.cost > 0
    ensures var all := earlier + [L.Line(items[h.item].expense.value, h.cost, 0), L.Line(items[h.item].asset.value, 0, h.cost)];
            (forall c :: c in all ==> TakesPostings(accounts, c.account) && L.NonNegative(c))
            <==> (forall c :: c in earlier ==> TakesPostings(accounts, c.account) && L.NonNegative(c)) && BookableOn(accounts, items, h)
  {
    var d, c := L.Line(items[h.item].expense.value, h.cost, 0), L.Line(items[h.item].asset.value, 0, h.cost);
    assert forall x :: x in earlier + [d, c] <==> x in earlier || x == d || x == c;
  }

  lemma InvoiceIsProper(accounts: seq<L.Account>, receivable: nat, tax: Option<nat>, total: int, lines: seq<CalculatedLine>, items: seq<Item>, hooks: seq<Hook>)
    requires |lines| > 0 && (forall h :: h in hooks ==> h.cost >= 0) && CostLines(items, hooks).Ok?
    ensures Chargeable(accounts, receivable, tax, total, Lines(lines)) && (forall h :: h in hooks ==> BookableOn(accounts, items, h))
            <==> && TaxAccount(tax, SumBy(Lines(lines), Tax())).Ok?
                 && ProperLines(accounts, InvoiceJournal(receivable, TaxAccount(tax, SumBy(Lines(lines), Tax())).value, total, Lines(lines),
                                                         CostLines(items, hooks).value))
  {
    var plain: seq<DocLine> := Lines(lines);
    SumsAgree(plain, 0);
    TaxIsNonNegative(lines);
    if TaxAccount(tax, SumBy(plain, Tax())).Ok? {
      var account, costs := TaxAccount(tax, SumBy(plain, Tax())).value, CostLines(items, hooks).value;
      var journal := InvoiceJournal(receivable, account, total, plain, costs);
      InvoiceJournalValidates(receivable, account, total, plain, items, hooks);
      ProperLinesMeaning(accounts, journal);
      I.InsertErrorMeaning(accounts, journal);
      RevenueAccounts(accounts, plain);
      CostAccounts(accounts, items, hooks);
      var taxes := if TaxOf(plain) > 0 then [L.Line(account.value, 0, TaxOf(plain))] else [];
      InvoiceJournalLines(receivable, total, RevenueLines(plain), taxes, costs, journal);
      assert AllPositive(plain) <==> forall l :: l in plain ==> Price(l) > 0;
      ControlLineBalances(total, plain, TaxOf(plain));
    }
  }

  lemma InvoiceJournalLines(receivable: nat, total: int, revenue: seq<L.Line>, taxes: seq<L.Line>, costs: seq<L.Line>, journal: seq<L.Line>)
    requires journal == [L.Line(receivable, total, 0)] + revenue + taxes + costs && |taxes| <= 1
    ensures forall c :: c in journal <==> c == L.Line(receivable, total, 0) || c in revenue || c in taxes || c in costs
    ensures |taxes| == 1 ==> taxes[0] in taxes
  {
  }

  lemma HooksCostNothingNegative(inv: Inventory, closed: Option<Error>, invoice: nat, lines: seq<DocLine>)
    requires LogOk(inv) && InvoiceMovements(inv, closed, invoice, lines).Ok? && forall l :: l in lines ==> l.quantity > 0
    ensures forall h :: h in InvoiceMovements(inv, closed, invoice, lines).value.hooks ==> h.cost >= 0
  {
    InvoiceRows(inv, closed, invoice, lines);
    var issued, stocked := InvoiceMovements(inv, closed, invoice, lines).value, Stocked(inv.items, lines);
    forall n | 0 <= n < |issued.hooks|
      ensures issued.hooks[n].cost >= 0
    {
      assert HandedOn(invoice, stocked[n], issued.inventory.log, |inv.log| + n, issued.hooks[n]);
    }
  }

  /**
   An invoice is posted exactly when it is approved or sent, not posted yet, of an active customer and
   chargeable, its date is open, its lines can be issued one after another, and what they cost can be
   booked.
   */
  lemma InvoiceIsPosted(st: State, cfg: Settings, i: nat, active: bool)
    requires LogOk(st.books.inventory)
    ensures PostInvoice(st, cfg, i, active).Ok?
            <==> && i < |st.invoices| && (st.invoices[i].status == InvoiceApproved || st.invoices[i].status == InvoiceSent)
                 && st.invoices[i].postedJournal.None? && active && cfg.configured
                 && OpenOn(st.books.ledger.periods, st.invoices[i].date)
                 && Chargeable(st.books.ledger.accounts, cfg.receivable, cfg.outputTax, st.invoices[i].total, Lines(st.invoices[i].lines))
                 && var issued := InvoiceMovements(st.books.inventory, None, i, Lines(st.invoices[i].lines));
                    issued.Ok? && forall h :: h in issued.value.hooks ==> BookableOn(st.books.ledger.accounts, st.books.inventory.items, h)
  {
    if i < |st.invoices| && |st.invoices[i].lines| > 0 {
      var inv, lines, b := st.invoices[i], Lines(st.invoices[i].lines), st.books;
      OpenDateMeaning(b.ledger.periods, inv.date);
      LinesAreStored(inv.lines);
      var closed := DateError(b.ledger.periods, inv.date);
      var issued := InvoiceMovements(b.inventory, closed, i, lines);
      if issued.Ok? {
        HooksCostNothingNegative(b.inventory, closed, i, lines);
        InvoiceRows(b.inventory, closed, i, lines);
        CostLinesMeaning(b.inventory.items, issued.value.hooks);
        InvoiceEntryIsPosted(b.ledger, cfg, inv, b.inventory.items, issued.value.hooks);
      }
    }
  }

  lemma InvoiceEntryIsPosted(st: L.State, cfg: Settings, inv: Invoice, items: seq<Item>, hooks: seq<Hook>)
    requires |inv.lines| > 0 && (forall h :: h in hooks ==> h.cost >= 0)
    ensures Chargeable(st.accounts, cfg.receivable, cfg.outputTax, inv.total, Lines(inv.lines)) && OpenOn(st.periods, inv.date)
            && (forall h :: h in hooks ==> BookableOn(st.accounts, items, h))
            <==> && TaxAccount(cfg.outputTax, SumBy(Lines(inv.lines), Tax())).Ok? && CostLines(items, hooks).Ok?
                 && L.CreateAndPost(st, inv.date, InvoiceJournal(cfg.receivable, TaxAccount(cfg.outputTax, SumBy(Lines(inv.lines), Tax())).value,
                                                                 inv.total, Lines(inv.lines), CostLines(items, hooks).value)).Ok?
  {
    CostLinesMeaning(items, hooks);
    if CostLines(items, hooks).Ok? {
      InvoiceIsProper(st.accounts, cfg.receivable, cfg.outputTax, inv.total, inv.lines, items, hooks);
      if TaxAccount(cfg.outputTax, SumBy(Lines(inv.lines), Tax())).Ok? {
        EntryMeaning(st, inv.date, InvoiceJournal(cfg.receivable, TaxAccount(cfg.outputTax, SumBy(Lines(inv.lines), Tax())).value,
                                                  inv.total, Lines(inv.lines), CostLines(items, hooks).value));
      }
    }
  }

  /** The rows an invoice appended to the log. */
  function NewRows(before: Inventory, after: Inventory): seq<Movement> {
    if |before.log| <= |after.log| then after.log[|before.log|..] else []
  }

  /** What an invoice books: receivables against prices and output tax, and the cost of each row it issued. */
  function Invoiced(cfg: Settings, invoice: Document, items: seq<Item>, rows: seq<Movement>, a: nat): int {
    (if a == cfg.receivable then invoice.total else 0) - SumBy(invoice.lines, PricedOn(a))
    - (if cfg.outputTax == Some(a) then TaxOf(invoice.lines) else 0) + SumBy(rows, GoodsOn(items, a))
  }

  /** A posted invoice debits receivables with its total, credits prices and tax, and moves each issue's cost from its item's stock account to its expense account. */
  lemma InvoiceMovesNet(b: Books, cfg: Settings, invoice: Document, a: nat)
    requires I.Inv(b.ledger) && LogOk(b.inventory) && InvoicePosting(b, cfg, invoice).Ok?
    requires forall l :: l in invoice.lines ==> l.quantity > 0 && l.tax >= 0
    ensures var t := InvoicePosting(b, cfg, invoice).value;
            && L.Net(t.ledger, a) == L.Net(b.ledger, a) + Invoiced(cfg, invoice, b.inventory.items, NewRows(b.inventory, t.inventory), a)
            && t.bills == b.bills
            && |t.ledger.journals| == |b.ledger.journals| + 1 && t.ledger.journals[|b.ledger.journals|].entryDate == invoice.date
  {
    var closed := DateError(b.ledger.periods, invoice.date);
    var issued := InvoiceMovements(b.inventory, closed, invoice.id, invoice.lines).value;
    InvoiceMovementsKeepItems(b.inventory, closed, invoice.id, invoice.lines);
    CostsAreRows(b.inventory, closed, invoice.id, invoice.lines, a);
    InvoiceEntryMovesNet(b.ledger, cfg, invoice, CostLines(b.inventory.items, issued.hooks).value, a);
  }

  /** The cost lines of an invoice move what its rows cost. */
  lemma CostsAreRows(inv: Inventory, closed: Option<Error>, invoice: nat, lines: seq<DocLine>, a: nat)
    requires LogOk(inv) && InvoiceMovements(inv, closed, invoice, lines).Ok? && forall l :: l in lines ==> l.quantity > 0
    requires CostLines(inv.items, InvoiceMovements(inv, closed, invoice, lines).value.hooks).Ok?
    ensures var issued := InvoiceMovements(inv, closed, invoice, lines).value;
            L.NetOn(CostLines(inv.items, issued.hooks).value, a) == SumBy(NewRows(inv, issued.inventory), GoodsOn(inv.items, a))
  {
    var issued, stocked := InvoiceMovements(inv, closed, invoice, lines).value, Stocked(inv.items, lines);
    var rows := NewRows(inv, issued.inventory);
    InvoiceRows(inv, closed, invoice, lines);
    forall n | 0 <= n < |issued.hooks|
      ensures issued.hooks[n].item == rows[n].key.item && issued.hooks[n].cost == Abs(rows[n].totalCost)
    {
      assert HandedOn(invoice, stocked[n], issued.inventory.log, |inv.log| + n, issued.hooks[n]);
    }
    HooksAreRows(inv.items, issued.hooks, rows, a);
    CostLinesMoveHooks(inv.items, issued.hooks, a);
  }

  lemma InvoiceEntryMovesNet(st: L.State, cfg: Settings, invoice: Document, costs: seq<L.Line>, a: nat)
    requires I.Inv(st) && TaxAccount(cfg.outputTax, SumBy(invoice.lines, Tax())).Ok? && forall l :: l in invoice.lines ==> l.tax >= 0
    requires L.CreateAndPost(st, invoice.date, InvoiceJournal(cfg.receivable, TaxAccount(cfg.outputTax, SumBy(invoice.lines, Tax())).value,
                                                              invoice.total, invoice.lines, costs)).Ok?
    ensures var journal := InvoiceJournal(cfg.receivable, TaxAccount(cfg.outputTax, SumBy(invoice.lines, Tax())).value,
                                          invoice.total, invoice.lines, costs);
            var t := L.CreateAndPost(st, invoice.date, journal).value;
            && L.Net(t, a) == L.Net(st, a) + (if a == cfg.receivable then invoice.total else 0) - SumBy(invoice.lines, PricedOn(a))
                              - (if cfg.outputTax == Some(a) then TaxOf(invoice.lines) else 0) + L.NetOn(costs, a)
            && |t.journals| == |st.journals| + 1 && t.journals[|st.journals|].entryDate == invoice.date
  {
    var taxAccount := TaxAccount(cfg.outputTax, SumBy(invoice.lines, Tax())).value;
    var journal := InvoiceJournal(cfg.receivable, taxAccount, invoice.total, invoice.lines, costs);
    SumsAgree(invoice.lines, a);
    SumNonNegative(invoice.lines, (l: DocLine) => l.tax);
    CreateAndPostMovesNet(st, invoice.date, journal, a);
    InvoiceJournalNet(cfg.receivable, taxAccount, invoice.total, invoice.lines, costs, a);
    EntryMeaning(st, invoice.date, journal);
  }

  /** The invoice's own fields: its journal is the entry just posted, and what is due is its total less what was paid, whatever credit was applied before. */
  lemma InvoiceTakesJournal(st: State, cfg: Settings, i: nat, active: bool)
    requires PostInvoice(st, cfg, i, active).Ok?
    ensures var t, inv := PostInvoice(st, cfg, i, active).value, st.invoices[i];
            && t.invoices == st.invoices[i := inv.(postedJournal := Some(|st.books.ledger.journals|), amountDue := inv.total - inv.amountPaid,
                                                   status := if inv.total > inv.amountPaid then InvoiceSent else Paid)]
            && t.notes == st.notes && t.payments == st.payments && t.allocations == st.allocations && t.applications == st.applications
            && InvoicePosting(st.books, cfg, Document(i, inv.date, Lines(inv.lines), inv.total)) == Ok(t.books)
  {
  }

  /** The stock side of a posted bill: one receipt for each of its lines that keep stock, in order. */
  lemma BillReceives(b: Books, cfg: Settings, i: nat, active: bool)
    requires LogOk(b.inventory) && PostBill(b, cfg, i, active).Ok?
    ensures var log, t, stocked := b.inventory.log, PostBill(b, cfg, i, active).value.inventory, Stocked(b.inventory.items, Lines(b.bills[i].lines));
            && |t.log| == |log| + |stocked| && t.log[..|log|] == log
            && forall n :: 0 <= n < |stocked| ==> ReceiptOf(i, stocked[n], t.log[|log| + n])
  {
    BillRows(b.inventory, DateError(b.ledger.periods, b.bills[i].date), i, Lines(b.bills[i].lines));
  }

  /** The stock side of a posted invoice: one issue for each of its lines that keep stock, in order and at the average of its moment. */
  lemma InvoiceIssues(b: Books, cfg: Settings, invoice: Document)
    requires LogOk(b.inventory) && InvoicePosting(b, cfg, invoice).Ok? && forall l :: l in invoice.lines ==> l.quantity > 0
    ensures var log, t, stocked := b.inventory.log, InvoicePosting(b, cfg, invoice).value.inventory, Stocked(b.inventory.items, invoice.lines);
            && |t.log| == |log| + |stocked| && t.log[..|log|] == log
            && forall n :: 0 <= n < |stocked| ==> IssueOf(invoice.id, stocked[n], t.log[..|log| + n], t.log[|log| + n])
  {
    var closed := DateError(b.ledger.periods, invoice.date);
    InvoiceRows(b.inventory, closed, invoice.id, invoice.lines);
    var issued, stocked := InvoiceMovements(b.inventory, closed, invoice.id, invoice.lines).value, Stocked(b.inventory.items, invoice.lines);
    forall n | 0 <= n < |stocked|
      ensures IssueOf(invoice.id, stocked[n], issued.inventory.log[..|b.inventory.log| + n], issued.inventory.log[|b.inventory.log| + n])
    {
      assert HandedOn(invoice.id, stocked[n], issued.inventory.log, |b.inventory.log| + n, issued.hooks[n]);
    }
  }

  // ---------- Adjustments ----------

  /** The unit cost an adjustment asks for, or what stands in for one it does not give: the purchase price of what comes in, the average of what goes out. */
  function AskedCost(inv: Inventory, adj: Adjustment): int
    requires adj.key.item < |inv.items|
  {
    if adj.unitCost != 0 then adj.unitCost
    else if adj.quantity > 0 then inv.items[adj.key.item].purchasePrice
    else OnHand(inv.stock, adj.key).average
  }

  /** The row of an adjustment: opening stock keeps its kind, otherwise the sign decides it. */
  predicate AdjustmentRow(inv: Inventory, adj: Adjustment, row: Movement)
    requires adj.key.item < |inv.items|
  {
    && row.key == adj.key && row.source == FromAdjustment && row.quantity == adj.quantity
    && row.kind == (if adj.kind == OpeningStock then Opening else if adj.quantity > 0 then AdjustmentIn else AdjustmentOut)
    && row.unitCost == AskedCost(inv, adj) && Costed(row.quantity, row.unitCost, row.totalCost)
  }

  lemma AdjustmentIsRecorded(inv: Inventory, closed: Option<Error>, adj: Adjustment)
    requires LogOk(inv) && adj.key.item < |inv.items| && adj.quantity != 0
    requires AdjustmentCost(inv, inv.items[adj.key.item], adj).Ok?
    ensures var cost := AdjustmentCost(inv, inv.items[adj.key.item], adj).value;
            var recorded := Record(inv, closed, AdjustmentRequest(adj, cost));
            && (recorded.Ok? <==> && closed.None? && (adj.key.location.Some? ==> adj.key.location.value in inv.locations)
                                  && OnHand(inv.stock, adj.key).quantity + adj.quantity >= 0)
            && (recorded.Ok? ==>
                  && |recorded.value.log| == |inv.log| + 1 && AdjustmentRow(inv, adj, recorded.value.log[|inv.log|]))
  {
    StockIsOk(inv, adj.key);
    var cost := AdjustmentCost(inv, inv.items[adj.key.item], adj).value;
    MovementIsRecorded(inv, closed, AdjustmentRequest(adj, cost), adj.quantity);
  }

  lemma RoundsToNothing(n: nat)
    ensures IsHalfUp(n, SCALE, 0) <==> 2 * n < SCALE
  {
  }

  lemma CostIsPositive(quantity: int, unitCost: int, total: int)
    requires quantity != 0 && unitCost >= 0 && Costed(quantity, unitCost, total)
    ensures Abs(total) > 0 <==> 2 * (Abs(quantity) * unitCost) >= SCALE
  {
    var n := Abs(quantity) * unitCost;
    assert n >= 0;
    RoundsToNothing(n);
    RoundIsHalfUp(n, SCALE, Abs(total));
    RoundIsHalfUp(n, SCALE, 0);
    RoundIsHalfUp(n, SCALE, -Abs(total));
  }

  /**
   An adjustment is posted exactly when its item keeps stock on an account of its own, its cost
   comes to something, and date, place, stock and accounts allow it.
   */
  lemma AdjustmentIsPosted(b: Books, adj: Adjustment)
    requires LogOk(b.inventory)
    ensures AdjustmentPosting(b, adj).Ok?
            <==> && adj.key.item < |b.inventory.items| && b.inventory.items[adj.key.item].isTracked && b.inventory.items[adj.key.item].asset.Some?
                 && adj.quantity != 0 && AskedCost(b.inventory, adj) >= 0 && 2 * (Abs(adj.quantity) * AskedCost(b.inventory, adj)) >= SCALE
                 && OpenOn(b.ledger.periods, adj.date)
                 && (adj.key.location.Some? ==> adj.key.location.value in b.inventory.locations)
                 && OnHand(b.inventory.stock, adj.key).quantity + adj.quantity >= 0
                 && TakesPostings(b.ledger.accounts, adj.offset) && TakesPostings(b.ledger.accounts, b.inventory.items[adj.key.item].asset.value)
  {
    var inv := b.inventory;
    if adj.key.item < |inv.items| && adj.quantity != 0 && AdjustmentCost(inv, inv.items[adj.key.item], adj).Ok? {
      var item, closed := inv.items[adj.key.item], DateError(b.ledger.periods, adj.date);
      var cost := AdjustmentCost(inv, item, adj).value;
      OpenDateMeaning(b.ledger.periods, adj.date);
      AdjustmentIsRecorded(inv, closed, adj);
      var recorded := Record(inv, closed, AdjustmentRequest(adj, cost));
      if recorded.Ok? && item.asset.Some? {
        var total := recorded.value.log[|inv.log|].totalCost;
        CostIsPositive(adj.quantity, cost, total);
        AdjustmentEntry(b.ledger, adj, item.asset.value, Abs(total));
      }
    }
  }

  lemma AdjustmentEntry(st: L.State, adj: Adjustment, asset: nat, cost: nat)
    ensures L.CreateAndPost(st, adj.date, AdjustmentJournal(asset, adj.offset, adj.quantity, cost)).Ok?
            <==> cost > 0 && OpenOn(st.periods, adj.date) && TakesPostings(st.accounts, asset) && TakesPostings(st.accounts, adj.offset)
  {
    var journal := AdjustmentJournal(asset, adj.offset, adj.quantity, cost);
    EntryMeaning(st, adj.date, journal);
    if cost > 0 {
      TwoProperLines(st.accounts, asset, adj.offset, cost);
      TwoProperLines(st.accounts, adj.offset, asset, cost);
    } else {
      assert journal[0] in journal;
    }
  }

  /** A posted adjustment books its row's cost: from the offset account to the item's stock account when stock comes in, and back when it goes out. */
  lemma AdjustmentMovesNet(b: Books, adj: Adjustment, a: nat)
    requires I.Inv(b.ledger) && LogOk(b.inventory) && AdjustmentPosting(b, adj).Ok?
    ensures adj.key.item < |b.inventory.items| && b.inventory.items[adj.key.item].asset.Some?
    ensures var t, asset := AdjustmentPosting(b, adj).value, b.inventory.items[adj.key.item].asset.value;
            && |t.inventory.log| == |b.inventory.log| + 1 && AdjustmentRow(b.inventory, adj, t.inventory.log[|b.inventory.log|])
            && var cost := Abs(t.inventory.log[|b.inventory.log|].totalCost);
               L.Net(t.ledger, a) == L.Net(b.ledger, a) + if adj.quantity > 0 then Shifted(asset, adj.offset, cost, a) else Shifted(adj.offset, asset, cost, a)
  {
    var inv, closed := b.inventory, DateError(b.ledger.periods, adj.date);
    var item, t := inv.items[adj.key.item], AdjustmentPosting(b, adj).value;
    AdjustmentIsRecorded(inv, closed, adj);
    var cost := Abs(t.inventory.log[|inv.log|].totalCost);
    var journal := AdjustmentJournal(item.asset.value, adj.offset, adj.quantity, cost);
    CreateAndPostMovesNet(b.ledger, adj.date, journal, a);
    TwoLinesNet(journal[0], journal[1], a);
  }

  // ---------- Voids ----------

  /**
   A bill that is voided takes the reversal of its journal, dated like itself, as its voiding
   journal; one that was never posted, or voided before, only takes the status.
   */
  lemma VoidMeaning(b: Books, i: nat, listed: seq<nat>)
    requires I.Inv(b.ledger) && VoidBill(b, i, listed).Ok?
    ensures i < |b.bills| && b.bills[i].amountPaid <= 0
    ensures var t, bill := VoidBill(b, i, listed).value, b.bills[i];
            && t.bills == b.bills[i := t.bills[i]] && t.bills[i].status == BillVoided
            && t.bills[i] == bill.(status := BillVoided, voidedJournal := t.bills[i].voidedJournal)
            && (bill.postedJournal.None? || bill.voidedJournal.Some? ==>
                  t.ledger == b.ledger && t.inventory == b.inventory && t.bills[i].voidedJournal == bill.voidedJournal)
            && (bill.postedJournal.Some? && bill.voidedJournal.None? ==>
                  VoidedBy(b.ledger, t.ledger, bill.postedJournal.value, bill.date, t.bills[i].voidedJournal))
  {
    var bill := b.bills[i];
    if bill.postedJournal.Some? && bill.voidedJournal.None? {
      ReversalMeaning(b.ledger, bill.postedJournal.value, bill.date);
    }
  }

  /** Journal j is reversed by the journal `reversal`, the last one, of the given date. */
  predicate VoidedBy(before: L.State, after: L.State, j: nat, date: int, reversal: Option<nat>) {
    && j < |before.journals| && reversal == Some(|before.journals|) && |after.journals| == |before.journals| + 1
    && after.journals[j].status == L.Reversed && after.journals[j].reversal == reversal && after.journals[j].lines == before.journals[j].lines
    && var r := after.journals[|before.journals|];
       && r.reversedFrom == Some(j) && r.entryDate == date && r.status == L.Posted && |r.lines| == |before.journals[j].lines|
       && forall k :: 0 <= k < |r.lines| ==>
                        var l := before.journals[j].lines[k];
                        r.lines[k] == L.Line(l.account, l.credit, l.debit)
  }

  lemma ReversalMeaning(st: L.State, j: nat, date: int)
    requires I.Inv(st) && L.Reverse(st, j, date).Ok?
    ensures VoidedBy(st, L.Reverse(st, j, date).value, j, date, Some(|st.journals|))
  {
    EntryMeaning(st, date, L.Swap(st.journals[j].lines));
    var t := L.CreateAndPost(st, date, L.Swap(st.journals[j].lines)).value;
    assert t.journals[j] == t.journals[..|st.journals|][j];
  }
}
