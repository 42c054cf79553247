/**
 The journals that invoices, bills, credit notes, customer payments and stock adjustments post,
 and exactly when the ledger's line validation accepts them.
 */
module DocumentJournals {
  import opened Wrappers
  import opened Sums
  import opened LedgerModel
  import opened LedgerInvariant
  import opened StockModel
  import opened MovementLog

  /** The organization's accounting settings; `configured` says whether the row exists at all. */
  datatype Settings = Settings(
    configured: bool, receivable: nat, payable: Option<nat>, outputTax: Option<nat>, inputTax: Option<nat>, receipts: Option<nat>)

  function Base(): DocLine -> int { (l: DocLine) => BaseAmount(l) }
  function Tax(): DocLine -> int { (l: DocLine) => l.tax }
  function Gross(): DocLine -> int { (l: DocLine) => l.gross }
  function Subtotal(): DocLine -> int { (l: DocLine) => l.subtotal }

  datatype Header = Header(subtotal: int, tax: int, total: int)

  /** calculate_header: the document's totals are the column sums of its lines. */
  function CalculateHeader(lines: seq<DocLine>): Header {
    Header(SumBy(lines, Subtotal()), SumBy(lines, Tax()), SumBy(lines, Gross()))
  }

  /** The tax control account is needed only when there is tax. */
  function TaxAccount(configured: Option<nat>, tax: int): Result<Option<nat>> {
    if tax == 0 then Ok(None)
    else if configured.None? then Err(MissingAccount)
    else Ok(configured)
  }

  // ---------- Builders ----------

  function RevenueLines(lines: seq<DocLine>): (r: seq<Line>)
    ensures |r| == |lines|
  {
    if |lines| == 0 then []
    else
      var l := lines[|lines| - 1];
      RevenueLines(lines[..|lines| - 1]) + [Line(l.account, 0, BaseAmount(l))]
  }

  function ChargeLines(lines: seq<DocLine>): (r: seq<Line>)
    ensures |r| == |lines|
  {
    if |lines| == 0 then []
    else
      var l := lines[|lines| - 1];
      ChargeLines(lines[..|lines| - 1]) + [Line(l.account, BaseAmount(l), 0)]
  }

  function CostLines(items: seq<Item>, hooks: seq<Hook>): Result<seq<Line>> {
    if |hooks| == 0 then Ok([])
    else
      var earlier :- CostLines(items, hooks[..|hooks| - 1]);
      var h := hooks[|hooks| - 1];
      if h.item >= |items| then Err(ItemNotFound)
      else if items[h.item].expense.None? || items[h.item].asset.None? then Err(MissingAccount)
      else if h.cost == 0 then Ok(earlier)
      else Ok(earlier + [Line(items[h.item].expense.value, h.cost, 0), Line(items[h.item].asset.value, 0, h.cost)])
  }

  function InvoiceJournal(receivable: nat, taxAccount: Option<nat>, total: int, lines: seq<DocLine>, costs: seq<Line>): seq<Line> {
    var tax := SumBy(lines, Tax());
    [Line(receivable, total, 0)] + RevenueLines(lines)
    + (if tax > 0 && taxAccount.Some? then [Line(taxAccount.value, 0, tax)] else [])
    + costs
  }

  /** Bills and credit notes: debit the lines and the tax, credit the control account with the total. */
  function ChargeJournal(control: nat, taxAccount: Option<nat>, total: int, lines: seq<DocLine>): seq<Line> {
    var tax := SumBy(lines, Tax());
    ChargeLines(lines)
    + (if tax > 0 && taxAccount.Some? then [Line(taxAccount.value, tax, 0)] else [])
    + [Line(control, 0, total)]
  }

  function PaymentJournal(deposit: nat, receivable: nat, amount: int): seq<Line> {
    [Line(deposit, amount, 0), Line(receivable, 0, amount)]
  }

  function AdjustmentJournal(asset: nat, offset: nat, quantity: int, cost: int): seq<Line> {
    if quantity > 0 then [Line(asset, cost, 0), Line(offset, 0, cost)]
    else [Line(offset, cost, 0), Line(asset, 0, cost)]
  }

  // ---------- When they validate ----------

  predicate OneSided(l: Line) {
    l.debit > 0 <==> l.credit <= 0
  }

  predicate AllOneSided(lines: seq<Line>) {
    forall l :: l in lines ==> OneSided(l)
  }

  /** Debits less credits. */
  function Excess(lines: seq<Line>): int {
    SumBy(lines, Total(Dr)) - SumBy(lines, Total(Cr))
  }

  predicate AllPositive(lines: seq<DocLine>) {
    forall l :: l in lines ==> BaseAmount(l) > 0
  }

  lemma Join(a: seq<Line>, b: seq<Line>)
    ensures Excess(a + b) == Excess(a) + Excess(b)
    ensures AllOneSided(a + b) <==> AllOneSided(a) && AllOneSided(b)
  {
    SumConcat(a, b, Total(Dr));
    SumConcat(a, b, Total(Cr));
    assert forall l :: l in a + b <==> l in a || l in b;
  }

  lemma Single(l: Line)
    ensures Excess([l]) == l.debit - l.credit
    ensures AllOneSided([l]) <==> OneSided(l)
  {
    SumSnoc([], l, Total(Dr));
    SumSnoc([], l, Total(Cr));
    assert [] + [l] == [l];
    assert l in [l];
  }

  lemma {:induction false} DocLinesMeaning(lines: seq<DocLine>)
    ensures Excess(RevenueLines(lines)) == -SumBy(lines, Base())
    ensures Excess(ChargeLines(lines)) == SumBy(lines, Base())
    ensures AllOneSided(RevenueLines(lines)) <==> AllPositive(lines)
    ensures AllOneSided(ChargeLines(lines)) <==> AllPositive(lines)
  {
    if |lines| > 0 {
      var init, l := lines[..|lines| - 1], lines[|lines| - 1];
      var credit, debit := Line(l.account, 0, BaseAmount(l)), Line(l.account, BaseAmount(l), 0);
      DocLinesMeaning(init);
      Join(RevenueLines(init), [credit]);
      Join(ChargeLines(init), [debit]);
      Single(credit);
      Single(debit);
      assert lines == init + [l];
      assert AllPositive(lines) <==> AllPositive(init) && BaseAmount(l) > 0 by {
        assert forall x :: x in lines <==> x in init || x == l;
      }
    }
  }

  lemma {:induction false} CostLinesBalance(items: seq<Item>, hooks: seq<Hook>)
    requires forall h :: h in hooks ==> h.cost >= 0
    requires CostLines(items, hooks).Ok?
    ensures Excess(CostLines(items, hooks).value) == 0 && AllOneSided(CostLines(items, hooks).value)
  {
    if |hooks| > 0 {
      var init, h := hooks[..|hooks| - 1], hooks[|hooks| - 1];
      assert forall x :: x in init ==> x in hooks;
      CostLinesBalance(items, init);
      if h.cost != 0 {
        var d, c := Line(items[h.item].expense.value, h.cost, 0), Line(items[h.item].asset.value, 0, h.cost);
        Join(CostLines(items, init).value, [d, c]);
        Join([d], [c]);
        assert [d] + [c] == [d, c];
        Single(d);
        Single(c);
      }
    }
  }

  lemma {:induction false} BaseIsPositive(lines: seq<DocLine>)
    requires |lines| > 0 && AllPositive(lines)
    ensures SumBy(lines, Base()) > 0
  {
    SumNonNegative(lines[..|lines| - 1], Base());
  }

  /** A control line against document lines and tax, plus anything balanced, is valid exactly when the lines are positive and the total adds up. */
  lemma ControlLineBalances(total: int, lines: seq<DocLine>, tax: int)
    requires |lines| > 0 && tax >= 0
    ensures AllPositive(lines) && total == SumBy(lines, Base()) + tax ==> total > 0
  {
    if AllPositive(lines) { BaseIsPositive(lines); }
  }

  /**
   An invoice's journal passes validation exactly when every line has a positive base amount and
   the stored total is the sum of base amounts and tax, whatever stock costs ride along.
   */
  lemma InvoiceJournalValidates(receivable: nat, taxAccount: Option<nat>, total: int, lines: seq<DocLine>, items: seq<Item>, hooks: seq<Hook>)
    requires |lines| > 0 && (forall l :: l in lines ==> l.tax >= 0)
    requires SumBy(lines, Tax()) > 0 ==> taxAccount.Some?
    requires (forall h :: h in hooks ==> h.cost >= 0) && CostLines(items, hooks).Ok?
    ensures ValidationError(InvoiceJournal(receivable, taxAccount, total, lines, CostLines(items, hooks).value)).None?
            <==> AllPositive(lines) && total == SumBy(lines, Base()) + SumBy(lines, Tax())
  {
    var tax, costs := SumBy(lines, Tax()), CostLines(items, hooks).value;
    SumNonNegative(lines, Tax());
    var first, revenue := Line(receivable, total, 0), RevenueLines(lines);
    var taxes := if tax > 0 then [Line(taxAccount.value, 0, tax)] else [];
    DocLinesMeaning(lines);
    CostLinesBalance(items, hooks);
    Single(first);
    if tax > 0 { Single(taxes[0]); }
    Join([first] + revenue + taxes, costs);
    Join([first] + revenue, taxes);
    Join([first], revenue);
    ControlLineBalances(total, lines, tax);
    ValidationMeansWellFormed(InvoiceJournal(receivable, taxAccount, total, lines, costs));
  }

  /** The same for bills and credit notes. */
  lemma ChargeJournalValidates(control: nat, taxAccount: Option<nat>, total: int, lines: seq<DocLine>)
    requires |lines| > 0 && (forall l :: l in lines ==> l.tax >= 0)
    requires SumBy(lines, Tax()) > 0 ==> taxAccount.Some?
    ensures ValidationError(ChargeJournal(control, taxAccount, total, lines)).None?
            <==> AllPositive(lines) && total == SumBy(lines, Base()) + SumBy(lines, Tax())
  {
    var tax := SumBy(lines, Tax());
    SumNonNegative(lines, Tax());
    var charges, last := ChargeLines(lines), Line(control, 0, total);
    var taxes := if tax > 0 then [Line(taxAccount.value, tax, 0)] else [];
    DocLinesMeaning(lines);
    Single(last);
    if tax > 0 { Single(taxes[0]); }
    Join(charges + taxes, [last]);
    Join(charges, taxes);
    ControlLineBalances(total, lines, tax);
    ValidationMeansWellFormed(ChargeJournal(control, taxAccount, total, lines));
  }

  /** What the tax calculation promises of a stored line. */
  predicate TaxedLine(l: DocLine) {
    l.taxable >= 0 && l.tax >= 0 && l.subtotal == l.taxable && l.gross == l.taxable + l.tax
  }

  /** Amounts that the request schemas accept. */
  type pos = x: int | x > 0 witness 1

  /** A stored document line: as the tax calculation leaves it, with the positive quantity its check constraint demands. */
  type CalculatedLine = l: DocLine | TaxedLine(l) && l.quantity > 0 witness DocLine(None, None, 1, 0, 0, 0, 0, 0)

  function Lines(lines: seq<CalculatedLine>): seq<DocLine> {
    lines
  }

  lemma HeaderAddsUp(lines: seq<DocLine>)
    requires forall l :: l in lines ==> TaxedLine(l)
    ensures CalculateHeader(lines).total == SumBy(lines, Base()) + SumBy(lines, Tax())
    ensures CalculateHeader(lines).total == CalculateHeader(lines).subtotal + CalculateHeader(lines).tax
  {
    SumAdd(lines, Gross(), Base(), Tax());
    SumAdd(lines, Gross(), Subtotal(), Tax());
  }

  /** With the header recalculated from its lines, a document posts a valid journal exactly when each line has a positive taxable amount. */
  lemma DocumentValidatesIffTaxable(control: nat, taxAccount: Option<nat>, lines: seq<DocLine>, items: seq<Item>, hooks: seq<Hook>)
    requires |lines| > 0 && (forall l :: l in lines ==> TaxedLine(l))
    requires SumBy(lines, Tax()) > 0 ==> taxAccount.Some?
    requires (forall h :: h in hooks ==> h.cost >= 0) && CostLines(items, hooks).Ok?
    ensures var total := CalculateHeader(lines).total;
            var invoice := InvoiceJournal(control, taxAccount, total, lines, CostLines(items, hooks).value);
            var charge := ChargeJournal(control, taxAccount, total, lines);
            && (ValidationError(invoice).None? <==> forall l :: l in lines ==> l.taxable > 0)
            && (ValidationError(charge).None? <==> forall l :: l in lines ==> l.taxable > 0)
  {
    var total := CalculateHeader(lines).total;
    HeaderAddsUp(lines);
    InvoiceJournalValidates(control, taxAccount, total, lines, items, hooks);
    ChargeJournalValidates(control, taxAccount, total, lines);
    assert AllPositive(lines) <==> forall l :: l in lines ==> l.taxable > 0;
  }

  // ---------- What they move ----------

  lemma OnConcat(a: seq<Line>, b: seq<Line>, acc: nat)
    ensures NetOn(a + b, acc) == NetOn(a, acc) + NetOn(b, acc)
  {
    SumConcat(a, b, At(Dr, acc));
    SumConcat(a, b, At(Cr, acc));
  }

  lemma OnOne(l: Line, acc: nat)
    ensures NetOn([l], acc) == if l.account == acc then l.debit - l.credit else 0
  {
    SumSnoc([], l, At(Dr, acc));
    SumSnoc([], l, At(Cr, acc));
    assert [] + [l] == [l];
  }

  function BaseOn(acc: nat): DocLine -> int {
    (l: DocLine) => if l.account == acc then BaseAmount(l) else 0
  }

  lemma {:induction false} DocLinesNet(lines: seq<DocLine>, acc: nat)
    ensures NetOn(RevenueLines(lines), acc) == -SumBy(lines, BaseOn(acc))
    ensures NetOn(ChargeLines(lines), acc) == SumBy(lines, BaseOn(acc))
  {
    if |lines| > 0 {
      var init, l := lines[..|lines| - 1], lines[|lines| - 1];
      DocLinesNet(init, acc);
      OnConcat(RevenueLines(init), [Line(l.account, 0, BaseAmount(l))], acc);
      OnConcat(ChargeLines(init), [Line(l.account, BaseAmount(l), 0)], acc);
      OnOne(Line(l.account, 0, BaseAmount(l)), acc);
      OnOne(Line(l.account, BaseAmount(l), 0), acc);
    }
  }

  function TaxOn(taxAccount: Option<nat>, tax: int, acc: nat): int {
    if tax > 0 && taxAccount == Some(acc) then tax else 0
  }

  lemma InvoiceJournalNet(receivable: nat, taxAccount: Option<nat>, total: int, lines: seq<DocLine>, costs: seq<Line>, acc: nat)
    ensures NetOn(InvoiceJournal(receivable, taxAccount, total, lines, costs), acc)
            == (if receivable == acc then total else 0) - SumBy(lines, BaseOn(acc))
               - TaxOn(taxAccount, SumBy(lines, Tax()), acc) + NetOn(costs, acc)
  {
    var tax := SumBy(lines, Tax());
    var first, revenue := [Line(receivable, total, 0)], RevenueLines(lines);
    var taxes := if tax > 0 && taxAccount.Some? then [Line(taxAccount.value, 0, tax)] else [];
    OnConcat(first + revenue + taxes, costs, acc);
    OnConcat(first + revenue, taxes, acc);
    OnConcat(first, revenue, acc);
    OnOne(first[0], acc);
    if tax > 0 && taxAccount.Some? { OnOne(taxes[0], acc); }
    DocLinesNet(lines, acc);
  }

  lemma ChargeJournalNet(control: nat, taxAccount: Option<nat>, total: int, lines: seq<DocLine>, acc: nat)
    ensures NetOn(ChargeJournal(control, taxAccount, total, lines), acc)
            == SumBy(lines, BaseOn(acc)) + TaxOn(taxAccount, SumBy(lines, Tax()), acc) - (if control == acc then total else 0)
  {
    var tax := SumBy(lines, Tax());
    var charges, last := ChargeLines(lines), [Line(control, 0, total)];
    var taxes := if tax > 0 && taxAccount.Some? then [Line(taxAccount.value, tax, 0)] else [];
    OnConcat(charges + taxes, last, acc);
    OnConcat(charges, taxes, acc);
    OnOne(last[0], acc);
    if tax > 0 && taxAccount.Some? { OnOne(taxes[0], acc); }
    DocLinesNet(lines, acc);
  }

  lemma TwoLinesNet(a: Line, b: Line, acc: nat)
    ensures NetOn([a, b], acc) == (if a.account == acc then a.debit - a.credit else 0) + (if b.account == acc then b.debit - b.credit else 0)
  {
    assert [a, b] == [a] + [b];
    OnConcat([a], [b], acc);
    OnOne(a, acc);
    OnOne(b, acc);
  }
}
