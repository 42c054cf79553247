/** The bill and invoice posting services and bill voiding: stock first, then a journal built line by line. */
module PostingServices {
  import opened Wrappers
  import opened Sums
  import opened StockModel
  import opened MovementLog
  import opened DocumentJournals
  import opened BooksModel
  import opened Session
  import L = LedgerModel
  import LedgerServices
  import InventoryServices

  /** sum of line_tax_amount */
  method TaxTotal(lines: seq<DocLine>) returns (tax: int)
    ensures tax == SumBy(lines, Tax())
  {
    tax := 0;
    for k := 0 to |lines|
      invariant tax == SumBy(lines[..k], Tax())
    {
      SumPrefix(lines, k, Tax());
      tax := tax + lines[k].tax;
    }
    assert lines[..|lines|] == lines;
  }

  /** The journal lines of a bill or credit note: the document lines, the tax, the control account. */
  method BuildChargeJournal(control: nat, taxAccount: Option<nat>, total: int, lines: seq<DocLine>) returns (journal: seq<L.Line>)
    requires SumBy(lines, Tax()) > 0 ==> taxAccount.Some?
    ensures journal == ChargeJournal(control, taxAccount, total, lines)
    ensures |lines| > 0 && (forall l :: l in lines ==> l.tax >= 0) ==>
              (L.ValidationError(journal).None? <==> AllPositive(lines) && total == SumBy(lines, Base()) + SumBy(lines, Tax()))
  {
    var tax := TaxTotal(lines);
    journal := [];
    for k := 0 to |lines|
      invariant journal == ChargeLines(lines[..k])
    {
      assert lines[..k + 1][..k] == lines[..k];
      journal := journal + [L.Line(lines[k].account, BaseAmount(lines[k]), 0)];
    }
    assert lines[..|lines|] == lines;
    if tax > 0 {
      journal := journal + [L.Line(taxAccount.value, tax, 0)];
    }
    journal := journal + [L.Line(control, 0, total)];
    if |lines| > 0 && forall l :: l in lines ==> l.tax >= 0 {
      ChargeJournalValidates(control, taxAccount, total, lines);
    }
  }

  lemma {:induction false} CostRefusalStays(items: seq<Item>, hooks: seq<Hook>, k: nat)
    requires k <= |hooks| && CostLines(items, hooks[..k]).Err?
    ensures CostLines(items, hooks) == CostLines(items, hooks[..k])
  {
    if k < |hooks| {
      assert hooks[..|hooks| - 1][..k] == hooks[..k];
      CostRefusalStays(items, hooks[..|hooks| - 1], k);
    } else {
      assert hooks[..k] == hooks;
    }
  }

  /** The cost-of-goods pairs, skipping movements that cost nothing. */
  method BuildCostLines(items: seq<Item>, hooks: seq<Hook>) returns (r: Result<seq<L.Line>>)
    ensures r == CostLines(items, hooks)
  {
    var lines: seq<L.Line> := [];
    for k := 0 to |hooks|
      invariant CostLines(items, hooks[..k]) == Ok(lines)
    {
      assert hooks[..k + 1][..k] == hooks[..k];
      var h := hooks[k];
      if h.item >= |items| {
        CostRefusalStays(items, hooks, k + 1);
        return Err(ItemNotFound);
      }
      if items[h.item].expense.None? || items[h.item].asset.None? {
        CostRefusalStays(items, hooks, k + 1);
        return Err(MissingAccount);
      }
      if h.cost != 0 {
        lines := lines + [L.Line(items[h.item].expense.value, h.cost, 0), L.Line(items[h.item].asset.value, 0, h.cost)];
      }
    }
    assert hooks[..|hooks|] == hooks;
    r := Ok(lines);
  }

  method BuildInvoiceJournal(receivable: nat, taxAccount: Option<nat>, total: int, lines: seq<DocLine>, costs: seq<L.Line>)
    returns (journal: seq<L.Line>)
    requires SumBy(lines, Tax()) > 0 ==> taxAccount.Some?
    ensures journal == InvoiceJournal(receivable, taxAccount, total, lines, costs)
  {
    var tax := TaxTotal(lines);
    journal := [L.Line(receivable, total, 0)];
    for k := 0 to |lines|
      invariant journal == [L.Line(receivable, total, 0)] + RevenueLines(lines[..k])
    {
      assert lines[..k + 1][..k] == lines[..k];
      journal := journal + [L.Line(lines[k].account, 0, BaseAmount(lines[k]))];
    }
    assert lines[..|lines|] == lines;
    if tax > 0 {
      journal := journal + [L.Line(taxAccount.value, 0, tax)];
    }
    journal := journal + costs;
  }

  /** BillPostingService.post, the part that moves the books. */
  method PostBillDocument(db: Session, bill: Document) returns (r: Outcome)
    modifies db`stock, db`movements, db`journals, db`balances, db`periodBalances
    ensures Agrees(old(db.Books()), BillPosting(old(db.Books()), db.settings, bill), r, db.Books())
  {
    if !db.settings.configured || db.settings.payable.None? {
      return Refused(MissingAccount);
    }
    if |bill.lines| == 0 {
      return Refused(NoLines);
    }
    var stock, movements := db.stock, db.movements;
    var moved := InventoryServices.PostBillMovements(db, bill.date, bill.id, bill.lines);
    if moved.Refused? {
      return moved;
    }
    var tax := TaxTotal(bill.lines);
    var taxAccount := TaxAccount(db.settings.inputTax, tax);
    if taxAccount.Err? {
      db.stock, db.movements := stock, movements;
      return Refused(taxAccount.error);
    }
    var journal := BuildChargeJournal(db.settings.payable.value, taxAccount.value, bill.total, bill.lines);
    var posted := LedgerServices.CreateAndPostEntry(db, bill.date, journal);
    if posted.Err? {
      db.stock, db.movements := stock, movements;
      return Refused(posted.error);
    }
    r := Done;
  }

  /** InvoicePostingService.post, the part that moves the books. */
  method PostInvoiceDocument(db: Session, invoice: Document) returns (r: Outcome)
    modifies db`stock, db`movements, db`journals, db`balances, db`periodBalances
    ensures Agrees(old(db.Books()), InvoicePosting(old(db.Books()), db.settings, invoice), r, db.Books())
    ensures r.Done? ==> |db.journals| == |old(db.journals)| + 1
  {
    if !db.settings.configured {
      return Refused(MissingSettings);
    }
    if |invoice.lines| == 0 {
      return Refused(NoLines);
    }
    var stock, movements := db.stock, db.movements;
    var issued := InventoryServices.PostInvoiceMovements(db, invoice.date, invoice.id, invoice.lines);
    if issued.Err? {
      return Refused(issued.error);
    }
    InvoiceMovementsKeepItems(old(db.Inventory()), DateError(db.periods, invoice.date), invoice.id, invoice.lines);
    var tax := TaxTotal(invoice.lines);
    var taxAccount := TaxAccount(db.settings.outputTax, tax);
    if taxAccount.Err? {
      db.stock, db.movements := stock, movements;
      return Refused(taxAccount.error);
    }
    var costs := BuildCostLines(db.items, issued.value);
    if costs.Err? {
      db.stock, db.movements := stock, movements;
      return Refused(costs.error);
    }
    var journal := BuildInvoiceJournal(db.settings.receivable, taxAccount.value, invoice.total, invoice.lines, costs.value);
    var posted := LedgerServices.CreateAndPostEntry(db, invoice.date, journal);
    if posted.Err? {
      db.stock, db.movements := stock, movements;
      return Refused(posted.error);
    }
    r := Done;
  }
}
