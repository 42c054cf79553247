/** The bill services: creating with resolved lines, approving, posting, settling and voiding. */
module BillServices {
  import opened Wrappers
  import opened Sums
  import opened StockModel
  import opened MovementLog
  import opened DocumentJournals
  import opened BooksModel
  import opened Session
  import L = LedgerModel
  import LedgerServices
  import InventoryServices
  import PostingServices

  /** _resolve_item_context and add_item's account check: a tracked item's line posts to its stock account, whatever was asked for. */
  method ResolveRequest(db: Session, request: LineRequest) returns (r: Result<CalculatedLine>)
    ensures r == ResolveBillLine(db.Books(), request)
    ensures r.Ok? ==> L.Usable(db.accounts, r.value.account)
    ensures r.Ok? && request.item.Some? ==>
              && db.items[request.item.value].isActive
              && (db.items[request.item.value].isTracked ==> db.items[request.item.value].asset == Some(r.value.account))
  {
    var account := request.account;
    if request.item.Some? {
      var i := request.item.value;
      if i >= |db.items| {
        return Err(ItemNotFound);
      }
      if !db.items[i].isActive {
        return Err(ItemInactive);
      }
      if db.items[i].isTracked {
        account := db.items[i].asset;
      } else if account.None? {
        account := db.items[i].expense;
      }
    }
    if account.None? {
      return Err(MissingAccount);
    }
    if !L.Usable(db.accounts, account.value) {
      return Err(InvalidAccount);
    }
    r := Ok(DocLine(request.item, request.location, request.quantity, account.value,
                    request.taxable, request.taxable, request.tax, request.taxable + request.tax));
  }

  lemma {:induction false} ResolutionRefusalStays(b: Books, requests: seq<LineRequest>, k: nat)
    requires k <= |requests| && ResolveBillLines(b, requests[..k]).Err?
    ensures ResolveBillLines(b, requests) == ResolveBillLines(b, requests[..k])
  {
    if k < |requests| {
      assert requests[..|requests| - 1][..k] == requests[..k];
      ResolutionRefusalStays(b, requests[..|requests| - 1], k);
    } else {
      assert requests[..k] == requests;
    }
  }

  /** BillService.create: the lines one by one, then _recalc. */
  method CreateBillWithLines(db: Session, date: int, due: int, supplierKnown: bool, requests: seq<LineRequest>) returns (r: Outcome)
    modifies db`bills
    ensures Agrees(old(db.Books()), CreateBill(old(db.Books()), date, due, supplierKnown, requests), r, db.Books())
    ensures r.Done? ==> db.bills[|old(db.bills)|].amountDue == SumBy(Lines(db.bills[|old(db.bills)|].lines), Gross())
  {
    if due < date {
      return Refused(DueBeforeIssue);
    }
    if !supplierKnown {
      return Refused(SupplierNotFound);
    }
    ghost var before := db.Books();
    var lines: seq<CalculatedLine> := [];
    var total := 0;
    for k := 0 to |requests|
      invariant db.Books() == before
      invariant ResolveBillLines(before, requests[..k]) == Ok(lines)
      invariant total == SumBy(Lines(lines), Gross())
    {
      assert requests[..k + 1][..k] == requests[..k];
      var line := ResolveRequest(db, requests[k]);
      if line.Err? {
        ResolutionRefusalStays(before, requests, k + 1);
        return Refused(line.error);
      }
      SumSnoc(Lines(lines), line.value, Gross());
      lines := lines + [line.value];
      total := total + line.value.gross;
    }
    assert requests[..|requests|] == requests;
    db.bills := db.bills + [Bill(date, lines, total, 0, total, BillDraft, None, None)];
    r := Done;
  }

  method ApproveDraftBill(db: Session, i: nat) returns (r: Outcome)
    modifies db`bills
    ensures Agrees(old(db.Books()), ApproveBill(old(db.Books()), i), r, db.Books())
  {
    if i >= |db.bills| {
      return Refused(DocumentNotFound);
    }
    if db.bills[i].status != BillDraft {
      return Refused(WrongStatus);
    }
    if |db.bills[i].lines| == 0 {
      return Refused(NoLines);
    }
    db.bills := db.bills[i := db.bills[i].(status := BillApproved)];
    r := Done;
  }

  method MarkBillPosted(db: Session, i: nat, journal: nat)
    requires i < |db.bills|
    modifies db`bills
    ensures db.bills == old(db.bills)[i := PostedBill(old(db.bills)[i], journal)]
  {
    var bill := db.bills[i];
    var due := bill.total - bill.amountPaid;
    db.bills := db.bills[i := bill.(postedJournal := Some(journal), amountDue := due, status := if due > 0 then BillPosted else BillPaid)];
  }

  /** BillPostingService.post */
  method PostBillService(db: Session, i: nat, supplierActive: bool) returns (r: Outcome)
    modifies db`bills, db`stock, db`movements, db`journals, db`balances, db`periodBalances
    ensures Agrees(old(db.Books()), PostBill(old(db.Books()), db.settings, i, supplierActive), r, db.Books())
  {
    if i >= |db.bills| {
      return Refused(DocumentNotFound);
    }
    var bill := db.bills[i];
    if bill.status != BillApproved {
      return Refused(WrongStatus);
    }
    if bill.postedJournal.Some? {
      return Refused(AlreadyPosted);
    }
    if !supplierActive {
      return Refused(InactiveSupplier);
    }
    var journal := |db.journals|;
    r := PostingServices.PostBillDocument(db, Document(i, bill.date, Lines(bill.lines), bill.total));
    if r.Done? {
      MarkBillPosted(db, i, journal);
    }
  }

  /** The bill's side of SupplierPaymentAllocationService.allocate. */
  method SettleBillService(db: Session, i: nat, amount: pos) returns (r: Outcome)
    modifies db`bills
    ensures Agrees(old(db.Books()), SettleBill(old(db.Books()), i, amount), r, db.Books())
  {
    if i >= |db.bills| {
      return Refused(DocumentNotFound);
    }
    if amount > db.bills[i].amountDue {
      return Refused(ExceedsDue);
    }
    db.bills := db.bills[i := db.bills[i].(amountPaid := db.bills[i].amountPaid + amount)];
    db.bills := db.bills[i := db.bills[i].(amountDue := db.bills[i].total - db.bills[i].amountPaid)];
    if db.bills[i].amountDue == 0 {
      db.bills := db.bills[i := db.bills[i].(status := BillPaid)];
    } else if db.bills[i].amountPaid > 0 {
      db.bills := db.bills[i := db.bills[i].(status := BillPartiallyPaid)];
    }
    r := Done;
  }

  /**
   BillService.void: the journal is reversed and that is committed, then the stock is reversed, and
   the bill keeps the reversal's id. When the stock cannot be taken back the request is refused with
   the journal already reversed.
   */
  method VoidBillService(db: Session, i: nat, listed: seq<nat>) returns (r: Outcome)
    modifies db`bills, db`stock, db`movements, db`journals, db`balances, db`periodBalances
    ensures match VoidBill(old(db.Books()), i, listed)
            case Ok(s) => r.Done? && db.Books() == s
            case Err(e) => r == Refused(e) && db.Books() == VoidRemains(old(db.Books()), i)
  {
    if i >= |db.bills| {
      return Refused(DocumentNotFound);
    }
    var bill := db.bills[i];
    if bill.amountPaid > 0 {
      return Refused(HasPayments);
    }
    if bill.postedJournal.Some? && bill.voidedJournal.None? {
      var reversed := LedgerServices.ReverseEntry(db, bill.postedJournal.value, bill.date);
      if reversed.Err? {
        return Refused(reversed.error);
      }
      var restored := InventoryServices.ReverseDocumentMovements(db, bill.date, FromBill(i), listed);
      if restored.Refused? {
        return restored;
      }
      bill := bill.(voidedJournal := Some(reversed.value));
    }
    db.bills := db.bills[i := bill.(status := BillVoided)];
    r := Done;
  }
}
