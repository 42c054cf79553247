# Accounting engine: a verified model

This project models the accounting engine of the back end as one stateful system and proves what
its ledger, stock and receivables promise each other over whole runs.

- **General ledger.** Journals are created, edited, posted, reversed, voided and deleted; posting
  folds their lines into two caches, per account and per account and period.
- **Perpetual weighted-average stock.** An append-only movement log drives a quantity, a value and
  an average cost per item and location, with rounding at three places, and moves the ledger
  through bill, invoice and adjustment journals.
- **Receivables.** Invoices, payments, credit notes, allocations and credit applications, with the
  open-items list set against the control account.
- **Smaller machines.** Statement import with markers against duplicates, the sticky activation
  checklist, reconciliation of bank transactions, and rule generation in priority order.

## How the model is laid out

Each part has a specification: functions from a state and a request to a `Result`, which is either
the new state or the refusal the service raises (`LedgerModel`, `StockModel`, `MovementLog`,
`DocumentJournals`, `BooksModel`, `ReceivablesModel`, `StatementImport`, `Activation`,
`BankReconciliation`, `RuleGeneration`). A run is a sequence of requests in which a refused one
leaves the state as it was, as a request that raises discards its database session
(app/db/session.py:10-15), with one exception: `BillService.void` has by then committed the reversal
of the journal, so a void refused for short stock keeps that (`BooksModel.VoidRemains`).

The services themselves are methods that loop over lines and rewrite fields in place, on
`Session.Session`, whose fields are the tables (`LedgerServices`, `InventoryServices`,
`PostingServices`, `BillServices`, `ReceivablesServices`, `BankServices`, and the class
`Activation.Workspace`).
Each is proved to do exactly what its specification function says, and to leave the session as it
found it when it refuses (the void, with its journal reversed). The theorems are about the specification functions and about every run.

What the specification functions mean is stated once more without naming them, from the tables, the
log, the documents and the calls alone: exactly when each request is accepted and what it does to every
account, row and field (`LedgerMeaning`, `StockMeaning`, `PostingMeaning`, `DocumentStatuses`,
`ActivationMeaning`, and the sections of that kind in `RuleGeneration`, `StatementImport` and
`BankReconciliation`).

Money, quantities and unit costs are integers in units of 10^-8, the scale of their columns; below,
S = 10^8. Products and quotients are exact before they are rounded half up, away from zero for
negative numbers. `LedgerModel.Journal.effective` stands for "`posted_at` is set".

## Main results

1. *Stock account and inventory.* Over any run of bills and their voids, invoices, adjustments and
   unrelated ledger work, the item's stock account in the ledger and its inventory value differ by
   at most the sum over its movements of Q/S + 1 units, reversals counted twice
   (`StockLedgerTie.StockAccountFollowsInventory`). Two guards, both checkable before the request,
   bound the runs. The stock must not be emptied at a cost other than its average; for that case
   `EmptyingDrift` gives the exact difference left behind and exactly when the bound survives it, and
   `StockWitness.WriteDownBreaksTie` a run in which it does not. And when a bill is voided the stock
   must still cover what the bill received, which is exactly when the void goes through
   (`BillVoiding.VoidNeedsCover`). A void that comes too late is refused with its journal reversed:
   `LateVoidDrift` gives the exact difference and exactly when the bound survives it,
   `BillVoiding.LateVoidIsForGood` shows that the bill can never be voided again, and
   `LateVoidWitness.ReceiveSellVoid` that receiving ten, selling five and voiding breaks the bound.
2. *Control account and open items.* The control account never exceeds the sum of the open items,
   and equals it exactly when every successful credit went to a posted invoice for at most its
   amount due and every allocation went to an invoice whose amount due was total less paid
   (`ReceivablesTie.ControlAccountEqualsOpenItems`). That the credit `allocate` forgets does part
   them, for any amounts, is `ReceivablesWitness.CreditOwedAgain`.
3. *Caches and history.* In every reachable state each cached row is the sum of the lines of the
   journals that took effect (`LedgerInvariant.CachesEqualHistory`); period rows add up to account
   rows; the trial balance balances although archived accounts are left out.
4. *Reversals.* A posted journal and its reversal cancel on every account, each journal is reversed
   at most once, the two link columns are mutually inverse and reversals are always later entries.
5. *Reports.* Reports read POSTED journals only and so differ from the caches by exactly the journals
   that were later reversed (`LedgerReports.ReportDiffersByTakenBack`); one reversal takes a journal
   out of the cache once and out of the reports twice (`LedgerReports.ReversalSkewsReport`).
6. *Weighted average.* Q >= 0, an empty stock is worth nothing, and 2|A·Q - V·S| <= max(Q, S) after
   every movement of any type at any cost. Any movement and its reversal restore the quantity exactly,
   and the value within (Q+S)/2S units exactly when a condition on the starting stock holds
   (`StockModel.RoundTrip`); selling all that is held meets it in every reachable state
   (`MovementLog.SaleOfAllRestores`). Voiding a bill right after posting it always succeeds and restores
   every account and every quantity, and the values too unless a line's price rounds to nothing per
   unit (`BillVoiding.PostThenVoidValue`). What it does to a value is stated exactly for any bill and
   any order of the reversals (`BillValues.PostThenVoidExactly`), and for a key with one line as an
   if-and-only-if (`BillValues.PostThenVoidValueIff`); a bill that loses value, and with it the bound
   of result 1, is in `StockWitness`.
7. *Documents.* A document's journal is accepted exactly when every line has a positive taxable
   amount, whatever stock costs ride along. For bills, invoices, credit notes, payments and adjustments
   the exact condition under which each is posted is proved (`PostingMeaning.BillIsPosted` and its
   like), what it does to every account of the ledger (`BillMovesNet` and its like), and which rows it
   appends to the stock log, each sale at the average of its moment (`StockMeaning.InvoiceRows`).
8. *Statuses.* In every run the status of a document follows from its figures
   (`DocumentStatuses.StatusesFollowFigures`, `BillStatusFollowsFigures`). A voided bill is the
   exception the code allows: it stays voided exactly as long as nothing is allocated to it
   (`VoidedUntilPaid`).

Where the code and its documentation or reports disagree, the model follows the code: balances come
from every journal that took effect while reports read POSTED ones only; `allocate` recomputes the
amount due from total and paid and so forgets credits; `apply` clamps the amount due at zero; a
supplier payment can be allocated to a voided bill.

## Model

| member | source | states |
|---|---|---|
| Rounding.RoundIsHalfUp | app/services/inventory_service.py:39-40 | Rounding yields r if and only if r is nearest to the exact quotient, with ties going away from zero. |
| Rounding.RevaluedIsNear | app/services/inventory_service.py:181-185 | Dividing a value by a quantity and multiplying back, rounded both times, misses it by at most (Q+S)/2S units. |
| StockModel.MoveKeepsRep | app/services/inventory_service.py:172-190 | Every movement of every type, at any unit cost, keeps Q >= 0, worthless when empty, and 2·abs(A·Q - V·S) <= max(Q, S). |
| StockMeaning.MovementMeaning | app/services/inventory_service.py:172-236 | A movement is accepted if and only if the stock covers it. It then moves the signed quantity at the given cost, or the average for an issue without one, for that product rounded half up; a receipt re-averages and revalues the stock, an issue moves the value by its cost and the average follows, and an emptied stock is zero. |
| StockModel.ReceiptIsNear | app/services/inventory_service.py:228-235 | An inbound movement of cost c satisfies 2S·abs(V' - (V + c)) <= Q' + S. |
| StockModel.EmptyingAtAverageIsNear | app/services/inventory_service.py:178-180 | Emptying the stock at its average drops at most (Q + 2S)/2S units of value beyond the cost charged. |
| StockModel.MoveIsNear | app/services/inventory_service.py:199-236 | Any movement, unless it empties the stock at a cost other than the average, moves the value by its total cost up to max(Q, Q')/S + 1 units. |
| StockModel.ReversalRestores | app/services/inventory_service.py:427-453 | A movement that leaves stock on hand and, if it is a receipt, has a unit cost, is followed by a reversal that restores the value within (Q+S)/2S units. |
| StockModel.RoundTrip | app/services/inventory_service.py:226-236 | Any movement of any type can be reversed at once, restoring quantity exactly, and restoring value within (Q+S)/2S units if and only if a condition on the starting stock, the quantity and the unit cost holds: always, except for a receipt at no cost on top of stock and for an issue that empties it. |
| StockModel.EmptyingUndone | app/services/inventory_service.py:178-180 | Reversing an issue that emptied the stock brings back the cost charged within (Q+S)/2S units, and so the value if and only if that cost, revalued, is within the bound of it. |
| StockModel.EmptyingAtAverageRestores | app/services/inventory_service.py:226-227 | An issue at the average that empties a stock some movement left is reversed to the quantity, and to the value within (Q+S)/2S units, with no further condition. |
| StockModel.FreeReceiptUndone | app/services/inventory_service.py:226-227 | A receipt at no cost on top of stock is reversed at the new average, which restores the value if and only if what that takes out is within the bound of what the receipt added. |
| Rounding.OverIsZero | app/services/inventory_service.py:378 | A bill line's unit cost rounds to zero if and only if its amount is less than half a unit for each unit of quantity. |
| MovementLog.RecordKeepsLog | app/services/inventory_service.py:199-257 | Recording a movement keeps: on hand is the sum of logged quantities, each row's balance is the prefix sum at its point, each balance is the last row's. |
| MovementLog.NoPrefixNegative | app/services/inventory_service.py:175-176 | No prefix of the log sums below zero for any item and location. |
| MovementLog.MovementConservation | app/services/inventory_service.py:236-256 | In every run of movement attempts from an empty stock: on hand equals the log's sum, every row's balance its prefix sum, no prefix is negative, and every balance meets the weighted-average invariant. |
| StockMeaning.MovementIsRecorded | app/services/inventory_service.py:199-257 | A movement is recorded if and only if its date is open, its location exists, a reversal names its original, its quantity is not zero and the stock covers it; the row holds the request, its cost and the balance after it. |
| MovementLog.SaleOfAllRestores | app/services/inventory_service.py:398-425 | In every run, selling all that is held of an item can be reversed: the quantity comes back exactly and the value within (Q+S)/2S units. |
| MovementLog.ReverseDocumentRestoresQuantity | app/services/inventory_service.py:427-453 | Reversing a document, whatever order its movements are listed in, takes off every item and location exactly the quantity its original movements put there. |
| InventoryServices.ApplyBalanceDelta | app/services/inventory_service.py:172-190 | The balance row becomes the specified one, or is untouched when stock would go negative. |
| InventoryServices.RecordMovement | app/services/inventory_service.py:199-257 | Checks in the source's order, then balance and log together as specified, or neither. |
| MovementLog.BillReceivesItsLines | app/services/inventory_service.py:338-396 | A bill puts on each item and location exactly the quantities of its lines that resolve to that tracked item there; other lines move nothing. |
| MovementLog.InvoiceIssuesItsLines | app/services/inventory_service.py:338-425 | An invoice takes off each item and location exactly the quantities of its lines that resolve to that tracked item there. |
| StockMeaning.LineIsReceived | app/services/inventory_service.py:369-396 | A bill line is received if and only if its item is in use and, if tracked, date, location, quantity and price allow it; the row is a purchase of its quantity at price over quantity, rounded half up. |
| StockMeaning.BillRows | app/services/inventory_service.py:369-396 | A bill appends one such row for each of its tracked lines, in order, and nothing else. |
| StockMeaning.BillIsReceived | app/services/inventory_service.py:369-396 | A bill is received as a whole if and only if each of its lines can be by itself. |
| StockMeaning.LineIsIssued | app/services/inventory_service.py:398-425 | An invoice line is issued if and only if its item is in use and, if tracked, date and location allow it, the stock covers it and its average is not negative. |
| StockMeaning.InvoiceRows | app/services/inventory_service.py:398-425 | An invoice appends one sale for each of its tracked lines, in order, of its quantity at the average the log before it left for that item and location, and hands on for each its item and the absolute total cost. |
| StockMeaning.ReversalRows | app/services/inventory_service.py:427-453 | Reversing a document appends one reversal for each original in the listed order, naming it, of the negated quantity at its own unit cost, or at the average if that was zero. |
| InventoryServices.PostBillLine | app/services/inventory_service.py:371-395 | One bill line is received at taxable amount over quantity. |
| InventoryServices.PostBillMovements | app/services/inventory_service.py:369-396 | All lines of a bill in order, or none of them when one is refused. |
| InventoryServices.PostInvoiceLine | app/services/inventory_service.py:401-424 | One invoice line is issued as a sale of its quantity at the average on hand before it, and its item and cost handed on. |
| InventoryServices.PostInvoiceMovements | app/services/inventory_service.py:398-425 | All lines of an invoice in order with their costs, or none when one is refused. |
| InventoryServices.ReverseDocumentMovements | app/services/inventory_service.py:427-453 | The document's original movements are collected in whatever order the query listed its rows, then each is reversed in that order, or none. |
| InventoryServices.CollectReversals | app/services/inventory_service.py:428-435 | Of the document's rows in the order listed, exactly those that are no reversals, each with its quantity negated at its own unit cost. |
| StockLedgerTie.AdjustmentLedgerSide | app/services/inventory_service.py:270-313 | An accepted adjustment moves the item's stock account by the cost of its movement, up for an increase and down for a decrease, and no other item's. |
| PostingMeaning.AdjustmentIsPosted | app/services/inventory_service.py:259-313 | An adjustment is posted if and only if its item is tracked and has a stock account, its quantity is not zero, its cost (given, or the purchase price for an increase, or the average for a decrease) comes to at least half a unit, and date, location, stock and both accounts allow it. |
| PostingMeaning.AdjustmentMovesNet | app/services/inventory_service.py:284-313 | It books its row's cost between offset and stock account, in the direction of its sign, and on no other account. |
| InventoryServices.CreateAdjustment | app/services/inventory_service.py:259-336 | The movement and its two-line journal both happen as specified, or the session is as before. |
| LedgerInvariant.ValidationMeansWellFormed | app/services/journal_validation_service.py:9-22 | Validation passes if and only if there are two lines or more, each with exactly one positive side, and debits equal credits. |
| LedgerMeaning.LinesRefusedFor | app/services/journal_validation_service.py:9-22 | Too few lines, then the first line that is not on exactly one side and which way it fails, then an unequal whole: each is refused with its own error. |
| LedgerInvariant.InsertErrorMeaning | app/services/journal_service.py:39-55 | A journal's lines are all stored if and only if every account is usable and every amount meets the check constraint. |
| LedgerInvariant.PostKeepsCaches | app/services/journal_posting_service.py:36-56 | Posting keeps every account row and every period row equal to the history it caches. |
| LedgerInvariant.ReverseKeepsInv | app/services/journal_service.py:114-146 | A reversal keeps the caches, the links and the archived accounts consistent. |
| LedgerInvariant.ArchiveKeepsInv | app/services/account_service.py:49-60 | An account that passes the zero-balance guard has never carried an entry, so archiving it keeps the invariant. |
| LedgerInvariant.StepKeepsInv | app/services/journal_service.py:25-157 | Each of the thirteen operations keeps the ledger invariant. |
| LedgerInvariant.RunKeepsInv | app/services/journal_service.py:25-157 | Every run keeps the ledger invariant. |
| LedgerInvariant.CachesEqualHistory | app/repositories/account_repository.py:37-82 | In every run each account's period and closing sums equal its lines over all journals that took effect, and each period row the same restricted to that period. |
| LedgerMeaning.DateFallsInFirstPeriod | app/repositories/period_repository.py:32-41 | A date is resolved to a period if and only if some period has start <= date <= end, both days included, and then to the first such. |
| LedgerMeaning.JournalIsCreated | app/services/journal_service.py:25-58 | A journal is created if and only if the first period including its date is open, it has two lines or more, each on one side of an account that exists, is active and takes postings, and debits equal credits; it is a draft of that date, period and lines. |
| LedgerMeaning.JournalIsPosted | app/services/journal_posting_service.py:25-36 | A journal is posted if and only if it is a live draft in an open period with such lines. |
| LedgerMeaning.PostingFillsRows | app/services/journal_posting_service.py:36-56 | Posting adds each line to its own side of its account's row and of the row of its account in the journal's own period, and to no other row. |
| LedgerMeaning.StepMovesJournals | app/services/journal_service.py:71-157 | Whatever request succeeds: a journal becomes POSTED, REVERSED or VOIDED only by the request that names it, never VOIDED from POSTED, and only a draft's lines change or are deleted. |
| LedgerMeaning.DraftsMayChange | app/services/journal_service.py:71-157 | Which journals can be voided, deleted and edited, field by field, and what that does. |
| LedgerMeaning.ArchivedExactly | app/services/account_service.py:49-60 | An account can be archived if and only if it exists, is not archived, is not the system's own, and no entry that took effect ever named it. |
| LedgerReports.TrialBalanceBalances | app/services/ledger_service.py:21-36 | Over any listing of the live accounts, total debit equals total credit although archived accounts are left out. |
| LedgerReports.TrialLineMeaning | app/services/ledger_service.py:21-36 | An account's trial balance line is its debits less its credits over all journals that took effect, in the debit column when positive and the credit column when negative. |
| LedgerReports.TrialBalanceBalancesInEveryRun | app/services/ledger_service.py:21-36 | The same in every reachable state. |
| LedgerReports.ArchivedForever | app/services/account_service.py:49-60 | An archived account stays archived and keeps zero gross balances whatever happens next: nothing can be posted to it. |
| LedgerReports.PeriodRowsAddUp | app/services/journal_posting_service.py:43-54 | An account's period rows over all periods sum to its account row, debit and credit. |
| LedgerReports.ClosedPeriodStandsStill | app/services/journal_validation_service.py:30-32 | No run of operations, each called while the period is closed or locked, changes a cached row of that period. |
| LedgerReports.RunKeepsEntry | app/services/journal_validation_service.py:25-27 | Once a journal has taken effect, no run changes its lines, period, date or links. |
| LedgerReports.ReversalCancels | app/services/journal_service.py:121-140 | A reversed journal and its reversal put equal amounts on opposite sides of every account, and the reversal is a later entry. |
| LedgerReports.ReversalLinksAreInverse | app/services/journal_service.py:141-143 | One journal names the other as its reversal if and only if the other names it as its original; reversals run forward, so links are acyclic. |
| LedgerReports.ReversedOnceAndForAll | app/services/journal_service.py:114-146 | For any operations before and after a reversal: the pair nets to zero on every account, stays linked, and a second reversal is refused. |
| LedgerMeaning.ReversalRefusedOnlyFor | app/services/journal_service.py:114-146 | A journal can be reversed if and only if it is there and POSTED, the first period that includes the date is open, and every account of its lines still takes postings. |
| LedgerReports.CreatedJournalPosts | app/services/journal_service.py:65-69 | Whatever can be created can be posted at once, so create-and-post never stops half-way. |
| LedgerReports.ReportDiffersByTakenBack | app/repositories/report_repository.py:87-126 | Cached net less reported net is the net of the journals that took effect and are no longer POSTED. |
| LedgerReports.ReportsInEveryRun | app/repositories/account_repository.py:84-99 | That difference in every run; without reversals the reports agree with the caches. |
| LedgerReports.PostedOnlyBalances | app/repositories/report_repository.py:87-126 | POSTED-only debits equal credits whatever has been reversed. |
| LedgerReports.OpeningPlusActivity | app/repositories/report_repository.py:142-159 | Opening movement before a date plus activity from it to another is the as-of total at the latter; a journal dated on the first day is activity, one dated on the last is included. |
| LedgerReports.ReversalSkewsReport | app/services/journal_service.py:141 | A reversal takes the journal's net out of the cache once and out of the POSTED-only report twice. |
| LedgerReports.CreateAndPostMovesNet | app/services/journal_posting_service.py:36-52 | Creating and posting moves each account's cached net by exactly what the lines put on it. |
| LedgerReports.OpKeepsNet | app/services/journal_posting_service.py:36-52 | An operation that posts nothing to an account leaves its cached net alone. |
| LedgerServices.ValidateLines | app/services/journal_validation_service.py:9-22 | The running-total loop refuses with the first error the specification names, or passes. |
| LedgerServices.FoldLines | app/services/journal_posting_service.py:36-54 | The posting loop stops at the first unusable account; otherwise both caches are the specified folds. |
| LedgerServices.PostJournal | app/services/journal_posting_service.py:25-63 | Posting does what is specified or leaves the session as it was. |
| LedgerServices.CreateWithoutCommit | app/services/journal_service.py:25-58 | Creation appends the journal and its lines, or nothing, exactly as `LedgerMeaning.JournalIsCreated` says. |
| LedgerServices.CreateAndPostEntry | app/services/journal_service.py:65-69 | Both steps as specified, or neither. |
| LedgerServices.UpdateEntry | app/services/journal_service.py:71-98 | The lines of a draft are replaced as a whole, or nothing changes; a journal that has lines is refused for its unique line numbers unless the flush deletes before it inserts. |
| LedgerServices.DeleteOrVoidEntry | app/services/journal_service.py:100-109 | Drafts are deleted, everything else is refused. |
| LedgerServices.ReverseEntry | app/services/journal_service.py:114-146 | Swapped lines are posted and the two journals linked, or nothing changes. |
| LedgerServices.VoidEntry | app/services/journal_service.py:148-157 | Any journal but a POSTED one takes the status, REVERSED ones included. |
| LedgerServices.GetBalance | app/repositories/account_repository.py:37-56 | An absent row is created with zeros and no row reads differently afterwards. |
| LedgerServices.ArchiveAccount | app/services/account_service.py:49-60 | The guards in order, then both flags, or nothing. |
| LedgerServices.TrialBalance | app/services/ledger_service.py:21-36 | Each line shows, from the journals that took effect, debits less credits of its account, a surplus of debits in the first column and of credits in the second; both running totals, equal in a consistent ledger. |
| DocumentJournals.InvoiceJournalValidates | app/services/invoice_posting_service.py:51-65 | An invoice's journal passes validation if and only if every line's base amount is positive and the stored total is bases plus tax, whatever stock costs ride along. |
| DocumentJournals.ChargeJournalValidates | app/services/bill_posting_service.py:51-58 | The same for a bill's journal. |
| DocumentJournals.HeaderAddsUp | app/services/invoice_calculation_service.py:18-22 | The recalculated header's total is subtotal plus tax, and bases plus tax. |
| DocumentJournals.DocumentValidatesIffTaxable | app/services/credit_note_posting_service.py:40-47 | With a recalculated header, the journals of invoices, bills and credit notes are accepted if and only if every line has a positive taxable amount. |
| DocumentJournals.InvoiceJournalNet | app/services/invoice_posting_service.py:51-65 | What an invoice's journal puts on any one account. |
| DocumentJournals.ChargeJournalNet | app/services/bill_posting_service.py:51-58 | What a bill's or credit note's journal puts on any one account. |
| PostingMeaning.BillIsPosted | app/services/bill_posting_service.py:30-69 | A bill is posted if and only if it is approved, not posted, of an active supplier, its date is open, its lines are priced and add up to its total, all accounts involved take postings, its items are in use and tracked ones go to a known location. |
| PostingMeaning.BillMovesNet | app/services/bill_posting_service.py:51-76 | Posting it raises each account by the prices of its lines there, the input tax account by the tax, and lowers payables by the total; the bill takes the new journal, dated like itself, total less paid as due, and the status that follows. |
| PostingMeaning.BillReceives | app/services/bill_posting_service.py:41-50 | The stock side of it: one receipt per tracked line in order. |
| PostingMeaning.InvoiceIsPosted | app/services/invoice_posting_service.py:30-76 | An invoice is posted if and only if it is approved or sent, not posted, of an active customer, its date is open, its lines are priced and add up to its total, they can be issued in turn, and all accounts involved, those of each cost included, take postings. |
| PostingMeaning.InvoiceMovesNet | app/services/invoice_posting_service.py:51-76 | Posting it raises receivables by the total, lowers each account by the prices of its lines there and the output tax account by the tax, and moves the cost of each issued row from its item's stock account to its expense account. |
| PostingMeaning.InvoiceIssues | app/services/invoice_posting_service.py:44-50 | The stock side of it: one issue per tracked line in order, at the average of its moment. |
| PostingMeaning.InvoiceTakesJournal | app/services/invoice_posting_service.py:77-82 | The invoice takes the new journal, total less paid as due whatever credit was applied before, and the status that follows. |
| PostingMeaning.NoteIsPosted | app/services/credit_note_posting_service.py:25-62 | A credit note is posted if and only if it is approved, not posted, its date is open and its lines, total and accounts allow it. |
| PostingMeaning.NoteMovesNet | app/services/credit_note_posting_service.py:40-79 | Posting it raises each account by the prices of its lines there and the output tax account by the tax, and lowers receivables by the total. |
| PostingServices.BuildChargeJournal | app/services/bill_posting_service.py:51-58 | The loop builds the specified lines. |
| PostingServices.BuildCostLines | app/services/invoice_posting_service.py:58-65 | The loop over stock hooks skips zero costs and refuses items without both accounts. |
| PostingServices.BuildInvoiceJournal | app/services/invoice_posting_service.py:51-65 | Receivable, revenue, tax and cost lines in the order specified. |
| PostingServices.PostBillDocument | app/services/bill_posting_service.py:41-69 | Stock and journal of a bill both happen as specified, or the session is as before. |
| BillServices.ResolveRequest | app/services/bill_service.py:69-99 | A requested line's account is usable, and is the item's stock account whenever the item is tracked, whatever account was asked for. |
| PostingMeaning.BillLineLandsOn | app/services/bill_service.py:69-86 | A bill line lands on its tracked item's stock account, else on the account asked for, else on its item's expense account. |
| PostingMeaning.BillIsCreated | app/services/bill_service.py:39-67 | A bill is created if and only if it is not due before its date, its supplier is known and each line resolves to an account that takes postings; it is an unpaid draft of its lines' gross amounts. |
| BillServices.CreateBillWithLines | app/services/bill_service.py:39-67 | The due date and the supplier are checked, all lines are resolved in order and the amount due is the sum of their gross amounts, or nothing is created. |
| BillServices.ApproveDraftBill | app/services/bill_service.py:158-171 | A draft with lines is approved, everything else refused. |
| DocumentStatuses.ApprovalIsAccepted | app/services/invoice_service.py:156-181 | Bills, invoices and notes are approved if and only if they are drafts with lines; an invoice is sent once approved. |
| BillServices.PostBillService | app/services/bill_posting_service.py:30-76 | Status, double posting and supplier are checked, the books move, and the bill takes its journal, due amount and status, or nothing changes. |
| BillServices.SettleBillService | app/services/supplier_payment_allocation_service.py:30-47 | A supplier payment's effect on the bill it is allocated to. |
| DocumentStatuses.SettlementMeaning | app/services/supplier_payment_allocation_service.py:30-47 | A supplier payment is allocated if and only if the bill has that much due, whatever its status; paid and due move by the amount. |
| DocumentStatuses.BillStatusFollowsFigures | app/services/supplier_payment_allocation_service.py:42-47 | In every run a bill's total is its lines' prices and taxes, due is total less paid, it is partly paid if and only if something was paid and something is due, and paid only when nothing is due. |
| DocumentStatuses.VoidedUntilPaid | app/services/supplier_payment_allocation_service.py:30-47 | A voided bill stays VOIDED over any later run if and only if nothing has been allocated to it: allocation does not look at the status. |
| DocumentStatuses.VoidedCanBePaid | app/services/supplier_payment_allocation_service.py:30-47 | A payment of up to what a voided bill still shows as due is accepted, and makes it PAID or PARTIALLY_PAID. |
| PostingServices.PostInvoiceDocument | app/services/invoice_posting_service.py:44-76 | Stock and journal of an invoice both happen as specified, or the session is as before. |
| BillServices.VoidBillService | app/services/bill_service.py:185-209 | The journal is reversed and committed, then the stock is reversed, and the bill is voided with the reversal's id; refused before that, nothing changes, and refused for its stock, the journal stays reversed and stock and bill are as before. |
| PostingMeaning.VoidMeaning | app/services/bill_service.py:185-209 | A void that goes through makes the bill VOIDED, with the reversal of its own journal, dated like itself, as voiding journal; a bill never posted only takes the status. |
| PostingMeaning.ReversalMeaning | app/services/journal_service.py:114-146 | A reversal is the last journal, POSTED on its date, with each line of the original on the other side, the two naming each other. |
| StockLedgerTie.ResolvedLineIsClean | app/services/bill_service.py:69-86 | A bill line resolved from its item meets the run's condition if and only if it stays at the item's location and, unless its item is tracked, did not ask for the stock account: tracked lines always post to their stock account. |
| StockLedgerTie.ReceiptWithinSlack | app/services/inventory_service.py:378 | A receipt booked at the line's amount instead of its rounded total cost stays within the movement's allowance. |
| StockLedgerTie.MovementWithinSlack | app/services/inventory_service.py:228-235 | A movement booked at its own total cost stays within its allowance. |
| StockLedgerTie.BillWithinSlack | app/services/bill_posting_service.py:53-58 | A whole bill moves the inventory value by what its lines book on the stock account, up to the allowance of its movements. |
| StockLedgerTie.InvoiceWithinSlack | app/services/invoice_posting_service.py:58-65 | A whole invoice does so by the cost of goods it books. |
| StockLedgerTie.AdjustmentWithinSlack | app/services/inventory_service.py:291-302 | An adjustment does so by its signed cost. |
| StockLedgerTie.EmptyingDrift | app/services/inventory_service.py:178-180 | Emptying the stock by an adjustment changes the difference by value held less cost charged, and the bound survives if and only if that still fits. |
| StockLedgerTie.StepKeepsTie | app/services/bill_posting_service.py:53-58 | Every operation of a clean run keeps the bound, refused ones included. |
| StockLedgerTie.BillBookedNear | app/services/bill_posting_service.py:53-58 | What a bill books on the stock account and what its receipts cost differ by the rounding of their unit costs. |
| StockLedgerTie.VoidKeepsTie | app/services/bill_service.py:185-209 | Voiding a bill later, whatever happened in between, goes through and keeps the bound when the stock covers what the bill received, unless it takes back a free receipt or empties the stock at a cost other than the average. |
| BillVoiding.VoidNeedsCover | app/services/bill_service.py:185-209 | A posted bill without payments whose journal can be reversed is voided if and only if the stock on hand covers, for every item and location, what the bill received there. |
| BillVoiding.LateVoid | app/services/bill_service.py:192-200 | When it is not covered, the void is refused with stock and bills as before and the journal reversed, each account lower by what the journal put on it. |
| BillVoiding.LateVoidIsForGood | app/services/journal_service.py:118-119 | After such a void no later run of requests lets the bill be voided: every further try is refused. |
| StockLedgerTie.LateVoidDrift | app/services/bill_service.py:192-200 | Such a void changes the difference by exactly what the bill had booked on the stock account, and the bound survives if and only if that still fits in the allowance. |
| LateVoidWitness.ReceiveSellVoid | app/services/bill_service.py:185-209 | From empty books: ten units received at 10 by a bill, five sold, then the void is refused, the bound that held is broken, and whatever is asked later the bill cannot be voided. |
| StockLedgerTie.RunKeepsTie | app/services/inventory_service.py:172-257 | Every clean run keeps it, from any consistent books in which it holds. |
| StockLedgerTie.StockAccountFollowsInventory | app/services/inventory_service.py:172-257 | Over any clean run of bills and their voids, invoices, adjustments and other ledger work, in which each void finds its bill's receipts covered, ledger net of the stock account and inventory value differ by at most the sum of Q/S + 1 units over the item's movements, reversals counted twice. |
| StockWitness.WriteDownBreaksTie | app/services/inventory_service.py:275-277 | From books a clean run reached and in which the bound holds, writing down the one unit held at 10 at a unit cost of 1 is accepted and breaks it. |
| BillVoiding.BillValueIsNear | app/services/inventory_service.py:369-396 | A bill moves each key's value by the total cost of its receipts, up to their rounding. |
| BillVoiding.CoveredWithdrawalsSucceed | app/services/inventory_service.py:427-453 | Reversals of receipts succeed one after another whenever their sum is covered by the stock. |
| BillVoiding.EntryReverses | app/services/journal_service.py:114-146 | Any journal that could be created and posted can be reversed on the same date, to no net effect on any account. |
| BillVoiding.RunKeepsBooksOk | app/services/bill_service.py:158-209 | In every run, bills not yet posted have no payments, journals or movements, and the ledger and the log stay consistent. |
| BillVoiding.PostThenVoid | app/services/bill_service.py:185-209 | Voiding a bill right after posting it always succeeds and restores every account's net balance and every quantity exactly. |
| BillVoiding.PostThenVoidInEveryRun | app/services/bill_service.py:185-209 | The same for any bill that can be posted in any reachable state. |
| BillVoiding.CostedLinesMeaning | app/services/inventory_service.py:369-396 | A bill receives nothing for free if and only if the price of each tracked line is at least half a unit for each unit of its quantity. |
| BillVoiding.PostThenVoidValue | app/services/bill_service.py:185-209 | It restores each value up to the rounding of the bill's receipts, provided the price of each tracked line is at least half a unit for each unit of its quantity. |
| BillValues.PostThenVoidExactly | app/services/bill_service.py:185-209 | For any bill and any order of the reversals, the stock after posting and voiding is exactly that of receiving the bill's lines in turn and giving the same receipts back in the listed order. |
| BillValues.PostThenVoidValueIff | app/services/bill_service.py:185-209 | When one line of the bill moves an item and location, its value is kept within the receipt's rounding if and only if the receipt met the condition of `StockModel.RoundTrip` on the stock there was. |
| StockWitness.AllButFreeBillTakesValue | app/services/bill_service.py:185-209 | With one unit held at 10, a bill for 2,000,001 units at 0.01 in all is created, approved, posted and voided by the services, leaves 0.000005 of the 10, and so breaks the bound of the stock account that held before. |
| ReceivablesConservation.AllocateKeeps | app/services/payment_allocation_service.py:28-47 | An allocation keeps payments, invoices and notes equal to their trails. |
| ReceivablesConservation.ApplyKeeps | app/services/credit_note_service.py:98-113 | A credit application keeps them so as well. |
| ReceivablesConservation.RunKeepsConserved | app/services/payment_allocation_service.py:19-50 | Every run of receivables requests keeps every payment, invoice and note equal to its trail. |
| ReceivablesConservation.AllocationConservation | app/services/payment_allocation_service.py:19-50 | In every run: payment = unapplied + allocations, paid = allocations, credit = unapplied + applied, nothing over-spent, 0 <= due <= total - paid, with equality when no credit was applied. |
| DocumentStatuses.AllocationMeaning | app/services/payment_allocation_service.py:19-50 | An allocation is accepted if and only if payment and invoice are one customer's and both have that much left; what is due becomes total less paid. |
| DocumentStatuses.ApplicationMeaning | app/services/credit_note_service.py:98-113 | A credit is applied if and only if its note is posted and has that much left; what is due falls by it, but not below zero. |
| DocumentStatuses.StatusesFollowFigures | app/services/payment_allocation_service.py:44-47 | In every run an invoice is partly paid if and only if something was paid and something is due, paid only when nothing is due and, once posted, exactly then; a note is applied if and only if part of it was spent; allocations never join two customers. |
| ReceivablesTie.PostLeaksNothing | app/services/invoice_posting_service.py:51-82 | Posting an invoice raises control account and open items together. |
| ReceivablesTie.PostReceiptLeaksNothing | app/services/customer_payment_posting_service.py:21-54 | Posting a payment lowers both together. |
| PostingMeaning.PaymentIsPosted | app/services/customer_payment_posting_service.py:22-46 | A payment is posted if and only if it is a draft, the settings exist, it or they name a deposit account, its date is open, and that account and receivables take postings. |
| PostingMeaning.PaymentMovesNet | app/services/customer_payment_posting_service.py:31-54 | It raises the account the payment names, or the default one when it names none, and lowers receivables, each by its amount, and leaves every other account alone. |
| ReceivablesTie.PostCreditLeaksNothing | app/services/credit_note_posting_service.py:25-79 | Posting a credit note lowers both together. |
| ReceivablesTie.AllocateLeaks | app/services/payment_allocation_service.py:41-43 | An allocation lowers the difference by exactly the credit its recomputation forgets. |
| ReceivablesTie.ApplyLeaks | app/services/credit_note_service.py:104-110 | An application lowers it by exactly what exceeds the amount due, or by all of it on an unposted invoice. |
| ReceivablesTie.LeakMeaning | app/services/credit_note_service.py:106-107 | Leaks are never negative and are zero if and only if the request met its guard or was refused. |
| ReceivablesTie.StepLeaks | app/services/ar_query_service.py:20-31 | Every step lowers control account less open items by exactly its leak. |
| ReceivablesTie.RunLeaks | app/services/ar_query_service.py:20-31 | Over every run, from any consistent state, the difference never rises and is unchanged if and only if every successful request met its guard. |
| ReceivablesTie.ControlAccountEqualsOpenItems | app/services/ar_query_service.py:20-31 | Over any run in which only receivable documents post to the control account: it never exceeds the open items, and equals them if and only if every successful request met its guard. |
| ReceivablesWitness.CreditOwedAgain | app/services/payment_allocation_service.py:41-43 | For any amounts invoiced, credited and paid that fit: a clean run leads to a state where the two agree and a payment can be allocated to the credited invoice, after which the control account lies below by the whole credit. |
| ReceivablesWitness.HundredFits | app/services/payment_allocation_service.py:41-43 | 100 invoiced, 40 credited and 50 paid are such amounts. |
| ReceivablesServices.AddItem | app/services/invoice_service.py:86-140 | A line on a usable account is added and the header recomputed from all lines, or nothing changes. |
| DocumentStatuses.DraftMeaning | app/services/invoice_service.py:39-140 | A new invoice or note is a draft of its lines' gross amounts, a new payment a draft of its own, and a line is added only to a draft invoice, which is then recomputed. |
| ReceivablesServices.PostInvoiceService | app/services/invoice_posting_service.py:30-82 | Status, double posting, customer and settings are checked, the books move, and the invoice takes its journal, due amount and status, or nothing changes. |
| ReceivablesServices.PostCustomerPayment | app/services/customer_payment_posting_service.py:22-54 | Two lines, the payment's own deposit account or else the default one against receivable, and the payment's fields, or nothing. |
| ReceivablesServices.PostCreditNote | app/services/credit_note_posting_service.py:25-79 | The note's journal and fields, or nothing. |
| ReceivablesServices.AllocateToInvoice | app/services/payment_allocation_service.py:19-50 | The allocation as specified, keeping everything conserved. |
| ReceivablesServices.ApplyCreditNote | app/services/credit_note_service.py:98-113 | The application as specified, keeping everything conserved. |
| ReceivablesServices.OpenItems | app/services/ar_query_service.py:20-31 | The three passes list what is posted and still open, and their amounts sum to the open total. |
| StatementImport.RowsAreAccountedFor | app/services/integrations_service.py:398-443 | Created plus skipped plus failed is rows seen, and existing transactions are untouched. |
| StatementImport.ImportAddsMarkers | app/services/integrations_service.py:403-435 | An import leaves the old markers and those of its rows, one new transaction per new marker. |
| StatementImport.ReimportCreatesNothing | app/services/integrations_service.py:398-443 | Importing the same rows again creates nothing and counts every normalized row as a duplicate. |
| StatementImport.TwoImportsAreOne | app/services/integrations_service.py:398-443 | Importing A then B creates the same transactions with the same counts, or the same refusal, as A and B joined. |
| StatementImport.RefusedImportRefusesBoth | app/services/integrations_service.py:398-443 | When A alone is refused, so are A and B joined. |
| StatementImport.ImportCreatesMissing | app/services/integrations_service.py:403-435 | An import creates exactly one transaction for each marker of its rows that the account lacks, so a marker edited away is created again. |
| StatementImport.ImportRecordsRows | app/services/integrations_service.py:398-435 | The created transactions record, in order, exactly the first row of each digest that no imported or fed transaction of the account carried: its date, description and amount, as a deposit when positive and a withdrawal when negative. |
| StatementImport.NormalizedRows | app/services/integrations_service.py:297-333 | The rows that parse, and only they, are kept in their order. |
| StatementImport.FailedRows | app/services/integrations_service.py:297-333 | The rows that do not, and only they, are reported under their one-based numbers in order. |
| MarkerRuns.StepKeepsUnique | app/services/bank_transaction_service.py:54-80 | A request that succeeds makes an account carry a marker twice if and only if it enters or edits a transaction with a marker text already there; imports never do. |
| MarkerRuns.NoMarkerEverTwice | app/services/integrations_service.py:403-435 | Over any run of imports, entries, edits and reconciliations, no bank account carries a marker twice if and only if no successful request wrote one already there. |
| BankServices.NormalizeStatementRows | app/services/integrations_service.py:297-333 | Each row is normalized or recorded as a failure under its one-based number. |
| BankServices.ImportBankStatement | app/services/integrations_service.py:398-443 | The loop with its set of markers and counters does what is specified, or the whole import is discarded. |
| BankServices.UpdateBankTransaction | app/services/bank_transaction_service.py:29-80 | A reconciled transaction is frozen, a tax code needs a target account, and otherwise each given field changes. |
| BankReconciliation.EditMeaning | app/services/bank_transaction_service.py:66-80 | An edit is accepted if and only if the transaction is not reconciled and, if it ends up coded, has a target account; given fields are taken over and all others stay. |
| BankReconciliation.EntryMeaning | app/services/bank_transaction_service.py:54-64 | A transaction is entered if and only if its bank account is linked, its amount is not zero and, if coded, it has a target account. |
| BankServices.ReconcileWithJournal | app/services/bank_transaction_service.py:82-116 | The first line on the bank's ledger account decides, with the refusals in order. |
| BankReconciliation.ReconcileMeaning | app/services/bank_transaction_service.py:82-116 | A transaction is reconciled if and only if it is not yet, the journal is POSTED, and its first line on the bank's ledger account debits, less credits, the transaction's amount; only status and match change. |
| BankReconciliation.ReconciledForever | app/services/bank_transaction_service.py:92-104 | Once reconciled, in every later state the transaction is unchanged, refuses edits, and its amount is debit less credit of its journal's first line on the bank's account, through reversals and voids. |
| Activation.BuildMeaning | app/services/activation_service.py:142-154 | A build completes exactly what was complete or has evidence and keeps first completion times. |
| Activation.BlockedInChecklist | app/services/activation_service.py:205-238 | In the finished checklist an item not complete is blocked if and only if what it depends on is not completed in it. |
| Activation.RunCompletes | app/services/activation_service.py:142-154 | After any calls, an item is complete if and only if some call had evidence for it, with that first call's time. |
| Activation.RunSnapshot | app/services/activation_service.py:205-278 | Status, milestones, progress, activation and entry times after any calls follow from the evidence gathered so far, the financial review from the last call. |
| ActivationMeaning.StatusMeaning | app/services/activation_service.py:233-269 | After any calls the workspace is completed if and only if organization, reviewed settings and chart of accounts have been seen, with one of bank account, customer and supplier and one of invoice, bill, import and reconciliation; each milestone is one of these conditions. |
| ActivationMeaning.ActivationTime | app/services/activation_service.py:271-276 | The activation time is the clock of the first call after which they hold. |
| ActivationMeaning.ItemMeaning | app/services/activation_service.py:205-222 | An item is complete if and only if some call had evidence for it, and blocked if and only if neither it nor the one item it waits for has been seen. |
| ActivationMeaning.ItemTime | app/services/activation_service.py:147-154 | Its completion time is the clock of the first call that had evidence. |
| ActivationMeaning.CountsMeaning | app/services/activation_service.py:258-262 | Progress shows how many items were seen, the whole percents of eleven that is, and how many of the required three. |
| ActivationMeaning.RecommendationsMeaning | app/services/activation_service.py:240-270 | The recommendations are the first three items not seen, in the order of the checklist after its first. |
| Activation.EventPerRise | app/services/activation_service.py:90-135 | Every event, the financial review's included, has been emitted exactly as often as its condition came to hold. |
| Activation.EachEventOnce | app/services/activation_service.py:90-135 | Each item's completion event, each sticky milestone's and the overall event have been emitted exactly once if reached and never otherwise. |
| Activation.ReviewAnnouncedAgain | app/services/activation_service.py:264-269 | The financial review is not sticky: not viewed, viewed, not viewed and viewed again emits its event twice more, after any calls. |
| Activation.CompletionIsNeverLeft | app/services/activation_service.py:142-154 | Later calls with any evidence never lose a completed item, its time, a sticky milestone, the overall completion or its time, the entry time, or any progress. |
| Activation.RecommendItems | app/services/activation_service.py:240-271 | The recommendations are the first three open items in order, none of them completed, and there are none only when none is open. |
| Activation.StickyComplete | app/services/activation_service.py:142-145 | The scan finds whether the item was complete before, or has evidence now. |
| Activation.BuildChecklist | app/services/activation_service.py:205-278 | The loop with its growing set of completed ids builds the specified items. |
| Activation.Workspace.EvaluateSnapshot | app/services/activation_service.py:288-296 | The stored snapshot and the emitted events become the specified ones. |
| Activation.AssembleSnapshot | app/services/activation_service.py:230-278 | The snapshot assembled from the items is the specified one, milestones, progress and times included. |
| Activation.Workspace.EmitTransitionEvents | app/services/activation_service.py:90-135 | The events appended are those of the transition, in order. |
| RuleGeneration.OneSuggestionPerType | app/services/ai_service.py:244-272 | For each suggestion type there is exactly one suggestion if and only if some rule in use of the kind matches with it, and its rule comes first in priority and then in creation time among those. |
| RuleGeneration.GeneratedFromFirst | app/repositories/ai_repository.py:32-40 | Each suggestion comes from the first matching rule of its type in query order. |
| RuleGeneration.GenerationRefusedOnlyFor | app/services/ai_service.py:141-153 | Generation fails if and only if some listed rule has a condition that cannot be evaluated. |
| RuleGeneration.ExistsMeaning | app/services/ai_service.py:126-127 | "exists" holds if and only if the target has the field and it is not null. |
| RuleGeneration.EqualsMeaning | app/services/ai_service.py:129-130 | "equals" holds if and only if the entry is the expected value; a missing one equals only null. |
| RuleGeneration.ContainsMeaning | app/services/ai_service.py:128-132 | "contains" holds if and only if the expected value's lower-case text occurs in the entry's, a missing entry reading as empty text. |
| RuleGeneration.InMeaning | app/services/ai_service.py:133-134 | "in" holds if and only if the entry is one of the listed values or its text occurs in the expected text; nothing is in an empty value. |
| RuleGeneration.ComparisonMeaning | app/services/ai_service.py:135-138 | "greater_than" and "less_than" hold if and only if both sides read as decimals and the entry is the greater or the smaller; a missing entry reads as zero, and never both hold. |
| RuleGeneration.UnsupportedMeaning | app/services/ai_service.py:139 | An unsupported operator never holds. |
| RuleGeneration.EvaluationFailsFor | app/services/ai_service.py:133-138 | A condition cannot be evaluated if and only if it compares what reads as no decimal, or looks into a number, or for a non-text into a text. |
| RuleGeneration.MatchesMeaning | app/services/ai_service.py:141-147 | A rule matches if and only if each "all" condition holds and, if it has "any" conditions, one of them does. |
| RuleGeneration.RunRuleGeneration | app/services/ai_service.py:244-272 | The loop with its set of used types generates the specified suggestions. |

## Left out

- Tables are fields holding sequences and maps, and rows are values in them: aliasing of row objects within one session is not captured.
- Row locks and concurrent requests: each service call is one step. A commit part-way through a request is modelled where a later refusal makes it show, which is the void of a bill; `reverse` itself commits twice, and as nothing between its commits can be refused, only a crash there would show.
- The orders that queries and flushes choose are inputs: the listing of a document's movements, whose times within one posting are equal (app/repositories/inventory_repository.py:119-121), and whether an update's flush deletes lines before it inserts their successors (app/repositories/journal_repository.py:47-49, app/db/models/accounting.py:74).
- Descriptions, references, entry numbers, currencies, exchange rates, audit rows other than credit applications and activation events, and the link from a movement to its journal.
- Account codes, types and normal balances; the order in which queries list accounts, where no result depends on it.
- Reserved and available quantities, item and location maintenance, transfers as requests of their own.
- Projects and tax transactions; suppliers and customers beyond whether one is known or active, which is an input of each request. Tax calculation is not part of this model: a stored line is taken to have gross equal to taxable plus tax, neither negative.
- ReceivablesServices.AddItem: takes the line as resolved and taxed; the invoice line's default account and project attribution are not modelled.
- BillServices.SettleBillService: models the bill's side alone; the supplier payment's own balance and the match of its supplier are not modelled.
- Activation.Workspace.EvaluateSnapshot: takes the stored snapshot to be saved and kept between calls. The source changes a JSON column's dictionary in place and assigns the same object (app/services/activation_service.py:80-83), which the mapper need not notice, and another service overwrites the column (app/services/onboarding_service.py:114).
- BillServices.ResolveRequest: takes taxable amount and tax as inputs, because the tax calculation is not part of this model; project attribution is not modelled either.
- BankServices.UpdateBankTransaction: takes the tax figures of a coded transaction as an input, for the same reason.
- The memo of an imported transaction, which names the file.
- Closing and reopening periods: a period's status and dates are inputs that may change at any time.
- Amounts of allocations, applications and payments are positive by type, as the request schemas demand (app/schemas/ar.py:187, 210, 224).
- Supplier payments and supplier credits, which mirror the customer side, but for what an allocation does to its bill; updating and deleting draft bills.
- `InvoiceService.void`: it names `InventorySourceEntityType`, which its module never imports, so it cannot complete (app/services/invoice_service.py:207). Voiding is modelled on `BillService.void`.
- Editing the header or items of an existing document through its PATCH routes, some of which check no status: the receivables runs change a document only through the operations listed in `ReceivablesModel.Op`.
- ReceivablesTie.ControlAccountEqualsOpenItems: allocations are taken between posted documents and no other posting touches the control account; a payment allocated before it is posted lowers the open items at once and the control account only when it is posted.
- StockLedgerTie.StockAccountFollowsInventory: for an item at one location with a stock account of its own; a void must find what its bill received covered by the stock, and must not take back a free receipt or empty the stock at a cost other than the average. `LateVoidDrift` and `EmptyingDrift` say what happens otherwise.
- BillVoiding.PostThenVoidValue: for bills whose tracked lines have a price of at least half a unit for each unit of quantity, because otherwise value can be lost (`StockWitness.AllButFreeBillTakesValue`); what happens then is exact in `BillValues.PostThenVoidExactly`, and an if-and-only-if for a key that one line moves.
- File encodings, CSV headers, date and amount formats and SHA-256: parsing is any partial function of a row and the digest any function of bank account and row.
- How the activation evidence is counted from other tables, and the display preferences: evidence and the financial review are inputs of each call.
- Conditions on values that are neither text, number, list nor missing; rendering a value as text and reading it as a decimal are any functions.
- The platform's 28-digit decimal context and column overflow: numbers are unbounded.
- Authentication, permissions, billing, onboarding, notifications, files, payroll, dashboards and the front end.
