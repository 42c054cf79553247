/** Bank transactions and their reconciliation against posted journals: a match, once made, stays true through every later reversal and void. */
module BankReconciliation {
  import opened Wrappers
  import opened BankTables
  import opened LedgerModel
  import opened LedgerInvariant
  import opened LedgerReports

  /** `accounts[b]` is the ledger account bank account b is linked to; the link is set once. */
  datatype Bank = Bank(ledger: State, accounts: seq<nat>, transactions: seq<BankTransaction>)

  /** The first line of a journal on an account. */
  function FirstOn(lines: seq<Line>, account: nat): Option<Line> {
    if |lines| == 0 then None
    else if lines[0].account == account then Some(lines[0])
    else FirstOn(lines[1..], account)
  }

  predicate Fresh(txn: BankTransaction) {
    txn.status == Unreconciled && txn.matched.None?
  }

  function CreateTransaction(b: Bank, txn: BankTransaction): Result<Bank>
    requires Fresh(txn)
  {
    if txn.bankAccount >= |b.accounts| then Err(DocumentNotFound)
    else if txn.amount == 0 then Err(ZeroAmount)
    else if txn.taxCode.Some? && txn.target.None? then Err(MissingTarget)
    else Ok(b.(transactions := b.transactions + [txn]))
  }

  /** The fields an edit request can carry; absent ones stay as they are. `figures` is what the tax calculation makes of the amount. */
  datatype Edit = Edit(
    postedDate: Option<string>, description: Option<string>, reference: Option<Reference>, memo: Option<string>,
    target: Option<nat>, taxCode: Option<nat>, figures: TaxFigures)

  function Or<T>(edit: Option<T>, current: Option<T>): Option<T> {
    if edit.Some? then edit else current
  }

  function Edited(txn: BankTransaction, edit: Edit): BankTransaction {
    var taxCode := Or(edit.taxCode, txn.taxCode);
    txn.(postedDate := Or(edit.postedDate, txn.postedDate),
         description := if edit.description.Some? then edit.description.value else txn.description,
         reference := Or(edit.reference, txn.reference),
         memo := Or(edit.memo, txn.memo),
         target := Or(edit.target, txn.target),
         taxCode := taxCode,
         figures := if taxCode.Some? then Some(edit.figures) else txn.figures)
  }

  function UpdateTransaction(b: Bank, t: nat, edit: Edit): Result<Bank> {
    if t >= |b.transactions| then Err(TransactionNotFound)
    else if b.transactions[t].status == Reconciled then Err(AlreadyReconciled)
    else if Edited(b.transactions[t], edit).taxCode.Some? && Edited(b.transactions[t], edit).target.None? then Err(MissingTarget)
    else Ok(b.(transactions := b.transactions[t := Edited(b.transactions[t], edit)]))
  }

  function ReconcileJournal(b: Bank, t: nat, journal: nat): Result<Bank> {
    if t >= |b.transactions| then Err(TransactionNotFound)
    else
      var txn := b.transactions[t];
      if txn.status == Reconciled then Err(AlreadyReconciled)
      else if txn.bankAccount >= |b.accounts| then Err(DocumentNotFound)
      else if !LiveJournal(b.ledger, journal) then Err(JournalNotFound)
      else if b.ledger.journals[journal].status != Posted then Err(NotPosted)
      else
        var line := FirstOn(b.ledger.journals[journal].lines, b.accounts[txn.bankAccount]);
        if line.None? then Err(NoBankLine)
        else if line.value.debit - line.value.credit != txn.amount then Err(AmountMismatch)
        else Ok(b.(transactions := b.transactions[t := txn.(status := Reconciled, matched := Some(journal))]))
  }

  // ---------- What the requests mean ----------

  /** Line k is the journal's first on the account. */
  predicate FirstAt(lines: seq<Line>, account: nat, k: int) {
    0 <= k < |lines| && lines[k].account == account && forall i :: 0 <= i < k ==> lines[i].account != account
  }

  lemma {:induction false} FirstOnMeaning(lines: seq<Line>, account: nat)
    ensures FirstOn(lines, account).None? <==> forall l :: l in lines ==> l.account != account
    ensures forall k :: FirstAt(lines, account, k) ==> FirstOn(lines, account) == Some(lines[k])
    ensures FirstOn(lines, account).Some? ==> exists k :: FirstAt(lines, account, k)
  {
    if |lines| > 0 {
      FirstOnMeaning(lines[1..], account);
      assert lines == [lines[0]] + lines[1..];
      if lines[0].account == account {
        assert FirstAt(lines, account, 0);
      } else {
        forall k | FirstAt(lines, account, k)
          ensures FirstOn(lines, account) == Some(lines[k])
        {
          assert FirstAt(lines[1..], account, k - 1);
        }
        if FirstOn(lines, account).Some? {
          var k :| FirstAt(lines[1..], account, k);
          assert FirstAt(lines, account, k + 1);
        }
      }
    }
  }

  /**
   A transaction is reconciled with a journal exactly when it is not yet, the journal is POSTED, and
   its first line on the bank's ledger account debits, less what it credits, the transaction's amount.
   Nothing but the status and the match changes.
   */
  lemma ReconcileMeaning(b: Bank, t: nat, journal: nat)
    ensures ReconcileJournal(b, t, journal).Ok?
            <==> && t < |b.transactions| && b.transactions[t].status != Reconciled && b.transactions[t].bankAccount < |b.accounts|
                 && journal < |b.ledger.journals| && !b.ledger.journals[journal].deleted && b.ledger.journals[journal].status == Posted
                 && var lines := b.ledger.journals[journal].lines;
                    exists k :: FirstAt(lines, b.accounts[b.transactions[t].bankAccount], k) && lines[k].debit - lines[k].credit == b.transactions[t].amount
    ensures ReconcileJournal(b, t, journal).Ok? ==>
              ReconcileJournal(b, t, journal).value
              == b.(transactions := b.transactions[t := b.transactions[t].(status := Reconciled, matched := Some(journal))])
  {
    if && t < |b.transactions| && b.transactions[t].bankAccount < |b.accounts| && journal < |b.ledger.journals| {
      var lines, account := b.ledger.journals[journal].lines, b.accounts[b.transactions[t].bankAccount];
      FirstOnMeaning(lines, account);
    }
  }

  /** A transaction is entered exactly when its bank account is linked, it moves something and, if it is coded for tax, it has a target account. */
  lemma EntryMeaning(b: Bank, txn: BankTransaction)
    requires Fresh(txn)
    ensures CreateTransaction(b, txn).Ok? <==> txn.bankAccount < |b.accounts| && txn.amount != 0 && (txn.taxCode.Some? ==> txn.target.Some?)
    ensures CreateTransaction(b, txn).Ok? ==> CreateTransaction(b, txn).value == b.(transactions := b.transactions + [txn])
  {
  }

  /** A field the request gives takes its value; one it does not give keeps its own. */
  predicate Carried<T(==)>(given: Option<T>, before: T, after: T) {
    after == if given.Some? then given.value else before
  }

  predicate CarriedOption<T(==)>(given: Option<T>, before: Option<T>, after: Option<T>) {
    (given.Some? ==> after == given) && (given.None? ==> after == before)
  }

  /**
   A transaction is edited exactly when it is not reconciled and, with the tax code it ends up with, it
   has a target account. Each field given is taken over, every other stays, and a coded transaction gets
   the figures of its code.
   */
  lemma EditMeaning(b: Bank, t: nat, edit: Edit)
    ensures UpdateTransaction(b, t, edit).Ok?
            <==> && t < |b.transactions| && b.transactions[t].status != Reconciled
                 && (edit.taxCode.Some? || b.transactions[t].taxCode.Some? ==> edit.target.Some? || b.transactions[t].target.Some?)
    ensures UpdateTransaction(b, t, edit).Ok? ==>
              var u, before := UpdateTransaction(b, t, edit).value, b.transactions[t];
              && u == b.(transactions := b.transactions[t := u.transactions[t]])
              && var after := u.transactions[t];
                 && CarriedOption(edit.postedDate, before.postedDate, after.postedDate) && Carried(edit.description, before.description, after.description)
                 && CarriedOption(edit.reference, before.reference, after.reference) && CarriedOption(edit.memo, before.memo, after.memo)
                 && CarriedOption(edit.target, before.target, after.target) && CarriedOption(edit.taxCode, before.taxCode, after.taxCode)
                 && after.figures == (if edit.taxCode.Some? || before.taxCode.Some? then Some(edit.figures) else before.figures)
                 && after.bankAccount == before.bankAccount && after.date == before.date && after.kind == before.kind && after.amount == before.amount
                 && after.status == before.status && after.matched == before.matched
                 && after.sourceModule == before.sourceModule && after.sourceType == before.sourceType
  {
  }

  datatype BankOp =
    | NewTransaction(txn: BankTransaction)
    | EditTransaction(transaction: nat, edit: Edit)
    | Reconcile(transaction: nat, journal: nat)
    | LinkAccount(account: nat)
    | Ledger(op: Op)

  function BankStep(b: Bank, op: BankOp): Result<Bank> {
    match op
    case NewTransaction(txn) => CreateTransaction(b, txn.(status := Unreconciled, matched := None))
    case EditTransaction(t, edit) => UpdateTransaction(b, t, edit)
    case Reconcile(t, journal) => ReconcileJournal(b, t, journal)
    case LinkAccount(account) => if LiveAccount(b.ledger, account) then Ok(b.(accounts := b.accounts + [account])) else Err(AccountNotFound)
    case Ledger(o) => Ok(b.(ledger := Next(b.ledger, o)))
  }

  function BankNext(b: Bank, op: BankOp): Bank {
    match BankStep(b, op)
    case Ok(t) => t
    case Err(_) => b
  }

  function BankRun(b: Bank, ops: seq<BankOp>): Bank {
    if |ops| == 0 then b else BankNext(BankRun(b, ops[..|ops| - 1]), ops[|ops| - 1])
  }

  /** The transaction's amount is the cash movement of the journal it is matched to, and that journal took effect. */
  predicate MatchHolds(b: Bank, t: nat)
    requires t < |b.transactions|
  {
    var txn := b.transactions[t];
    && txn.status == Reconciled && txn.bankAccount < |b.accounts|
    && txn.matched.Some? && txn.matched.value < |b.ledger.journals|
    && b.ledger.journals[txn.matched.value].effective
    && var line := FirstOn(b.ledger.journals[txn.matched.value].lines, b.accounts[txn.bankAccount]);
       line.Some? && line.value.debit - line.value.credit == txn.amount
  }

  lemma StepKeepsMatch(b: Bank, op: BankOp, t: nat)
    requires Inv(b.ledger) && t < |b.transactions| && MatchHolds(b, t)
    ensures Inv(BankNext(b, op).ledger)
    ensures t < |BankNext(b, op).transactions| && BankNext(b, op).transactions[t] == b.transactions[t] && MatchHolds(BankNext(b, op), t)
  {
    if op.Ledger? {
      StepKeepsInv(b.ledger, op.op);
      StepKeepsEntry(b.ledger, op.op, b.transactions[t].matched.value);
    }
  }

  lemma {:induction false} RunKeepsMatch(b: Bank, ops: seq<BankOp>, t: nat)
    requires Inv(b.ledger) && t < |b.transactions| && MatchHolds(b, t)
    ensures Inv(BankRun(b, ops).ledger)
    ensures t < |BankRun(b, ops).transactions| && BankRun(b, ops).transactions[t] == b.transactions[t] && MatchHolds(BankRun(b, ops), t)
  {
    if |ops| > 0 {
      RunKeepsMatch(b, ops[..|ops| - 1], t);
      StepKeepsMatch(BankRun(b, ops[..|ops| - 1]), ops[|ops| - 1], t);
    }
  }

  lemma {:induction false} BankRunKeepsLedger(b: Bank, ops: seq<BankOp>)
    requires Inv(b.ledger)
    ensures Inv(BankRun(b, ops).ledger)
  {
    if |ops| > 0 {
      BankRunKeepsLedger(b, ops[..|ops| - 1]);
      if ops[|ops| - 1].Ledger? {
        StepKeepsInv(BankRun(b, ops[..|ops| - 1]).ledger, ops[|ops| - 1].op);
      }
    }
  }

  /**
   From any history, a transaction that is reconciled is frozen and its amount equals the matched
   journal's first line on the bank's ledger account in every later state.
   */
  lemma ReconciledForever(before: seq<BankOp>, t: nat, journal: nat, after: seq<BankOp>)
    requires ReconcileJournal(BankRun(Bank(EMPTY, [], []), before), t, journal).Ok?
    ensures var reconciled := ReconcileJournal(BankRun(Bank(EMPTY, [], []), before), t, journal).value;
            var b := BankRun(reconciled, after);
            && t < |b.transactions| && b.transactions[t] == reconciled.transactions[t] && b.transactions[t].matched == Some(journal)
            && MatchHolds(b, t)
            && (forall edit :: UpdateTransaction(b, t, edit).Err?) && (forall j: nat :: ReconcileJournal(b, t, j).Err?)
  {
    EmptyHasInv();
    BankRunKeepsLedger(Bank(EMPTY, [], []), before);
    var b := BankRun(Bank(EMPTY, [], []), before);
    assert JournalOk(b.ledger, b.ledger.journals[journal]);
    RunKeepsMatch(ReconcileJournal(b, t, journal).value, after, t);
  }
}
