/** Statement import and reconciliation, working on the session's bank transactions. */
module BankServices {
  import opened Wrappers
  import opened BankTables
  import opened StatementImport
  import opened BankReconciliation
  import opened Session
  import L = LedgerModel

  /** _normalize_statement_rows */
  method NormalizeStatementRows<Raw>(parse: Raw -> Option<Row>, raw: seq<Raw>) returns (normalized: seq<Row>, failures: seq<nat>)
    ensures Normalized(normalized, failures) == Normalize(parse, raw)
    ensures |normalized| + |failures| == |raw|
  {
    NormalizeCountsRows(parse, raw);
    normalized, failures := [], [];
    for idx := 0 to |raw|
      invariant Normalized(normalized, failures) == Normalize(parse, raw[..idx])
    {
      assert raw[..idx + 1][..idx] == raw[..idx];
      match parse(raw[idx]) {
        case Some(row) => normalized := normalized + [row];
        case None => failures := failures + [idx + 1];
      }
    }
    assert raw[..|raw|] == raw;
  }

  /** The import loop: the markers are read once and kept up to date; a row the table refuses discards the whole import. */
  method ImportBankStatement<Raw>(db: Session, parse: Raw -> Option<Row>, digest: Digest, account: nat, raw: seq<Raw>)
    returns (r: Result<(nat, nat, nat)>)
    modifies db`bankTransactions
    ensures match Import(old(db.bankTransactions), parse, digest, account, raw)
            case Ok(report) => db.bankTransactions == report.txns && r == Ok((report.created, report.skipped, report.failed))
            case Err(e) => db.bankTransactions == old(db.bankTransactions) && r == Err(e)
    ensures r.Ok? ==> r.value.0 + r.value.1 + r.value.2 == |raw|
  {
    var session := db.bankTransactions;
    var normalized, failures := NormalizeStatementRows(parse, raw);
    var imported, duplicates := 0, 0;
    var existing := Markers(session, account);
    for k := 0 to |normalized|
      invariant imported >= 0 && duplicates >= 0
      invariant ImportRows(Tally(session, 0, 0), digest, account, normalized[..k]) == Ok(Tally(db.bankTransactions, imported, duplicates))
      invariant existing == Markers(db.bankTransactions, account)
    {
      assert normalized[..k + 1][..k] == normalized[..k];
      var row := normalized[k];
      var marker := Marker(digest, account, row);
      if marker in existing {
        duplicates := duplicates + 1;
      } else if row.amount == 0 {
        RefusalIsFinal(Tally(session, 0, 0), digest, account, normalized, k + 1);
        db.bankTransactions := session;
        return Err(ConstraintViolation);
      } else {
        MarkersAppend(db.bankTransactions, digest, account, row);
        db.bankTransactions := db.bankTransactions + [Imported(digest, account, row)];
        existing := existing + {marker};
        imported := imported + 1;
      }
    }
    assert normalized[..|normalized|] == normalized;
    ImportCountsRows(Tally(session, 0, 0), digest, account, normalized);
    return Ok((imported, duplicates, |failures|));
  }

  method UpdateBankTransaction(db: Session, t: nat, edit: Edit) returns (r: Outcome)
    modifies db`bankTransactions
    ensures Agrees(old(db.Bank()), UpdateTransaction(old(db.Bank()), t, edit), r, db.Bank())
  {
    if t >= |db.bankTransactions| {
      return Refused(TransactionNotFound);
    }
    if db.bankTransactions[t].status == Reconciled {
      return Refused(AlreadyReconciled);
    }
    var txn := db.bankTransactions[t];
    if edit.taxCode.Some? {
      txn := txn.(taxCode := edit.taxCode);
    }
    if edit.target.Some? {
      txn := txn.(target := edit.target);
    }
    if txn.taxCode.Some? {
      if txn.target.None? {
        return Refused(MissingTarget);
      }
      txn := txn.(figures := Some(edit.figures));
    }
    if edit.postedDate.Some? {
      txn := txn.(postedDate := edit.postedDate);
    }
    if edit.description.Some? {
      txn := txn.(description := edit.description.value);
    }
    if edit.reference.Some? {
      txn := txn.(reference := edit.reference);
    }
    if edit.memo.Some? {
      txn := txn.(memo := edit.memo);
    }
    db.bankTransactions := db.bankTransactions[t := txn];
    r := Done;
  }

  lemma {:induction false} FirstOnFrom(lines: seq<L.Line>, account: nat, k: nat)
    requires k <= |lines| && forall i :: 0 <= i < k ==> lines[i].account != account
    ensures FirstOn(lines, account) == FirstOn(lines[k..], account)
  {
    if k > 0 {
      FirstOnFrom(lines[1..], account, k - 1);
      assert lines[1..][k - 1..] == lines[k..];
    }
  }

  /** reconcile_journal: the first line on the bank's ledger account must carry the transaction's amount. */
  method ReconcileWithJournal(db: Session, t: nat, journal: nat) returns (r: Outcome)
    modifies db`bankTransactions
    ensures Agrees(old(db.Bank()), ReconcileJournal(old(db.Bank()), t, journal), r, db.Bank())
  {
    if t >= |db.bankTransactions| {
      return Refused(TransactionNotFound);
    }
    var txn := db.bankTransactions[t];
    if txn.status == Reconciled {
      return Refused(AlreadyReconciled);
    }
    if txn.bankAccount >= |db.bankAccounts| {
      return Refused(DocumentNotFound);
    }
    if journal >= |db.journals| || db.journals[journal].deleted {
      return Refused(JournalNotFound);
    }
    if db.journals[journal].status != L.Posted {
      return Refused(NotPosted);
    }
    var lines, account := db.journals[journal].lines, db.bankAccounts[txn.bankAccount];
    var k := 0;
    while k < |lines| && lines[k].account != account
      invariant k <= |lines| && forall i :: 0 <= i < k ==> lines[i].account != account
    {
      k := k + 1;
    }
    FirstOnFrom(lines, account, k);
    if k == |lines| {
      return Refused(NoBankLine);
    }
    if lines[k].debit - lines[k].credit != txn.amount {
      return Refused(AmountMismatch);
    }
    db.bankTransactions := db.bankTransactions[t := txn.(status := Reconciled, matched := Some(journal))];
    r := Done;
  }
}
