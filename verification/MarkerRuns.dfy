/**
 How a marker can come to be carried twice. Imports never do it; a transaction entered or edited
 with a marker text that another imported transaction of the account carries does.
 */
module MarkerRuns {
  import opened Wrappers
  import opened BankTables
  import opened StatementImport
  import opened BankReconciliation

  datatype Op<Raw> = ImportFile(account: nat, raw: seq<Raw>) | Other(op: BankOp)

  function Step<Raw>(b: Bank, parse: Raw -> Option<Row>, digest: Digest, op: Op<Raw>): Result<Bank> {
    match op
    case ImportFile(account, raw) =>
      if account >= |b.accounts| then Err(DocumentNotFound)
      else
        var report :- Import(b.transactions, parse, digest, account, raw);
        Ok(b.(transactions := report.txns))
    case Other(o) => BankStep(b, o)
  }

  function Run<Raw>(b: Bank, parse: Raw -> Option<Row>, digest: Digest, ops: seq<Op<Raw>>): Bank {
    if |ops| == 0 then b
    else
      var before := Run(b, parse, digest, ops[..|ops| - 1]);
      match Step(before, parse, digest, ops[|ops| - 1])
      case Ok(t) => t
      case Err(_) => before
  }

  /** Would the transaction at position t, were it `txn`, carry a marker that another one carries. */
  predicate Collides(txns: seq<BankTransaction>, t: nat, txn: BankTransaction, account: nat) {
    Marked(txn, account)
    && exists i :: 0 <= i < |txns| && i != t && Marked(txns[i], account) && txns[i].reference == txn.reference
  }

  /** The request writes a marker that is already there. */
  predicate Duplicates<Raw>(b: Bank, op: Op<Raw>, account: nat) {
    match op
    case ImportFile(_, _) => false
    case Other(NewTransaction(txn)) => Collides(b.transactions, |b.transactions|, txn.(status := Unreconciled, matched := None), account)
    case Other(EditTransaction(t, edit)) => t < |b.transactions| && Collides(b.transactions, t, Edited(b.transactions[t], edit), account)
    case Other(_) => false
  }

  lemma ReplacedKeepsUnique(txns: seq<BankTransaction>, t: nat, txn: BankTransaction, account: nat)
    requires t < |txns| && NoMarkerTwice(txns, account)
    ensures NoMarkerTwice(txns[t := txn], account) <==> !Collides(txns, t, txn, account)
  {
    var next := txns[t := txn];
    if Collides(txns, t, txn, account) {
      var i :| 0 <= i < |txns| && i != t && Marked(txns[i], account) && txns[i].reference == txn.reference;
      assert next[i] == txns[i] && next[t] == txn;
    }
  }

  lemma AppendedKeepsUnique(txns: seq<BankTransaction>, txn: BankTransaction, account: nat)
    requires NoMarkerTwice(txns, account)
    ensures NoMarkerTwice(txns + [txn], account) <==> !Collides(txns, |txns|, txn, account)
  {
    var next := txns + [txn];
    if Collides(txns, |txns|, txn, account) {
      var i :| 0 <= i < |txns| && i != |txns| && Marked(txns[i], account) && txns[i].reference == txn.reference;
      assert next[i] == txns[i] && next[|txns|] == txn;
    }
  }

  lemma ReconciledKeepsMarkers(txns: seq<BankTransaction>, t: nat, journal: nat, account: nat)
    requires t < |txns| && NoMarkerTwice(txns, account)
    ensures NoMarkerTwice(txns[t := txns[t].(status := Reconciled, matched := Some(journal))], account)
  {
  }

  lemma ImportKeepsAnyUnique<Raw>(txns: seq<BankTransaction>, parse: Raw -> Option<Row>, digest: Digest, into: nat, raw: seq<Raw>, account: nat)
    requires NoMarkerTwice(txns, account) && Import(txns, parse, digest, into, raw).Ok?
    ensures NoMarkerTwice(Import(txns, parse, digest, into, raw).value.txns, account)
  {
    if into == account {
      ImportKeepsUnique(Tally(txns, 0, 0), digest, account, Normalize(parse, raw).rows);
    } else {
      OtherAccountUnmoved(Tally(txns, 0, 0), digest, into, Normalize(parse, raw).rows, account);
    }
  }

  /** A request that succeeds makes a marker appear twice exactly when it writes one that is already there. */
  lemma StepKeepsUnique<Raw>(b: Bank, parse: Raw -> Option<Row>, digest: Digest, op: Op<Raw>, account: nat)
    requires NoMarkerTwice(b.transactions, account) && Step(b, parse, digest, op).Ok?
    ensures NoMarkerTwice(Step(b, parse, digest, op).value.transactions, account) <==> !Duplicates(b, op, account)
  {
    match op
    case ImportFile(into, raw) => ImportKeepsAnyUnique(b.transactions, parse, digest, into, raw, account);
    case Other(NewTransaction(txn)) => AppendedKeepsUnique(b.transactions, txn.(status := Unreconciled, matched := None), account);
    case Other(EditTransaction(t, edit)) => ReplacedKeepsUnique(b.transactions, t, Edited(b.transactions[t], edit), account);
    case Other(Reconcile(t, journal)) => ReconciledKeepsMarkers(b.transactions, t, journal, account);
    case Other(_) =>
  }

  /** At no point of the run does the account carry a marker twice. */
  predicate AlwaysUnique<Raw>(b: Bank, parse: Raw -> Option<Row>, digest: Digest, ops: seq<Op<Raw>>, account: nat) {
    && (|ops| > 0 ==> AlwaysUnique(b, parse, digest, ops[..|ops| - 1], account))
    && NoMarkerTwice(Run(b, parse, digest, ops).transactions, account)
  }

  /** No request of the run that succeeded wrote a marker that was already there. */
  predicate NeverDuplicates<Raw>(b: Bank, parse: Raw -> Option<Row>, digest: Digest, ops: seq<Op<Raw>>, account: nat) {
    |ops| > 0 ==>
      var before, op := Run(b, parse, digest, ops[..|ops| - 1]), ops[|ops| - 1];
      NeverDuplicates(b, parse, digest, ops[..|ops| - 1], account)
      && (Step(before, parse, digest, op).Ok? ==> !Duplicates(before, op, account))
  }

  /**
   Over any run of imports into any accounts, entries, edits and reconciliations: the account never
   carries a marker twice if and only if no request that succeeded wrote a marker already there.
   */
  lemma {:induction false} NoMarkerEverTwice<Raw>(b: Bank, parse: Raw -> Option<Row>, digest: Digest, ops: seq<Op<Raw>>, account: nat)
    requires NoMarkerTwice(b.transactions, account)
    ensures AlwaysUnique(b, parse, digest, ops, account) <==> NeverDuplicates(b, parse, digest, ops, account)
  {
    if |ops| > 0 {
      var init, op := ops[..|ops| - 1], ops[|ops| - 1];
      NoMarkerEverTwice(b, parse, digest, init, account);
      var before := Run(b, parse, digest, init);
      if AlwaysUnique(b, parse, digest, init, account) && Step(before, parse, digest, op).Ok? {
        StepKeepsUnique(before, parse, digest, op, account);
      }
    }
  }
}
