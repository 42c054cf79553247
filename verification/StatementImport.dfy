/**
 Bank statement import: raw rows are normalized or counted as failures, and each normalized row is
 created unless its marker is already on the bank account. Parsing and the digest behind a marker
 are left open.
 */
module StatementImport {
  import opened Wrappers
  import opened BankTables

  datatype Row = Row(date: string, description: string, amount: int, reference: Option<string>)

  type Digest = (nat, Row) -> string

  function Marker(digest: Digest, account: nat, row: Row): Reference {
    Dup(digest(account, row))
  }

  /** Is this a transaction whose reference the import takes for a marker. */
  predicate Marked(t: BankTransaction, account: nat) {
    && t.bankAccount == account
    && t.sourceModule == "integrations" && (t.sourceType == "manual_import" || t.sourceType == "bank_feed")
    && t.reference.Some? && t.reference.value.Dup?
  }

  function Markers(txns: seq<BankTransaction>, account: nat): set<Reference> {
    set t | t in txns && Marked(t, account) :: t.reference.value
  }

  function Imported(digest: Digest, account: nat, row: Row): BankTransaction {
    BankTransaction(account, row.date, Some(row.date), if row.amount >= 0 then Deposit else Withdrawal, row.amount, row.description,
                    Some(Marker(digest, account, row)), None, None, None, None, Unreconciled, None, "integrations", "manual_import")
  }

  // ---------- Normalization ----------

  datatype Normalized = Normalized(rows: seq<Row>, failures: seq<nat>)

  /** Failures carry the one-based row number. */
  function Normalize<Raw>(parse: Raw -> Option<Row>, raw: seq<Raw>): Normalized {
    if |raw| == 0 then Normalized([], [])
    else
      var n := Normalize(parse, raw[..|raw| - 1]);
      match parse(raw[|raw| - 1])
      case Some(row) => n.(rows := n.rows + [row])
      case None => n.(failures := n.failures + [|raw|])
  }

  // ---------- Import ----------

  datatype Tally = Tally(txns: seq<BankTransaction>, created: nat, skipped: nat)

  function ImportRow(tally: Tally, digest: Digest, account: nat, row: Row): Result<Tally> {
    if Marker(digest, account, row) in Markers(tally.txns, account) then Ok(tally.(skipped := tally.skipped + 1))
    else if row.amount == 0 then Err(ConstraintViolation)
    else Ok(tally.(txns := tally.txns + [Imported(digest, account, row)], created := tally.created + 1))
  }

  function ImportRows(tally: Tally, digest: Digest, account: nat, rows: seq<Row>): Result<Tally> {
    if |rows| == 0 then Ok(tally)
    else
      var before :- ImportRows(tally, digest, account, rows[..|rows| - 1]);
      ImportRow(before, digest, account, rows[|rows| - 1])
  }

  datatype Report = Report(txns: seq<BankTransaction>, seen: nat, created: nat, skipped: nat, failed: nat)

  function Import<Raw>(txns: seq<BankTransaction>, parse: Raw -> Option<Row>, digest: Digest, account: nat, raw: seq<Raw>): Result<Report> {
    var n := Normalize(parse, raw);
    Summarize(ImportRows(Tally(txns, 0, 0), digest, account, n.rows), |n.rows|, |n.failures|)
  }

  function Summarize(r: Result<Tally>, normalized: nat, failed: nat): Result<Report> {
    match r
    case Ok(t) => Ok(Report(t.txns, normalized + failed, t.created, t.skipped, failed))
    case Err(e) => Err(e)
  }

  // ---------- Rows are accounted for ----------

  lemma {:induction false} NormalizeCountsRows<Raw>(parse: Raw -> Option<Row>, raw: seq<Raw>)
    ensures |Normalize(parse, raw).rows| + |Normalize(parse, raw).failures| == |raw|
  {
    if |raw| > 0 {
      NormalizeCountsRows(parse, raw[..|raw| - 1]);
    }
  }

  lemma {:induction false} ImportCountsRows(tally: Tally, digest: Digest, account: nat, rows: seq<Row>)
    requires ImportRows(tally, digest, account, rows).Ok?
    ensures var t := ImportRows(tally, digest, account, rows).value;
            && t.created + t.skipped == tally.created + tally.skipped + |rows|
            && t.created >= tally.created && |t.txns| == |tally.txns| + (t.created - tally.created)
            && t.txns[..|tally.txns|] == tally.txns
  {
    if |rows| > 0 {
      ImportCountsRows(tally, digest, account, rows[..|rows| - 1]);
    }
  }

  /** Every row handed in is created, skipped or failed, and what was there before is untouched. */
  lemma RowsAreAccountedFor<Raw>(txns: seq<BankTransaction>, parse: Raw -> Option<Row>, digest: Digest, account: nat, raw: seq<Raw>)
    requires Import(txns, parse, digest, account, raw).Ok?
    ensures var r := Import(txns, parse, digest, account, raw).value;
            && r.seen == |raw| && r.created + r.skipped + r.failed == |raw|
            && |r.txns| == |txns| + r.created && r.txns[..|txns|] == txns
  {
    NormalizeCountsRows(parse, raw);
    ImportCountsRows(Tally(txns, 0, 0), digest, account, Normalize(parse, raw).rows);
  }

  // ---------- Markers ----------

  function RowMarkers(digest: Digest, account: nat, rows: seq<Row>): set<Reference> {
    set row | row in rows :: Marker(digest, account, row)
  }

  predicate NoMarkerTwice(txns: seq<BankTransaction>, account: nat) {
    forall i, j :: 0 <= i < j < |txns| && Marked(txns[i], account) && Marked(txns[j], account)
                   ==> txns[i].reference != txns[j].reference
  }

  lemma MarkersAppend(txns: seq<BankTransaction>, digest: Digest, account: nat, row: Row)
    ensures Markers(txns + [Imported(digest, account, row)], account) == Markers(txns, account) + {Marker(digest, account, row)}
  {
    var t := Imported(digest, account, row);
    assert Marked(t, account);
    assert forall x :: x in txns + [t] <==> x in txns || x == t;
    forall m | m in Markers(txns, account) + {Marker(digest, account, row)}
      ensures m in Markers(txns + [t], account)
    {
      if m in Markers(txns, account) {
        var x :| x in txns && Marked(x, account) && x.reference.value == m;
        assert x in txns + [t];
      } else {
        assert t in txns + [t];
      }
    }
  }

  lemma RowMarkersAppend(digest: Digest, account: nat, rows: seq<Row>, row: Row)
    ensures RowMarkers(digest, account, rows + [row]) == RowMarkers(digest, account, rows) + {Marker(digest, account, row)}
  {
    assert forall x :: x in rows + [row] <==> x in rows || x == row;
    assert row in rows + [row];
    forall m | m in RowMarkers(digest, account, rows)
      ensures m in RowMarkers(digest, account, rows + [row])
    {
      var x :| x in rows && Marker(digest, account, x) == m;
      assert x in rows + [row];
    }
  }

  lemma ImportRowAddsMarker(tally: Tally, digest: Digest, account: nat, row: Row)
    requires ImportRow(tally, digest, account, row).Ok?
    ensures var t := ImportRow(tally, digest, account, row).value;
            && Markers(t.txns, account) == Markers(tally.txns, account) + {Marker(digest, account, row)}
            && t.created - tally.created == |Markers(t.txns, account)| - |Markers(tally.txns, account)|
            && (NoMarkerTwice(tally.txns, account) ==> NoMarkerTwice(t.txns, account))
  {
    if Marker(digest, account, row) !in Markers(tally.txns, account) {
      MarkersAppend(tally.txns, digest, account, row);
      NewMarkerKeepsUnique(tally.txns, digest, account, row);
    } else {
      assert Markers(tally.txns, account) == Markers(tally.txns, account) + {Marker(digest, account, row)};
    }
  }

  /** An import leaves exactly the old markers and those of its rows, creating one transaction per new marker. */
  lemma {:induction false} ImportAddsMarkers(tally: Tally, digest: Digest, account: nat, rows: seq<Row>)
    requires ImportRows(tally, digest, account, rows).Ok?
    ensures var t := ImportRows(tally, digest, account, rows).value;
            && Markers(t.txns, account) == Markers(tally.txns, account) + RowMarkers(digest, account, rows)
            && t.created - tally.created == |Markers(t.txns, account)| - |Markers(tally.txns, account)|
  {
    if |rows| == 0 {
      assert RowMarkers(digest, account, rows) == {};
    } else {
      var init, row := rows[..|rows| - 1], rows[|rows| - 1];
      assert rows == init + [row];
      ImportAddsMarkers(tally, digest, account, init);
      RowMarkersAppend(digest, account, init, row);
      ImportRowAddsMarker(ImportRows(tally, digest, account, init).value, digest, account, row);
      UnionStep(Markers(tally.txns, account), RowMarkers(digest, account, init), Marker(digest, account, row));
    }
  }

  /** An import creates exactly one transaction for each marker of its rows that the account lacks. */
  lemma ImportCreatesMissing(txns: seq<BankTransaction>, digest: Digest, account: nat, rows: seq<Row>)
    requires ImportRows(Tally(txns, 0, 0), digest, account, rows).Ok?
    ensures ImportRows(Tally(txns, 0, 0), digest, account, rows).value.created
            == |RowMarkers(digest, account, rows) - Markers(txns, account)|
  {
    ImportAddsMarkers(Tally(txns, 0, 0), digest, account, rows);
    var known, all := Markers(txns, account), RowMarkers(digest, account, rows);
    assert known + all == known + (all - known);
  }

  lemma UnionStep<T>(a: set<T>, b: set<T>, x: T)
    ensures (a + b) + {x} == a + (b + {x})
  {
  }

  lemma {:induction false} ImportKeepsUnique(tally: Tally, digest: Digest, account: nat, rows: seq<Row>)
    requires ImportRows(tally, digest, account, rows).Ok? && NoMarkerTwice(tally.txns, account)
    ensures NoMarkerTwice(ImportRows(tally, digest, account, rows).value.txns, account)
  {
    if |rows| > 0 {
      var init := rows[..|rows| - 1];
      ImportKeepsUnique(tally, digest, account, init);
      ImportRowAddsMarker(ImportRows(tally, digest, account, init).value, digest, account, rows[|rows| - 1]);
    }
  }

  lemma NewMarkerKeepsUnique(txns: seq<BankTransaction>, digest: Digest, account: nat, row: Row)
    requires Marker(digest, account, row) !in Markers(txns, account)
    ensures NoMarkerTwice(txns, account) ==> NoMarkerTwice(txns + [Imported(digest, account, row)], account)
  {
    forall i | 0 <= i < |txns| && Marked(txns[i], account)
      ensures txns[i].reference != Some(Marker(digest, account, row))
    {
      assert txns[i] in txns;
    }
  }

  lemma {:induction false} KnownRowsAreSkipped(tally: Tally, digest: Digest, account: nat, rows: seq<Row>)
    requires RowMarkers(digest, account, rows) <= Markers(tally.txns, account)
    ensures ImportRows(tally, digest, account, rows) == Ok(tally.(skipped := tally.skipped + |rows|))
  {
    if |rows| > 0 {
      var init, row := rows[..|rows| - 1], rows[|rows| - 1];
      assert rows == init + [row];
      RowMarkersAppend(digest, account, init, row);
      KnownRowsAreSkipped(tally, digest, account, init);
    }
  }

  lemma ReimportedRowsAreSkipped(txns: seq<BankTransaction>, digest: Digest, account: nat, rows: seq<Row>)
    requires ImportRows(Tally(txns, 0, 0), digest, account, rows).Ok?
    ensures var t := ImportRows(Tally(txns, 0, 0), digest, account, rows).value.txns;
            ImportRows(Tally(t, 0, 0), digest, account, rows) == Ok(Tally(t, 0, |rows|))
  {
    ImportAddsMarkers(Tally(txns, 0, 0), digest, account, rows);
    KnownRowsAreSkipped(Tally(ImportRows(Tally(txns, 0, 0), digest, account, rows).value.txns, 0, 0), digest, account, rows);
  }

  /** Importing the same rows again creates nothing and counts every normalized row as a duplicate. */
  lemma ReimportCreatesNothing<Raw>(txns: seq<BankTransaction>, parse: Raw -> Option<Row>, digest: Digest, account: nat, raw: seq<Raw>)
    requires Import(txns, parse, digest, account, raw).Ok?
    ensures var first := Import(txns, parse, digest, account, raw).value;
            Import(first.txns, parse, digest, account, raw)
            == Ok(Report(first.txns, |raw|, 0, |Normalize(parse, raw).rows|, first.failed))
  {
    NormalizeCountsRows(parse, raw);
    var n := Normalize(parse, raw);
    ReimportedRowsAreSkipped(txns, digest, account, n.rows);
    var first := ImportRows(Tally(txns, 0, 0), digest, account, n.rows).value;
    var again := ImportRows(Tally(first.txns, 0, 0), digest, account, n.rows);
    assert Import(first.txns, parse, digest, account, raw) == Summarize(again, |n.rows|, |n.failures|);
  }

  // ---------- What is created ----------

  /** The transaction records the row: a deposit when money came in, under the row's own marker, not reconciled. */
  predicate Records(digest: Digest, account: nat, row: Row, t: BankTransaction) {
    && t.bankAccount == account && t.date == row.date && t.postedDate == Some(row.date) && t.description == row.description
    && t.amount == row.amount != 0 && t.kind == (if row.amount > 0 then Deposit else Withdrawal)
    && t.reference == Some(Dup(digest(account, row))) && t.status == Unreconciled && t.matched.None?
    && t.sourceModule == "integrations" && t.sourceType == "manual_import"
    && t.target.None? && t.taxCode.None? && t.figures.None?
  }

  /** The transaction stands for a row: it came in by an import or a feed, and its reference is the row's digest. */
  predicate StandsFor(t: BankTransaction, digest: Digest, account: nat, row: Row) {
    && t.bankAccount == account && t.reference == Some(Dup(digest(account, row)))
    && t.sourceModule == "integrations" && (t.sourceType == "manual_import" || t.sourceType == "bank_feed")
  }

  lemma KnownMeaning(txns: seq<BankTransaction>, digest: Digest, account: nat, row: Row)
    ensures Marker(digest, account, row) in Markers(txns, account) <==> exists k :: 0 <= k < |txns| && StandsFor(txns[k], digest, account, row)
  {
    if Marker(digest, account, row) in Markers(txns, account) {
      var t :| t in txns && Marked(t, account) && t.reference.value == Marker(digest, account, row);
      var k :| 0 <= k < |txns| && txns[k] == t;
      assert StandsFor(txns[k], digest, account, row);
    }
    if k :| 0 <= k < |txns| && StandsFor(txns[k], digest, account, row) {
      assert txns[k] in txns && Marked(txns[k], account) && txns[k].reference.value == Marker(digest, account, row);
    }
  }

  /** No transaction stands for row n yet, and no earlier row has its digest. */
  predicate FirstOfMarker(txns: seq<BankTransaction>, digest: Digest, account: nat, rows: seq<Row>, n: nat)
    requires n < |rows|
  {
    && (forall k :: 0 <= k < |txns| ==> !StandsFor(txns[k], digest, account, rows[n]))
    && forall m :: 0 <= m < n ==> digest(account, rows[m]) != digest(account, rows[n])
  }

  lemma KnownAfter(tally: Tally, digest: Digest, account: nat, rows: seq<Row>, n: nat)
    requires n < |rows| && ImportRows(tally, digest, account, rows[..n]).Ok?
    ensures Marker(digest, account, rows[n]) in Markers(ImportRows(tally, digest, account, rows[..n]).value.txns, account)
            <==> !FirstOfMarker(tally.txns, digest, account, rows, n)
  {
    ImportAddsMarkers(tally, digest, account, rows[..n]);
    KnownMeaning(tally.txns, digest, account, rows[n]);
    var marker := Marker(digest, account, rows[n]);
    if m :| 0 <= m < n && digest(account, rows[m]) == digest(account, rows[n]) {
      assert rows[..n][m] == rows[m] && rows[m] in rows[..n];
    }
    if marker in RowMarkers(digest, account, rows[..n]) {
      var row :| row in rows[..n] && Marker(digest, account, row) == marker;
      var m :| 0 <= m < n && rows[..n][m] == row;
      assert digest(account, rows[m]) == digest(account, rows[n]);
    }
  }

  lemma FirstOfMarkerPrefix(known: seq<BankTransaction>, digest: Digest, account: nat, rows: seq<Row>, n: nat, m: nat)
    requires m < n <= |rows|
    ensures FirstOfMarker(known, digest, account, rows[..n], m) <==> FirstOfMarker(known, digest, account, rows, m)
  {
    assert forall k :: 0 <= k < n ==> rows[..n][k] == rows[k];
  }

  /** Each transaction an import creates records the first row of a marker the account lacked, in the order of the rows. */
  lemma {:induction false} ImportRecordsRows(tally: Tally, digest: Digest, account: nat, rows: seq<Row>) returns (at: seq<nat>)
    requires ImportRows(tally, digest, account, rows).Ok?
    ensures var t := ImportRows(tally, digest, account, rows).value.txns;
            && |t| == |tally.txns| + |at| && t[..|tally.txns|] == tally.txns
            && (forall i :: 0 <= i < |at| ==> at[i] < |rows| && Records(digest, account, rows[at[i]], t[|tally.txns| + i]))
            && (forall i, j :: 0 <= i < j < |at| ==> at[i] < at[j])
    ensures forall n :: 0 <= n < |rows| ==> (n in at <==> FirstOfMarker(tally.txns, digest, account, rows, n))
  {
    at := [];
    if |rows| > 0 {
      var n := |rows| - 1;
      at := ImportRecordsRows(tally, digest, account, rows[..n]);
      assert forall i :: 0 <= i < |at| ==> at[i] < n && rows[..n][at[i]] == rows[at[i]];
      KnownAfter(tally, digest, account, rows, n);
      forall m | 0 <= m < n
        ensures m in at <==> FirstOfMarker(tally.txns, digest, account, rows, m)
      {
        FirstOfMarkerPrefix(tally.txns, digest, account, rows, n, m);
      }
      if FirstOfMarker(tally.txns, digest, account, rows, n) {
        at := at + [n];
      }
    }
  }

  /** The rows that parse are kept in their order. */
  lemma {:induction false} NormalizedRows<Raw>(parse: Raw -> Option<Row>, raw: seq<Raw>) returns (at: seq<nat>)
    ensures var rows := Normalize(parse, raw).rows;
            && |at| == |rows|
            && (forall i :: 0 <= i < |at| ==> at[i] < |raw| && parse(raw[at[i]]) == Some(rows[i]))
            && (forall i, j :: 0 <= i < j < |at| ==> at[i] < at[j])
            && (forall k :: 0 <= k < |raw| ==> (k in at <==> parse(raw[k]).Some?))
  {
    at := [];
    if |raw| > 0 {
      var n := |raw| - 1;
      at := NormalizedRows(parse, raw[..n]);
      assert forall i :: 0 <= i < |at| ==> at[i] < n && raw[..n][at[i]] == raw[at[i]];
      if parse(raw[n]).Some? {
        at := at + [n];
      }
    }
  }

  /** The rows that do not are reported under their one-based numbers, in order. */
  lemma {:induction false} FailedRows<Raw>(parse: Raw -> Option<Row>, raw: seq<Raw>) returns (at: seq<nat>)
    ensures var failures := Normalize(parse, raw).failures;
            && |at| == |failures|
            && (forall i :: 0 <= i < |at| ==> at[i] < |raw| && failures[i] == at[i] + 1 && parse(raw[at[i]]).None?)
            && (forall i, j :: 0 <= i < j < |at| ==> at[i] < at[j])
            && (forall k :: 0 <= k < |raw| ==> (k in at <==> parse(raw[k]).None?))
  {
    at := [];
    if |raw| > 0 {
      var n := |raw| - 1;
      at := FailedRows(parse, raw[..n]);
      assert forall i :: 0 <= i < |at| ==> at[i] < n && raw[..n][at[i]] == raw[at[i]];
      if parse(raw[n]).None? {
        at := at + [n];
      }
    }
  }

  // ---------- Two imports are one ----------

  lemma {:induction false} NormalizeConcat<Raw>(parse: Raw -> Option<Row>, a: seq<Raw>, b: seq<Raw>)
    ensures Normalize(parse, a + b).rows == Normalize(parse, a).rows + Normalize(parse, b).rows
    ensures |Normalize(parse, a + b).failures| == |Normalize(parse, a).failures| + |Normalize(parse, b).failures|
  {
    if |b| == 0 {
      assert a + b == a;
    } else {
      assert (a + b)[..|a + b| - 1] == a + b[..|b| - 1];
      NormalizeConcat(parse, a, b[..|b| - 1]);
    }
  }

  function AddTallies(t: Tally, second: Result<Tally>): Result<Tally> {
    match second
    case Ok(u) => Ok(Tally(u.txns, t.created + u.created, t.skipped + u.skipped))
    case Err(e) => Err(e)
  }

  /** The counters play no part in what is created. */
  lemma {:induction false} CountersAdd(t: Tally, digest: Digest, account: nat, rows: seq<Row>)
    ensures ImportRows(t, digest, account, rows) == AddTallies(t, ImportRows(Tally(t.txns, 0, 0), digest, account, rows))
  {
    if |rows| > 0 {
      CountersAdd(t, digest, account, rows[..|rows| - 1]);
    }
  }

  lemma {:induction false} ImportConcat(tally: Tally, digest: Digest, account: nat, a: seq<Row>, b: seq<Row>)
    ensures ImportRows(tally, digest, account, a + b)
            == match ImportRows(tally, digest, account, a)
               case Ok(t) => ImportRows(t, digest, account, b)
               case Err(e) => Err(e)
  {
    if |b| == 0 {
      assert a + b == a;
    } else {
      assert (a + b)[..|a + b| - 1] == a + b[..|b| - 1];
      ImportConcat(tally, digest, account, a, b[..|b| - 1]);
    }
  }

  function AddReports(first: Report, second: Result<Report>): Result<Report> {
    match second
    case Ok(r) =>
      Ok(Report(r.txns, first.seen + r.seen, first.created + r.created, first.skipped + r.skipped, first.failed + r.failed))
    case Err(e) => Err(e)
  }

  lemma RowsImportedTogether(txns: seq<BankTransaction>, digest: Digest, account: nat, a: seq<Row>, b: seq<Row>)
    requires ImportRows(Tally(txns, 0, 0), digest, account, a).Ok?
    ensures var t := ImportRows(Tally(txns, 0, 0), digest, account, a).value;
            ImportRows(Tally(txns, 0, 0), digest, account, a + b)
            == AddTallies(t, ImportRows(Tally(t.txns, 0, 0), digest, account, b))
  {
    var t := ImportRows(Tally(txns, 0, 0), digest, account, a).value;
    assert ImportRows(Tally(txns, 0, 0), digest, account, a + b) == ImportRows(t, digest, account, b) by {
      ImportConcat(Tally(txns, 0, 0), digest, account, a, b);
    }
    CountersAdd(t, digest, account, b);
  }

  lemma JoinedRowsImport<Raw>(txns: seq<BankTransaction>, parse: Raw -> Option<Row>, digest: Digest, account: nat, a: seq<Raw>, b: seq<Raw>)
    requires ImportRows(Tally(txns, 0, 0), digest, account, Normalize(parse, a).rows).Ok?
    ensures var n, m, j := Normalize(parse, a), Normalize(parse, b), Normalize(parse, a + b);
            var t := ImportRows(Tally(txns, 0, 0), digest, account, n.rows).value;
            && |j.rows| == |n.rows| + |m.rows| && |j.failures| == |n.failures| + |m.failures|
            && ImportRows(Tally(txns, 0, 0), digest, account, j.rows)
               == AddTallies(t, ImportRows(Tally(t.txns, 0, 0), digest, account, m.rows))
  {
    NormalizeConcat(parse, a, b);
    RowsImportedTogether(txns, digest, account, Normalize(parse, a).rows, Normalize(parse, b).rows);
  }

  lemma SummariesAdd(joined: Result<Tally>, t: Tally, second: Result<Tally>, rowsA: nat, failedA: nat, rowsB: nat, failedB: nat)
    requires joined == AddTallies(t, second)
    ensures Summarize(joined, rowsA + rowsB, failedA + failedB)
            == AddReports(Summarize(Ok(t), rowsA, failedA).value, Summarize(second, rowsB, failedB))
  {
  }

  /** Importing two files joined is importing one after the other: the same transactions, the same counts, or the same refusal. */
  lemma TwoImportsAreOne<Raw>(txns: seq<BankTransaction>, parse: Raw -> Option<Row>, digest: Digest, account: nat, a: seq<Raw>, b: seq<Raw>)
    requires Import(txns, parse, digest, account, a).Ok?
    ensures var first := Import(txns, parse, digest, account, a).value;
            Import(txns, parse, digest, account, a + b) == AddReports(first, Import(first.txns, parse, digest, account, b))
  {
    var n, m, j := Normalize(parse, a), Normalize(parse, b), Normalize(parse, a + b);
    var t := ImportRows(Tally(txns, 0, 0), digest, account, n.rows).value;
    var u := ImportRows(Tally(t.txns, 0, 0), digest, account, m.rows);
    var joined := ImportRows(Tally(txns, 0, 0), digest, account, j.rows);
    JoinedRowsImport(txns, parse, digest, account, a, b);
    SummariesAdd(joined, t, u, |n.rows|, |n.failures|, |m.rows|, |m.failures|);
  }

  /** When the first file is refused, so are the two joined. */
  lemma RefusedImportRefusesBoth<Raw>(txns: seq<BankTransaction>, parse: Raw -> Option<Row>, digest: Digest, account: nat, a: seq<Raw>, b: seq<Raw>)
    requires Import(txns, parse, digest, account, a).Err?
    ensures Import(txns, parse, digest, account, a + b) == Import(txns, parse, digest, account, a)
  {
    NormalizeConcat(parse, a, b);
    ImportConcat(Tally(txns, 0, 0), digest, account, Normalize(parse, a).rows, Normalize(parse, b).rows);
  }

  lemma {:induction false} OtherAccountUnmoved(tally: Tally, digest: Digest, account: nat, rows: seq<Row>, other: nat)
    requires ImportRows(tally, digest, account, rows).Ok? && other != account
    ensures NoMarkerTwice(tally.txns, other) ==> NoMarkerTwice(ImportRows(tally, digest, account, rows).value.txns, other)
  {
    if |rows| > 0 {
      OtherAccountUnmoved(tally, digest, account, rows[..|rows| - 1], other);
    }
  }

  lemma {:induction false} RefusalIsFinal(tally: Tally, digest: Digest, account: nat, rows: seq<Row>, k: nat)
    requires k <= |rows| && ImportRows(tally, digest, account, rows[..k]).Err?
    ensures ImportRows(tally, digest, account, rows) == ImportRows(tally, digest, account, rows[..k])
  {
    assert rows == rows[..k] + rows[k..];
    ImportConcat(tally, digest, account, rows[..k], rows[k..]);
  }
}
