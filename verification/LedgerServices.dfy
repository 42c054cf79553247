/** The journal, posting, account and ledger services, working on the session step by step. */
module LedgerServices {
  import opened Wrappers
  import opened Sums
  import opened LedgerModel
  import opened LedgerInvariant
  import opened LedgerReports
  import opened Session

  // ---------- Validation ----------

  lemma {:induction false} FirstShapeErrorStays(lines: seq<Line>, k: nat)
    requires k <= |lines| && FirstShapeError(lines[..k]).Some?
    ensures FirstShapeError(lines) == FirstShapeError(lines[..k])
  {
    if k < |lines| {
      assert lines[..|lines| - 1][..k] == lines[..k];
      FirstShapeErrorStays(lines[..|lines| - 1], k);
    } else {
      assert lines[..k] == lines;
    }
  }

  lemma {:induction false} InsertErrorStays(accounts: seq<Account>, lines: seq<Line>, k: nat)
    requires k <= |lines| && InsertError(accounts, lines[..k]).Some?
    ensures InsertError(accounts, lines) == InsertError(accounts, lines[..k])
  {
    if k < |lines| {
      assert lines[..|lines| - 1][..k] == lines[..k];
      InsertErrorStays(accounts, lines[..|lines| - 1], k);
    } else {
      assert lines[..k] == lines;
    }
  }

  /** validate_lines: one pass with running totals. */
  method ValidateLines(lines: seq<Line>) returns (r: Outcome)
    ensures r == if ValidationError(lines).Some? then Refused(ValidationError(lines).value) else Done
    ensures r.Done? <==> WellFormed(lines)
  {
    ValidationMeansWellFormed(lines);
    if |lines| < 2 {
      return Refused(TooFewLines);
    }
    var debit, credit := 0, 0;
    for k := 0 to |lines|
      invariant FirstShapeError(lines[..k]).None?
      invariant debit == SumBy(lines[..k], Total(Dr)) && credit == SumBy(lines[..k], Total(Cr))
    {
      var l := lines[k];
      assert lines[..k + 1][..k] == lines[..k];
      if l.debit > 0 && l.credit > 0 {
        FirstShapeErrorStays(lines, k + 1);
        return Refused(BothSides);
      }
      if l.debit <= 0 && l.credit <= 0 {
        FirstShapeErrorStays(lines, k + 1);
        return Refused(NoAmount);
      }
      debit, credit := debit + l.debit, credit + l.credit;
    }
    assert lines[..|lines|] == lines;
    r := if debit != credit then Refused(Unbalanced) else Done;
  }

  // ---------- Posting ----------

  /** The posting loop: each line is checked and folded into its two balance rows in turn. */
  method FoldLines(db: Session, period: nat, lines: seq<Line>) returns (ok: bool)
    modifies db`balances, db`periodBalances
    ensures ok <==> AllUsable(db.accounts, lines)
    ensures ok ==> db.balances == PostLines(old(db.balances), lines)
    ensures ok && |lines| > 0 ==>
              db.periodBalances == old(db.periodBalances)[period := PostLines(PeriodRows(old(db.periodBalances), period), lines)]
  {
    ghost var rowsBefore := PeriodRows(db.periodBalances, period);
    for k := 0 to |lines|
      invariant forall l :: l in lines[..k] ==> Usable(db.accounts, l.account)
      invariant db.balances == PostLines(old(db.balances), lines[..k])
      invariant PeriodRows(db.periodBalances, period) == PostLines(rowsBefore, lines[..k])
      invariant db.periodBalances
                == if k == 0 then old(db.periodBalances) else old(db.periodBalances)[period := PeriodRows(db.periodBalances, period)]
    {
      var l := lines[k];
      assert lines[..k + 1][..k] == lines[..k];
      assert lines[..k + 1] == lines[..k] + [l];
      if !Usable(db.accounts, l.account) {
        return false;
      }
      var row := Get(db.balances, l.account);
      var rows := PeriodRows(db.periodBalances, period);
      var periodRow := Get(rows, l.account);
      db.balances := db.balances[l.account := AddLine(row, l)];
      db.periodBalances := db.periodBalances[period := rows[l.account := AddLine(periodRow, l)]];
    }
    assert lines[..|lines|] == lines;
    ok := true;
  }

  /**
   JournalPostingService.post. A line on an unusable account is found after earlier lines have been
   folded in; the session is then discarded.
   */
  method PostJournal(db: Session, id: nat) returns (r: Outcome)
    modifies db`journals, db`balances, db`periodBalances
    ensures Agrees(old(db.Ledger()), Post(old(db.Ledger()), id), r, db.Ledger())
  {
    if id >= |db.journals| || db.journals[id].deleted {
      return Refused(JournalNotFound);
    }
    var j := db.journals[id];
    if j.status != Draft {
      return Refused(NotDraft);
    }
    if j.period >= |db.periods| {
      return Refused(NoPeriod);
    }
    if db.periods[j.period].status != Open {
      return Refused(PeriodClosed);
    }
    var validated := ValidateLines(j.lines);
    if validated.Refused? {
      return validated;
    }
    var balances, periodBalances := db.balances, db.periodBalances;
    var folded := FoldLines(db, j.period, j.lines);
    if !folded {
      db.balances, db.periodBalances := balances, periodBalances;
      return Refused(InvalidAccount);
    }
    db.journals := db.journals[id := j.(status := Posted, effective := true)];
    r := Done;
  }

  // ---------- Journals ----------

  /** JournalService._create_without_commit: the journal first, then its lines one by one. */
  method CreateWithoutCommit(db: Session, date: int, lines: seq<Line>) returns (r: Result<nat>)
    modifies db`journals
    ensures match Create(old(db.Ledger()), date, lines)
            case Ok(s) => r == Ok(|old(db.journals)|) && db.Ledger() == s
            case Err(e) => r == Err(e) && db.Ledger() == old(db.Ledger())
  {
    var period := ResolveByDate(db.periods, date);
    if period.None? {
      return Err(NoPeriod);
    }
    if db.periods[period.value].status != Open {
      return Err(PeriodClosed);
    }
    var validated := ValidateLines(lines);
    if validated.Refused? {
      return Err(validated.error);
    }
    var journals, id := db.journals, |db.journals|;
    var header := Journal(date, period.value, [], Draft, false, false, None, None);
    db.journals := journals + [header];
    for k := 0 to |lines|
      invariant db.accounts == old(db.accounts) && db.periods == old(db.periods)
      invariant db.balances == old(db.balances) && db.periodBalances == old(db.periodBalances)
      invariant db.journals == journals + [header.(lines := lines[..k])]
      invariant InsertError(db.accounts, lines[..k]).None?
    {
      var l := lines[k];
      assert lines[..k + 1][..k] == lines[..k];
      if !Usable(db.accounts, l.account) {
        InsertErrorStays(db.accounts, lines, k + 1);
        db.journals := journals;
        return Err(InvalidAccount);
      }
      if !NonNegative(l) {
        InsertErrorStays(db.accounts, lines, k + 1);
        db.journals := journals;
        return Err(ConstraintViolation);
      }
      db.journals := db.journals[id := db.journals[id].(lines := db.journals[id].lines + [l])];
      assert lines[..k + 1] == lines[..k] + [l];
    }
    assert lines[..|lines|] == lines;
    r := Ok(id);
  }

  method CreateAndPostEntry(db: Session, date: int, lines: seq<Line>) returns (r: Result<nat>)
    modifies db`journals, db`balances, db`periodBalances
    ensures match CreateAndPost(old(db.Ledger()), date, lines)
            case Ok(s) => r == Ok(|old(db.journals)|) && db.Ledger() == s
            case Err(e) => r == Err(e) && db.Ledger() == old(db.Ledger())
  {
    var journals := db.journals;
    r := CreateWithoutCommit(db, date, lines);
    if r.Ok? {
      var posted := PostJournal(db, r.value);
      if posted.Refused? {
        db.journals := journals;
        r := Err(posted.error);
      }
    }
  }

  method UpdateEntry(db: Session, id: nat, lines: Option<seq<Line>>, deletesFirst: bool) returns (r: Outcome)
    modifies db`journals
    ensures Agrees(old(db.Ledger()), Update(old(db.Ledger()), id, lines, deletesFirst), r, db.Ledger())
  {
    if id >= |db.journals| || db.journals[id].deleted {
      return Refused(JournalNotFound);
    }
    if db.journals[id].status != Draft {
      return Refused(NotEditable);
    }
    if lines.None? {
      return Done;
    }
    var validated := ValidateLines(lines.value);
    if validated.Refused? {
      return validated;
    }
    if !deletesFirst && |db.journals[id].lines| > 0 {
      return Refused(ConstraintViolation);
    }
    var journals := db.journals;
    db.journals := journals[id := journals[id].(lines := [])];
    for k := 0 to |lines.value|
      invariant db.accounts == old(db.accounts) && db.periods == old(db.periods)
      invariant db.balances == old(db.balances) && db.periodBalances == old(db.periodBalances)
      invariant db.journals == journals[id := journals[id].(lines := lines.value[..k])]
      invariant Storable(db.accounts, lines.value[..k])
    {
      var l := lines.value[k];
      assert lines.value[..k + 1] == lines.value[..k] + [l];
      if l.account >= |db.accounts| || !NonNegative(l) {
        assert l in lines.value;
        db.journals := journals;
        return Refused(ConstraintViolation);
      }
      db.journals := db.journals[id := db.journals[id].(lines := db.journals[id].lines + [l])];
    }
    assert lines.value[..|lines.value|] == lines.value;
    r := Done;
  }

  method DeleteOrVoidEntry(db: Session, id: nat) returns (r: Outcome)
    modifies db`journals
    ensures Agrees(old(db.Ledger()), DeleteOrVoid(old(db.Ledger()), id), r, db.Ledger())
  {
    if id >= |db.journals| || db.journals[id].deleted {
      return Refused(JournalNotFound);
    }
    if db.journals[id].status != Draft {
      return Refused(PostedNeedsReversal);
    }
    db.journals := db.journals[id := db.journals[id].(deleted := true)];
    r := Done;
  }

  /** JournalService.reverse: swap the original's lines, post them as a new journal, link the two. */
  method ReverseEntry(db: Session, id: nat, date: int) returns (r: Result<nat>)
    modifies db`journals, db`balances, db`periodBalances
    ensures match Reverse(old(db.Ledger()), id, date)
            case Ok(s) => r == Ok(|old(db.journals)|) && db.Ledger() == s
            case Err(e) => r == Err(e) && db.Ledger() == old(db.Ledger())
  {
    if id >= |db.journals| || db.journals[id].deleted {
      return Err(JournalNotFound);
    }
    if db.journals[id].status != Posted {
      return Err(NotPosted);
    }
    var lines, swapped := db.journals[id].lines, [];
    for k := 0 to |lines|
      invariant swapped == Swap(lines)[..k]
    {
      swapped := swapped + [Line(lines[k].account, lines[k].credit, lines[k].debit)];
    }
    assert swapped == Swap(lines);
    r := CreateAndPostEntry(db, date, swapped);
    if r.Ok? {
      db.journals := db.journals[id := db.journals[id].(status := Reversed, reversal := Some(r.value))];
      db.journals := db.journals[r.value := db.journals[r.value].(reversedFrom := Some(id))];
    }
  }

  method VoidEntry(db: Session, id: nat) returns (r: Outcome)
    modifies db`journals
    ensures Agrees(old(db.Ledger()), Void(old(db.Ledger()), id), r, db.Ledger())
  {
    if id >= |db.journals| || db.journals[id].deleted {
      return Refused(JournalNotFound);
    }
    if db.journals[id].status == Posted {
      return Refused(PostedNeedsReversal);
    }
    db.journals := db.journals[id := db.journals[id].(status := Voided)];
    r := Done;
  }

  // ---------- Accounts ----------

  /** AccountRepository.get_balance: an absent row is created with zeros. */
  method GetBalance(db: Session, a: nat) returns (row: Balance)
    modifies db`balances
    ensures row == Get(old(db.balances), a) && db.balances == EnsureRow(old(db.balances), a)
    ensures forall x: nat :: Get(db.balances, x) == Get(old(db.balances), x)
  {
    if a !in db.balances {
      db.balances := db.balances[a := ZERO_BALANCE];
    }
    row := db.balances[a];
  }

  method ArchiveAccount(db: Session, a: nat) returns (r: Outcome)
    modifies db`accounts, db`balances
    ensures Agrees(old(db.Ledger()), Archive(old(db.Ledger()), a), r, db.Ledger())
  {
    if a >= |db.accounts| || db.accounts[a].deleted {
      return Refused(AccountNotFound);
    }
    if db.accounts[a].isSystem {
      return Refused(SystemAccount);
    }
    var balances := db.balances;
    var row := GetBalance(db, a);
    if row.closingDebit != 0 || row.closingCredit != 0 || row.periodDebit != 0 || row.periodCredit != 0 {
      db.balances := balances;
      return Refused(NonZeroBalance);
    }
    db.accounts := db.accounts[a := db.accounts[a].(isActive := false, deleted := true)];
    r := Done;
  }

  // ---------- Trial balance ----------

  /** LedgerService.trial_balance over the accounts the list query returned. */
  method TrialBalance(db: Session, order: seq<nat>) returns (lines: seq<TrialLine>, totalDebit: int, totalCredit: int)
    modifies db`balances
    ensures forall a: nat :: Get(db.balances, a) == Get(old(db.balances), a)
    ensures |lines| == |order|
    ensures forall k :: 0 <= k < |order| ==>
                          lines[k] == TrialLine(order[k], DebitPart(old(db.Ledger()))(order[k]), CreditPart(old(db.Ledger()))(order[k]))
    ensures totalDebit == SumBy(order, DebitPart(old(db.Ledger()))) && totalCredit == SumBy(order, CreditPart(old(db.Ledger())))
    ensures Inv(old(db.Ledger())) ==>
              forall k :: 0 <= k < |order| ==>
                            && lines[k].account == order[k] && lines[k].debit >= 0 && lines[k].credit >= 0
                            && (lines[k].debit == 0 || lines[k].credit == 0)
                            && lines[k].debit - lines[k].credit
                               == History(old(db.journals), Effective(), Dr, order[k]) - History(old(db.journals), Effective(), Cr, order[k])
    ensures Inv(old(db.Ledger())) && ListsLiveAccounts(old(db.Ledger()), order) ==> totalDebit == totalCredit
  {
    ghost var st := db.Ledger();
    lines, totalDebit, totalCredit := [], 0, 0;
    for k := 0 to |order|
      invariant forall a: nat :: Get(db.balances, a) == Get(old(db.balances), a)
      invariant |lines| == k
      invariant forall i :: 0 <= i < k ==> lines[i] == TrialLine(order[i], DebitPart(st)(order[i]), CreditPart(st)(order[i]))
      invariant totalDebit == SumBy(order[..k], DebitPart(st)) && totalCredit == SumBy(order[..k], CreditPart(st))
    {
      SumPrefix(order, k, DebitPart(st));
      SumPrefix(order, k, CreditPart(st));
      var row := GetBalance(db, order[k]);
      var debit, credit := row.closingDebit - row.closingCredit, 0;
      if debit < 0 {
        credit := -debit;
        debit := 0;
      }
      totalDebit, totalCredit := totalDebit + debit, totalCredit + credit;
      lines := lines + [TrialLine(order[k], debit, credit)];
    }
    assert order[..|order|] == order;
    if Inv(st) {
      forall k | 0 <= k < |order| {
        TrialLineMeaning(st, order[k]);
      }
      if ListsLiveAccounts(st, order) {
        TrialBalanceBalances(st, order);
      }
    }
  }
}
