/**
 What the ledger's requests mean, said from the tables alone: which period a date falls in, when a
 journal is stored and posted, how its status can change, and when an account can be archived.
 */
module LedgerMeaning {
  import opened Wrappers
  import opened Sums
  import opened LedgerModel
  import opened LedgerInvariant
  import opened LedgerReports

  // ---------- Dates ----------

  /** A date falls in the first period whose two bounds include it, and in none exactly when no period does. */
  lemma {:induction false} DateFallsInFirstPeriod(periods: seq<Period>, date: int)
    ensures ResolveByDate(periods, date).Some? <==> exists i :: 0 <= i < |periods| && periods[i].startDate <= date <= periods[i].endDate
    ensures forall i :: 0 <= i < |periods| ==>
                          (ResolveByDate(periods, date) == Some(i)
                           <==> && periods[i].startDate <= date <= periods[i].endDate
                                && forall k :: 0 <= k < i ==> !(periods[k].startDate <= date <= periods[k].endDate))
  {
    if |periods| > 0 {
      var n := |periods| - 1;
      DateFallsInFirstPeriod(periods[..n], date);
      if i :| 0 <= i < n && periods[i].startDate <= date <= periods[i].endDate {
        assert periods[..n][i] == periods[i];
      }
    }
  }

  /** The first period that includes the date is open. */
  predicate OpenOn(periods: seq<Period>, date: int) {
    exists i :: 0 <= i < |periods| && FirstOpen(periods, date, i)
  }

  predicate FirstOpen(periods: seq<Period>, date: int, i: nat)
    requires i < |periods|
  {
    && periods[i].startDate <= date <= periods[i].endDate && periods[i].status == Open
    && forall k :: 0 <= k < i ==> !(periods[k].startDate <= date <= periods[k].endDate)
  }

  lemma OpenOnMeaning(periods: seq<Period>, date: int)
    ensures OpenOn(periods, date)
            <==> ResolveByDate(periods, date).Some? && periods[ResolveByDate(periods, date).value].status == Open
  {
    DateFallsInFirstPeriod(periods, date);
    if ResolveByDate(periods, date).Some? {
      var i := ResolveByDate(periods, date).value;
      assert OpenOn(periods, date) ==> periods[i].status == Open;
      if periods[i].status == Open {
        assert FirstOpen(periods, date, i);
      }
    }
  }

  // ---------- Creating and posting ----------

  /** An account that exists, has not been archived, is active and takes postings. */
  predicate TakesPostings(accounts: seq<Account>, a: nat) {
    a < |accounts| && !accounts[a].deleted && accounts[a].isActive && accounts[a].isPostable
  }

  /** One side positive and the other zero. */
  predicate OnePositiveSide(l: Line) {
    (l.debit > 0 && l.credit == 0) || (l.credit > 0 && l.debit == 0)
  }

  /** Two lines or more, each on one side of an account that takes postings, debits equal to credits. */
  predicate ProperLines(accounts: seq<Account>, lines: seq<Line>) {
    && |lines| >= 2 && (forall l :: l in lines ==> OnePositiveSide(l) && TakesPostings(accounts, l.account))
    && SumBy(lines, (l: Line) => l.debit) == SumBy(lines, (l: Line) => l.credit)
  }

  /** Which refusal lines meet: too few of them, or the first that is not on one side, or else a whole that does not balance. */
  lemma LinesRefusedFor(lines: seq<Line>, k: nat)
    ensures |lines| < 2 ==> ValidationError(lines) == Some(TooFewLines)
    ensures |lines| >= 2 && FirstBad(lines, k) ==> ValidationError(lines) == Some(if lines[k].debit > 0 then BothSides else NoAmount)
    ensures |lines| >= 2 && (forall l :: l in lines ==> SomeSide(l)) ==>
              ValidationError(lines)
              == if SumBy(lines, (l: Line) => l.debit) != SumBy(lines, (l: Line) => l.credit) then Some(Unbalanced) else None
  {
    ShapesMeanOneSide(lines);
    if FirstBad(lines, k) {
      FirstBadDecides(lines, k);
    }
    SumEqual(lines, (l: Line) => l.debit, Total(Dr));
    SumEqual(lines, (l: Line) => l.credit, Total(Cr));
  }

  /** Exactly one side is positive; the other may be zero or, before the table's check constraint, negative. */
  predicate SomeSide(l: Line) {
    (l.debit > 0 && l.credit <= 0) || (l.debit <= 0 && l.credit > 0)
  }

  predicate FirstBad(lines: seq<Line>, k: int) {
    0 <= k < |lines| && !SomeSide(lines[k]) && forall i :: 0 <= i < k ==> SomeSide(lines[i])
  }

  lemma {:induction false} FirstBadDecides(lines: seq<Line>, k: nat)
    requires FirstBad(lines, k)
    ensures FirstShapeError(lines) == Some(if lines[k].debit > 0 then BothSides else NoAmount)
  {
    var init := lines[..|lines| - 1];
    if k < |init| {
      FirstBadDecides(init, k);
    } else {
      ShapesMeanOneSide(init);
    }
  }

  lemma ProperLinesMeaning(accounts: seq<Account>, lines: seq<Line>)
    ensures ProperLines(accounts, lines) <==> ValidationError(lines).None? && InsertError(accounts, lines).None?
  {
    ValidationMeansWellFormed(lines);
    InsertErrorMeaning(accounts, lines);
    SumEqual(lines, (l: Line) => l.debit, Total(Dr));
    SumEqual(lines, (l: Line) => l.credit, Total(Cr));
  }

  /**
   A journal is created exactly when the first period including its date is open and its lines are
   proper. It is a draft with that date, that period and those lines, and nothing else changes.
   */
  lemma JournalIsCreated(st: State, date: int, lines: seq<Line>)
    ensures Create(st, date, lines).Ok? <==> OpenOn(st.periods, date) && ProperLines(st.accounts, lines)
    ensures (forall i :: 0 <= i < |st.periods| ==> !(st.periods[i].startDate <= date <= st.periods[i].endDate)) ==>
              Create(st, date, lines) == Err(NoPeriod)
    ensures Create(st, date, lines).Ok? ==>
              exists i :: && 0 <= i < |st.periods| && FirstOpen(st.periods, date, i)
                          && Create(st, date, lines)
                             == Ok(st.(journals := st.journals + [Journal(date, i, lines, Draft, false, false, None, None)]))
  {
    OpenOnMeaning(st.periods, date);
    ProperLinesMeaning(st.accounts, lines);
    DateFallsInFirstPeriod(st.periods, date);
    if Create(st, date, lines).Ok? {
      var i := ResolveByDate(st.periods, date).value;
      assert FirstOpen(st.periods, date, i);
    }
  }

  /** What one side of an account holds in a balance row. */
  function Held(b: Balance, side: Side): int {
    match side
    case Dr => b.closingDebit
    case Cr => b.closingCredit
  }

  /** What some lines put on one side of an account. */
  function PutOn(side: Side, a: nat): Line -> int {
    (l: Line) => if l.account != a then 0 else if side == Dr then l.debit else l.credit
  }

  lemma PutOnIsOn(lines: seq<Line>, side: Side, a: nat)
    ensures SumBy(lines, PutOn(side, a)) == On(lines, side, a)
  {
    SumEqual(lines, PutOn(side, a), At(side, a));
  }

  lemma PostedRowRises(rows: map<nat, Balance>, lines: seq<Line>, a: nat, side: Side)
    requires Get(rows, a) == Cached(Get(rows, a).closingDebit, Get(rows, a).closingCredit)
    ensures Held(Get(PostLines(rows, lines), a), side) == Held(Get(rows, a), side) + SumBy(lines, PutOn(side, a))
  {
    PostLinesAdds(rows, lines, a, Get(rows, a).closingDebit, Get(rows, a).closingCredit);
    PutOnIsOn(lines, side, a);
  }

  /** A journal is posted exactly when it is a live draft in an open period and its lines are proper. */
  lemma JournalIsPosted(st: State, id: nat)
    requires Inv(st)
    ensures Post(st, id).Ok?
            <==> && id < |st.journals| && !st.journals[id].deleted && st.journals[id].status == Draft
                 && st.periods[st.journals[id].period].status == Open
                 && ProperLines(st.accounts, st.journals[id].lines)
  {
    if id < |st.journals| {
      assert JournalOk(st, st.journals[id]);
      ProperLinesMeaning(st.accounts, st.journals[id].lines);
      InsertErrorMeaning(st.accounts, st.journals[id].lines);
    }
  }

  /** Posting adds each line to its side of its account's row and of that account's row in the journal's own period, and to no other. */
  lemma PostingFillsRows(st: State, id: nat, a: nat, p: nat, side: Side)
    requires Inv(st) && Post(st, id).Ok?
    ensures var t, j := Post(st, id).value, st.journals[id];
            && t.journals == st.journals[id := j.(status := Posted, effective := true)]
            && Held(Get(t.balances, a), side) == Held(Get(st.balances, a), side) + SumBy(j.lines, PutOn(side, a))
            && Held(Get(PeriodRows(t.periodBalances, p), a), side)
               == Held(Get(PeriodRows(st.periodBalances, p), a), side) + (if p == j.period then SumBy(j.lines, PutOn(side, a)) else 0)
  {
    assert Get(st.balances, a) == FromHistory(st.journals, Effective(), a);
    assert Get(PeriodRows(st.periodBalances, p), a) == FromHistory(st.journals, EffectiveIn(p), a);
    PostedRowRises(st.balances, st.journals[id].lines, a, side);
    PostedRowRises(PeriodRows(st.periodBalances, p), st.journals[id].lines, a, side);
  }

  /** The lines of a posted journal are always proper when swapped but for their accounts: only the date or an account that takes no postings any more stops a reversal. */
  lemma ReversalRefusedOnlyFor(st: State, id: nat, date: int)
    requires Inv(st)
    ensures Reverse(st, id, date).Ok?
            <==> && id < |st.journals| && !st.journals[id].deleted && st.journals[id].status == Posted
                 && OpenOn(st.periods, date)
                 && forall l :: l in st.journals[id].lines ==> TakesPostings(st.accounts, l.account)
  {
    if id < |st.journals| && !st.journals[id].deleted && st.journals[id].status == Posted {
      OpenOnMeaning(st.periods, date);
      ReversalGoesThrough(st, id, date);
    }
  }

  // ---------- The life of a journal ----------

  /** How one request that succeeds may change journal i: only a draft's lines, and only along these lines its status. */
  predicate Moves(op: Op, i: nat, before: Journal, after: Journal) {
    && (after.lines == before.lines || (before.status == Draft && op.UpdateJournal? && op.id == i && op.newLines == Some(after.lines)))
    && (after.deleted == before.deleted || (before.status == Draft && after.deleted && op == DeleteJournal(i)))
    && after.entryDate == before.entryDate && after.period == before.period
    && match (before.status, after.status)
       case (Draft, Posted) => op == PostJournal(i) && after.effective
       case (Posted, Reversed) => op.ReverseJournal? && op.id == i && after.effective
       case (Posted, Voided) => false
       case (_, Voided) => (op == VoidJournal(i) || before.status == Voided) && after.effective == before.effective
       case _ => after.status == before.status && after.effective == before.effective
  }

  lemma StepMovesJournals(st: State, op: Op, i: nat)
    requires Inv(st) && Step(st, op).Ok? && i < |st.journals|
    ensures i < |Step(st, op).value.journals| && Moves(op, i, st.journals[i], Step(st, op).value.journals[i])
  {
    assert JournalOk(st, st.journals[i]);
    match op
    case CreateAndPostJournal(date, lines) => CreateAndPostKeepsEntries(st, date, lines);
    case ReverseJournal(id, date) =>
      CreateAndPostKeepsEntries(st, date, Swap(st.journals[id].lines));
    case _ =>
  }

  /** Which journals may be voided, deleted and edited, and what that does to them. */
  lemma DraftsMayChange(st: State, id: nat, lines: seq<Line>, deletesFirst: bool)
    ensures Void(st, id).Ok? <==> id < |st.journals| && !st.journals[id].deleted && st.journals[id].status != Posted
    ensures DeleteOrVoid(st, id).Ok? <==> id < |st.journals| && !st.journals[id].deleted && st.journals[id].status == Draft
    ensures Update(st, id, Some(lines), deletesFirst).Ok?
            <==> && id < |st.journals| && !st.journals[id].deleted && st.journals[id].status == Draft
                 && (deletesFirst || st.journals[id].lines == [])
                 && |lines| >= 2 && SumBy(lines, (l: Line) => l.debit) == SumBy(lines, (l: Line) => l.credit)
                 && forall l :: l in lines ==> OnePositiveSide(l) && l.account < |st.accounts|
    ensures Void(st, id).Ok? ==> Void(st, id).value == st.(journals := st.journals[id := st.journals[id].(status := Voided)])
    ensures DeleteOrVoid(st, id).Ok? ==> DeleteOrVoid(st, id).value == st.(journals := st.journals[id := st.journals[id].(deleted := true)])
    ensures Update(st, id, Some(lines), deletesFirst).Ok? ==>
              Update(st, id, Some(lines), deletesFirst).value == st.(journals := st.journals[id := st.journals[id].(lines := lines)])
  {
    ValidationMeansWellFormed(lines);
    SumEqual(lines, (l: Line) => l.debit, Total(Dr));
    SumEqual(lines, (l: Line) => l.credit, Total(Cr));
  }

  // ---------- Archiving ----------

  /** Does an entry that took effect name the account. */
  predicate Carries(j: Journal, a: nat) {
    j.effective && exists l :: l in j.lines && l.account == a
  }

  lemma CarriedShowsInBalance(st: State, j: Journal, a: nat)
    requires Inv(st) && j in st.journals && Carries(j, a)
    ensures Get(st.balances, a).closingDebit > 0 || Get(st.balances, a).closingCredit > 0
  {
    var i :| 0 <= i < |st.journals| && st.journals[i] == j;
    assert JournalOk(st, st.journals[i]);
    var l :| l in j.lines && l.account == a;
    forall side: Side
      ensures Amount(l, side) <= History(st.journals, Effective(), side, a)
    {
      OnBoundsLine(j.lines, side, l);
      HistoryTermsAreNonNegative(st, side, a);
      SumBoundsTerm(st.journals, Share(Effective(), side, a), i);
    }
    assert Amount(l, Dr) > 0 || Amount(l, Cr) > 0;
    assert Get(st.balances, a) == FromHistory(st.journals, Effective(), a);
  }

  lemma HistoryTermsAreNonNegative(st: State, side: Side, a: nat)
    requires Inv(st)
    ensures forall j :: j in st.journals ==> Share(Effective(), side, a)(j) >= 0
  {
    forall j | j in st.journals
      ensures Share(Effective(), side, a)(j) >= 0
    {
      var i :| 0 <= i < |st.journals| && st.journals[i] == j;
      assert JournalOk(st, st.journals[i]);
      SumNonNegative(j.lines, At(side, a));
    }
  }

  /** An account can be archived exactly when it is there, is not the system's own, and no entry that took effect ever named it. */
  lemma ArchivedExactly(st: State, a: nat)
    requires Inv(st)
    ensures Archive(st, a).Ok?
            <==> && a < |st.accounts| && !st.accounts[a].deleted && !st.accounts[a].isSystem
                 && forall j :: j in st.journals ==> !Carries(j, a)
    ensures Archive(st, a).Ok? ==>
              && Archive(st, a).value.accounts == st.accounts[a := Account(false, st.accounts[a].isPostable, false, true)]
              && Archive(st, a).value.journals == st.journals
  {
    if j :| j in st.journals && Carries(j, a) {
      CarriedShowsInBalance(st, j, a);
    } else {
      assert forall j, l :: j in st.journals && j.effective && l in j.lines && l.account == a ==> Carries(j, a);
      UntouchedMeansZero(st, a);
    }
  }
}
