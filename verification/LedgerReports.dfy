/**
 What the ledger's readers may rely on in every reachable state: the trial balance balances, the
 period rows add up, closed periods stand still, reversals cancel, and the reports that read only
 POSTED journals differ from the caches by exactly the journals that were later reversed or voided.
 */
module LedgerReports {
  import opened Wrappers
  import opened Sums
  import opened LedgerModel
  import opened LedgerInvariant

  // ---------- Sums over accounts ----------

  function LinesNet(lines: seq<Line>): nat -> int {
    (a: nat) => NetOn(lines, a)
  }

  function HistoryNet(journals: seq<Journal>, keep: Journal -> bool): nat -> int {
    (a: nat) => History(journals, keep, Dr, a) - History(journals, keep, Cr, a)
  }

  predicate NoDuplicates(order: seq<nat>) {
    forall i, j :: 0 <= i < j < |order| ==> order[i] != order[j]
  }

  /** Summed over accounts that include all of its own, a list of lines nets to its debits less its credits. */
  lemma {:induction false} LinesNetOverAccounts(order: seq<nat>, lines: seq<Line>)
    requires NoDuplicates(order)
    requires forall l :: l in lines ==> l.account in order
    ensures SumBy(order, LinesNet(lines)) == SumBy(lines, Total(Dr)) - SumBy(lines, Total(Cr))
  {
    if |lines| == 0 {
      SumZero(order, LinesNet(lines));
    } else {
      var init, l := lines[..|lines| - 1], lines[|lines| - 1];
      LinesNetOverAccounts(order, init);
      var last := (a: nat) => if a == l.account then l.debit - l.credit else 0;
      SumPick(order, l.account, last, l.debit - l.credit);
      SumAdd(order, LinesNet(lines), LinesNet(init), last);
    }
  }

  /** Journals that each balance net to zero over any accounts that include all of theirs. */
  lemma {:induction false} HistoryNetsToZero(order: seq<nat>, journals: seq<Journal>, keep: Journal -> bool)
    requires NoDuplicates(order)
    requires forall j :: j in journals && keep(j) ==>
                           WellFormed(j.lines) && forall l :: l in j.lines ==> l.account in order
    ensures SumBy(order, HistoryNet(journals, keep)) == 0
  {
    if |journals| == 0 {
      SumZero(order, HistoryNet(journals, keep));
    } else {
      var init, j := journals[..|journals| - 1], journals[|journals| - 1];
      HistoryNetsToZero(order, init, keep);
      var last := (a: nat) => if keep(j) then NetOn(j.lines, a) else 0;
      SumAdd(order, HistoryNet(journals, keep), HistoryNet(init, keep), last);
      if keep(j) {
        LinesNetOverAccounts(order, j.lines);
        SumEqual(order, last, LinesNet(j.lines));
      } else {
        SumZero(order, last);
      }
    }
  }

  // ---------- Trial balance ----------

  /** The rows the account list query returns, in whatever order it returns them. */
  ghost predicate ListsLiveAccounts(st: State, order: seq<nat>) {
    NoDuplicates(order) && (forall a: nat :: a in order <==> LiveAccount(st, a))
  }

  datatype TrialLine = TrialLine(account: nat, debit: int, credit: int)

  function DebitPart(st: State): nat -> int {
    (a: nat) => if Net(st, a) < 0 then 0 else Net(st, a)
  }

  function CreditPart(st: State): nat -> int {
    (a: nat) => if Net(st, a) < 0 then -Net(st, a) else 0
  }

  /**
   The line an account gets in the trial balance, from the journals alone: what the entries that took
   effect debited it less what they credited it, a surplus of debits in the first column and of
   credits in the second.
   */
  lemma TrialLineMeaning(st: State, a: nat)
    requires Inv(st)
    ensures var debit, credit := DebitPart(st)(a), CreditPart(st)(a);
            && debit - credit == History(st.journals, Effective(), Dr, a) - History(st.journals, Effective(), Cr, a)
            && debit >= 0 && credit >= 0 && (debit == 0 || credit == 0)
  {
    assert Get(st.balances, a) == FromHistory(st.journals, Effective(), a);
  }

  lemma LiveAccountsCoverHistory(st: State, order: seq<nat>)
    requires Inv(st) && ListsLiveAccounts(st, order)
    ensures forall j :: j in st.journals && j.effective ==>
                          WellFormed(j.lines) && forall l :: l in j.lines ==> l.account in order
  {
    forall j | j in st.journals && j.effective
      ensures WellFormed(j.lines) && forall l :: l in j.lines ==> l.account in order
    {
      var i :| 0 <= i < |st.journals| && st.journals[i] == j;
      assert JournalOk(st, st.journals[i]);
    }
  }

  /** Total debit equals total credit although archived accounts are left out of the list. */
  lemma TrialBalanceBalances(st: State, order: seq<nat>)
    requires Inv(st) && ListsLiveAccounts(st, order)
    ensures SumBy(order, DebitPart(st)) == SumBy(order, CreditPart(st))
  {
    LiveAccountsCoverHistory(st, order);
    HistoryNetsToZero(order, st.journals, Effective());
    var net := HistoryNet(st.journals, Effective());
    forall a: nat | a in order
      ensures DebitPart(st)(a) == net(a) + CreditPart(st)(a)
    {
      assert Get(st.balances, a) == FromHistory(st.journals, Effective(), a);
    }
    SumAdd(order, DebitPart(st), net, CreditPart(st));
  }

  /** In every run, for every listing of the accounts that are left. */
  lemma TrialBalanceBalancesInEveryRun(ops: seq<Op>, order: seq<nat>)
    requires ListsLiveAccounts(Run(EMPTY, ops), order)
    ensures SumBy(order, DebitPart(Run(EMPTY, ops))) == SumBy(order, CreditPart(Run(EMPTY, ops)))
  {
    EmptyHasInv();
    RunKeepsInv(EMPTY, ops);
    TrialBalanceBalances(Run(EMPTY, ops), order);
  }

  predicate ArchivedIn(st: State, a: nat) {
    a < |st.accounts| && st.accounts[a].deleted
  }

  /** An archived account stays archived and keeps zero gross balances whatever happens next. */
  lemma {:induction false} ArchivedForever(st: State, a: nat, ops: seq<Op>)
    requires Inv(st) && ArchivedIn(st, a)
    ensures ArchivedIn(Run(st, ops), a) && Get(Run(st, ops).balances, a) == ZERO_BALANCE
  {
    if |ops| > 0 {
      var before := ops[..|ops| - 1];
      ArchivedForever(st, a, before);
      StepKeepsArchived(Run(st, before), a, ops[|ops| - 1]);
    }
    RunKeepsInv(st, ops);
    ArchivedIsUntouched(Run(st, ops), a);
    UntouchedMeansZero(Run(st, ops), a);
  }

  lemma ArchivedIsUntouched(st: State, a: nat)
    requires Inv(st) && ArchivedIn(st, a)
    ensures forall j, l :: j in st.journals && j.effective && l in j.lines ==> l.account != a
  {
    forall j, l | j in st.journals && j.effective && l in j.lines
      ensures l.account != a
    {
      var i :| 0 <= i < |st.journals| && st.journals[i] == j;
    }
  }

  lemma StepKeepsArchived(st: State, a: nat, op: Op)
    requires ArchivedIn(st, a)
    ensures ArchivedIn(Next(st, op), a)
  {
    if Step(st, op).Ok? {
      match op
      case CreateAndPostJournal(date, lines) => assert Create(st, date, lines).Ok?;
      case ReverseJournal(id, date) => assert Create(st, date, Swap(st.journals[id].lines)).Ok?;
      case _ =>
    }
  }

  /** An account that no entry which took effect names has nothing in its row. */
  lemma UntouchedMeansZero(st: State, a: nat)
    requires Inv(st) && forall j, l :: j in st.journals && j.effective && l in j.lines ==> l.account != a
    ensures Get(st.balances, a) == ZERO_BALANCE
  {
    forall side: Side
      ensures History(st.journals, Effective(), side, a) == 0
    {
      forall j | j in st.journals
        ensures Share(Effective(), side, a)(j) == 0
      {
        if j.effective {
          OnAbsent(j.lines, side, a);
        }
      }
      SumZero(st.journals, Share(Effective(), side, a));
    }
    assert Get(st.balances, a) == FromHistory(st.journals, Effective(), a);
  }

  // ---------- Periods ----------

  function Range(n: nat): (r: seq<nat>)
    ensures |r| == n && forall i :: 0 <= i < n ==> r[i] == i
  {
    seq(n, i => i)
  }

  function InPeriod(journals: seq<Journal>, side: Side, a: nat): nat -> int {
    (p: nat) => History(journals, EffectiveIn(p), side, a)
  }

  lemma {:induction false} PeriodsPartitionHistory(journals: seq<Journal>, n: nat, side: Side, a: nat)
    requires forall j :: j in journals ==> j.period < n
    ensures SumBy(Range(n), InPeriod(journals, side, a)) == History(journals, Effective(), side, a)
  {
    if |journals| == 0 {
      SumZero(Range(n), InPeriod(journals, side, a));
    } else {
      var init, j := journals[..|journals| - 1], journals[|journals| - 1];
      PeriodsPartitionHistory(init, n, side, a);
      var share := Share(Effective(), side, a)(j);
      var last := (p: nat) => if p == j.period then share else 0;
      SumPick(Range(n), j.period, last, share);
      assert Range(n)[j.period] == j.period;
      SumAdd(Range(n), InPeriod(journals, side, a), InPeriod(init, side, a), last);
    }
  }

  function PeriodDebit(st: State, a: nat): nat -> int {
    (p: nat) => Get(PeriodRows(st.periodBalances, p), a).closingDebit
  }

  function PeriodCredit(st: State, a: nat): nat -> int {
    (p: nat) => Get(PeriodRows(st.periodBalances, p), a).closingCredit
  }

  /** Over all periods, an account's period rows add up to its account row. */
  lemma PeriodRowsAddUp(st: State, a: nat)
    requires Inv(st)
    ensures SumBy(Range(|st.periods|), PeriodDebit(st, a)) == Get(st.balances, a).closingDebit
    ensures SumBy(Range(|st.periods|), PeriodCredit(st, a)) == Get(st.balances, a).closingCredit
  {
    forall j | j in st.journals
      ensures j.period < |st.periods|
    {
      var i :| 0 <= i < |st.journals| && st.journals[i] == j;
      assert JournalOk(st, st.journals[i]);
    }
    PeriodsPartitionHistory(st.journals, |st.periods|, Dr, a);
    PeriodsPartitionHistory(st.journals, |st.periods|, Cr, a);
    forall p: nat
      ensures Get(PeriodRows(st.periodBalances, p), a) == FromHistory(st.journals, EffectiveIn(p), a)
    {
    }
    SumEqual(Range(|st.periods|), PeriodDebit(st, a), InPeriod(st.journals, Dr, a));
    SumEqual(Range(|st.periods|), PeriodCredit(st, a), InPeriod(st.journals, Cr, a));
    assert Get(st.balances, a) == FromHistory(st.journals, Effective(), a);
  }

  /** Creating and posting only writes rows of the period its date falls in, and only while that is open. */
  lemma PostingKeepsClosedPeriod(st: State, date: int, lines: seq<Line>, p: nat)
    requires CreateAndPost(st, date, lines).Ok? && p < |st.periods| && st.periods[p].status != Open
    ensures PeriodRows(CreateAndPost(st, date, lines).value.periodBalances, p) == PeriodRows(st.periodBalances, p)
  {
  }

  lemma StepKeepsClosedPeriod(st: State, op: Op, p: nat)
    requires Inv(st) && p < |st.periods| && st.periods[p].status != Open
    ensures p < |Next(st, op).periods|
    ensures PeriodRows(Next(st, op).periodBalances, p) == PeriodRows(st.periodBalances, p)
  {
    if Step(st, op).Ok? {
      match op
      case CreateAndPostJournal(date, lines) => PostingKeepsClosedPeriod(st, date, lines, p);
      case ReverseJournal(id, date) => PostingKeepsClosedPeriod(st, date, Swap(st.journals[id].lines), p);
      case _ =>
    }
  }

  /** The period is closed or locked whenever one of the operations is called. */
  predicate ClosedThroughout(st: State, ops: seq<Op>, p: nat) {
    if |ops| == 0 then true
    else
      var before := Run(st, ops[..|ops| - 1]);
      ClosedThroughout(st, ops[..|ops| - 1], p) && p < |before.periods| && before.periods[p].status != Open
  }

  /** No run of operations called while a period is closed or locked changes a cached row of that period. */
  lemma {:induction false} ClosedPeriodStandsStill(st: State, ops: seq<Op>, p: nat)
    requires Inv(st) && ClosedThroughout(st, ops, p)
    ensures PeriodRows(Run(st, ops).periodBalances, p) == PeriodRows(st.periodBalances, p)
  {
    if |ops| > 0 {
      var init := ops[..|ops| - 1];
      ClosedPeriodStandsStill(st, init, p);
      RunKeepsInv(st, init);
      StepKeepsClosedPeriod(Run(st, init), ops[|ops| - 1], p);
    }
  }

  // ---------- History is permanent ----------

  predicate SameEntry(before: Journal, after: Journal) {
    && after.effective && after.lines == before.lines
    && after.period == before.period && after.entryDate == before.entryDate
    && after.reversedFrom == before.reversedFrom
    && (before.reversal.Some? ==> after.reversal == before.reversal)
  }

  lemma StepKeepsEntry(st: State, op: Op, i: nat)
    requires Inv(st) && i < |st.journals| && st.journals[i].effective
    ensures i < |Next(st, op).journals| && SameEntry(st.journals[i], Next(st, op).journals[i])
  {
    assert JournalOk(st, st.journals[i]);
    if Step(st, op).Ok? {
      match op
      case CreateAndPostJournal(date, lines) => CreateAndPostKeepsEntries(st, date, lines);
      case ReverseJournal(id, date) =>
        CreateAndPostKeepsEntries(st, date, Swap(st.journals[id].lines));
        assert JournalOk(st, st.journals[id]);
      case _ =>
    }
  }

  lemma CreateAndPostKeepsEntries(st: State, date: int, lines: seq<Line>)
    requires CreateAndPost(st, date, lines).Ok?
    ensures var js := CreateAndPost(st, date, lines).value.journals;
            |js| == |st.journals| + 1 && js[..|st.journals|] == st.journals
  {
  }

  lemma {:induction false} RunKeepsEntry(st: State, ops: seq<Op>, i: nat)
    requires Inv(st) && i < |st.journals| && st.journals[i].effective
    ensures i < |Run(st, ops).journals| && SameEntry(st.journals[i], Run(st, ops).journals[i])
  {
    if |ops| > 0 {
      var before := ops[..|ops| - 1];
      RunKeepsEntry(st, before, i);
      RunKeepsInv(st, before);
      StepKeepsEntry(Run(st, before), ops[|ops| - 1], i);
    }
  }

  // ---------- Reversals ----------

  /** A journal and its reversal put the same amounts on opposite sides of every account. */
  lemma ReversalCancels(st: State, i: nat, a: nat)
    requires Inv(st) && i < |st.journals| && st.journals[i].reversal.Some?
    ensures var r := st.journals[i].reversal.value;
            && i < r < |st.journals|
            && st.journals[i].effective && st.journals[r].effective
            && On(st.journals[r].lines, Dr, a) == On(st.journals[i].lines, Cr, a)
            && On(st.journals[r].lines, Cr, a) == On(st.journals[i].lines, Dr, a)
  {
    assert LinkedForward(st.journals, i) && JournalOk(st, st.journals[i]);
    SwapExchangesSides(st.journals[i].lines, a);
  }

  /** The two link columns are inverse partial functions, and every reversal is a later entry. */
  lemma ReversalLinksAreInverse(st: State, i: nat, r: nat)
    requires Inv(st) && i < |st.journals| && r < |st.journals|
    ensures st.journals[i].reversal == Some(r) <==> st.journals[r].reversedFrom == Some(i)
    ensures st.journals[i].reversal == Some(r) ==> i < r
  {
    assert LinkedForward(st.journals, i) && LinkedBack(st.journals, r);
  }

  /**
   Posting a journal and reversing it, with anything before, between and after, leaves the pair
   contributing nothing to any account, and the journal cannot be reversed a second time.
   */
  lemma ReversedOnceAndForAll(before: seq<Op>, i: nat, date: int, after: seq<Op>, a: nat, again: int)
    requires Reverse(Run(EMPTY, before), i, date).Ok?
    ensures var st := Run(Reverse(Run(EMPTY, before), i, date).value, after);
            var r := |Run(EMPTY, before).journals|;
            && i < r < |st.journals|
            && st.journals[i].reversal == Some(r) && st.journals[r].reversedFrom == Some(i)
            && st.journals[i].effective && st.journals[r].effective
            && NetOn(st.journals[i].lines, a) + NetOn(st.journals[r].lines, a) == 0
            && Reverse(st, i, again).Err?
  {
    EmptyHasInv();
    RunKeepsInv(EMPTY, before);
    var st0 := Run(EMPTY, before);
    ReverseKeepsInv(st0, i, date);
    var st1 := Reverse(st0, i, date).value;
    var r := |st0.journals|;
    RunKeepsInv(st1, after);
    RunKeepsEntry(st1, after, i);
    var st2 := Run(st1, after);
    ReversalCancels(st2, i, a);
    ReversalLinksAreInverse(st2, i, r);
    assert JournalOk(st2, st2.journals[i]);
  }

  /** The lines of a posted journal always pass validation when swapped: only a closed period or an unusable account stops a reversal. */
  lemma ReversalGoesThrough(st: State, i: nat, date: int)
    requires Inv(st) && LiveJournal(st, i) && st.journals[i].status == Posted
    ensures Reverse(st, i, date).Ok? <==>
            && ResolveByDate(st.periods, date).Some?
            && st.periods[ResolveByDate(st.periods, date).value].status == Open
            && AllUsable(st.accounts, st.journals[i].lines)
  {
    var lines := st.journals[i].lines;
    var swapped := Swap(lines);
    assert JournalOk(st, st.journals[i]);
    SwapExchangesSides(lines, 0);
    assert forall k :: 0 <= k < |lines| ==> lines[k] in lines && swapped[k] in swapped;
    SwappedIsWellFormed(lines);
    ValidationMeansWellFormed(swapped);
    InsertErrorMeaning(st.accounts, swapped);
    if Create(st, date, swapped).Ok? {
      CreatedJournalPosts(st, date, swapped);
    }
  }

  lemma SwappedIsWellFormed(lines: seq<Line>)
    requires WellFormed(lines) && forall l :: l in lines ==> NonNegative(l)
    ensures WellFormed(Swap(lines)) && forall l :: l in Swap(lines) ==> NonNegative(l)
  {
    SwapExchangesSides(lines, 0);
    forall k | 0 <= k < |lines|
      ensures NonNegative(Swap(lines)[k]) && (Swap(lines)[k].debit > 0 <==> Swap(lines)[k].credit <= 0)
    {
      assert lines[k] in lines;
    }
  }

  /** A journal that could be created can be posted at once, so creating first and posting second never stops half-way. */
  lemma CreatedJournalPosts(st: State, date: int, lines: seq<Line>)
    requires Create(st, date, lines).Ok?
    ensures CreateAndPost(st, date, lines).Ok?
  {
    InsertErrorMeaning(st.accounts, lines);
  }

  // ---------- Reports that read POSTED journals only ----------

  function PostedOnly(): Journal -> bool { (j: Journal) => j.status == Posted }
  function TakenBack(): Journal -> bool { (j: Journal) => j.effective && j.status != Posted }

  /** Net activity of an account as aggregate_account_activity and the account ledger see it. */
  function ReportedNet(st: State, a: nat): int {
    HistoryNet(st.journals, PostedOnly())(a)
  }

  /** Cache and report differ by exactly the journals that took effect and are no longer POSTED. */
  lemma ReportDiffersByTakenBack(st: State, a: nat)
    requires Inv(st)
    ensures Net(st, a) == ReportedNet(st, a) + HistoryNet(st.journals, TakenBack())(a)
  {
    forall side: Side
      ensures History(st.journals, Effective(), side, a)
              == History(st.journals, PostedOnly(), side, a) + History(st.journals, TakenBack(), side, a)
    {
      forall j | j in st.journals
        ensures Share(Effective(), side, a)(j) == Share(PostedOnly(), side, a)(j) + Share(TakenBack(), side, a)(j)
      {
        var i :| 0 <= i < |st.journals| && st.journals[i] == j;
        assert JournalOk(st, st.journals[i]);
      }
      SumAdd(st.journals, Share(Effective(), side, a), Share(PostedOnly(), side, a), Share(TakenBack(), side, a));
    }
    assert Get(st.balances, a) == FromHistory(st.journals, Effective(), a);
  }

  /** In a state without reversals, the report is the cache. */
  lemma ReportAgreesWithoutReversals(st: State, a: nat)
    requires Inv(st)
    requires forall j :: j in st.journals ==> j.reversal.None?
    ensures ReportedNet(st, a) == Net(st, a)
  {
    ReportDiffersByTakenBack(st, a);
    forall side: Side
      ensures History(st.journals, TakenBack(), side, a) == 0
    {
      forall j | j in st.journals
        ensures Share(TakenBack(), side, a)(j) == 0
      {
        var i :| 0 <= i < |st.journals| && st.journals[i] == j;
        assert JournalOk(st, st.journals[i]);
      }
      SumZero(st.journals, Share(TakenBack(), side, a));
    }
  }

  lemma {:induction false} NoReversalsMeansNoLinks(ops: seq<Op>)
    requires forall op :: op in ops ==> !op.ReverseJournal?
    ensures forall j :: j in Run(EMPTY, ops).journals ==> j.reversal.None?
  {
    if |ops| > 0 {
      var init := ops[..|ops| - 1];
      assert forall op :: op in init ==> op in ops;
      NoReversalsMeansNoLinks(init);
      StepAddsNoLinks(Run(EMPTY, init), ops[|ops| - 1]);
    }
  }

  lemma StepAddsNoLinks(st: State, op: Op)
    requires !op.ReverseJournal? && forall i :: 0 <= i < |st.journals| ==> st.journals[i].reversal.None?
    ensures forall i :: 0 <= i < |Next(st, op).journals| ==> Next(st, op).journals[i].reversal.None?
  {
    if op.CreateAndPostJournal? && Step(st, op).Ok? {
      CreateAndPostKeepsEntries(st, op.date, op.lines);
    }
  }

  /** In every run the reports' balance is the cache less what was taken back; in a run without reversals it is the cache. */
  lemma ReportsInEveryRun(ops: seq<Op>, a: nat)
    ensures var st := Run(EMPTY, ops);
            && Net(st, a) == ReportedNet(st, a) + HistoryNet(st.journals, TakenBack())(a)
            && ((forall op :: op in ops ==> !op.ReverseJournal?) ==> ReportedNet(st, a) == Net(st, a))
  {
    EmptyHasInv();
    RunKeepsInv(EMPTY, ops);
    ReportDiffersByTakenBack(Run(EMPTY, ops), a);
    if forall op :: op in ops ==> !op.ReverseJournal? {
      NoReversalsMeansNoLinks(ops);
      ReportAgreesWithoutReversals(Run(EMPTY, ops), a);
    }
  }

  /** Whatever has been reversed, the POSTED journals alone still balance. */
  lemma PostedOnlyBalances(st: State, order: seq<nat>)
    requires Inv(st) && ListsLiveAccounts(st, order)
    ensures SumBy(order, HistoryNet(st.journals, PostedOnly())) == 0
  {
    LiveAccountsCoverHistory(st, order);
    forall j | j in st.journals && PostedOnly()(j)
      ensures j.effective
    {
      var i :| 0 <= i < |st.journals| && st.journals[i] == j;
      assert JournalOk(st, st.journals[i]);
    }
    HistoryNetsToZero(order, st.journals, PostedOnly());
  }

  function PostedBetween(from: int, to: int): Journal -> bool {
    (j: Journal) => j.status == Posted && from <= j.entryDate <= to
  }

  function PostedBefore(date: int): Journal -> bool {
    (j: Journal) => j.status == Posted && j.entryDate < date
  }

  function PostedAsOf(date: int): Journal -> bool {
    (j: Journal) => j.status == Posted && j.entryDate <= date
  }

  /**
   Opening movement before a date plus activity from it on is the as-of balance: a POSTED journal
   dated on the first day counts as activity, and one dated on the last day is still included.
   */
  lemma OpeningPlusActivity(journals: seq<Journal>, from: int, to: int, side: Side, a: nat)
    requires from <= to + 1
    ensures History(journals, PostedAsOf(to), side, a)
            == History(journals, PostedBefore(from), side, a) + History(journals, PostedBetween(from, to), side, a)
    ensures forall j: Journal :: PostedBefore(from)(j) <==> j.status == Posted && j.entryDate < from
    ensures forall j: Journal :: PostedAsOf(to)(j) <==> j.status == Posted && j.entryDate <= to
  {
    SumAdd(journals, Share(PostedAsOf(to), side, a), Share(PostedBefore(from), side, a), Share(PostedBetween(from, to), side, a));
  }

  lemma ReverseShape(st: State, id: nat, date: int)
    requires Inv(st) && Reverse(st, id, date).Ok?
    ensures var js, s, j := st.journals, Reverse(st, id, date).value, st.journals[id];
            && |s.journals| == |js| + 1
            && s.journals == (js + [s.journals[|js|]])[id := s.journals[id]]
            && s.journals[id].status == Reversed && s.journals[id].effective && s.journals[id].lines == j.lines
            && s.journals[|js|].status == Posted && s.journals[|js|].effective && s.journals[|js|].lines == Swap(j.lines)
  {
    assert JournalOk(st, st.journals[id]);
    CreateAndPostKeepsEntries(st, date, Swap(st.journals[id].lines));
  }

  lemma HistoryNetAfterReversal(js: seq<Journal>, id: nat, marked: Journal, reversal: Journal, keep: Journal -> bool, a: nat)
    requires id < |js| && keep(js[id]) && keep(reversal) && marked.lines == js[id].lines && reversal.lines == Swap(js[id].lines)
    ensures HistoryNet((js + [reversal])[id := marked], keep)(a)
            == HistoryNet(js, keep)(a) - (if keep(marked) then 1 else 2) * NetOn(js[id].lines, a)
  {
    HistoryAppend(js, reversal, keep, a);
    HistoryReplace(js + [reversal], id, marked, keep, a);
    SwapExchangesSides(js[id].lines, a);
  }

  /**
   A reversal takes a journal's net out of the cache once but out of the POSTED-only report twice:
   the original is no longer read and the reversal is. So a report that agreed with the cache
   stops agreeing on exactly the accounts the reversed journal moved.
   */
  lemma ReversalSkewsReport(st: State, id: nat, date: int, a: nat)
    requires Inv(st) && Reverse(st, id, date).Ok?
    ensures var s, moved := Reverse(st, id, date).value, NetOn(st.journals[id].lines, a);
            && Net(s, a) == Net(st, a) - moved
            && ReportedNet(s, a) == ReportedNet(st, a) - 2 * moved
  {
    var s, n := Reverse(st, id, date).value, |st.journals|;
    ReverseShape(st, id, date);
    ReverseKeepsInv(st, id, date);
    assert JournalOk(st, st.journals[id]);
    HistoryNetAfterReversal(st.journals, id, s.journals[id], s.journals[n], Effective(), a);
    HistoryNetAfterReversal(st.journals, id, s.journals[id], s.journals[n], PostedOnly(), a);
    assert Get(st.balances, a) == FromHistory(st.journals, Effective(), a);
    assert Get(s.balances, a) == FromHistory(s.journals, Effective(), a);
  }

  // ---------- What one operation moves ----------

  lemma PostMovesNet(st: State, id: nat, a: nat)
    requires Inv(st) && Post(st, id).Ok?
    ensures Net(Post(st, id).value, a) == Net(st, a) + NetOn(st.journals[id].lines, a)
  {
    var b := Get(st.balances, a);
    assert b == FromHistory(st.journals, Effective(), a);
    PostLinesAdds(st.balances, st.journals[id].lines, a, b.closingDebit, b.closingCredit);
  }

  lemma CreateAndPostMovesNet(st: State, date: int, lines: seq<Line>, a: nat)
    requires Inv(st) && CreateAndPost(st, date, lines).Ok?
    ensures Net(CreateAndPost(st, date, lines).value, a) == Net(st, a) + NetOn(lines, a)
  {
    CreateKeepsInv(st, date, lines);
    PostMovesNet(Create(st, date, lines).value, |st.journals|, a);
  }

  predicate LinesAvoid(lines: seq<Line>, a: nat) {
    forall l :: l in lines ==> l.account != a
  }

  /** Whatever the operation posts, it posts nothing to this account. */
  predicate OpAvoids(st: State, op: Op, a: nat) {
    match op
    case CreateAndPostJournal(_, lines) => LinesAvoid(lines, a)
    case PostJournal(id) => id < |st.journals| ==> LinesAvoid(st.journals[id].lines, a)
    case ReverseJournal(id, _) => id < |st.journals| ==> LinesAvoid(st.journals[id].lines, a)
    case _ => true
  }

  lemma AvoidedHasNoNet(lines: seq<Line>, a: nat)
    requires LinesAvoid(lines, a)
    ensures NetOn(lines, a) == 0
  {
    OnAbsent(lines, Dr, a);
    OnAbsent(lines, Cr, a);
  }

  lemma OpKeepsNet(st: State, op: Op, a: nat)
    requires Inv(st) && Step(st, op).Ok? && OpAvoids(st, op, a)
    ensures Net(Step(st, op).value, a) == Net(st, a)
  {
    match op
    case CreateAndPostJournal(date, lines) =>
      CreateAndPostMovesNet(st, date, lines, a);
      AvoidedHasNoNet(lines, a);
    case PostJournal(id) =>
      PostMovesNet(st, id, a);
      AvoidedHasNoNet(st.journals[id].lines, a);
    case ReverseJournal(id, date) =>
      var lines := st.journals[id].lines;
      CreateAndPostMovesNet(st, date, Swap(lines), a);
      SwapExchangesSides(lines, a);
      AvoidedHasNoNet(lines, a);
    case _ =>
  }
}
