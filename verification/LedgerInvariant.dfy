/**
 What every run of the ledger keeps: both balance caches equal the history they cache, reversal
 links are mutually inverse and run forward, and archived accounts never carried an entry.
 */
module LedgerInvariant {
  import opened Wrappers
  import opened Sums
  import opened LedgerModel

  // ---------- History ----------

  function Effective(): Journal -> bool { (j: Journal) => j.effective }
  function EffectiveIn(p: nat): Journal -> bool { (j: Journal) => j.effective && j.period == p }

  function Share(keep: Journal -> bool, side: Side, a: nat): Journal -> int {
    (j: Journal) => if keep(j) then On(j.lines, side, a) else 0
  }

  /** The sum of an account's lines on one side over the journals kept. */
  function History(journals: seq<Journal>, keep: Journal -> bool, side: Side, a: nat): int {
    SumBy(journals, Share(keep, side, a))
  }

  function Cached(debit: int, credit: int): Balance {
    Balance(0, 0, debit, credit, debit, credit)
  }

  function FromHistory(journals: seq<Journal>, keep: Journal -> bool, a: nat): Balance {
    Cached(History(journals, keep, Dr, a), History(journals, keep, Cr, a))
  }

  // ---------- The invariant ----------

  ghost predicate CachesAgree(st: State) {
    && (forall a: nat :: Get(st.balances, a) == FromHistory(st.journals, Effective(), a))
    && (forall p: nat, a: nat :: Get(PeriodRows(st.periodBalances, p), a) == FromHistory(st.journals, EffectiveIn(p), a))
  }

  predicate StatusOk(j: Journal) {
    && (j.status == Draft ==> !j.effective)
    && (j.status == Posted <==> j.effective && j.reversal.None?)
    && (j.reversal.Some? ==> j.effective)
    && (j.deleted ==> j.status == Draft)
  }

  predicate JournalOk(st: State, j: Journal) {
    && StatusOk(j)
    && j.period < |st.periods|
    && (forall l :: l in j.lines ==> l.account < |st.accounts| && NonNegative(l))
    && (j.effective ==> WellFormed(j.lines))
  }

  predicate JournalsOk(st: State) {
    forall i :: 0 <= i < |st.journals| ==> JournalOk(st, st.journals[i])
  }

  predicate LinkedForward(js: seq<Journal>, i: nat)
    requires i < |js|
  {
    js[i].reversal.Some? ==>
      var r := js[i].reversal.value;
      && i < r < |js|
      && js[r].reversedFrom == Some(i)
      && js[r].effective
      && js[r].lines == Swap(js[i].lines)
  }

  predicate LinkedBack(js: seq<Journal>, r: nat)
    requires r < |js|
  {
    js[r].reversedFrom.Some? ==>
      var i := js[r].reversedFrom.value;
      i < r && js[i].reversal == Some(r)
  }

  predicate LinksOk(js: seq<Journal>) {
    && (forall i :: 0 <= i < |js| ==> LinkedForward(js, i))
    && (forall r :: 0 <= r < |js| ==> LinkedBack(js, r))
  }

  /** No journal that took effect has a line on an archived account. */
  predicate ArchivedUntouched(st: State) {
    forall i, l :: 0 <= i < |st.journals| && st.journals[i].effective && l in st.journals[i].lines && l.account < |st.accounts|
      ==> !st.accounts[l.account].deleted
  }

  ghost predicate Inv(st: State) {
    CachesAgree(st) && JournalsOk(st) && LinksOk(st.journals) && ArchivedUntouched(st)
  }

  // ---------- Lines ----------

  lemma {:induction false} ValidationMeansWellFormed(lines: seq<Line>)
    ensures ValidationError(lines).None? <==> WellFormed(lines)
  {
    ShapesMeanOneSide(lines);
  }

  lemma {:induction false} ShapesMeanOneSide(lines: seq<Line>)
    ensures FirstShapeError(lines).None? <==> forall l :: l in lines ==> (l.debit > 0 <==> l.credit <= 0)
  {
    if |lines| > 0 {
      var init, last := lines[..|lines| - 1], lines[|lines| - 1];
      ShapesMeanOneSide(init);
      assert lines == init + [last];
      assert forall l :: l in lines <==> l in init || l == last;
    }
  }

  lemma {:induction false} InsertErrorMeaning(accounts: seq<Account>, lines: seq<Line>)
    ensures InsertError(accounts, lines).None? <==> forall l :: l in lines ==> Usable(accounts, l.account) && NonNegative(l)
  {
    if |lines| > 0 {
      var init, last := lines[..|lines| - 1], lines[|lines| - 1];
      InsertErrorMeaning(accounts, init);
      assert lines == init + [last];
      assert forall l :: l in lines <==> l in init || l == last;
    }
  }

  lemma {:induction false} SwapExchangesSides(lines: seq<Line>, a: nat)
    ensures On(Swap(lines), Dr, a) == On(lines, Cr, a)
    ensures On(Swap(lines), Cr, a) == On(lines, Dr, a)
    ensures SumBy(Swap(lines), Total(Dr)) == SumBy(lines, Total(Cr))
    ensures SumBy(Swap(lines), Total(Cr)) == SumBy(lines, Total(Dr))
  {
    if |lines| > 0 {
      var init := lines[..|lines| - 1];
      SwapExchangesSides(init, a);
      assert Swap(lines)[..|lines| - 1] == Swap(init);
    }
  }

  lemma OnBoundsLine(lines: seq<Line>, side: Side, l: Line)
    requires forall x :: x in lines ==> NonNegative(x)
    requires l in lines
    ensures 0 <= Amount(l, side) <= On(lines, side, l.account)
  {
    var i :| 0 <= i < |lines| && lines[i] == l;
    SumBoundsTerm(lines, At(side, l.account), i);
  }

  lemma OnAbsent(lines: seq<Line>, side: Side, a: nat)
    requires forall l :: l in lines ==> l.account != a
    ensures On(lines, side, a) == 0
  {
    SumZero(lines, At(side, a));
  }

  // ---------- Balances ----------

  /** Folding a journal into a cache row that is in step adds exactly the journal's share. */
  lemma {:induction false} PostLinesAdds(rows: map<nat, Balance>, lines: seq<Line>, a: nat, debit: int, credit: int)
    requires Get(rows, a) == Cached(debit, credit)
    ensures Get(PostLines(rows, lines), a) == Cached(debit + On(lines, Dr, a), credit + On(lines, Cr, a))
  {
    if |lines| > 0 {
      PostLinesAdds(rows, lines[..|lines| - 1], a, debit, credit);
    }
  }

  // ---------- History under table changes ----------

  lemma HistoryAppend(js: seq<Journal>, j: Journal, keep: Journal -> bool, a: nat)
    ensures forall side :: History(js + [j], keep, side, a) == History(js, keep, side, a) + Share(keep, side, a)(j)
  {
    forall side {
      SumSnoc(js, j, Share(keep, side, a));
    }
  }

  lemma HistoryReplace(js: seq<Journal>, i: nat, j: Journal, keep: Journal -> bool, a: nat)
    requires i < |js|
    ensures forall side :: History(js[i := j], keep, side, a)
                           == History(js, keep, side, a) - Share(keep, side, a)(js[i]) + Share(keep, side, a)(j)
  {
    forall side {
      SumUpdate(js, i, j, Share(keep, side, a));
    }
  }

  /** Changing a journal in ways no balance looks at changes no history. */
  lemma HistoryKept(js: seq<Journal>, i: nat, j: Journal)
    requires i < |js|
    requires j.effective == js[i].effective && (j.effective ==> j.lines == js[i].lines && j.period == js[i].period)
    ensures forall a: nat :: FromHistory(js[i := j], Effective(), a) == FromHistory(js, Effective(), a)
    ensures forall p: nat, a: nat :: FromHistory(js[i := j], EffectiveIn(p), a) == FromHistory(js, EffectiveIn(p), a)
  {
    forall a: nat
      ensures FromHistory(js[i := j], Effective(), a) == FromHistory(js, Effective(), a)
    {
      HistoryReplace(js, i, j, Effective(), a);
    }
    forall p: nat, a: nat
      ensures FromHistory(js[i := j], EffectiveIn(p), a) == FromHistory(js, EffectiveIn(p), a)
    {
      HistoryReplace(js, i, j, EffectiveIn(p), a);
    }
  }

  // ---------- Steps ----------

  lemma EmptyHasInv()
    ensures Inv(EMPTY)
  {
  }

  lemma CreateKeepsInv(st: State, date: int, lines: seq<Line>)
    requires Inv(st) && Create(st, date, lines).Ok?
    ensures Inv(Create(st, date, lines).value)
  {
    var s := Create(st, date, lines).value;
    var j := s.journals[|st.journals|];
    InsertErrorMeaning(st.accounts, lines);
    forall a: nat
      ensures FromHistory(s.journals, Effective(), a) == FromHistory(st.journals, Effective(), a)
    {
      HistoryAppend(st.journals, j, Effective(), a);
    }
    forall p: nat, a: nat
      ensures FromHistory(s.journals, EffectiveIn(p), a) == FromHistory(st.journals, EffectiveIn(p), a)
    {
      HistoryAppend(st.journals, j, EffectiveIn(p), a);
    }
    AppendKeepsLinks(st.journals, j);
  }

  lemma PostKeepsCaches(st: State, id: nat)
    requires Inv(st) && Post(st, id).Ok?
    ensures CachesAgree(Post(st, id).value)
  {
    var s, j := Post(st, id).value, st.journals[id];
    var j' := j.(status := Posted, effective := true);
    forall a: nat
      ensures Get(s.balances, a) == FromHistory(s.journals, Effective(), a)
    {
      HistoryReplace(st.journals, id, j', Effective(), a);
      var b := FromHistory(st.journals, Effective(), a);
      PostLinesAdds(st.balances, j.lines, a, b.periodDebit, b.periodCredit);
    }
    forall p: nat, a: nat
      ensures Get(PeriodRows(s.periodBalances, p), a) == FromHistory(s.journals, EffectiveIn(p), a)
    {
      HistoryReplace(st.journals, id, j', EffectiveIn(p), a);
      assert Get(PeriodRows(st.periodBalances, p), a) == FromHistory(st.journals, EffectiveIn(p), a);
      if p == j.period {
        var b := FromHistory(st.journals, EffectiveIn(p), a);
        PostLinesAdds(PeriodRows(st.periodBalances, p), j.lines, a, b.periodDebit, b.periodCredit);
      } else {
        assert PeriodRows(s.periodBalances, p) == PeriodRows(st.periodBalances, p);
      }
    }
  }

  lemma PostKeepsInv(st: State, id: nat)
    requires Inv(st) && Post(st, id).Ok?
    ensures Inv(Post(st, id).value)
  {
    var s, j := Post(st, id).value, st.journals[id];
    PostKeepsCaches(st, id);
    ValidationMeansWellFormed(j.lines);
    RewriteKeepsLinks(st.journals, id, s.journals[id]);
  }

  lemma AppendKeepsLinks(js: seq<Journal>, j: Journal)
    requires LinksOk(js) && j.reversal.None? && j.reversedFrom.None?
    ensures LinksOk(js + [j])
  {
    forall i | 0 <= i < |js|
      ensures LinkedForward(js + [j], i) && LinkedBack(js + [j], i)
    {
      assert LinkedForward(js, i) && LinkedBack(js, i);
    }
  }

  /** Links survive any rewrite of one journal that keeps its links, and its lines if it has taken effect. */
  lemma RewriteKeepsLinks(js: seq<Journal>, id: nat, j: Journal)
    requires id < |js| && LinksOk(js)
    requires j.reversal == js[id].reversal && j.reversedFrom == js[id].reversedFrom
    requires js[id].effective ==> j.effective && j.lines == js[id].lines
    requires js[id].reversal.Some? ==> js[id].effective
    ensures LinksOk(js[id := j])
  {
    var t := js[id := j];
    forall i | 0 <= i < |js|
      ensures LinkedForward(t, i) && LinkedBack(t, i)
    {
      assert LinkedForward(js, i) && LinkedBack(js, i);
    }
  }

  lemma CreateAndPostKeepsInv(st: State, date: int, lines: seq<Line>)
    requires Inv(st) && CreateAndPost(st, date, lines).Ok?
    ensures Inv(CreateAndPost(st, date, lines).value)
  {
    CreateKeepsInv(st, date, lines);
    PostKeepsInv(Create(st, date, lines).value, |st.journals|);
  }

  /** Rewriting a journal that has not taken effect, or only its status, keeps the invariant. */
  lemma RewriteKeepsInv(st: State, id: nat, j: Journal)
    requires Inv(st) && id < |st.journals| && JournalOk(st, j)
    requires j.effective == st.journals[id].effective && (j.effective ==> j.lines == st.journals[id].lines && j.period == st.journals[id].period)
    requires j.reversal == st.journals[id].reversal && j.reversedFrom == st.journals[id].reversedFrom
    ensures Inv(st.(journals := st.journals[id := j]))
  {
    HistoryKept(st.journals, id, j);
    assert JournalOk(st, st.journals[id]);
    RewriteKeepsLinks(st.journals, id, j);
  }

  /** Marking a posted journal with its later reversal keeps the links inverse and forward. */
  lemma LinkKeepsLinks(js: seq<Journal>, id: nat, r: nat, marked: Journal, reversal: Journal)
    requires LinksOk(js) && id < r < |js|
    requires js[id].effective && js[id].reversal.None? && marked == js[id].(status := Reversed, reversal := Some(r))
    requires js[r].effective && js[r].reversedFrom.None? && reversal == js[r].(reversedFrom := Some(id))
    requires js[r].lines == Swap(js[id].lines)
    ensures LinksOk(js[id := marked][r := reversal])
  {
    var t := js[id := marked][r := reversal];
    forall i | 0 <= i < |js|
      ensures LinkedForward(t, i) && LinkedBack(t, i)
    {
      assert LinkedForward(js, i) && LinkedBack(js, i);
    }
  }

  lemma LinkKeepsInv(st: State, id: nat, r: nat)
    requires Inv(st) && id < r < |st.journals|
    requires st.journals[id].status == Posted && !st.journals[id].deleted
    requires st.journals[r].effective && st.journals[r].reversedFrom.None?
    requires st.journals[r].lines == Swap(st.journals[id].lines)
    ensures Inv(Link(st, id, r))
  {
    var s, js := Link(st, id, r), st.journals;
    var marked := js[id].(status := Reversed, reversal := Some(r));
    var reversal := js[r].(reversedFrom := Some(id));
    assert JournalOk(st, js[id]) && JournalOk(st, js[r]);
    HistoryKept(js, id, marked);
    HistoryKept(js[id := marked], r, reversal);
    LinkKeepsLinks(js, id, r, marked, reversal);
    assert s.journals == js[id := marked][r := reversal];
    forall i | 0 <= i < |js|
      ensures JournalOk(s, s.journals[i])
    {
      assert JournalOk(st, js[i]);
    }
  }

  lemma ReverseKeepsInv(st: State, id: nat, date: int)
    requires Inv(st) && Reverse(st, id, date).Ok?
    ensures Inv(Reverse(st, id, date).value)
  {
    var lines := Swap(st.journals[id].lines);
    CreateAndPostKeepsInv(st, date, lines);
    LinkKeepsInv(CreateAndPost(st, date, lines).value, id, |st.journals|);
  }

  /** An account whose gross balances are zero appears in no journal that took effect. */
  lemma ZeroGrossMeansUntouched(st: State, a: nat)
    requires Inv(st) && Get(st.balances, a) == ZERO_BALANCE
    ensures forall i, l :: 0 <= i < |st.journals| && st.journals[i].effective && l in st.journals[i].lines ==> l.account != a
  {
    forall i, l | 0 <= i < |st.journals| && st.journals[i].effective && l in st.journals[i].lines
      ensures l.account != a
    {
      if l.account == a {
        EffectiveLineIsCached(st, i, l);
      }
    }
  }

  /** Gross balances only accumulate: each effective line is part of its account's balance. */
  lemma EffectiveLineIsCached(st: State, i: nat, l: Line)
    requires Inv(st) && i < |st.journals| && st.journals[i].effective && l in st.journals[i].lines
    ensures l.debit <= Get(st.balances, l.account).closingDebit
    ensures l.credit <= Get(st.balances, l.account).closingCredit
    ensures l.debit + l.credit > 0
  {
    var j := st.journals[i];
    assert JournalOk(st, j);
    forall side: Side
      ensures Amount(l, side) <= History(st.journals, Effective(), side, l.account)
    {
      OnBoundsLine(j.lines, side, l);
      forall k | 0 <= k < |st.journals|
        ensures Share(Effective(), side, l.account)(st.journals[k]) >= 0
      {
        assert JournalOk(st, st.journals[k]);
        SumNonNegative(st.journals[k].lines, At(side, l.account));
      }
      SumBoundsTerm(st.journals, Share(Effective(), side, l.account), i);
    }
    assert Amount(l, Dr) == l.debit && Amount(l, Cr) == l.credit;
  }

  lemma ArchiveKeepsInv(st: State, a: nat)
    requires Inv(st) && Archive(st, a).Ok?
    ensures Inv(Archive(st, a).value)
  {
    assert Get(st.balances, a) == ZERO_BALANCE;
    ZeroGrossMeansUntouched(st, a);
    var s := Archive(st, a).value;
    forall i | 0 <= i < |s.journals|
      ensures JournalOk(s, s.journals[i])
    {
      assert JournalOk(st, st.journals[i]);
    }
  }

  /** Changing accounts and periods without archiving or dropping any keeps the invariant. */
  lemma SettingsKeepInv(st: State, s: State)
    requires Inv(st)
    requires s.journals == st.journals && s.periodBalances == st.periodBalances
    requires forall a: nat :: Get(s.balances, a) == Get(st.balances, a)
    requires |s.periods| >= |st.periods| && |s.accounts| >= |st.accounts|
    requires forall a :: 0 <= a < |st.accounts| ==> s.accounts[a].deleted == st.accounts[a].deleted
    ensures Inv(s)
  {
    forall i | 0 <= i < |s.journals|
      ensures JournalOk(s, s.journals[i])
    {
      assert JournalOk(st, st.journals[i]);
    }
  }

  lemma StepKeepsInv(st: State, op: Op)
    requires Inv(st)
    ensures Inv(Next(st, op))
  {
    if Step(st, op).Ok? {
      var s := Step(st, op).value;
      match op
      case ArchiveAccount(a) => ArchiveKeepsInv(st, a);
      case CreateJournal(date, lines) => CreateKeepsInv(st, date, lines);
      case CreateAndPostJournal(date, lines) => CreateAndPostKeepsInv(st, date, lines);
      case PostJournal(id) => PostKeepsInv(st, id);
      case ReverseJournal(id, date) => ReverseKeepsInv(st, id, date);
      case UpdateJournal(id, lines, _) =>
        assert JournalOk(st, st.journals[id]);
        if lines.Some? { RewriteKeepsInv(st, id, s.journals[id]); }
      case VoidJournal(id) =>
        assert JournalOk(st, st.journals[id]);
        RewriteKeepsInv(st, id, s.journals[id]);
      case DeleteJournal(id) =>
        assert JournalOk(st, st.journals[id]);
        RewriteKeepsInv(st, id, s.journals[id]);
      case OpenAccount(_, _) => SettingsKeepInv(st, s);
      case EditAccount(_, _, _) => SettingsKeepInv(st, s);
      case AddPeriod(_) => SettingsKeepInv(st, s);
      case SetPeriod(_, _) => SettingsKeepInv(st, s);
      case TouchBalance(_) => SettingsKeepInv(st, s);
    }
  }

  lemma {:induction false} RunKeepsInv(st: State, ops: seq<Op>)
    requires Inv(st)
    ensures Inv(Run(st, ops))
  {
    if |ops| > 0 {
      var before := ops[..|ops| - 1];
      RunKeepsInv(st, before);
      StepKeepsInv(Run(st, before), ops[|ops| - 1]);
    }
  }

  /** In every state any run can reach, each cache row equals the sums of its lines over the journals that took effect. */
  lemma CachesEqualHistory(ops: seq<Op>, a: nat, p: nat)
    ensures var st := Run(EMPTY, ops);
            && Get(st.balances, a) == FromHistory(st.journals, Effective(), a)
            && Get(PeriodRows(st.periodBalances, p), a) == FromHistory(st.journals, EffectiveIn(p), a)
  {
    EmptyHasInv();
    RunKeepsInv(EMPTY, ops);
  }
}
