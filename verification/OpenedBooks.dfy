/** Freshly opened books, reached from empty ones by the ledger's own requests: three accounts and one open period. */
module OpenedBooks {
  import opened Wrappers
  import opened DocumentJournals
  import opened BooksModel
  import opened LedgerReports
  import L = LedgerModel
  import I = LedgerInvariant

  const PERIOD := L.Period(0, 10, L.Open)
  const ACCOUNT := L.Account(true, true, false, false)
  const OPENING: seq<L.Op> :=
    [L.OpenAccount(true, false), L.OpenAccount(true, false), L.OpenAccount(true, false), L.AddPeriod(PERIOD)]

  const OPENED := L.State([ACCOUNT, ACCOUNT, ACCOUNT], [PERIOD], [], map[], map[])

  /** The three accounts can be posted to, in the one period. */
  predicate Ready(st: L.State) {
    st.accounts == OPENED.accounts && st.periods == OPENED.periods
  }

  lemma OpeningRun(b: Books, cfg: Settings)
    requires b.ledger == L.EMPTY
    ensures BooksRun(b, cfg, [LedgerOp(OPENING[0]), LedgerOp(OPENING[1]), LedgerOp(OPENING[2]), LedgerOp(OPENING[3])])
            == b.(ledger := OPENED)
  {
    var a, p := LedgerOp(L.OpenAccount(true, false)), LedgerOp(L.AddPeriod(PERIOD));
    RunSnoc(b, cfg, [], a);
    RunSnoc(b, cfg, [a], a);
    RunSnoc(b, cfg, [a, a], a);
    RunSnoc(b, cfg, [a, a, a], p);
    assert [] + [a] == [a] && [a] + [a] == [a, a] && [a, a] + [a] == [a, a, a] && [a, a, a] + [p] == [a, a, a, p];
    assert L.EMPTY.accounts + [ACCOUNT] + [ACCOUNT] + [ACCOUNT] == OPENED.accounts;
  }

  lemma RunSnoc(b: Books, cfg: Settings, ops: seq<BooksOp>, op: BooksOp)
    ensures BooksRun(b, cfg, ops + [op]) == BooksNext(BooksRun(b, cfg, ops), cfg, op)
  {
    assert (ops + [op])[..|ops|] == ops;
  }

  /** Balanced lines on the three accounts can be posted, and become the last journal. */
  lemma LinesPost(st: L.State, lines: seq<L.Line>)
    requires Ready(st) && |lines| >= 2 && AllOneSided(lines) && Excess(lines) == 0
    requires forall l :: l in lines ==> l.account < 3 && L.NonNegative(l)
    ensures var t := L.CreateAndPost(st, 0, lines);
            && t.Ok? && Ready(t.value)
            && t.value.journals == st.journals + [L.Journal(0, 0, lines, L.Posted, true, false, None, None)]
  {
    assert L.ResolveByDate(st.periods, 0) == Some(0) by {
      assert st.periods[..0] == [];
    }
    I.ValidationMeansWellFormed(lines);
    I.InsertErrorMeaning(st.accounts, lines);
    CreatedJournalPosts(st, 0, lines);
  }

  /** A positive amount can be posted from any of the accounts to any other. */
  lemma TwoLinesPost(st: L.State, a: nat, b: nat, amount: int)
    requires Ready(st) && a < 3 && b < 3 && amount > 0
    ensures var lines := [L.Line(a, amount, 0), L.Line(b, 0, amount)];
            var t := L.CreateAndPost(st, 0, lines);
            && t.Ok? && Ready(t.value)
            && t.value.journals == st.journals + [L.Journal(0, 0, lines, L.Posted, true, false, None, None)]
  {
    var lines := [L.Line(a, amount, 0), L.Line(b, 0, amount)];
    assert lines == [lines[0]] + [lines[1]];
    Single(lines[0]);
    Single(lines[1]);
    Join([lines[0]], [lines[1]]);
    LinesPost(st, lines);
  }
}
