/**
 The general ledger: journals, their posting into two cached balances, and the life of a
 journal from draft to posted to reversed or voided. Ids are positions in a table.
 Amounts are integers in units of 10^-8.
 */
module LedgerModel {
  import opened Wrappers
  import opened Sums

  datatype Side = Dr | Cr
  datatype Line = Line(account: nat, debit: int, credit: int)
  datatype Account = Account(isActive: bool, isPostable: bool, isSystem: bool, deleted: bool)
  datatype PeriodStatus = Open | Closed | Locked
  datatype Period = Period(startDate: int, endDate: int, status: PeriodStatus)
  datatype Status = Draft | Posted | Reversed | Voided

  /** `effective` says that posted_at is set: the journal has been folded into the balances. */
  datatype Journal = Journal(
    entryDate: int, period: nat, lines: seq<Line>, status: Status,
    effective: bool, deleted: bool, reversedFrom: Option<nat>, reversal: Option<nat>)

  datatype Balance = Balance(
    openingDebit: int, openingCredit: int, periodDebit: int, periodCredit: int, closingDebit: int, closingCredit: int)

  datatype State = State(
    accounts: seq<Account>, periods: seq<Period>, journals: seq<Journal>,
    balances: map<nat, Balance>, periodBalances: map<nat, map<nat, Balance>>)

  const EMPTY := State([], [], [], map[], map[])

  // ---------- Lines ----------

  function Amount(l: Line, side: Side): int {
    match side
    case Dr => l.debit
    case Cr => l.credit
  }

  function Total(side: Side): Line -> int {
    (l: Line) => Amount(l, side)
  }

  function At(side: Side, a: nat): Line -> int {
    (l: Line) => if l.account == a then Amount(l, side) else 0
  }

  /** What a list of lines puts on one side of one account. */
  function On(lines: seq<Line>, side: Side, a: nat): int {
    SumBy(lines, At(side, a))
  }

  function NetOn(lines: seq<Line>, a: nat): int {
    On(lines, Dr, a) - On(lines, Cr, a)
  }

  function Swap(lines: seq<Line>): (r: seq<Line>)
    ensures |r| == |lines|
    ensures forall i :: 0 <= i < |lines| ==> r[i] == Line(lines[i].account, lines[i].credit, lines[i].debit)
  {
    seq(|lines|, i requires 0 <= i < |lines| => Line(lines[i].account, lines[i].credit, lines[i].debit))
  }

  /** What a posted journal must look like: at least two lines, one positive side each, in balance. */
  predicate WellFormed(lines: seq<Line>) {
    && |lines| >= 2
    && (forall l :: l in lines ==> (l.debit > 0 <==> l.credit <= 0))
    && SumBy(lines, Total(Dr)) == SumBy(lines, Total(Cr))
  }

  /** The check constraint on the lines table. */
  predicate NonNegative(l: Line) {
    l.debit >= 0 && l.credit >= 0
  }

  function ShapeError(l: Line): Option<Error> {
    if l.debit > 0 && l.credit > 0 then Some(BothSides)
    else if l.debit <= 0 && l.credit <= 0 then Some(NoAmount)
    else None
  }

  function FirstShapeError(lines: seq<Line>): Option<Error> {
    if |lines| == 0 then None
    else
      var earlier := FirstShapeError(lines[..|lines| - 1]);
      if earlier.Some? then earlier else ShapeError(lines[|lines| - 1])
  }

  function ValidationError(lines: seq<Line>): Option<Error> {
    if |lines| < 2 then Some(TooFewLines)
    else if FirstShapeError(lines).Some? then FirstShapeError(lines)
    else if SumBy(lines, Total(Dr)) != SumBy(lines, Total(Cr)) then Some(Unbalanced)
    else None
  }

  // ---------- Accounts and periods ----------

  predicate LiveAccount(st: State, a: nat) {
    a < |st.accounts| && !st.accounts[a].deleted
  }

  predicate Usable(accounts: seq<Account>, a: nat) {
    a < |accounts| && !accounts[a].deleted && accounts[a].isActive && accounts[a].isPostable
  }

  predicate AllUsable(accounts: seq<Account>, lines: seq<Line>) {
    forall l :: l in lines ==> Usable(accounts, l.account)
  }

  /** The first open question of a line being stored: is its account usable, does it meet the check constraint. */
  function InsertError(accounts: seq<Account>, lines: seq<Line>): Option<Error> {
    if |lines| == 0 then None
    else
      var earlier := InsertError(accounts, lines[..|lines| - 1]);
      var l := lines[|lines| - 1];
      if earlier.Some? then earlier
      else if !Usable(accounts, l.account) then Some(InvalidAccount)
      else if !NonNegative(l) then Some(ConstraintViolation)
      else None
  }

  predicate Storable(accounts: seq<Account>, lines: seq<Line>) {
    forall l :: l in lines ==> l.account < |accounts| && NonNegative(l)
  }

  function ResolveByDate(periods: seq<Period>, date: int): (r: Option<nat>)
    ensures r.Some? ==> r.value < |periods|
  {
    if |periods| == 0 then None
    else
      var earlier := ResolveByDate(periods[..|periods| - 1], date);
      var p := periods[|periods| - 1];
      if earlier.Some? then earlier
      else if p.startDate <= date <= p.endDate then Some(|periods| - 1)
      else None
  }

  // ---------- Balances ----------

  const ZERO_BALANCE := Balance(0, 0, 0, 0, 0, 0)

  /** A row that is absent reads as a fresh zero row. */
  function Get(rows: map<nat, Balance>, a: nat): Balance {
    if a in rows then rows[a] else ZERO_BALANCE
  }

  function PeriodRows(periodBalances: map<nat, map<nat, Balance>>, p: nat): map<nat, Balance> {
    if p in periodBalances then periodBalances[p] else map[]
  }

  function AddLine(b: Balance, l: Line): Balance {
    Balance(
      b.openingDebit, b.openingCredit, b.periodDebit + l.debit, b.periodCredit + l.credit,
      b.openingDebit + (b.periodDebit + l.debit), b.openingCredit + (b.periodCredit + l.credit))
  }

  function PostLines(rows: map<nat, Balance>, lines: seq<Line>): map<nat, Balance> {
    if |lines| == 0 then rows
    else
      var l := lines[|lines| - 1];
      var before := PostLines(rows, lines[..|lines| - 1]);
      before[l.account := AddLine(Get(before, l.account), l)]
  }

  function EnsureRow(rows: map<nat, Balance>, a: nat): map<nat, Balance> {
    if a in rows then rows else rows[a := ZERO_BALANCE]
  }

  /** The net balance the caches hold for an account. */
  function Net(st: State, a: nat): int {
    Get(st.balances, a).closingDebit - Get(st.balances, a).closingCredit
  }

  // ---------- Journal operations ----------

  predicate LiveJournal(st: State, id: nat) {
    id < |st.journals| && !st.journals[id].deleted
  }

  function Create(st: State, date: int, lines: seq<Line>): Result<State> {
    var p := ResolveByDate(st.periods, date);
    if p.None? then Err(NoPeriod)
    else if st.periods[p.value].status != Open then Err(PeriodClosed)
    else if ValidationError(lines).Some? then Err(ValidationError(lines).value)
    else if InsertError(st.accounts, lines).Some? then Err(InsertError(st.accounts, lines).value)
    else Ok(st.(journals := st.journals + [Journal(date, p.value, lines, Draft, false, false, None, None)]))
  }

  function Post(st: State, id: nat): Result<State> {
    if !LiveJournal(st, id) then Err(JournalNotFound)
    else
      var j := st.journals[id];
      if j.status != Draft then Err(NotDraft)
      else if j.period >= |st.periods| then Err(NoPeriod)
      else if st.periods[j.period].status != Open then Err(PeriodClosed)
      else if ValidationError(j.lines).Some? then Err(ValidationError(j.lines).value)
      else if !AllUsable(st.accounts, j.lines) then Err(InvalidAccount)
      else Ok(st.(
                journals := st.journals[id := j.(status := Posted, effective := true)],
                balances := PostLines(st.balances, j.lines),
                periodBalances := st.periodBalances[j.period := PostLines(PeriodRows(st.periodBalances, j.period), j.lines)]))
  }

  function CreateAndPost(st: State, date: int, lines: seq<Line>): Result<State> {
    var created :- Create(st, date, lines);
    Post(created, |st.journals|)
  }

  /**
   The old lines are marked for deletion and the new ones added under the same line numbers. Unless
   the flush deletes before it inserts, the unique line numbers of the table refuse that.
   */
  function Update(st: State, id: nat, lines: Option<seq<Line>>, deletesFirst: bool): Result<State> {
    if !LiveJournal(st, id) then Err(JournalNotFound)
    else if st.journals[id].status != Draft then Err(NotEditable)
    else if lines.None? then Ok(st)
    else if ValidationError(lines.value).Some? then Err(ValidationError(lines.value).value)
    else if !deletesFirst && |st.journals[id].lines| > 0 then Err(ConstraintViolation)
    else if !Storable(st.accounts, lines.value) then Err(ConstraintViolation)
    else Ok(st.(journals := st.journals[id := st.journals[id].(lines := lines.value)]))
  }

  function DeleteOrVoid(st: State, id: nat): Result<State> {
    if !LiveJournal(st, id) then Err(JournalNotFound)
    else if st.journals[id].status != Draft then Err(PostedNeedsReversal)
    else Ok(st.(journals := st.journals[id := st.journals[id].(deleted := true)]))
  }

  function Link(st: State, id: nat, r: nat): State
    requires id < |st.journals| && r < |st.journals|
  {
    var marked := st.journals[id := st.journals[id].(status := Reversed, reversal := Some(r))];
    st.(journals := marked[r := marked[r].(reversedFrom := Some(id))])
  }

  function Reverse(st: State, id: nat, date: int): Result<State> {
    if !LiveJournal(st, id) then Err(JournalNotFound)
    else if st.journals[id].status != Posted then Err(NotPosted)
    else
      var posted :- CreateAndPost(st, date, Swap(st.journals[id].lines));
      Ok(Link(posted, id, |st.journals|))
  }

  function Void(st: State, id: nat): Result<State> {
    if !LiveJournal(st, id) then Err(JournalNotFound)
    else if st.journals[id].status == Posted then Err(PostedNeedsReversal)
    else Ok(st.(journals := st.journals[id := st.journals[id].(status := Voided)]))
  }

  function Archive(st: State, a: nat): Result<State> {
    if !LiveAccount(st, a) then Err(AccountNotFound)
    else if st.accounts[a].isSystem then Err(SystemAccount)
    else
      var b := Get(st.balances, a);
      if b.closingDebit != 0 || b.closingCredit != 0 || b.periodDebit != 0 || b.periodCredit != 0 then Err(NonZeroBalance)
      else Ok(st.(
                accounts := st.accounts[a := st.accounts[a].(isActive := false, deleted := true)],
                balances := EnsureRow(st.balances, a)))
  }

  // ---------- Runs ----------

  datatype Op =
    | OpenAccount(isPostable: bool, isSystem: bool)
    | EditAccount(account: nat, isActive: bool, isPostable: bool)
    | ArchiveAccount(account: nat)
    | AddPeriod(period: Period)
    | SetPeriod(id: nat, period: Period)
    | CreateJournal(date: int, lines: seq<Line>)
    | CreateAndPostJournal(date: int, lines: seq<Line>)
    | UpdateJournal(id: nat, newLines: Option<seq<Line>>, deletesFirst: bool)
    | PostJournal(id: nat)
    | ReverseJournal(id: nat, date: int)
    | VoidJournal(id: nat)
    | DeleteJournal(id: nat)
    | TouchBalance(account: nat)

  function Step(st: State, op: Op): Result<State> {
    match op
    case OpenAccount(isPostable, isSystem) => Ok(st.(accounts := st.accounts + [Account(true, isPostable, isSystem, false)]))
    case EditAccount(a, isActive, isPostable) =>
      if !LiveAccount(st, a) then Err(AccountNotFound)
      else Ok(st.(accounts := st.accounts[a := st.accounts[a].(isActive := isActive, isPostable := isPostable)]))
    case ArchiveAccount(a) => Archive(st, a)
    case AddPeriod(p) => Ok(st.(periods := st.periods + [p]))
    case SetPeriod(id, p) => if id < |st.periods| then Ok(st.(periods := st.periods[id := p])) else Err(NoPeriod)
    case CreateJournal(date, lines) => Create(st, date, lines)
    case CreateAndPostJournal(date, lines) => CreateAndPost(st, date, lines)
    case UpdateJournal(id, lines, deletesFirst) => Update(st, id, lines, deletesFirst)
    case PostJournal(id) => Post(st, id)
    case ReverseJournal(id, date) => Reverse(st, id, date)
    case VoidJournal(id) => Void(st, id)
    case DeleteJournal(id) => DeleteOrVoid(st, id)
    case TouchBalance(a) => if LiveAccount(st, a) then Ok(st.(balances := EnsureRow(st.balances, a))) else Err(AccountNotFound)
  }

  /** A refused request discards its session, so it leaves the state as it was. */
  function Next(st: State, op: Op): State {
    match Step(st, op)
    case Ok(s) => s
    case Err(_) => st
  }

  function Run(st: State, ops: seq<Op>): State {
    if |ops| == 0 then st else Next(Run(st, ops[..|ops| - 1]), ops[|ops| - 1])
  }
}
