/**
 The activation checklist: an evaluation completes each item that has evidence now or was complete
 before, derives the overall status, and emits an event for each transition.
 */
module Activation {
  import opened Wrappers
  import opened Sums

  datatype ItemId =
    | OrgCreated | SettingsReviewed | ChartOfAccountsReady | BankAccountAdded | CustomerAdded | SupplierAdded
    | FirstInvoiceCreated | FirstBillCreated | BankImportStarted | FirstReconciliationStarted | TeammateInvited

  const REGISTRY: seq<ItemId> :=
    [OrgCreated, SettingsReviewed, ChartOfAccountsReady, BankAccountAdded, CustomerAdded, SupplierAdded,
     FirstInvoiceCreated, FirstBillCreated, BankImportStarted, FirstReconciliationStarted, TeammateInvited]

  function Dependency(id: ItemId): Option<ItemId> {
    match id
    case OrgCreated => None
    case FirstInvoiceCreated => Some(ChartOfAccountsReady)
    case FirstBillCreated => Some(ChartOfAccountsReady)
    case BankImportStarted => Some(BankAccountAdded)
    case FirstReconciliationStarted => Some(BankAccountAdded)
    case _ => Some(OrgCreated)
  }

  datatype ItemStatus = Complete | Pending | Blocked
  datatype ItemState = ItemState(id: ItemId, status: ItemStatus, completedAt: Option<int>)
  datatype Overall = NotStarted | InProgress | Completed
  datatype Milestone = InitialSetup | FirstWorkflow | FirstRecord | FinancialReview

  /** What the progress display shows. */
  datatype Progress = Progress(percent: nat, completedCount: nat, requiredCompleted: nat, recommended: seq<ItemId>)

  datatype Snapshot = Snapshot(
    status: Overall, items: seq<ItemState>, milestones: set<Milestone>, progress: Progress,
    activatedAt: Option<int>, enteredAt: int, evaluatedAt: int)
  datatype Event = ItemCompleted(id: ItemId) | MilestoneReached(milestone: Milestone) | ActivationCompleted

  /** One call: the items with evidence now, whether a financial report counts as viewed now, and the clock. */
  datatype Call = Call(evidence: set<ItemId>, reviewed: bool, now: int)

  // ---------- Reading the previous snapshot ----------

  predicate CompleteIn(items: seq<ItemState>, id: ItemId) {
    exists k :: 0 <= k < |items| && items[k].id == id && items[k].status == Complete
  }

  function PreviousItems(previous: Option<Snapshot>): seq<ItemState> {
    if previous.Some? then previous.value.items else []
  }

  /** The completion time of the first complete entry for the item. */
  function CompletedAt(items: seq<ItemState>, id: ItemId): Option<int> {
    if |items| == 0 then None
    else
      var earlier := CompletedAt(items[..|items| - 1], id);
      var last := items[|items| - 1];
      if earlier.Some? then earlier
      else if last.id == id && last.status == Complete then last.completedAt
      else None
  }

  // ---------- Building a snapshot ----------

  function BuildItem(previous: seq<ItemState>, built: seq<ItemState>, id: ItemId, call: Call): ItemState {
    if id in call.evidence || CompleteIn(previous, id) then
      ItemState(id, Complete, if CompletedAt(previous, id).Some? then CompletedAt(previous, id) else Some(call.now))
    else if Dependency(id).Some? && !CompleteIn(built, Dependency(id).value) then ItemState(id, Blocked, None)
    else ItemState(id, Pending, None)
  }

  function BuildItems(previous: seq<ItemState>, ids: seq<ItemId>, call: Call): seq<ItemState> {
    if |ids| == 0 then []
    else
      var built := BuildItems(previous, ids[..|ids| - 1], call);
      built + [BuildItem(previous, built, ids[|ids| - 1], call)]
  }

  predicate Foundational(c: set<ItemId>) {
    {OrgCreated, SettingsReviewed, ChartOfAccountsReady} <= c
  }

  predicate Operational(c: set<ItemId>) {
    c * {BankAccountAdded, CustomerAdded, SupplierAdded} != {}
  }

  predicate WorkflowStarted(c: set<ItemId>) {
    c * {FirstInvoiceCreated, FirstBillCreated, BankImportStarted, FirstReconciliationStarted} != {}
  }

  function CompletedSet(items: seq<ItemState>): set<ItemId> {
    set s | s in items && s.status == Complete :: s.id
  }

  function StatusOf(c: set<ItemId>): Overall {
    if Foundational(c) && Operational(c) && WorkflowStarted(c) then Completed
    else if c != {} then InProgress
    else NotStarted
  }

  /** The milestones that follow from the completed items. */
  function MilestonesOf(c: set<ItemId>): set<Milestone> {
    (if Foundational(c) then {InitialSetup} else {})
    + (if WorkflowStarted(c) then {FirstWorkflow} else {})
    + (if Operational(c) then {FirstRecord} else {})
  }

  /** The financial review is read afresh on each call. */
  function AllMilestones(c: set<ItemId>, reviewed: bool): set<Milestone> {
    MilestonesOf(c) + (if reviewed then {FinancialReview} else {})
  }

  const RECOMMENDATION_ORDER: seq<ItemId> :=
    [SettingsReviewed, ChartOfAccountsReady, BankAccountAdded, CustomerAdded, SupplierAdded,
     FirstInvoiceCreated, FirstBillCreated, BankImportStarted, FirstReconciliationStarted, TeammateInvited]

  const REQUIRED: set<ItemId> := {OrgCreated, SettingsReviewed, ChartOfAccountsReady}

  /** The items of the list that are not completed, in order. */
  function OpenItems(order: seq<ItemId>, c: set<ItemId>): seq<ItemId> {
    if |order| == 0 then []
    else
      var n := |order| - 1;
      OpenItems(order[..n], c) + (if order[n] in c then [] else [order[n]])
  }

  function FirstThree(open: seq<ItemId>): seq<ItemId> {
    if |open| <= 3 then open else open[..3]
  }

  function ProgressOf(c: set<ItemId>): Progress {
    Progress(100 * |c| / |REGISTRY|, |c|, |REQUIRED * c|, FirstThree(OpenItems(RECOMMENDATION_ORDER, c)))
  }

  function SnapshotOf(previous: Option<Snapshot>, items: seq<ItemState>, call: Call): Snapshot {
    var c := CompletedSet(items);
    var activatedAt :=
      if StatusOf(c) == Completed && !(previous.Some? && previous.value.status == Completed) then Some(call.now)
      else if previous.Some? then previous.value.activatedAt
      else None;
    var enteredAt := if previous.Some? then previous.value.enteredAt else call.now;
    Snapshot(StatusOf(c), items, AllMilestones(c, call.reviewed), ProgressOf(c), activatedAt, enteredAt, call.now)
  }

  function BuildSnapshot(previous: Option<Snapshot>, call: Call): Snapshot {
    SnapshotOf(previous, BuildItems(PreviousItems(previous), REGISTRY, call), call)
  }

  // ---------- Events ----------

  function ItemEvents(previous: seq<ItemState>, items: seq<ItemState>): seq<Event> {
    if |items| == 0 then []
    else
      var last := items[|items| - 1];
      ItemEvents(previous, items[..|items| - 1])
      + (if last.status == Complete && !CompleteIn(previous, last.id) then [ItemCompleted(last.id)] else [])
  }

  function MilestoneEvent(previous: Option<Snapshot>, snapshot: Snapshot, m: Milestone): seq<Event> {
    if m in snapshot.milestones && !(previous.Some? && m in previous.value.milestones) then [MilestoneReached(m)] else []
  }

  function TransitionEvents(previous: Option<Snapshot>, snapshot: Snapshot): seq<Event> {
    ItemEvents(PreviousItems(previous), snapshot.items)
    + MilestoneEvent(previous, snapshot, InitialSetup)
    + MilestoneEvent(previous, snapshot, FirstWorkflow)
    + MilestoneEvent(previous, snapshot, FirstRecord)
    + MilestoneEvent(previous, snapshot, FinancialReview)
    + (if snapshot.status == Completed && !(previous.Some? && previous.value.status == Completed) then [ActivationCompleted] else [])
  }

  datatype State = State(snapshot: Option<Snapshot>, events: seq<Event>)

  const FRESH := State(None, [])

  function Evaluate(st: State, call: Call): State {
    var snapshot := BuildSnapshot(st.snapshot, call);
    State(Some(snapshot), st.events + TransitionEvents(st.snapshot, snapshot))
  }

  function Run(calls: seq<Call>): State {
    if |calls| == 0 then FRESH else Evaluate(Run(calls[..|calls| - 1]), calls[|calls| - 1])
  }

  // ---------- What it comes to ----------

  /** Every item that any call so far had evidence for. */
  function EverEvidenced(calls: seq<Call>): set<ItemId> {
    if |calls| == 0 then {} else EverEvidenced(calls[..|calls| - 1]) + calls[|calls| - 1].evidence
  }

  /** The clock at the first call that had evidence for the item. */
  function FirstEvidence(calls: seq<Call>, id: ItemId): Option<int> {
    if |calls| == 0 then None
    else if FirstEvidence(calls[..|calls| - 1], id).Some? then FirstEvidence(calls[..|calls| - 1], id)
    else if id in calls[|calls| - 1].evidence then Some(calls[|calls| - 1].now)
    else None
  }

  /** The clock at the first call after which the evidence gathered so far amounts to activation. */
  function FirstActivated(calls: seq<Call>): Option<int> {
    if |calls| == 0 then None
    else if FirstActivated(calls[..|calls| - 1]).Some? then FirstActivated(calls[..|calls| - 1])
    else if StatusOf(EverEvidenced(calls)) == Completed then Some(calls[|calls| - 1].now)
    else None
  }

  function ItemsOf(st: State): seq<ItemState> {
    PreviousItems(st.snapshot)
  }

  function Is(e: Event): Event -> int {
    (x: Event) => if x == e then 1 else 0
  }

  /** How often an event has been emitted. */
  function Occurrences(events: seq<Event>, e: Event): int {
    SumBy(events, Is(e))
  }

  // ---------- One build ----------

  lemma {:induction false} BuildItemsMeaning(previous: seq<ItemState>, ids: seq<ItemId>, call: Call)
    ensures var items := BuildItems(previous, ids, call);
            && |items| == |ids|
            && (forall k :: 0 <= k < |ids| ==> items[k].id == ids[k])
            && (forall k :: 0 <= k < |ids| ==> (items[k].status == Complete <==> ids[k] in call.evidence || CompleteIn(previous, ids[k])))
            && (forall k :: 0 <= k < |ids| && items[k].status == Complete ==>
                  items[k].completedAt == if CompletedAt(previous, ids[k]).Some? then CompletedAt(previous, ids[k]) else Some(call.now))
  {
    if |ids| > 0 {
      BuildItemsMeaning(previous, ids[..|ids| - 1], call);
    }
  }

  lemma RegistryIsComplete(id: ItemId)
    ensures id in REGISTRY
  {
    match id
    case OrgCreated => assert REGISTRY[0] == id;
    case SettingsReviewed => assert REGISTRY[1] == id;
    case ChartOfAccountsReady => assert REGISTRY[2] == id;
    case BankAccountAdded => assert REGISTRY[3] == id;
    case CustomerAdded => assert REGISTRY[4] == id;
    case SupplierAdded => assert REGISTRY[5] == id;
    case FirstInvoiceCreated => assert REGISTRY[6] == id;
    case FirstBillCreated => assert REGISTRY[7] == id;
    case BankImportStarted => assert REGISTRY[8] == id;
    case FirstReconciliationStarted => assert REGISTRY[9] == id;
    case TeammateInvited => assert REGISTRY[10] == id;
  }

  lemma RegistryIsDistinct()
    ensures forall i, j :: 0 <= i < j < |REGISTRY| ==> REGISTRY[i] != REGISTRY[j]
  {
  }

  /** Entries list distinct items. */
  predicate Distinct(items: seq<ItemState>) {
    forall i, j :: 0 <= i < j < |items| ==> items[i].id != items[j].id
  }

  lemma {:induction false} CompletedAtIsEntry(items: seq<ItemState>, k: nat)
    requires Distinct(items) && k < |items| && items[k].status == Complete && items[k].completedAt.Some?
    ensures CompletedAt(items, items[k].id) == items[k].completedAt
  {
    var n := |items| - 1;
    if k == n {
      NotCompletedBefore(items[..n], items[k].id);
    } else {
      CompletedAtIsEntry(items[..n], k);
    }
  }

  lemma CompleteInLast(items: seq<ItemState>, id: ItemId)
    requires |items| > 0
    ensures var last := items[|items| - 1];
            CompleteIn(items, id) <==> CompleteIn(items[..|items| - 1], id) || (last.id == id && last.status == Complete)
  {
    var n := |items| - 1;
    if k :| 0 <= k < n && items[k].id == id && items[k].status == Complete {
      assert items[..n][k] == items[k];
    }
  }

  lemma {:induction false} NotCompletedBefore(items: seq<ItemState>, id: ItemId)
    requires !CompleteIn(items, id)
    ensures CompletedAt(items, id).None?
  {
    if |items| > 0 {
      CompleteInLast(items, id);
      NotCompletedBefore(items[..|items| - 1], id);
    }
  }

  /** A build completes exactly what was complete or has evidence, and keeps or sets each completion time. */
  lemma BuildMeaning(previous: seq<ItemState>, call: Call, id: ItemId)
    ensures var items := BuildItems(previous, REGISTRY, call);
            && Distinct(items)
            && (CompleteIn(items, id) <==> id in call.evidence || CompleteIn(previous, id))
            && (CompleteIn(items, id) ==>
                  CompletedAt(items, id) == if CompletedAt(previous, id).Some? then CompletedAt(previous, id) else Some(call.now))
  {
    var items := BuildItems(previous, REGISTRY, call);
    BuildItemsMeaning(previous, REGISTRY, call);
    RegistryIsDistinct();
    RegistryIsComplete(id);
    var k :| 0 <= k < |REGISTRY| && REGISTRY[k] == id;
    assert items[k].id == id;
    if CompleteIn(items, id) {
      CompletedAtIsEntry(items, k);
    }
  }

  lemma CompletedSetMeaning(items: seq<ItemState>, id: ItemId)
    ensures id in CompletedSet(items) <==> CompleteIn(items, id)
  {
    if CompleteIn(items, id) {
      var k :| 0 <= k < |items| && items[k].id == id && items[k].status == Complete;
      assert items[k] in items;
    }
  }

  /** An item still waiting is blocked exactly when what it depends on is not complete. */
  lemma {:induction false} BlockedMeaning(previous: seq<ItemState>, ids: seq<ItemId>, call: Call, k: nat)
    requires k < |ids|
    ensures var items := BuildItems(previous, ids, call);
            && |items| == |ids|
            && (items[k].status != Complete ==>
                  (items[k].status == Blocked <==>
                   Dependency(ids[k]).Some? && !CompleteIn(BuildItems(previous, ids[..k], call), Dependency(ids[k]).value)))
  {
    BuildItemsMeaning(previous, ids, call);
    if k < |ids| - 1 {
      BlockedMeaning(previous, ids[..|ids| - 1], call, k);
      assert ids[..|ids| - 1][..k] == ids[..k];
    }
  }

  lemma DependenciesComeFirst(k: nat)
    requires k < |REGISTRY| && Dependency(REGISTRY[k]).Some?
    ensures exists d :: 0 <= d < k && REGISTRY[d] == Dependency(REGISTRY[k]).value
  {
    var d := if 6 <= k <= 7 then 2 else if 8 <= k <= 9 then 3 else 0;
    assert REGISTRY[d] == Dependency(REGISTRY[k]).value;
  }

  lemma ListedCompleteMeaning(previous: seq<ItemState>, ids: seq<ItemId>, call: Call, id: ItemId)
    requires id in ids
    ensures CompleteIn(BuildItems(previous, ids, call), id) <==> id in call.evidence || CompleteIn(previous, id)
  {
    BuildItemsMeaning(previous, ids, call);
    var items := BuildItems(previous, ids, call);
    var k :| 0 <= k < |ids| && ids[k] == id;
    assert items[k].id == id;
  }

  /** In the finished checklist an item still waiting is blocked exactly when what it depends on is not completed in it. */
  lemma BlockedInChecklist(previous: seq<ItemState>, call: Call, k: nat)
    requires k < |REGISTRY|
    ensures var items := BuildItems(previous, REGISTRY, call);
            && |items| == |REGISTRY| && items[k].id == REGISTRY[k]
            && (items[k].status == Blocked
                <==> && items[k].status != Complete
                     && Dependency(REGISTRY[k]).Some? && Dependency(REGISTRY[k]).value !in CompletedSet(items))
  {
    BuildItemsMeaning(previous, REGISTRY, call);
    BlockedMeaning(previous, REGISTRY, call, k);
    if Dependency(REGISTRY[k]).Some? {
      var dependency := Dependency(REGISTRY[k]).value;
      DependenciesComeFirst(k);
      assert dependency in REGISTRY[..k];
      RegistryIsComplete(dependency);
      ListedCompleteMeaning(previous, REGISTRY[..k], call, dependency);
      ListedCompleteMeaning(previous, REGISTRY, call, dependency);
      CompletedSetMeaning(BuildItems(previous, REGISTRY, call), dependency);
    }
  }

  // ---------- Events of one transition ----------

  lemma {:induction false} ItemEventsMeaning(previous: seq<ItemState>, items: seq<ItemState>, id: ItemId)
    requires Distinct(items)
    ensures Occurrences(ItemEvents(previous, items), ItemCompleted(id))
            == if CompleteIn(items, id) && !CompleteIn(previous, id) then 1 else 0
  {
    if |items| > 0 {
      var init, last := items[..|items| - 1], items[|items| - 1];
      ItemEventsMeaning(previous, init, id);
      CompleteInLast(items, id);
      SumSnoc(ItemEvents(previous, init), ItemCompleted(last.id), Is(ItemCompleted(id)));
      assert ItemEvents(previous, init) + [] == ItemEvents(previous, init);
      assert last.id == id ==> !CompleteIn(init, id);
    }
  }

  lemma {:induction false} ItemEventsAreItemEvents(previous: seq<ItemState>, items: seq<ItemState>, e: Event)
    requires !e.ItemCompleted?
    ensures Occurrences(ItemEvents(previous, items), e) == 0
  {
    if |items| > 0 {
      var init, last := items[..|items| - 1], items[|items| - 1];
      ItemEventsAreItemEvents(previous, init, e);
      SumSnoc(ItemEvents(previous, init), ItemCompleted(last.id), Is(e));
      assert ItemEvents(previous, init) + [] == ItemEvents(previous, init);
    }
  }

  predicate WasComplete(previous: Option<Snapshot>) {
    previous.Some? && previous.value.status == Completed
  }

  lemma AtMostOne(x: Event, e: Event)
    ensures Occurrences([], e) == 0
    ensures Occurrences([x], e) == if x == e then 1 else 0
  {
    SumSnoc([], x, Is(e));
    assert [] + [x] == [x];
  }

  /** The parts of a transition's events, counted apart. */
  lemma TransitionEventsSplit(previous: Option<Snapshot>, snapshot: Snapshot, e: Event)
    ensures Occurrences(TransitionEvents(previous, snapshot), e)
            == Occurrences(ItemEvents(PreviousItems(previous), snapshot.items), e)
               + Occurrences(MilestoneEvent(previous, snapshot, InitialSetup), e)
               + Occurrences(MilestoneEvent(previous, snapshot, FirstWorkflow), e)
               + Occurrences(MilestoneEvent(previous, snapshot, FirstRecord), e)
               + Occurrences(MilestoneEvent(previous, snapshot, FinancialReview), e)
               + (if snapshot.status == Completed && !WasComplete(previous) && e == ActivationCompleted then 1 else 0)
  {
    var a := ItemEvents(PreviousItems(previous), snapshot.items);
    var b, c := MilestoneEvent(previous, snapshot, InitialSetup), MilestoneEvent(previous, snapshot, FirstWorkflow);
    var d, f := MilestoneEvent(previous, snapshot, FirstRecord), MilestoneEvent(previous, snapshot, FinancialReview);
    var last := if snapshot.status == Completed && !WasComplete(previous) then [ActivationCompleted] else [];
    SumConcat(a + b + c + d + f, last, Is(e));
    SumConcat(a + b + c + d, f, Is(e));
    SumConcat(a + b + c, d, Is(e));
    SumConcat(a + b, c, Is(e));
    SumConcat(a, b, Is(e));
    AtMostOne(ActivationCompleted, e);
  }

  lemma MilestoneEventCount(previous: Option<Snapshot>, snapshot: Snapshot, m: Milestone, e: Event)
    ensures Occurrences(MilestoneEvent(previous, snapshot, m), e)
            == if e == MilestoneReached(m) && m in snapshot.milestones && !(previous.Some? && m in previous.value.milestones) then 1 else 0
  {
    AtMostOne(MilestoneReached(m), e);
  }

  /** Does a snapshot record what the event announces. */
  predicate Records(s: Option<Snapshot>, e: Event) {
    match e
    case ItemCompleted(id) => CompleteIn(PreviousItems(s), id)
    case MilestoneReached(m) => s.Some? && m in s.value.milestones
    case ActivationCompleted => WasComplete(s)
  }

  /** A transition emits an event once if the new snapshot records what it announces and the previous one did not. */
  lemma TransitionEventsMeaning(previous: Option<Snapshot>, snapshot: Snapshot, e: Event)
    requires Distinct(snapshot.items)
    ensures Occurrences(TransitionEvents(previous, snapshot), e) == if Records(Some(snapshot), e) && !Records(previous, e) then 1 else 0
  {
    TransitionEventsSplit(previous, snapshot, e);
    MilestoneEventCount(previous, snapshot, InitialSetup, e);
    MilestoneEventCount(previous, snapshot, FirstWorkflow, e);
    MilestoneEventCount(previous, snapshot, FirstRecord, e);
    MilestoneEventCount(previous, snapshot, FinancialReview, e);
    match e
    case ItemCompleted(id) => ItemEventsMeaning(PreviousItems(previous), snapshot.items, id);
    case MilestoneReached(m) =>
      ItemEventsAreItemEvents(PreviousItems(previous), snapshot.items, e);
      assert m == InitialSetup || m == FirstWorkflow || m == FirstRecord || m == FinancialReview;
    case ActivationCompleted => ItemEventsAreItemEvents(PreviousItems(previous), snapshot.items, e);
  }

  // ---------- Runs ----------

  lemma {:induction false} RunCompletes(calls: seq<Call>, id: ItemId)
    ensures CompleteIn(ItemsOf(Run(calls)), id) <==> id in EverEvidenced(calls)
    ensures CompletedAt(ItemsOf(Run(calls)), id) == FirstEvidence(calls, id)
    ensures FirstEvidence(calls, id).Some? <==> id in EverEvidenced(calls)
  {
    if |calls| > 0 {
      var before := calls[..|calls| - 1];
      RunCompletes(before, id);
      BuildMeaning(ItemsOf(Run(before)), calls[|calls| - 1], id);
      if !CompleteIn(ItemsOf(Run(calls)), id) {
        NotCompletedBefore(ItemsOf(Run(calls)), id);
      }
    }
  }

  lemma RunCompletedSet(calls: seq<Call>)
    ensures CompletedSet(ItemsOf(Run(calls))) == EverEvidenced(calls)
  {
    forall id: ItemId
      ensures id in CompletedSet(ItemsOf(Run(calls))) <==> id in EverEvidenced(calls)
    {
      RunCompletes(calls, id);
      CompletedSetMeaning(ItemsOf(Run(calls)), id);
    }
  }

  lemma MoreEvidenceKeepsStatus(c: set<ItemId>, d: set<ItemId>)
    requires c <= d
    ensures StatusOf(c) == Completed ==> StatusOf(d) == Completed
    ensures MilestonesOf(c) <= MilestonesOf(d)
  {
    assert Operational(c) ==> Operational(d) by {
      if Operational(c) {
        var x :| x in c * {BankAccountAdded, CustomerAdded, SupplierAdded};
        assert x in d * {BankAccountAdded, CustomerAdded, SupplierAdded};
      }
    }
    assert WorkflowStarted(c) ==> WorkflowStarted(d) by {
      if WorkflowStarted(c) {
        var x :| x in c * {FirstInvoiceCreated, FirstBillCreated, BankImportStarted, FirstReconciliationStarted};
        assert x in d * {FirstInvoiceCreated, FirstBillCreated, BankImportStarted, FirstReconciliationStarted};
      }
    }
  }

  lemma RunIsSnapshot(calls: seq<Call>)
    requires |calls| > 0
    ensures var before, last := Run(calls[..|calls| - 1]), calls[|calls| - 1];
            Run(calls).snapshot == Some(SnapshotOf(before.snapshot, ItemsOf(Run(calls)), last))
  {
  }

  /** The snapshot after a run is a function of the evidence gathered: status, milestones, progress, activation and entry times. */
  lemma {:induction false} RunSnapshot(calls: seq<Call>)
    requires |calls| > 0
    ensures var s, c := Run(calls).snapshot, EverEvidenced(calls);
            && s.Some?
            && s.value.status == StatusOf(c)
            && s.value.milestones == AllMilestones(c, calls[|calls| - 1].reviewed)
            && s.value.progress == ProgressOf(c)
            && s.value.activatedAt == FirstActivated(calls)
            && s.value.enteredAt == calls[0].now && s.value.evaluatedAt == calls[|calls| - 1].now
  {
    var before := calls[..|calls| - 1];
    RunIsSnapshot(calls);
    RunCompletedSet(calls);
    MoreEvidenceKeepsStatus(EverEvidenced(before), EverEvidenced(calls));
    ActivatedMeansCompleted(before);
    if |before| > 0 {
      RunSnapshot(before);
    }
  }

  lemma {:induction false} ActivatedMeansCompleted(calls: seq<Call>)
    ensures FirstActivated(calls).Some? <==> StatusOf(EverEvidenced(calls)) == Completed
  {
    if |calls| > 0 {
      var before := calls[..|calls| - 1];
      ActivatedMeansCompleted(before);
      MoreEvidenceKeepsStatus(EverEvidenced(before), EverEvidenced(calls));
    }
  }

  predicate Reviewed(calls: seq<Call>) {
    |calls| > 0 && calls[|calls| - 1].reviewed
  }

  /** Do the calls so far amount to what the event announces. */
  predicate Reached(calls: seq<Call>, e: Event) {
    match e
    case ItemCompleted(id) => id in EverEvidenced(calls)
    case MilestoneReached(m) => if m == FinancialReview then Reviewed(calls) else m in MilestonesOf(EverEvidenced(calls))
    case ActivationCompleted => StatusOf(EverEvidenced(calls)) == Completed
  }

  /** How often the event's condition came to hold. */
  function Rises(calls: seq<Call>, e: Event): nat {
    if |calls| == 0 then 0
    else
      var before := calls[..|calls| - 1];
      Rises(before, e) + (if Reached(calls, e) && !Reached(before, e) then 1 else 0)
  }

  lemma MilestoneIn(c: set<ItemId>, reviewed: bool, m: Milestone)
    ensures m in AllMilestones(c, reviewed) <==> if m == FinancialReview then reviewed else m in MilestonesOf(c)
  {
  }

  /** The snapshot after a run records exactly what the calls amount to. */
  lemma RunRecords(calls: seq<Call>, e: Event)
    ensures Records(Run(calls).snapshot, e) <==> Reached(calls, e)
  {
    match e {
      case ItemCompleted(id) => RunCompletes(calls, id);
      case MilestoneReached(m) =>
        if |calls| > 0 {
          RunSnapshot(calls);
          MilestoneIn(EverEvidenced(calls), calls[|calls| - 1].reviewed, m);
        }
      case ActivationCompleted =>
        if |calls| > 0 {
          RunSnapshot(calls);
        }
    }
  }

  lemma StepEmits(calls: seq<Call>, e: Event)
    requires |calls| > 0
    ensures var before := calls[..|calls| - 1];
            Run(calls).snapshot.Some?
            && Occurrences(TransitionEvents(Run(before).snapshot, Run(calls).snapshot.value), e)
               == if Reached(calls, e) && !Reached(before, e) then 1 else 0
  {
    var before := calls[..|calls| - 1];
    RunIsSnapshot(calls);
    RunRecords(calls, e);
    RunRecords(before, e);
    BuildMeaning(ItemsOf(Run(before)), calls[|calls| - 1], OrgCreated);
    TransitionEventsMeaning(Run(before).snapshot, Run(calls).snapshot.value, e);
  }

  /** Each event has been emitted exactly as often as its condition came to hold. */
  lemma {:induction false} EventPerRise(calls: seq<Call>, e: Event)
    ensures Occurrences(Run(calls).events, e) == Rises(calls, e)
  {
    if |calls| > 0 {
      var before := calls[..|calls| - 1];
      EventPerRise(before, e);
      StepEmits(calls, e);
      SumConcat(Run(before).events, TransitionEvents(Run(before).snapshot, Run(calls).snapshot.value), Is(e));
    }
  }

  lemma ReachedStays(before: seq<Call>, calls: seq<Call>, e: Event)
    requires EverEvidenced(before) <= EverEvidenced(calls) && e != MilestoneReached(FinancialReview)
    ensures Reached(before, e) ==> Reached(calls, e)
  {
    MoreEvidenceKeepsStatus(EverEvidenced(before), EverEvidenced(calls));
  }

  lemma {:induction false} RisesAtMostOnce(calls: seq<Call>, e: Event)
    requires e != MilestoneReached(FinancialReview)
    ensures Rises(calls, e) == if Reached(calls, e) then 1 else 0
  {
    if |calls| > 0 {
      RisesAtMostOnce(calls[..|calls| - 1], e);
      ReachedStays(calls[..|calls| - 1], calls, e);
    }
  }

  /**
   Over any sequence of calls with arbitrary evidence, each event but the financial review's has
   been emitted exactly once if what it announces was ever reached, and never otherwise.
   */
  lemma EachEventOnce(calls: seq<Call>, e: Event)
    requires e != MilestoneReached(FinancialReview)
    ensures Occurrences(Run(calls).events, e) == if Reached(calls, e) then 1 else 0
  {
    EventPerRise(calls, e);
    RisesAtMostOnce(calls, e);
  }

  lemma RisesStep(calls: seq<Call>, last: Call, e: Event)
    ensures Rises(calls + [last], e) == Rises(calls, e) + (if Reached(calls + [last], e) && !Reached(calls, e) then 1 else 0)
  {
    assert (calls + [last])[..|calls|] == calls;
  }

  /** The financial review is not sticky: after any calls, viewed, not viewed and viewed again, it is announced at least twice. */
  lemma ReviewAnnouncedAgain(calls: seq<Call>, on: Call, off: Call)
    requires on.reviewed && !off.reviewed
    ensures Occurrences(Run(calls + [off] + [on] + [off] + [on]).events, MilestoneReached(FinancialReview))
            == Occurrences(Run(calls).events, MilestoneReached(FinancialReview)) + 2
  {
    var e := MilestoneReached(FinancialReview);
    EventPerRise(calls, e);
    EventPerRise(calls + [off] + [on] + [off] + [on], e);
    RisesStep(calls, off, e);
    RisesStep(calls + [off], on, e);
    RisesStep(calls + [off] + [on], off, e);
    RisesStep(calls + [off] + [on] + [off], on, e);
  }

  lemma {:induction false} EvidenceStays(calls: seq<Call>, later: seq<Call>)
    ensures EverEvidenced(calls) <= EverEvidenced(calls + later)
    ensures forall id :: FirstEvidence(calls, id).Some? ==> FirstEvidence(calls + later, id) == FirstEvidence(calls, id)
    ensures FirstActivated(calls).Some? ==> FirstActivated(calls + later) == FirstActivated(calls)
  {
    if |later| == 0 {
      assert calls + later == calls;
    } else {
      assert (calls + later)[..|calls + later| - 1] == calls + later[..|later| - 1];
      EvidenceStays(calls, later[..|later| - 1]);
    }
  }

  lemma MoreItemsMoreProgress(c: set<ItemId>, d: set<ItemId>)
    requires c <= d
    ensures ProgressOf(c).percent <= ProgressOf(d).percent <= 100
  {
    assert d == c + (d - c);
    RegistryHasEleven(d);
  }

  lemma RegistryHasEleven(d: set<ItemId>)
    ensures |d| <= |REGISTRY|
  {
    forall id | id in d ensures id in REGISTRY { RegistryIsComplete(id); }
    AtMostLength(d, REGISTRY);
  }

  lemma {:induction false} AtMostLength(d: set<ItemId>, ids: seq<ItemId>)
    requires forall id :: id in d ==> id in ids
    ensures |d| <= |ids|
  {
    if |ids| > 0 {
      var n := |ids| - 1;
      AtMostLength(d - {ids[n]}, ids[..n]);
    } else {
      assert d == {};
    }
  }

  /** What is recommended is still open, in the order of recommendation; nothing is exactly when nothing is open. */
  lemma {:induction false} OpenItemsMeaning(order: seq<ItemId>, c: set<ItemId>)
    ensures forall id :: id in OpenItems(order, c) <==> id in order && id !in c
    ensures OpenItems(order, c) == [] <==> forall id :: id in order ==> id in c
  {
    if |order| > 0 {
      var n := |order| - 1;
      OpenItemsMeaning(order[..n], c);
      assert order == order[..n] + [order[n]];
    }
  }

  /**
   Once completed, always completed, whatever evidence later calls bring or lack: an item keeps its
   completion and its first completion time, and the workspace its status, milestones and
   activation time.
   */
  lemma CompletionIsNeverLeft(calls: seq<Call>, later: seq<Call>, id: ItemId)
    ensures CompleteIn(ItemsOf(Run(calls)), id) ==>
              && CompleteIn(ItemsOf(Run(calls + later)), id)
              && CompletedAt(ItemsOf(Run(calls + later)), id) == CompletedAt(ItemsOf(Run(calls)), id)
    ensures var before, after := Run(calls).snapshot, Run(calls + later).snapshot;
            before.Some? ==>
              && after.Some? && before.value.milestones - {FinancialReview} <= after.value.milestones
              && before.value.enteredAt == after.value.enteredAt
              && before.value.progress.percent <= after.value.progress.percent <= 100
              && (before.value.status == Completed ==>
                    after.value.status == Completed && after.value.activatedAt == before.value.activatedAt)
  {
    EvidenceStays(calls, later);
    RunCompletes(calls, id);
    RunCompletes(calls + later, id);
    if |calls| > 0 {
      RunSnapshot(calls);
      RunSnapshot(calls + later);
      ActivatedMeansCompleted(calls);
      MoreEvidenceKeepsStatus(EverEvidenced(calls), EverEvidenced(calls + later));
      MoreItemsMoreProgress(EverEvidenced(calls), EverEvidenced(calls + later));
    }
  }

  // ---------- The loops ----------

  method StickyComplete(previous: seq<ItemState>, id: ItemId, now: bool) returns (complete: bool)
    ensures complete == (now || CompleteIn(previous, id))
  {
    complete := now;
    for k := 0 to |previous|
      invariant complete == (now || CompleteIn(previous[..k], id))
    {
      assert previous[..k + 1][..k] == previous[..k];
      CompleteInLast(previous[..k + 1], id);
      if previous[k].id == id && previous[k].status == Complete {
        complete := true;
      }
    }
    assert previous[..|previous|] == previous;
  }

  lemma CompletedSetSnoc(items: seq<ItemState>, entry: ItemState)
    ensures CompletedSet(items + [entry]) == CompletedSet(items) + (if entry.status == Complete then {entry.id} else {})
  {
    assert forall s :: s in items + [entry] <==> s in items || s == entry;
  }

  method BuildChecklist(previous: seq<ItemState>, ids: seq<ItemId>, call: Call) returns (items: seq<ItemState>)
    ensures items == BuildItems(previous, ids, call)
  {
    items := [];
    var completed: set<ItemId> := {};
    for k := 0 to |ids|
      invariant items == BuildItems(previous, ids[..k], call)
      invariant completed == CompletedSet(items)
    {
      assert ids[..k + 1][..k] == ids[..k];
      var id := ids[k];
      var complete := StickyComplete(previous, id, id in call.evidence);
      var status := if complete then Complete else Pending;
      if Dependency(id).Some? {
        CompletedSetMeaning(items, Dependency(id).value);
        if Dependency(id).value !in completed && status != Complete {
          status := Blocked;
        }
      }
      var at := CompletedAt(previous, id);
      var entry := ItemState(id, status, if status == Complete then (if at.Some? then at else Some(call.now)) else None);
      CompletedSetSnoc(items, entry);
      if status == Complete {
        completed := completed + {id};
      }
      items := items + [entry];
    }
    assert ids[..|ids|] == ids;
  }

  /** The first three open items in the order of recommendation. */
  method RecommendItems(c: set<ItemId>) returns (recommended: seq<ItemId>)
    ensures recommended == FirstThree(OpenItems(RECOMMENDATION_ORDER, c))
    ensures forall id :: id in recommended ==> id !in c
    ensures recommended == [] <==> RecommendationsDone(c)
  {
    var open := CollectOpen(RECOMMENDATION_ORDER, c);
    OpenItemsMeaning(RECOMMENDATION_ORDER, c);
    recommended := FirstThree(open);
  }

  predicate RecommendationsDone(c: set<ItemId>) {
    forall id :: id in RECOMMENDATION_ORDER ==> id in c
  }

  method CollectOpen(order: seq<ItemId>, c: set<ItemId>) returns (open: seq<ItemId>)
    ensures open == OpenItems(order, c)
  {
    open := [];
    for k := 0 to |order|
      invariant open == OpenItems(order[..k], c)
    {
      assert order[..k + 1][..k] == order[..k];
      if order[k] !in c {
        open := open + [order[k]];
      }
    }
    assert order[..|order|] == order;
  }

  method AssembleSnapshot(previous: Option<Snapshot>, items: seq<ItemState>, call: Call) returns (current: Snapshot)
    requires |items| == |REGISTRY|
    ensures current == SnapshotOf(previous, items, call)
  {
    var c := CompletedSet(items);
    var status := StatusOf(c);
    var activatedAt :=
      if status == Completed && !(previous.Some? && previous.value.status == Completed) then Some(call.now)
      else if previous.Some? then previous.value.activatedAt
      else None;
    var milestones := MilestonesOf(c);
    if call.reviewed {
      milestones := milestones + {FinancialReview};
    }
    var recommended := RecommendItems(c);
    var progress := Progress(100 * |c| / |items|, |c|, |REQUIRED * c|, recommended);
    var enteredAt := if previous.Some? then previous.value.enteredAt else call.now;
    current := Snapshot(status, items, milestones, progress, activatedAt, enteredAt, call.now);
  }

  class Workspace {
    var snapshot: Option<Snapshot>
    var events: seq<Event>

    ghost function Contents(): State
      reads this
    {
      State(snapshot, events)
    }

    constructor ()
      ensures Contents() == FRESH
    {
      snapshot, events := None, [];
    }

    method EvaluateSnapshot(call: Call)
      modifies this
      ensures Contents() == Evaluate(old(Contents()), call)
    {
      var previous := snapshot;
      var items := BuildChecklist(PreviousItems(previous), REGISTRY, call);
      BuildItemsMeaning(PreviousItems(previous), REGISTRY, call);
      var current := AssembleSnapshot(previous, items, call);
      snapshot := Some(current);
      EmitTransitionEvents(previous, snapshot.value);
    }

    method EmitTransitionEvents(previous: Option<Snapshot>, current: Snapshot)
      modifies this`events
      ensures events == old(events) + TransitionEvents(previous, current)
    {
      var emitted := [];
      for k := 0 to |current.items|
        invariant emitted == ItemEvents(PreviousItems(previous), current.items[..k])
      {
        assert current.items[..k + 1][..k] == current.items[..k];
        var item := current.items[k];
        if !CompleteIn(PreviousItems(previous), item.id) && item.status == Complete {
          emitted := emitted + [ItemCompleted(item.id)];
        }
      }
      assert current.items[..|current.items|] == current.items;
      emitted := emitted + MilestoneEvent(previous, current, InitialSetup)
                 + MilestoneEvent(previous, current, FirstWorkflow) + MilestoneEvent(previous, current, FirstRecord)
                 + MilestoneEvent(previous, current, FinancialReview);
      if !WasComplete(previous) && current.status == Completed {
        emitted := emitted + [ActivationCompleted];
      }
      events := events + emitted;
    }
  }
}
