/** What the activation checklist shows after any calls, item by item, said from the calls alone. */
module ActivationMeaning {
  import opened Wrappers
  import opened Activation

  /** Some call so far had evidence for the item. */
  predicate Seen(calls: seq<Call>, id: ItemId) {
    exists k :: 0 <= k < |calls| && id in calls[k].evidence
  }

  lemma {:induction false} SeenMeaning(calls: seq<Call>, id: ItemId)
    ensures Seen(calls, id) <==> id in EverEvidenced(calls)
  {
    if |calls| > 0 {
      var n := |calls| - 1;
      SeenMeaning(calls[..n], id);
      if Seen(calls[..n], id) {
        var k :| 0 <= k < n && id in calls[..n][k].evidence;
        assert id in calls[k].evidence;
      }
      if k :| 0 <= k < n && id in calls[k].evidence {
        assert id in calls[..n][k].evidence;
      }
    }
  }

  /** The organization exists, its settings were reviewed and its chart of accounts is ready. */
  predicate SetUp(calls: seq<Call>) {
    Seen(calls, OrgCreated) && Seen(calls, SettingsReviewed) && Seen(calls, ChartOfAccountsReady)
  }

  /** A bank account, a customer or a supplier has been added. */
  predicate HasRecord(calls: seq<Call>) {
    Seen(calls, BankAccountAdded) || Seen(calls, CustomerAdded) || Seen(calls, SupplierAdded)
  }

  /** An invoice, a bill, a bank import or a reconciliation has been started. */
  predicate HasWorkflow(calls: seq<Call>) {
    || Seen(calls, FirstInvoiceCreated) || Seen(calls, FirstBillCreated)
    || Seen(calls, BankImportStarted) || Seen(calls, FirstReconciliationStarted)
  }

  predicate Activated(calls: seq<Call>) {
    SetUp(calls) && HasRecord(calls) && HasWorkflow(calls)
  }

  lemma ConditionsMeaning(calls: seq<Call>)
    ensures Foundational(EverEvidenced(calls)) <==> SetUp(calls)
    ensures Operational(EverEvidenced(calls)) <==> HasRecord(calls)
    ensures WorkflowStarted(EverEvidenced(calls)) <==> HasWorkflow(calls)
  {
    forall id: ItemId
      ensures Seen(calls, id) <==> id in EverEvidenced(calls)
    {
      SeenMeaning(calls, id);
    }
    var c := EverEvidenced(calls);
    var some := c * {BankAccountAdded, CustomerAdded, SupplierAdded};
    assert BankAccountAdded in some <==> BankAccountAdded in c;
    assert CustomerAdded in some <==> CustomerAdded in c;
    assert SupplierAdded in some <==> SupplierAdded in c;
    var started := c * {FirstInvoiceCreated, FirstBillCreated, BankImportStarted, FirstReconciliationStarted};
    assert FirstInvoiceCreated in started <==> FirstInvoiceCreated in c;
    assert FirstBillCreated in started <==> FirstBillCreated in c;
    assert BankImportStarted in started <==> BankImportStarted in c;
    assert FirstReconciliationStarted in started <==> FirstReconciliationStarted in c;
  }

  lemma MilestonesMeaning(c: set<ItemId>, reviewed: bool)
    ensures InitialSetup in AllMilestones(c, reviewed) <==> Foundational(c)
    ensures FirstRecord in AllMilestones(c, reviewed) <==> Operational(c)
    ensures FirstWorkflow in AllMilestones(c, reviewed) <==> WorkflowStarted(c)
    ensures FinancialReview in AllMilestones(c, reviewed) <==> reviewed
  {
  }

  lemma NothingSeen(calls: seq<Call>)
    ensures EverEvidenced(calls) == {} <==> forall id :: !Seen(calls, id)
  {
    forall id: ItemId
      ensures Seen(calls, id) <==> id in EverEvidenced(calls)
    {
      SeenMeaning(calls, id);
    }
    if EverEvidenced(calls) != {} {
      var id :| id in EverEvidenced(calls);
      assert Seen(calls, id);
    }
  }

  /** The status by its three conditions. */
  lemma StatusOfSeen(calls: seq<Call>)
    ensures StatusOf(EverEvidenced(calls)) == Completed <==> Activated(calls)
    ensures StatusOf(EverEvidenced(calls)) == NotStarted <==> forall id :: !Seen(calls, id)
  {
    ConditionsMeaning(calls);
    NothingSeen(calls);
    SeenMeaning(calls, OrgCreated);
  }

  /** Status and milestones after any calls. */
  lemma StatusMeaning(calls: seq<Call>)
    requires |calls| > 0
    ensures Run(calls).snapshot.Some?
    ensures var s := Run(calls).snapshot.value;
            && (s.status == Completed <==> Activated(calls))
            && (s.status == NotStarted <==> forall id :: !Seen(calls, id))
            && (InitialSetup in s.milestones <==> SetUp(calls)) && (FirstRecord in s.milestones <==> HasRecord(calls))
            && (FirstWorkflow in s.milestones <==> HasWorkflow(calls))
            && (FinancialReview in s.milestones <==> calls[|calls| - 1].reviewed)
  {
    var s := SnapshotAfter(calls);
    StatusOfSeen(calls);
    ConditionsMeaning(calls);
    MilestonesMeaning(EverEvidenced(calls), calls[|calls| - 1].reviewed);
  }

  lemma SnapshotAfter(calls: seq<Call>) returns (s: Snapshot)
    requires |calls| > 0
    ensures Run(calls).snapshot == Some(s) && s.status == StatusOf(EverEvidenced(calls))
    ensures s.milestones == AllMilestones(EverEvidenced(calls), calls[|calls| - 1].reviewed)
    ensures s.activatedAt == FirstActivated(calls)
  {
    RunSnapshot(calls);
    s := Run(calls).snapshot.value;
  }

  /** The first n calls, and no fewer, amount to activation. */
  predicate FirstActivatedAfter(calls: seq<Call>, n: int) {
    0 < n <= |calls| && Activated(calls[..n]) && forall i :: 0 <= i < n ==> !Activated(calls[..i])
  }

  lemma {:induction false} FirstActivatedMeaning(calls: seq<Call>, n: nat)
    requires FirstActivatedAfter(calls, n)
    ensures FirstActivated(calls) == Some(calls[n - 1].now)
  {
    var init := calls[..|calls| - 1];
    if n < |calls| {
      assert forall i :: 0 <= i <= n ==> init[..i] == calls[..i];
      FirstActivatedMeaning(init, n);
    } else {
      assert calls[..n] == calls && !Activated(init);
      StatusOfSeen(calls);
      StatusOfSeen(init);
      ActivatedMeansCompleted(init);
    }
  }

  /** The activation time is the clock of the first call after which the three conditions hold. */
  lemma ActivationTime(calls: seq<Call>, n: nat)
    requires FirstActivatedAfter(calls, n)
    ensures Run(calls).snapshot.Some? && Run(calls).snapshot.value.activatedAt == Some(calls[n - 1].now)
  {
    var s := SnapshotAfter(calls);
    FirstActivatedMeaning(calls, n);
  }

  /** Call k is the first with evidence for the item. */
  predicate FirstSeenAt(calls: seq<Call>, id: ItemId, k: int) {
    0 <= k < |calls| && id in calls[k].evidence && forall i :: 0 <= i < k ==> id !in calls[i].evidence
  }

  lemma {:induction false} UnseenHasNoTime(calls: seq<Call>, id: ItemId)
    requires forall i :: 0 <= i < |calls| ==> id !in calls[i].evidence
    ensures FirstEvidence(calls, id).None?
  {
    if |calls| > 0 {
      UnseenHasNoTime(calls[..|calls| - 1], id);
    }
  }

  lemma {:induction false} FirstEvidenceMeaning(calls: seq<Call>, id: ItemId, k: nat)
    requires FirstSeenAt(calls, id, k)
    ensures FirstEvidence(calls, id) == Some(calls[k].now)
  {
    var n := |calls| - 1;
    if k < n {
      FirstEvidenceMeaning(calls[..n], id, k);
    } else {
      UnseenHasNoTime(calls[..n], id);
    }
  }

  /** What an item waits for. */
  function WaitsFor(id: ItemId): Option<ItemId> {
    if id == OrgCreated then None
    else if id == FirstInvoiceCreated || id == FirstBillCreated then Some(ChartOfAccountsReady)
    else if id == BankImportStarted || id == FirstReconciliationStarted then Some(BankAccountAdded)
    else Some(OrgCreated)
  }

  lemma RunItems(calls: seq<Call>) returns (previous: seq<ItemState>, items: seq<ItemState>)
    requires |calls| > 0
    ensures Run(calls).snapshot.Some? && Run(calls).snapshot.value.items == items == BuildItems(previous, REGISTRY, calls[|calls| - 1])
    ensures CompletedSet(items) == EverEvidenced(calls)
    ensures forall id :: CompletedAt(items, id) == FirstEvidence(calls, id)
  {
    previous, items := ItemsOf(Run(calls[..|calls| - 1])), ItemsOf(Run(calls));
    RunIsSnapshot(calls);
    RunCompletedSet(calls);
    forall id
      ensures CompletedAt(items, id) == FirstEvidence(calls, id)
    {
      RunCompletes(calls, id);
    }
  }

  lemma BuiltItem(previous: seq<ItemState>, last: Call, n: nat)
    requires n < |REGISTRY|
    ensures var items, id := BuildItems(previous, REGISTRY, last), REGISTRY[n];
            && |items| == |REGISTRY| && items[n].id == id && Distinct(items)
            && (items[n].status == Complete <==> id in CompletedSet(items))
            && (items[n].status == Blocked
                <==> id !in CompletedSet(items) && WaitsFor(id).Some? && WaitsFor(id).value !in CompletedSet(items))
  {
    var items := BuildItems(previous, REGISTRY, last);
    BuildItemsMeaning(previous, REGISTRY, last);
    RegistryIsDistinct();
    BlockedInChecklist(previous, last, n);
    WaitsForDependency(REGISTRY[n]);
    EntryIsComplete(items, n);
    CompletedSetMeaning(items, REGISTRY[n]);
  }

  /** An item's entry: complete once seen, and blocked while neither it nor what it waits for has been seen. */
  lemma ItemMeaning(calls: seq<Call>, n: nat)
    requires |calls| > 0 && n < |REGISTRY|
    ensures Run(calls).snapshot.Some? && |Run(calls).snapshot.value.items| == |REGISTRY|
    ensures var item, id := Run(calls).snapshot.value.items[n], REGISTRY[n];
            && item.id == id
            && (item.status == Complete <==> Seen(calls, id))
            && (item.status == Blocked <==> !Seen(calls, id) && WaitsFor(id).Some? && !Seen(calls, WaitsFor(id).value))
  {
    var previous, items := RunItems(calls);
    BuiltItem(previous, calls[|calls| - 1], n);
    SeenMeaning(calls, REGISTRY[n]);
    if WaitsFor(REGISTRY[n]).Some? {
      SeenMeaning(calls, WaitsFor(REGISTRY[n]).value);
    }
  }

  /** Its completion time is the clock of the first call that had evidence for it. */
  lemma ItemTime(calls: seq<Call>, n: nat, k: nat)
    requires n < |REGISTRY| && FirstSeenAt(calls, REGISTRY[n], k)
    ensures Run(calls).snapshot.Some? && |Run(calls).snapshot.value.items| == |REGISTRY|
    ensures Run(calls).snapshot.value.items[n].completedAt == Some(calls[k].now)
  {
    var previous, items := RunItems(calls);
    ItemMeaning(calls, n);
    BuiltItem(previous, calls[|calls| - 1], n);
    FirstEvidenceMeaning(calls, REGISTRY[n], k);
    CompleteHasTime(previous, calls[|calls| - 1], n);
    CompletedAtIsEntry(items, n);
  }

  lemma CompleteHasTime(previous: seq<ItemState>, last: Call, n: nat)
    requires n < |REGISTRY|
    ensures var items := BuildItems(previous, REGISTRY, last);
            |items| == |REGISTRY| && (items[n].status == Complete ==> items[n].completedAt.Some?)
  {
    BuildItemsMeaning(previous, REGISTRY, last);
  }

  lemma WaitsForDependency(id: ItemId)
    ensures WaitsFor(id) == Dependency(id)
  {
  }

  lemma EntryIsComplete(items: seq<ItemState>, n: nat)
    requires Distinct(items) && n < |items|
    ensures CompleteIn(items, items[n].id) <==> items[n].status == Complete
  {
    if k :| 0 <= k < |items| && items[k].id == items[n].id && items[k].status == Complete {
      assert k == n;
    }
  }

  // ---------- Progress ----------

  /** The open items of a list, in its order. */
  lemma {:induction false} OpenItemsInOrder(order: seq<ItemId>, c: set<ItemId>) returns (at: seq<nat>)
    ensures var open := OpenItems(order, c);
            && |at| == |open|
            && (forall i :: 0 <= i < |at| ==> at[i] < |order| && open[i] == order[at[i]] && open[i] !in c)
            && (forall i, j :: 0 <= i < j < |at| ==> at[i] < at[j])
            && (forall k :: 0 <= k < |order| ==> (k in at <==> order[k] !in c))
  {
    at := [];
    if |order| > 0 {
      var n := |order| - 1;
      at := OpenItemsInOrder(order[..n], c);
      assert forall i :: 0 <= i < |at| ==> at[i] < n && order[..n][at[i]] == order[at[i]];
      if order[n] !in c {
        at := at + [n];
      }
    }
  }

  /** What was seen, as a set. */
  ghost function AllSeen(calls: seq<Call>): set<ItemId> {
    set id: ItemId | Seen(calls, id)
  }

  lemma AllSeenMeaning(calls: seq<Call>)
    ensures AllSeen(calls) == EverEvidenced(calls)
  {
    forall id: ItemId
      ensures Seen(calls, id) <==> id in EverEvidenced(calls)
    {
      SeenMeaning(calls, id);
    }
  }

  lemma ProgressAfter(calls: seq<Call>) returns (p: Progress)
    requires |calls| > 0
    ensures Run(calls).snapshot.Some? && Run(calls).snapshot.value.progress == p == ProgressOf(AllSeen(calls))
  {
    AllSeenMeaning(calls);
    RunSnapshot(calls);
    p := ProgressOf(AllSeen(calls));
  }

  /** The counts shown after any calls: whole percents of eleven items, how many were seen, and how many of the required three. */
  lemma CountsMeaning(calls: seq<Call>)
    requires |calls| > 0
    ensures Run(calls).snapshot.Some?
    ensures var p, count := Run(calls).snapshot.value.progress, |AllSeen(calls)|;
            && p.completedCount == count && 11 * p.percent <= 100 * count < 11 * p.percent + 11
            && p.requiredCompleted == |{OrgCreated, SettingsReviewed, ChartOfAccountsReady} * AllSeen(calls)|
  {
    var p := ProgressAfter(calls);
  }

  /** The recommendations after any calls: of the items not seen, in the order of the checklist after its first, the first three. */
  lemma RecommendationsMeaning(calls: seq<Call>) returns (at: seq<nat>)
    requires |calls| > 0
    ensures Run(calls).snapshot.Some?
    ensures RECOMMENDATION_ORDER == REGISTRY[1..] && forall i :: 0 <= i < |at| ==> at[i] < |RECOMMENDATION_ORDER|
    ensures forall i, j :: 0 <= i < j < |at| ==> at[i] < at[j]
    ensures forall k :: 0 <= k < |RECOMMENDATION_ORDER| ==> (k in at <==> !Seen(calls, RECOMMENDATION_ORDER[k]))
    ensures var shown := Run(calls).snapshot.value.progress.recommended;
            && |shown| == (if |at| < 3 then |at| else 3)
            && forall i :: 0 <= i < |shown| ==> shown[i] == RECOMMENDATION_ORDER[at[i]]
  {
    var p := ProgressAfter(calls);
    at := OpenItemsInOrder(RECOMMENDATION_ORDER, AllSeen(calls));
  }
}
