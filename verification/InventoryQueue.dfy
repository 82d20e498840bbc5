/** Review queues for a retained inventory and the comparison of two review dates. */
module InventoryQueue {
  import opened Ordering
  import opened Ownership
  import opened Remediation
  import opened WorkQueue

  const MAX_RECORDS := 10000

  datatype Change = Change(
    findingId: string,
    assetId: string,
    previousPriority: nat,
    currentPriority: nat,
    previousOverdue: bool,
    currentOverdue: bool,
    dueDate: int)

  datatype Comparison = Comparison(changedCount: nat, unchangedCount: nat, changes: seq<Change>)

  datatype Report = Report(
    assetCount: nat,
    assessedCount: nat,
    unassessedCount: nat,
    queues: Document,
    comparison: Option<Comparison>)

  predicate ChangeLe(a: Change, b: Change) {
    StrLe(a.findingId, b.findingId)
  }

  function ItemsFor(d: Directory, records: seq<FindingRecord>, asOf: int): (r: seq<QueueItem>)
    ensures |r| == |records|
    ensures forall i :: 0 <= i < |r| ==> r[i] == ItemOf(d, records[i], asOf)
  {
    seq(|records|, i requires 0 <= i < |records| => ItemOf(d, records[i], asOf))
  }

  /** `old.priority != new.priority or old.overdue != new.overdue` */
  predicate Moved(d: Directory, record: FindingRecord, baseline: int, asOf: int) {
    var old_, new_ := ItemOf(d, record, baseline).plan, ItemOf(d, record, asOf).plan;
    old_.priority != new_.priority || old_.overdue != new_.overdue
  }

  function ChangeOf(d: Directory, record: FindingRecord, baseline: int, asOf: int): Change {
    var old_, new_ := ItemOf(d, record, baseline).plan, ItemOf(d, record, asOf).plan;
    Change(new_.findingId, new_.assetId, old_.priority, new_.priority, old_.overdue, new_.overdue, new_.dueDate)
  }

  function ChangesIn(d: Directory, records: seq<FindingRecord>, baseline: int, asOf: int): seq<Change> {
    if records == [] then []
    else
      var m := |records| - 1;
      ChangesIn(d, records[..m], baseline, asOf) +
      (if Moved(d, records[m], baseline, asOf) then [ChangeOf(d, records[m], baseline, asOf)] else [])
  }

  function ComparisonOf(d: Directory, records: seq<FindingRecord>, baseline: int, asOf: int): Comparison {
    var changes := ChangesIn(d, records, baseline, asOf);
    Comparison(|changes|, if |changes| <= |records| then |records| - |changes| else 0, Sort(changes, ChangeLe))
  }

  predicate GoodRecord(assets: set<string>, record: FindingRecord, asOf: int) {
    record.risk.assetId in assets && Queueable(record, asOf)
  }

  ghost predicate Reviewable(d: Directory, assets: set<string>, records: seq<FindingRecord>, asOf: int, baseline: Option<int>) {
    && (baseline.Some? ==> baseline.value <= asOf)
    && |records| <= MAX_RECORDS
    && (forall i :: 0 <= i < |records| ==> GoodRecord(assets, records[i], asOf))
    && Acceptable(d, ItemsFor(d, records, asOf))
    && (baseline.Some? ==> forall i :: 0 <= i < |records| ==> Queueable(records[i], baseline.value))
  }

  lemma ItemRisk(d: Directory, record: FindingRecord, asOf: int)
    ensures ItemOf(d, record, asOf).plan.risk == record.risk && ItemOf(d, record, asOf).plan.assetId == record.risk.assetId
    ensures ItemOf(d, record, asOf).plan.findingId == record.risk.findingId
  {
    hide Resolve, TagMap;
  }

  /** The assets that some record is about. */
  function Assessed(records: seq<FindingRecord>): set<string> {
    set i | 0 <= i < |records| :: records[i].risk.assetId
  }

  lemma AssessedSplit(assets: set<string>, assessed: set<string>)
    requires assessed <= assets
    ensures |assets| == |assessed| + |assets - assessed|
  {
    assert assets == assessed + (assets - assessed);
  }

  lemma AssessedRetained(assets: set<string>, records: seq<FindingRecord>, asOf: int)
    requires forall i :: 0 <= i < |records| ==> GoodRecord(assets, records[i], asOf)
    ensures Assessed(records) <= assets
  {
    hide Queueable;
  }

  /** The finding loop: every record must name a retained asset and build an item. */
  method ReadRecords(assets: set<string>, records: seq<FindingRecord>, d: Directory, asOf: int)
    returns (ok: bool, items: seq<QueueItem>, assessed: set<string>)
    ensures ok <==> |records| <= MAX_RECORDS && forall i :: 0 <= i < |records| ==> GoodRecord(assets, records[i], asOf)
    ensures ok ==> items == ItemsFor(d, records, asOf)
    ensures ok ==> assessed == Assessed(records)
  {
    hide ItemOf, Queueable;
    items, assessed := [], {};
    for n := 0 to |records|
      invariant n <= MAX_RECORDS && |items| == n
      invariant forall i :: 0 <= i < n ==> GoodRecord(assets, records[i], asOf) && items[i] == ItemOf(d, records[i], asOf)
      invariant assessed == set i | 0 <= i < n :: records[i].risk.assetId
    {
      if |items| >= MAX_RECORDS {
        return false, items, assessed;
      }
      if records[n].risk.assetId !in assets {
        return false, items, assessed;
      }
      var item := MakeItem(records[n], d, asOf);
      if item.Rejected? {
        return false, items, assessed;
      }
      ItemRisk(d, records[n], asOf);
      if item.value.plan.assetId != records[n].risk.assetId {
        assert false;
      }
      items := items + [item.value];
      assessed := assessed + {records[n].risk.assetId};
    }
    ok := true;
  }

  /** The comparison loop. The guard on a changed risk assessment never fires. */
  method ComparePriorities(records: seq<FindingRecord>, items: seq<QueueItem>, d: Directory, baseline: int, asOf: int)
    returns (result: Result<Comparison>)
    requires items == ItemsFor(d, records, asOf)
    ensures result.Ok? <==> forall i :: 0 <= i < |records| ==> Queueable(records[i], baseline)
    ensures result.Ok? ==> result.value == ComparisonOf(d, records, baseline, asOf)
  {
    hide ItemOf, Queueable;
    var changes: seq<Change> := [];
    for n := 0 to |records|
      invariant forall i :: 0 <= i < n ==> Queueable(records[i], baseline)
      invariant changes == ChangesIn(d, records[..n], baseline, asOf) && |changes| <= n
    {
      var made := MakeItem(records[n], d, baseline);
      if made.Rejected? {
        return Rejected;
      }
      var old_, new_ := made.value.plan, items[n].plan;
      ItemRisk(d, records[n], baseline);
      ItemRisk(d, records[n], asOf);
      if old_.risk != new_.risk {
        assert false;
      }
      assert records[..n + 1][..n] == records[..n];
      if old_.priority != new_.priority || old_.overdue != new_.overdue {
        changes := changes + [Change(new_.findingId, new_.assetId, old_.priority, new_.priority, old_.overdue, new_.overdue, new_.dueDate)];
      }
    }
    assert records[..|records|] == records;
    result := Ok(Comparison(|changes|, |items| - |changes|, Sort(changes, ChangeLe)));
  }

  method PlanInventory(assets: set<string>, records: seq<FindingRecord>, d: Directory, asOf: int, baseline: Option<int>)
    returns (result: Result<Report>)
    ensures result.Ok? <==> Reviewable(d, assets, records, asOf, baseline)
    ensures result.Ok? ==>
              && result.value.queues == DocumentOf(d, ItemsFor(d, records, asOf), asOf)
              && result.value.comparison ==
                   (if baseline.None? then None else Some(ComparisonOf(d, records, baseline.value, asOf)))
              && result.value.assetCount == |assets|
              && result.value.assessedCount == |Assessed(records)|
              && result.value.assessedCount + result.value.unassessedCount == result.value.assetCount
  {
    if baseline.Some? && baseline.value > asOf {
      return Rejected;
    }
    hide GoodRecord, Queueable, Acceptable, DocumentOf, ComparisonOf, Assessed;
    var ok, items, assessed := ReadRecords(assets, records, d, asOf);
    if !ok {
      return Rejected;
    }
    var queues := BuildWorkQueue(items, d, asOf);
    if queues.Rejected? {
      return Rejected;
    }
    var comparison: Option<Comparison> := None;
    if baseline.Some? {
      var compared := ComparePriorities(records, items, d, baseline.value, asOf);
      if compared.Rejected? {
        return Rejected;
      }
      comparison := Some(compared.value);
    }
    AssessedRetained(assets, records, asOf);
    AssessedSplit(assets, assessed);
    result := Ok(Report(|assets|, |assessed|, |assets - assessed|, queues.value, comparison));
  }

  // ---- what the comparison means -----------------------------------------------------------

  /** A record moves exactly when its due date lies in [baseline, asOf); then it turns overdue and
      its priority number drops by at most one. */
  lemma MovedIffDueBetween(d: Directory, record: FindingRecord, baseline: int, asOf: int)
    requires baseline <= asOf
    ensures var old_, new_ := ItemOf(d, record, baseline).plan, ItemOf(d, record, asOf).plan;
            && old_.dueDate == new_.dueDate && old_.risk == new_.risk && old_.owner == new_.owner
            && (Moved(d, record, baseline, asOf) <==> baseline <= new_.dueDate < asOf)
            && (Moved(d, record, baseline, asOf) ==>
                  !old_.overdue && new_.overdue && new_.priority <= old_.priority <= new_.priority + 1)
            && (!Moved(d, record, baseline, asOf) ==> old_.priority == new_.priority && old_.overdue == new_.overdue)
  {
    hide Resolve, TagMap, PlanOf;
    LaterReview(record.risk, Resolve(d, TagMap(record.tags)).teamId, record.openedOn, record.requested, baseline, asOf);
  }

  lemma {:induction false} ChangesExactly(d: Directory, records: seq<FindingRecord>, baseline: int, asOf: int, c: Change)
    ensures c in ChangesIn(d, records, baseline, asOf) <==>
            exists i :: 0 <= i < |records| && Moved(d, records[i], baseline, asOf) && c == ChangeOf(d, records[i], baseline, asOf)
    ensures |ChangesIn(d, records, baseline, asOf)| == Count(records, (r: FindingRecord) => Moved(d, r, baseline, asOf))
  {
    hide Moved, ChangeOf;
    var p := (r: FindingRecord) => Moved(d, r, baseline, asOf);
    if records != [] {
      var m := |records| - 1;
      ChangesExactly(d, records[..m], baseline, asOf, c);
      assert records == records[..m] + [records[m]];
      CountSplit(records[..m], [records[m]], p);
      assert Count([records[m]][1..], p) == 0;
    }
  }

  /** The records due on or after the baseline and before the review date. */
  function DueBetween(d: Directory, baseline: int, asOf: int): FindingRecord -> bool {
    (record: FindingRecord) => baseline <= ItemOf(d, record, asOf).plan.dueDate < asOf
  }

  function ChangeBetween(d: Directory, baseline: int, asOf: int): FindingRecord -> Change {
    (record: FindingRecord) => ChangeOf(d, record, baseline, asOf)
  }

  /** The loop collects one change per due record, in record order. */
  lemma {:induction false} ChangesAreDue(d: Directory, records: seq<FindingRecord>, baseline: int, asOf: int)
    requires baseline <= asOf
    ensures ChangesIn(d, records, baseline, asOf) ==
            Map(Filter(records, DueBetween(d, baseline, asOf)), ChangeBetween(d, baseline, asOf))
  {
    hide Moved, ChangeOf, ItemOf, Filter, Map;
    var p, f := DueBetween(d, baseline, asOf), ChangeBetween(d, baseline, asOf);
    if records == [] {
      assert Filter(records, p) == [];
    } else {
      var m := |records| - 1;
      ChangesAreDue(d, records[..m], baseline, asOf);
      assert records == records[..m] + [records[m]] && records[..m + 1] == records;
      FilterNext(records, m, p);
      MovedIffDueBetween(d, records[m], baseline, asOf);
      if p(records[m]) {
        MapNext(Filter(records[..m], p), records[m], f);
      } else {
        assert Filter(records[..m], p) + [] == Filter(records[..m], p);
      }
    }
  }

  /** The comparison lists, in finding order, exactly the items whose due date lies between the two
      review dates, one change for each; each goes from not overdue to overdue, at most one priority
      higher. */
  lemma ComparisonMeans(d: Directory, records: seq<FindingRecord>, baseline: int, asOf: int, c: Change)
    requires baseline <= asOf
    ensures var r := ComparisonOf(d, records, baseline, asOf);
            && Sorted(r.changes, ChangeLe)
            && r.changedCount == |r.changes| && r.changedCount + r.unchangedCount == |records|
            && multiset(r.changes) ==
                 multiset(Map(Filter(records, DueBetween(d, baseline, asOf)), ChangeBetween(d, baseline, asOf)))
            && (c in r.changes <==>
                  exists i :: 0 <= i < |records| && c == ChangeOf(d, records[i], baseline, asOf) && baseline <= c.dueDate < asOf)
            && (c in r.changes ==>
                  !c.previousOverdue && c.currentOverdue && c.currentPriority <= c.previousPriority <= c.currentPriority + 1)
  {
    hide *;
    ComparisonParts(d, records, baseline, asOf);
    ChangesAreDue(d, records, baseline, asOf);
    SamePermutation(ComparisonOf(d, records, baseline, asOf).changes, ChangesIn(d, records, baseline, asOf));
    DueChanges(d, records, baseline, asOf, c);
  }

  lemma DueChanges(d: Directory, records: seq<FindingRecord>, baseline: int, asOf: int, c: Change)
    requires baseline <= asOf
    ensures c in ChangesIn(d, records, baseline, asOf) <==>
              exists i :: 0 <= i < |records| && c == ChangeOf(d, records[i], baseline, asOf) && baseline <= c.dueDate < asOf
    ensures c in ChangesIn(d, records, baseline, asOf) ==>
              !c.previousOverdue && c.currentOverdue && c.currentPriority <= c.previousPriority <= c.currentPriority + 1
  {
    hide *;
    ChangesExactly(d, records, baseline, asOf, c);
    forall i | 0 <= i < |records|
      ensures Moved(d, records[i], baseline, asOf) <==> baseline <= ChangeOf(d, records[i], baseline, asOf).dueDate < asOf
      ensures var e := ChangeOf(d, records[i], baseline, asOf);
              Moved(d, records[i], baseline, asOf) ==>
                !e.previousOverdue && e.currentOverdue && e.currentPriority <= e.previousPriority <= e.currentPriority + 1
    {
      ChangeOfMoved(d, records[i], baseline, asOf);
    }
  }

  lemma ChangeOfMoved(d: Directory, record: FindingRecord, baseline: int, asOf: int)
    requires baseline <= asOf
    ensures var e := ChangeOf(d, record, baseline, asOf);
            && (Moved(d, record, baseline, asOf) <==> baseline <= e.dueDate < asOf)
            && (Moved(d, record, baseline, asOf) ==>
                  !e.previousOverdue && e.currentOverdue && e.currentPriority <= e.previousPriority <= e.currentPriority + 1)
  {
    hide ItemOf;
    MovedIffDueBetween(d, record, baseline, asOf);
  }

  lemma ComparisonParts(d: Directory, records: seq<FindingRecord>, baseline: int, asOf: int)
    ensures var r := ComparisonOf(d, records, baseline, asOf);
            && Sorted(r.changes, ChangeLe) && multiset(r.changes) == multiset(ChangesIn(d, records, baseline, asOf))
            && r.changedCount == |r.changes| && r.changedCount + r.unchangedCount == |records|
  {
    var changes := ChangesIn(d, records, baseline, asOf);
    ChangeLeIsTotalPreorder();
    SortPermutes(changes, ChangeLe);
    SortSorts(changes, ChangeLe);
    SamePermutation(Sort(changes, ChangeLe), changes);
    ChangesBounded(d, records, baseline, asOf);
    hide ChangesIn, Sort, ChangeLe;
  }

  lemma {:induction false} ChangesBounded(d: Directory, records: seq<FindingRecord>, baseline: int, asOf: int)
    ensures |ChangesIn(d, records, baseline, asOf)| <= |records|
  {
    hide Moved, ChangeOf;
    if records != [] { ChangesBounded(d, records[..|records| - 1], baseline, asOf); }
  }

  lemma ChangeLeIsTotalPreorder()
    ensures TotalPreorder(ChangeLe)
  {
    StrLeIsTotalPreorder();
  }
}
