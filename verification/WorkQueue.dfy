/** Work queues by accountable team: grouping, refusal of inconsistent items, and sorting. */
module WorkQueue {
  import opened Ordering
  import opened Ownership
  import opened Remediation

  datatype QueueItem = QueueItem(plan: Plan, ownership: Resolution)

  datatype Queue = Queue(teamId: string, displayName: string, items: seq<QueueItem>)

  datatype Document = Document(asOf: int, assignedCount: nat, queues: seq<Queue>, unassigned: seq<QueueItem>)

  /** `_sort_key`: priority, then due date, then finding id. */
  predicate ItemLe(a: QueueItem, b: QueueItem) {
    if a.plan.priority != b.plan.priority then a.plan.priority < b.plan.priority
    else if a.plan.dueDate != b.plan.dueDate then a.plan.dueDate < b.plan.dueDate
    else StrLe(a.plan.findingId, b.plan.findingId)
  }

  /** An item whose plan and resolution agree, on a team of the directory. */
  predicate Consistent(d: Directory, item: QueueItem) {
    if item.ownership.status == Resolved then
      item.ownership.teamId.Some? && item.ownership.teamId.value in d.teams && item.plan.owner == item.ownership.teamId
    else item.plan.owner.None?
  }

  ghost predicate DistinctFindings(items: seq<QueueItem>) {
    forall i, j :: 0 <= i < j < |items| ==> items[i].plan.findingId != items[j].plan.findingId
  }

  ghost predicate Acceptable(d: Directory, items: seq<QueueItem>) {
    DistinctFindings(items) && forall i :: 0 <= i < |items| ==> Consistent(d, items[i])
  }

  // ---- what the document holds -------------------------------------------------------------

  /** The team an item is filed under. */
  function TeamOf(item: QueueItem): Option<string> {
    if item.ownership.status == Resolved then item.ownership.teamId else None
  }

  function ItemsOf(items: seq<QueueItem>, team: Option<string>): seq<QueueItem> {
    Filter(items, (item: QueueItem) => TeamOf(item) == team)
  }

  function TeamsIn(items: seq<QueueItem>): set<string> {
    set i | 0 <= i < |items| && TeamOf(items[i]).Some? :: TeamOf(items[i]).value
  }

  function QueueFor(d: Directory, items: seq<QueueItem>, team: string): Queue
    requires team in d.teams
  {
    Queue(team, d.teams[team].displayName, Sort(ItemsOf(items, Some(team)), ItemLe))
  }

  function QueuesFor(d: Directory, items: seq<QueueItem>, teams: seq<string>): (r: seq<Queue>)
    requires forall t :: t in teams ==> t in d.teams
    ensures |r| == |teams|
    ensures forall i :: 0 <= i < |r| ==> r[i] == QueueFor(d, items, teams[i])
  {
    seq(|teams|, i requires 0 <= i < |teams| => QueueFor(d, items, teams[i]))
  }

  function Assigned(items: seq<QueueItem>): nat {
    Count(items, (item: QueueItem) => TeamOf(item).Some?)
  }

  lemma TeamsListed(d: Directory, items: seq<QueueItem>)
    requires Acceptable(d, items)
    ensures forall t :: t in SortedSet(TeamsIn(items)) ==> t in d.teams
  {
    forall t | t in TeamsIn(items) ensures t in d.teams {
      var i :| 0 <= i < |items| && TeamOf(items[i]).Some? && TeamOf(items[i]).value == t;
      assert Consistent(d, items[i]);
    }
  }

  function DocumentOf(d: Directory, items: seq<QueueItem>, asOf: int): Document
    requires Acceptable(d, items)
  {
    TeamsListed(d, items);
    Document(asOf, Assigned(items), QueuesFor(d, items, SortedSet(TeamsIn(items))), Sort(ItemsOf(items, None), ItemLe))
  }

  // ---- the loops ----------------------------------------------------------------------------

  /** `grouped`, `unassigned` and `finding_ids` describe the first `n` items. */
  ghost predicate Grouped(d: Directory, items: seq<QueueItem>, n: nat, grouped: map<string, seq<QueueItem>>,
                          unassigned: seq<QueueItem>, findings: set<string>)
    requires n <= |items|
  {
    && Acceptable(d, items[..n])
    && grouped.Keys == TeamsIn(items[..n])
    && (forall t :: t in grouped ==> grouped[t] == ItemsOf(items[..n], Some(t)))
    && unassigned == ItemsOf(items[..n], None)
    && (forall f :: f in findings <==> exists i :: 0 <= i < n && items[i].plan.findingId == f)
  }

  lemma NextTeams(items: seq<QueueItem>, n: nat)
    requires n < |items|
    ensures TeamsIn(items[..n + 1]) == TeamsIn(items[..n]) + (if TeamOf(items[n]).Some? then {TeamOf(items[n]).value} else {})
    ensures forall t :: ItemsOf(items[..n + 1], t) == ItemsOf(items[..n], t) + if TeamOf(items[n]) == t then [items[n]] else []
  {
    var a, b := items[..n], items[..n + 1];
    forall t | t in TeamsIn(a) ensures t in TeamsIn(b) {
      var i :| 0 <= i < |a| && TeamOf(a[i]).Some? && TeamOf(a[i]).value == t;
      assert b[i] == a[i];
    }
    assert b[n] == items[n];
    forall t ensures ItemsOf(b, t) == ItemsOf(a, t) + if TeamOf(items[n]) == t then [items[n]] else [] {
      FilterNext(items, n, (item: QueueItem) => TeamOf(item) == t);
    }
  }

  lemma NoItemsYet(items: seq<QueueItem>, t: string)
    requires t !in TeamsIn(items)
    ensures ItemsOf(items, Some(t)) == []
  {
    forall i | 0 <= i < |items| ensures TeamOf(items[i]) != Some(t) {
      assert TeamOf(items[i]).Some? ==> TeamOf(items[i]).value in TeamsIn(items);
    }
    FilterNone(items, (item: QueueItem) => TeamOf(item) == Some(t));
  }

  /** One iteration of the grouping loop. */
  lemma GroupingStep(d: Directory, items: seq<QueueItem>, n: nat, grouped: map<string, seq<QueueItem>>,
                     unassigned: seq<QueueItem>, findings: set<string>)
    requires n < |items| && Grouped(d, items, n, grouped, unassigned, findings)
    ensures var item := items[n]; var more := findings + {item.plan.findingId};
            if item.plan.findingId in findings || !Consistent(d, item) then !Acceptable(d, items)
            else if TeamOf(item).Some? then
              var t := TeamOf(item).value;
              Grouped(d, items, n + 1, grouped[t := (if t in grouped then grouped[t] else []) + [item]], unassigned, more)
            else Grouped(d, items, n + 1, grouped, unassigned + [item], more)
  {
    hide ItemsOf, TeamsIn;
    var item := items[n];
    NextTeams(items, n);
    if item.plan.findingId in findings {
      var i :| 0 <= i < n && items[i].plan.findingId == item.plan.findingId;
      assert !DistinctFindings(items);
    } else if Consistent(d, item) {
      var a, b := items[..n], items[..n + 1];
      assert forall i :: 0 <= i < n ==> b[i] == a[i];
      assert b[n] == item;
      assert forall i :: 0 <= i < n ==> a[i] == items[i];
      assert Acceptable(d, b);
      if TeamOf(item).Some? && TeamOf(item).value !in grouped {
        NoItemsYet(a, TeamOf(item).value);
      }
    }
  }

  method GroupItems(items: seq<QueueItem>, d: Directory) returns (ok: bool, grouped: map<string, seq<QueueItem>>, unassigned: seq<QueueItem>)
    ensures ok <==> Acceptable(d, items)
    ensures ok ==> grouped.Keys == TeamsIn(items) && unassigned == ItemsOf(items, None)
    ensures ok ==> forall t :: t in grouped ==> grouped[t] == ItemsOf(items, Some(t))
  {
    hide *;
    var findings: set<string> := {};
    grouped, unassigned := map[], [];
    NothingGrouped(d, items);
    for n := 0 to |items|
      invariant Grouped(d, items, n, grouped, unassigned, findings)
    {
      var item := items[n];
      GroupingStep(d, items, n, grouped, unassigned, findings);
      ConsistentMeans(d, item);
      if item.plan.findingId in findings {
        return false, grouped, unassigned;
      }
      findings := findings + {item.plan.findingId};
      if item.ownership.status == Resolved {
        if item.ownership.teamId.None? || item.ownership.teamId.value !in d.teams {
          return false, grouped, unassigned;
        }
        if item.plan.owner != item.ownership.teamId {
          return false, grouped, unassigned;
        }
        var team := item.ownership.teamId.value;
        grouped := grouped[team := (if team in grouped then grouped[team] else []) + [item]];
      } else {
        if item.plan.owner.Some? {
          return false, grouped, unassigned;
        }
        unassigned := unassigned + [item];
      }
    }
    AllGrouped(d, items, grouped, unassigned, findings);
    ok := true;
  }

  method FileQueues(items: seq<QueueItem>, d: Directory, grouped: map<string, seq<QueueItem>>, teams: seq<string>)
    returns (queues: seq<Queue>, assignedTotal: nat)
    requires forall t :: t in teams ==> t in d.teams && t in grouped && grouped[t] == ItemsOf(items, Some(t))
    ensures queues == QueuesFor(d, items, teams) && assignedTotal == ItemTotal(queues)
  {
    hide ItemsOf;
    queues, assignedTotal := [], 0;
    for n := 0 to |teams|
      invariant |queues| == n && forall i :: 0 <= i < n ==> queues[i] == QueueFor(d, items, teams[i])
      invariant assignedTotal == ItemTotal(queues)
    {
      var team := teams[n];
      assert team in teams;
      var mine := Sort(grouped[team], ItemLe);
      var queue := Queue(team, d.teams[team].displayName, mine);
      assert (queues + [queue])[..n] == queues;
      queues := queues + [queue];
      assignedTotal := assignedTotal + |mine|;
    }
  }

  method BuildWorkQueue(items: seq<QueueItem>, d: Directory, asOf: int) returns (result: Result<Document>)
    ensures result.Ok? <==> Acceptable(d, items)
    ensures result.Ok? ==> result.value == DocumentOf(d, items, asOf)
  {
    var ok, grouped, unassigned := GroupItems(items, d);
    if !ok {
      return Rejected;
    }
    TeamsListed(d, items);
    var teams := SortedSet(grouped.Keys);
    var queues, assignedTotal := FileQueues(items, d, grouped, teams);
    AssignedTotal(d, items);
    hide ItemsOf, TeamsIn, Assigned, Acceptable, ItemTotal, SortedSet;
    result := Ok(Document(asOf, assignedTotal, queues, Sort(unassigned, ItemLe)));
  }

  function ItemTotal(queues: seq<Queue>): nat {
    if queues == [] then 0 else ItemTotal(queues[..|queues| - 1]) + |queues[|queues| - 1].items|
  }

  lemma NothingGrouped(d: Directory, items: seq<QueueItem>)
    ensures Grouped(d, items, 0, map[], [], {})
  {
  }

  lemma ConsistentMeans(d: Directory, item: QueueItem)
    ensures Consistent(d, item) <==>
              if item.ownership.status == Resolved then
                item.ownership.teamId.Some? && item.ownership.teamId.value in d.teams && item.plan.owner == item.ownership.teamId
              else item.plan.owner.None?
    ensures TeamOf(item) == if item.ownership.status == Resolved then item.ownership.teamId else None
  {
  }

  lemma AllGrouped(d: Directory, items: seq<QueueItem>, grouped: map<string, seq<QueueItem>>, unassigned: seq<QueueItem>,
                   findings: set<string>)
    requires Grouped(d, items, |items|, grouped, unassigned, findings)
    ensures Acceptable(d, items) && grouped.Keys == TeamsIn(items) && unassigned == ItemsOf(items, None)
    ensures forall t :: t in grouped ==> grouped[t] == ItemsOf(items, Some(t))
  {
    assert items[..|items|] == items;
  }

  // ---- nothing lost, nothing duplicated ----------------------------------------------------------

  /** Every item of a document. */
  function AllItems(queues: seq<Queue>): seq<QueueItem> {
    if queues == [] then [] else AllItems(queues[..|queues| - 1]) + queues[|queues| - 1].items
  }

  /** The items whose team is among `teams`. */
  ghost function FiledUnder(items: seq<QueueItem>, teams: seq<string>): multiset<QueueItem> {
    if teams == [] then multiset{}
    else FiledUnder(items, teams[..|teams| - 1]) + multiset(ItemsOf(items, Some(teams[|teams| - 1])))
  }

  lemma {:induction false} QueuesHold(d: Directory, items: seq<QueueItem>, teams: seq<string>)
    requires forall t :: t in teams ==> t in d.teams
    ensures multiset(AllItems(QueuesFor(d, items, teams))) == FiledUnder(items, teams)
    ensures ItemTotal(QueuesFor(d, items, teams)) == |AllItems(QueuesFor(d, items, teams))|
  {
    hide ItemsOf;
    if teams != [] {
      var m := |teams| - 1;
      var queues := QueuesFor(d, items, teams);
      QueuesHold(d, items, teams[..m]);
      assert queues[..m] == QueuesFor(d, items, teams[..m]);
      SortPermutes(ItemsOf(items, Some(teams[m])), ItemLe);
    }
  }

  lemma {:induction false} FiledNext(items: seq<QueueItem>, teams: seq<string>)
    requires items != [] && NoDup(teams)
    ensures FiledUnder(items, teams) ==
            FiledUnder(items[1..], teams) +
            (if TeamOf(items[0]).Some? && TeamOf(items[0]).value in teams then multiset{items[0]} else multiset{})
  {
    if teams != [] {
      var m := |teams| - 1;
      assert teams == teams[..m] + [teams[m]] && teams[m] !in teams[..m];
      FiledNext(items, teams[..m]);
    }
  }

  lemma {:induction false} EmptyFiled(teams: seq<string>)
    ensures FiledUnder([], teams) == multiset{}
  {
    if teams != [] { EmptyFiled(teams[..|teams| - 1]); }
  }

  lemma ItemsSplit(items: seq<QueueItem>)
    requires items != []
    ensures ItemsOf(items, None) == (if TeamOf(items[0]).None? then [items[0]] else []) + ItemsOf(items[1..], None)
    ensures Assigned(items) == (if TeamOf(items[0]).Some? then 1 else 0) + Assigned(items[1..])
  {
  }

  lemma {:induction false} ItemsConserved(items: seq<QueueItem>, teams: seq<string>)
    requires NoDup(teams) && TeamsWithin(items, teams)
    ensures FiledUnder(items, teams) + multiset(ItemsOf(items, None)) == multiset(items)
    ensures |ItemsOf(items, None)| + Assigned(items) == |items|
  {
    if items == [] {
      EmptyFiled(teams);
    } else {
      TeamsWithinRest(items, teams);
      ItemsConserved(items[1..], teams);
      FiledNext(items, teams);
      ItemsSplit(items);
      hide FiledUnder, ItemsOf, Assigned, TeamOf, NoDup;
      assert TeamOf(items[0]).Some? ==> TeamOf(items[0]).value in teams;
      hide *;
      OneMore(items[0], FiledUnder(items[1..], teams), ItemsOf(items[1..], None), items[1..]);
      assert items == [items[0]] + items[1..];
      assert TeamOf(items[0]).Some? ==> ItemsOf(items, None) == ItemsOf(items[1..], None);
    }
  }

  lemma OneMore(item: QueueItem, filed: multiset<QueueItem>, left: seq<QueueItem>, rest: seq<QueueItem>)
    requires filed + multiset(left) == multiset(rest)
    ensures filed + multiset{item} + multiset(left) == multiset([item] + rest)
    ensures filed + multiset{} + multiset([item] + left) == multiset([item] + rest)
  {
    assert multiset([item] + left) == multiset{item} + multiset(left);
    assert multiset([item] + rest) == multiset{item} + multiset(rest);
  }

  lemma TeamsWithinRest(items: seq<QueueItem>, teams: seq<string>)
    requires items != [] && TeamsWithin(items, teams)
    ensures TeamsWithin(items[1..], teams)
  {
    hide TeamOf;
    assert forall i :: 0 <= i < |items[1..]| ==> items[1..][i] == items[i + 1];
  }

  ghost predicate TeamsWithin(items: seq<QueueItem>, teams: seq<string>) {
    forall i :: 0 <= i < |items| && TeamOf(items[i]).Some? ==> TeamOf(items[i]).value in teams
  }

  lemma TeamsCover(items: seq<QueueItem>)
    ensures NoDup(SortedSet(TeamsIn(items)))
    ensures TeamsWithin(items, SortedSet(TeamsIn(items)))
  {
    forall i | 0 <= i < |items| && TeamOf(items[i]).Some? ensures TeamOf(items[i]).value in SortedSet(TeamsIn(items)) {
      assert TeamOf(items[i]).value in TeamsIn(items);
    }
  }

  lemma AssignedTotal(d: Directory, items: seq<QueueItem>)
    requires forall t :: t in SortedSet(TeamsIn(items)) ==> t in d.teams
    ensures ItemTotal(QueuesFor(d, items, SortedSet(TeamsIn(items)))) == Assigned(items)
  {
    var teams := SortedSet(TeamsIn(items));
    TeamsCover(items);
    ItemsConserved(items, teams);
    QueuesHold(d, items, teams);
    hide ItemsOf, Assigned, FiledUnder, TeamsIn, SortedSet, ItemTotal, AllItems;
    var all := AllItems(QueuesFor(d, items, teams));
    assert |multiset(all)| + |ItemsOf(items, None)| == |multiset(items)| by {
      assert |multiset(all) + multiset(ItemsOf(items, None))| == |multiset(items)|;
    }
  }

  /** The queues and the unassigned list together hold every item once, and nothing else. */
  lemma NothingLost(d: Directory, items: seq<QueueItem>, asOf: int)
    requires Acceptable(d, items)
    ensures var doc := DocumentOf(d, items, asOf);
            && multiset(doc.unassigned + AllItems(doc.queues)) == multiset(items)
            && doc.assignedCount + |doc.unassigned| == |items|
  {
    TeamsListed(d, items);
    TeamsCover(items);
    var teams := SortedSet(TeamsIn(items));
    ItemsConserved(items, teams);
    QueuesHold(d, items, teams);
    SortPermutes(ItemsOf(items, None), ItemLe);
  }

  // ---- order ----------------------------------------------------------------------------------------

  lemma ItemLeIsTotalPreorder()
    ensures TotalPreorder(ItemLe)
  {
    StrLeIsTotalPreorder();
    hide StrLe;
  }

  ghost predicate FindingsIdentify(items: seq<QueueItem>) {
    forall x, y :: x in items && y in items && x.plan.findingId == y.plan.findingId ==> x == y
  }

  lemma DistinctFindingsMeans(items: seq<QueueItem>)
    ensures DistinctFindings(items) <==> NoDup(items) && FindingsIdentify(items)
  {
    if NoDup(items) && FindingsIdentify(items) {
      forall i, j | 0 <= i < j < |items| ensures items[i].plan.findingId != items[j].plan.findingId {
        assert items[i] in items && items[j] in items;
      }
    }
  }

  lemma ItemsNeverTie(items: seq<QueueItem>)
    requires FindingsIdentify(items)
    ensures NeverTies(items, ItemLe)
  {
    forall x, y | x in items && y in items && ItemLe(x, y) && ItemLe(y, x) ensures x == y {
      StrLeAntisymmetric(x.plan.findingId, y.plan.findingId);
    }
  }

  /** Sorting distinct findings gives one sequence, whatever order they came in. */
  lemma SortAnyOrder(a: seq<QueueItem>, b: seq<QueueItem>)
    requires multiset(a) == multiset(b) && FindingsIdentify(a)
    ensures Sort(a, ItemLe) == Sort(b, ItemLe)
  {
    ItemLeIsTotalPreorder();
    SortPermutes(a, ItemLe);
    SortPermutes(b, ItemLe);
    SortSorts(a, ItemLe);
    SortSorts(b, ItemLe);
    ItemsNeverTie(Sort(a, ItemLe));
    SortedUnique(Sort(a, ItemLe), Sort(b, ItemLe), ItemLe);
  }

  lemma {:induction false} FilterMultiset(items: seq<QueueItem>, p: QueueItem -> bool, x: QueueItem)
    ensures multiset(Filter(items, p))[x] == if p(x) then multiset(items)[x] else 0
  {
    if items != [] {
      FilterMultiset(items[1..], p, x);
      assert items == [items[0]] + items[1..];
    }
  }

  lemma ItemsOfPermutes(items: seq<QueueItem>, permuted: seq<QueueItem>, team: Option<string>)
    requires multiset(items) == multiset(permuted)
    ensures multiset(ItemsOf(items, team)) == multiset(ItemsOf(permuted, team))
  {
    var p := (item: QueueItem) => TeamOf(item) == team;
    forall x ensures multiset(ItemsOf(items, team))[x] == multiset(ItemsOf(permuted, team))[x] {
      FilterMultiset(items, p, x);
      FilterMultiset(permuted, p, x);
    }
  }

  lemma TeamsInPermutes(items: seq<QueueItem>, permuted: seq<QueueItem>)
    requires multiset(items) == multiset(permuted)
    ensures TeamsIn(items) == TeamsIn(permuted)
  {
    SamePermutation(items, permuted);
    forall t ensures t in TeamsIn(items) <==> t in TeamsIn(permuted) {
      if t in TeamsIn(items) {
        var i :| 0 <= i < |items| && TeamOf(items[i]).Some? && TeamOf(items[i]).value == t;
        assert items[i] in permuted;
        var j :| 0 <= j < |permuted| && permuted[j] == items[i];
      }
      if t in TeamsIn(permuted) {
        var i :| 0 <= i < |permuted| && TeamOf(permuted[i]).Some? && TeamOf(permuted[i]).value == t;
        assert permuted[i] in items;
        var j :| 0 <= j < |items| && items[j] == permuted[i];
      }
    }
  }

  lemma AcceptableAnyOrder(d: Directory, items: seq<QueueItem>, permuted: seq<QueueItem>)
    requires Acceptable(d, items) && multiset(items) == multiset(permuted)
    ensures Acceptable(d, permuted)
  {
    SamePermutation(items, permuted);
    DistinctFindingsMeans(items);
    DistinctFindingsMeans(permuted);
    NoDupPermutation(items, permuted);
    hide Consistent;
    forall i | 0 <= i < |permuted| ensures Consistent(d, permuted[i]) {
      assert permuted[i] in items;
      var j :| 0 <= j < |items| && items[j] == permuted[i];
    }
  }

  /** The document does not depend on the order of its items. */
  lemma AnyItemOrder(d: Directory, items: seq<QueueItem>, permuted: seq<QueueItem>, asOf: int)
    requires Acceptable(d, items) && multiset(items) == multiset(permuted)
    ensures Acceptable(d, permuted)
    ensures DocumentOf(d, permuted, asOf) == DocumentOf(d, items, asOf)
  {
    AcceptableAnyOrder(d, items, permuted);
    AcceptableDistinct(d, items);
    DistinctFindingsMeans(items);
    TeamsInPermutes(items, permuted);
    TeamsListed(d, items);
    NothingLost(d, items, asOf);
    NothingLost(d, permuted, asOf);
    SamePermutation(items, permuted);
    hide *;
    SortedItemsAnyOrder(items, permuted, None);
    QueuesAnyOrder(d, items, permuted);
    DocumentParts(d, items, asOf);
    DocumentParts(d, permuted, asOf);
  }

  lemma DocumentParts(d: Directory, items: seq<QueueItem>, asOf: int)
    requires Acceptable(d, items)
    ensures forall t :: t in SortedSet(TeamsIn(items)) ==> t in d.teams
    ensures var doc := DocumentOf(d, items, asOf);
            && doc.asOf == asOf && doc.unassigned == Sort(ItemsOf(items, None), ItemLe)
            && doc.queues == QueuesFor(d, items, SortedSet(TeamsIn(items)))
  {
    TeamsListed(d, items);
  }

  lemma SortedItemsAnyOrder(items: seq<QueueItem>, permuted: seq<QueueItem>, team: Option<string>)
    requires multiset(items) == multiset(permuted) && FindingsIdentify(items)
    ensures Sort(ItemsOf(items, team), ItemLe) == Sort(ItemsOf(permuted, team), ItemLe)
  {
    ItemsOfPermutes(items, permuted, team);
    SortAnyOrder(ItemsOf(items, team), ItemsOf(permuted, team));
  }

  lemma QueuesAnyOrder(d: Directory, items: seq<QueueItem>, permuted: seq<QueueItem>)
    requires multiset(items) == multiset(permuted) && FindingsIdentify(items) && TeamsIn(items) == TeamsIn(permuted)
    requires forall t :: t in SortedSet(TeamsIn(items)) ==> t in d.teams
    ensures QueuesFor(d, permuted, SortedSet(TeamsIn(permuted))) == QueuesFor(d, items, SortedSet(TeamsIn(items)))
  {
    hide ItemsOf, TeamsIn, SortedSet, FindingsIdentify;
    var teams := SortedSet(TeamsIn(items));
    assert SortedSet(TeamsIn(permuted)) == teams;
    forall k | 0 <= k < |teams| ensures teams[k] in teams && QueueFor(d, items, teams[k]) == QueueFor(d, permuted, teams[k]) {
      SortedItemsAnyOrder(items, permuted, Some(teams[k]));
    }
  }

  ghost predicate StrictlyOrdered(items: seq<QueueItem>) {
    forall i, j :: 0 <= i < j < |items| ==> ItemLe(items[i], items[j]) && !ItemLe(items[j], items[i])
  }

  lemma FilterNoDup(items: seq<QueueItem>, p: QueueItem -> bool)
    requires NoDup(items)
    ensures NoDup(Filter(items, p))
  {
    NoDupMultiplicity(items);
    NoDupMultiplicity(Filter(items, p));
    forall x ensures multiset(Filter(items, p))[x] <= 1 { FilterMultiset(items, p, x); }
  }

  lemma SortStrict(items: seq<QueueItem>, team: Option<string>)
    requires DistinctFindings(items)
    ensures StrictlyOrdered(Sort(ItemsOf(items, team), ItemLe))
  {
    DistinctFindingsMeans(items);
    var mine := ItemsOf(items, team);
    FilterNoDup(items, (item: QueueItem) => TeamOf(item) == team);
    ItemLeIsTotalPreorder();
    SortPermutes(mine, ItemLe);
    SortSorts(mine, ItemLe);
    var sorted := Sort(mine, ItemLe);
    NoDupPermutation(mine, sorted);
    ItemsNeverTie(sorted);
    hide ItemLe, ItemsOf, Sort;
    forall i, j | 0 <= i < j < |sorted| ensures ItemLe(sorted[i], sorted[j]) && !ItemLe(sorted[j], sorted[i]) {
      assert sorted[i] in sorted && sorted[j] in sorted;
    }
  }

  /** A queue as it is published: not empty, strictly sorted, and of its own team only. */
  ghost predicate TeamQueue(q: Queue) {
    && StrictlyOrdered(q.items) && q.items != []
    && forall i :: 0 <= i < |q.items| ==> q.items[i].plan.owner == Some(q.teamId)
  }

  /** Every queue, and the unassigned list, is strictly sorted by priority, due date and finding,
      and each queue belongs to one team. */
  lemma QueuesStrictlySorted(d: Directory, items: seq<QueueItem>, asOf: int)
    requires Acceptable(d, items)
    ensures var doc := DocumentOf(d, items, asOf);
            && StrictlyOrdered(doc.unassigned)
            && (forall k :: 0 <= k < |doc.queues| ==> TeamQueue(doc.queues[k]))
            && (forall k, l :: 0 <= k < l < |doc.queues| ==> doc.queues[k].teamId != doc.queues[l].teamId)
  {
    DocumentParts(d, items, asOf);
    AcceptableDistinct(d, items);
    hide *;
    SortStrict(items, None);
    QueuesSorted(d, items, SortedSet(TeamsIn(items)));
  }

  lemma QueuesSorted(d: Directory, items: seq<QueueItem>, teams: seq<string>)
    requires Acceptable(d, items) && StrictlySorted(teams)
    requires forall t :: t in teams ==> t in d.teams && t in TeamsIn(items)
    ensures var queues := QueuesFor(d, items, teams);
            && (forall k :: 0 <= k < |queues| ==> TeamQueue(queues[k]))
            && (forall k, l :: 0 <= k < l < |queues| ==> queues[k].teamId != queues[l].teamId)
  {
    assert forall k, l :: 0 <= k < l < |teams| ==> teams[k] != teams[l];
    hide TeamQueue, TeamsIn, Acceptable, StrictlySorted, QueueFor;
    forall k | 0 <= k < |teams| ensures TeamQueue(QueueFor(d, items, teams[k])) && QueueFor(d, items, teams[k]).teamId == teams[k] {
      assert teams[k] in teams;
      QueueSorted(d, items, teams[k]);
    }
  }

  lemma QueueSorted(d: Directory, items: seq<QueueItem>, team: string)
    requires Acceptable(d, items) && team in d.teams && team in TeamsIn(items)
    ensures TeamQueue(QueueFor(d, items, team)) && QueueFor(d, items, team).teamId == team
  {
    AcceptableDistinct(d, items);
    SortStrict(items, Some(team));
    QueueOfTeam(d, items, team);
    hide StrictlyOrdered, ItemsOf, Sort, Acceptable, TeamsIn;
    var q := QueueFor(d, items, team);
    forall i | 0 <= i < |q.items| ensures q.items[i].plan.owner == Some(team) {
      assert q.items[i] in q.items;
    }
  }

  lemma QueueOfTeam(d: Directory, items: seq<QueueItem>, team: string)
    requires Acceptable(d, items) && team in d.teams && team in TeamsIn(items)
    ensures QueueFor(d, items, team).items != []
    ensures forall item :: item in QueueFor(d, items, team).items ==> item.plan.owner == Some(team)
  {
    var mine := ItemsOf(items, Some(team));
    SortPermutes(mine, ItemLe);
    var i :| 0 <= i < |items| && TeamOf(items[i]).Some? && TeamOf(items[i]).value == team;
    assert items[i] in mine;
    forall item | item in mine ensures item.plan.owner == Some(team) {
      var j :| 0 <= j < |items| && items[j] == item;
      assert Consistent(d, items[j]);
    }
  }

  // ---- recovery of items from a document (`_items`) ----------------------------------------------

  function FindingOf(item: QueueItem): string { item.plan.findingId }

  function ByFinding(items: seq<QueueItem>): (r: map<string, QueueItem>)
    ensures forall f :: f in r ==> r[f] in items && r[f].plan.findingId == f
    ensures forall i :: 0 <= i < |items| ==> items[i].plan.findingId in r
  {
    var r := IndexBy(items, FindingOf);
    assert forall i :: 0 <= i < |items| ==> FindingOf(items[i]) in r;
    r
  }

  /** The dictionary that readers of a stored document build. */
  function Recovered(doc: Document): map<string, QueueItem> {
    ByFinding(doc.unassigned + AllItems(doc.queues))
  }

  lemma ByFindingNew(items: seq<QueueItem>, m: nat)
    requires m < |items| && DistinctFindings(items)
    ensures items[m].plan.findingId !in ByFinding(items[..m])
  {
  }

  lemma {:induction false} ByFindingSize(items: seq<QueueItem>)
    requires DistinctFindings(items)
    ensures |ByFinding(items)| == |items|
  {
    if items != [] {
      var m := |items| - 1;
      ByFindingSize(items[..m]);
      ByFindingNew(items, m);
      var all, rest, f := ByFinding(items), ByFinding(items[..m]), items[m].plan.findingId;
      assert all == rest[f := items[m]];
      hide *;
      assert all.Keys == rest.Keys + {f};
    }
  }

  lemma ByFindingFinds(items: seq<QueueItem>, i: nat)
    requires FindingsIdentify(items) && i < |items|
    ensures items[i].plan.findingId in ByFinding(items) && ByFinding(items)[items[i].plan.findingId] == items[i]
  {
    assert items[i] in items;
  }

  /** Reading the document back gives exactly one entry per item, the item itself. */
  lemma RecoversEveryItem(d: Directory, items: seq<QueueItem>, asOf: int)
    requires Acceptable(d, items)
    ensures var r := Recovered(DocumentOf(d, items, asOf));
            |r| == |items| && forall i :: 0 <= i < |items| ==> items[i].plan.findingId in r && r[items[i].plan.findingId] == items[i]
  {
    NothingLost(d, items, asOf);
    var doc := DocumentOf(d, items, asOf);
    hide DocumentOf, Acceptable, Consistent, AllItems;
    var all := doc.unassigned + AllItems(doc.queues);
    SamePermutation(all, items);
    assert DistinctFindings(items) by { AcceptableDistinct(d, items); }
    DistinctFindingsMeans(items);
    DistinctFindingsMeans(all);
    NoDupPermutation(items, all);
    ByFindingSize(all);
    forall i | 0 <= i < |items| ensures items[i].plan.findingId in ByFinding(all) && ByFinding(all)[items[i].plan.findingId] == items[i] {
      assert items[i] in all;
      var j :| 0 <= j < |all| && all[j] == items[i];
      ByFindingFinds(all, j);
    }
  }

  lemma AcceptableDistinct(d: Directory, items: seq<QueueItem>)
    requires Acceptable(d, items)
    ensures DistinctFindings(items)
  {
  }

  // ---- items built from records -----------------------------------------------------------------------

  /** One finding record: its scored finding, reviewed tags and dates. */
  datatype FindingRecord = FindingRecord(risk: RiskAssessment, tags: seq<Tag>, openedOn: int, requested: Option<int>)

  predicate Queueable(record: FindingRecord, asOf: int) {
    GoodTags(record.tags, true) && Plannable(record.openedOn, asOf, record.requested)
  }

  function ItemOf(d: Directory, record: FindingRecord, asOf: int): QueueItem {
    var resolution := Resolve(d, TagMap(record.tags));
    QueueItem(PlanOf(record.risk, resolution.teamId, record.openedOn, asOf, record.requested), resolution)
  }

  method MakeItem(record: FindingRecord, d: Directory, asOf: int) returns (result: Result<QueueItem>)
    ensures result.Ok? <==> Queueable(record, asOf)
    ensures result.Ok? ==> result.value == ItemOf(d, record, asOf)
  {
    hide Resolve, PlanOf;
    var resolution := ResolveTags(d, record.tags);
    if resolution.Rejected? {
      return Rejected;
    }
    var plan := PlanRemediation(record.risk, resolution.value.teamId, record.openedOn, asOf, record.requested);
    if plan.Rejected? {
      return Rejected;
    }
    result := Ok(QueueItem(plan.value, resolution.value));
  }

  /** Items built from one directory can only be refused for a finding id that occurs twice. */
  lemma BuiltItemsConsistent(teams: seq<Team>, rules: seq<RawRule>, records: seq<FindingRecord>, asOf: int, items: seq<QueueItem>)
    requires GoodDirectory(teams, rules) && |items| == |records|
    requires forall i :: 0 <= i < |items| ==> items[i] == ItemOf(DirectoryOf(teams, rules), records[i], asOf)
    ensures Acceptable(DirectoryOf(teams, rules), items) <==>
              forall i, j :: 0 <= i < j < |records| ==> records[i].risk.findingId != records[j].risk.findingId
  {
    var d := DirectoryOf(teams, rules);
    forall i | 0 <= i < |items| ensures Consistent(d, items[i]) && items[i].plan.findingId == records[i].risk.findingId {
      ItemConsistent(teams, rules, records[i], asOf);
    }
    hide ItemOf, Consistent, DirectoryOf;
  }

  lemma ItemConsistent(teams: seq<Team>, rules: seq<RawRule>, record: FindingRecord, asOf: int)
    requires GoodDirectory(teams, rules)
    ensures Consistent(DirectoryOf(teams, rules), ItemOf(DirectoryOf(teams, rules), record, asOf))
    ensures ItemOf(DirectoryOf(teams, rules), record, asOf).plan.findingId == record.risk.findingId
  {
    var d := DirectoryOf(teams, rules);
    var tags := TagMap(record.tags);
    ResolutionMeans(d, tags);
    ResolvedTeamListed(teams, rules, tags);
    NoBlankTeam(teams);
    hide Resolve, TagMap, DirectoryOf;
  }
}
