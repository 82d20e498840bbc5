/** What correlation guarantees: the assets partition the observations into the connected
    components of the key graph, whatever the input order, and one more observation merges
    exactly the assets it touches.
 */
module AssetPartition {
  import opened Ordering
  import opened Models
  import opened AssetGraph

  // ---- facts about one consolidated group ---------------------------------------------

  lemma ConsolidateFacts(g: seq<Observation>, assetId: seq<string> -> string)
    ensures var a := Consolidate(g, assetId);
            && multiset(a.observations) == multiset(g)
            && (forall o :: o in a.observations <==> o in g)
            && Sorted(a.observations, ObservationLe)
            && (forall k :: k in a.correlationKeys <==> HasKey(g, k))
            && a.assetId == assetId(a.correlationKeys)
  {
    ObservationLeIsTotalPreorder();
    SortPermutes(g, ObservationLe);
    SortSorts(g, ObservationLe);
    var ordered := Sort(g, ObservationLe);
    SamePermutation(ordered, g);
    assert forall k :: k in AllKeys(ordered) <==> HasKey(g, k) by {
      hide *;
      SameKeys(ordered, g);
    }
    hide Sort, AllKeys, HasKey, HostnamesIn, KindsIn, SourcesIn, AddressesIn, ObservationLe;
  }

  lemma SameKeys(ordered: seq<Observation>, g: seq<Observation>)
    requires forall o :: o in ordered <==> o in g
    ensures forall k :: k in AllKeys(ordered) <==> HasKey(g, k)
  {
    hide KeySet, AllKeys;
    forall k ensures k in AllKeys(ordered) <==> HasKey(g, k) {
      if k in AllKeys(ordered) {
        var i :| 0 <= i < |ordered| && k in KeySet(ordered[i]);
        assert ordered[i] in ordered;
      }
      if HasKey(g, k) {
        var o :| o in g && k in KeySet(o);
        var i :| 0 <= i < |ordered| && ordered[i] == o;
      }
    }
  }

  /** The summary fields of an asset list exactly what its observations say, each value once. */
  ghost predicate Summarises(a: Asset) {
    && StrictlySorted(a.kinds) && (forall k :: k in a.kinds <==> exists o :: o in a.observations && o.kind == k)
    && StrictlySorted(a.sources) && (forall s :: s in a.sources <==> exists o :: o in a.observations && o.source == s)
    && StrictlySorted(a.hostnames)
    && (forall h :: h in a.hostnames <==> h != "" && exists o :: o in a.observations && o.hostname == Some(h))
    && StrictlySorted(a.ipAddresses)
    && (forall p :: p in a.ipAddresses <==> exists o :: o in a.observations && p in o.ipAddresses)
  }

  lemma HostnameOfSome(g: seq<Observation>, h: string)
    ensures h in HostnamesIn(g) <==> h != "" && exists o :: o in g && o.hostname == Some(h)
  {
    if h in HostnamesIn(g) {
      var i :| 0 <= i < |g| && h in Hostnames(g[i]);
      assert g[i] in g;
    }
    if o :| o in g && o.hostname == Some(h) && h != "" {
      var i :| 0 <= i < |g| && g[i] == o;
      assert h in Hostnames(g[i]);
    }
  }

  lemma ValueOfSome(g: seq<Observation>, v: string)
    ensures v in KindsIn(g) <==> exists o :: o in g && o.kind == v
    ensures v in SourcesIn(g) <==> exists o :: o in g && o.source == v
    ensures v in AddressesIn(g) <==> exists o :: o in g && v in o.ipAddresses
  {
  }

  lemma SummaryFields(g: seq<Observation>, assetId: seq<string> -> string)
    ensures var a := Consolidate(g, assetId); var ordered := a.observations;
            && a.kinds == SortedSet(KindsIn(ordered)) && a.sources == SortedSet(SourcesIn(ordered))
            && a.hostnames == SortedSet(HostnamesIn(ordered)) && a.ipAddresses == SortedSet(AddressesIn(ordered))
  {
    hide SortedSet, KindsIn, SourcesIn, HostnamesIn, AddressesIn, AllKeys, Sort;
  }

  lemma FieldsSummarise(a: Asset)
    requires a.kinds == SortedSet(KindsIn(a.observations)) && a.sources == SortedSet(SourcesIn(a.observations))
    requires a.hostnames == SortedSet(HostnamesIn(a.observations)) && a.ipAddresses == SortedSet(AddressesIn(a.observations))
    ensures Summarises(a)
  {
    hide SortedSet, StrictlySorted, KindsIn, SourcesIn, HostnamesIn, AddressesIn;
    forall v
      ensures v in KindsIn(a.observations) <==> exists o :: o in a.observations && o.kind == v
      ensures v in SourcesIn(a.observations) <==> exists o :: o in a.observations && o.source == v
      ensures v in AddressesIn(a.observations) <==> exists o :: o in a.observations && v in o.ipAddresses
      ensures v in HostnamesIn(a.observations) <==> v != "" && exists o :: o in a.observations && o.hostname == Some(v)
    {
      ValueOfSome(a.observations, v);
      HostnameOfSome(a.observations, v);
    }
  }

  lemma ConsolidateSummarises(g: seq<Observation>, assetId: seq<string> -> string)
    ensures Summarises(Consolidate(g, assetId))
  {
    hide *;
    SummaryFields(g, assetId);
    FieldsSummarise(Consolidate(g, assetId));
  }

  /** Every asset of the output summarises its own observations. */
  lemma AssetsSummarise(items: seq<Observation>, assetId: seq<string> -> string, a: Asset)
    requires a in Correlate(items, assetId)
    ensures Summarises(a)
  {
    hide *;
    AssetsAreGroups(items, assetId);
    var k :| 0 <= k < |Groups(items)| && a == Consolidate(Groups(items)[k], assetId);
    ConsolidateSummarises(Groups(items)[k], assetId);
  }

  ghost predicate HasKey(g: seq<Observation>, k: string) {
    exists o :: o in g && k in KeySet(o)
  }

  // ---- groups are components -----------------------------------------------------------

  lemma {:induction false} GroupMembers(items: seq<Observation>, leader: nat, n: nat)
    requires n <= |items|
    ensures forall o :: o in GroupOf(items, leader, n) <==> exists i: nat :: i < n && Leader(items, i) == leader && items[i] == o
  {
    hide Linked, IsLeader;
    if n > 0 {
      GroupMembers(items, leader, n - 1);
      forall o ensures o in GroupOf(items, leader, n) <==> exists i: nat :: i < n && Leader(items, i) == leader && items[i] == o {
        if i: nat :| i < n && Leader(items, i) == leader && items[i] == o {
          assert i < n - 1 || i == n - 1;
        }
        if o in GroupOf(items, leader, n) && o !in GroupOf(items, leader, n - 1) {
          assert Leader(items, n - 1) == leader && items[n - 1] == o;
        }
      }
    }
  }

  /** A group holds exactly the observations linked to any one of its members. */
  lemma GroupIsComponent(items: seq<Observation>, leader: nat, o: Observation)
    requires leader < |items| && o in GroupOf(items, leader, |items|)
    ensures forall x :: x in GroupOf(items, leader, |items|) <==> Linked(Range(items), o, x)
  {
    GroupMembers(items, leader, |items|);
    var i: nat :| i < |items| && Leader(items, i) == leader && items[i] == o;
    forall x ensures x in GroupOf(items, leader, |items|) <==> Linked(Range(items), o, x) {
      if x in GroupOf(items, leader, |items|) {
        var j: nat :| j < |items| && Leader(items, j) == leader && items[j] == x;
        SameLeader(items, i, j);
      }
      if Linked(Range(items), o, x) {
        LinkedMembers(Range(items), o, x);
        var j: nat :| j < |items| && items[j] == x;
        SameLeader(items, i, j);
      }
    }
  }

  /** Every observation sits in a group. */
  lemma GroupContaining(items: seq<Observation>, o: Observation) returns (k: nat)
    requires o in items
    ensures k < |Groups(items)| && o in Groups(items)[k]
  {
    var i: nat :| i < |items| && items[i] == o;
    LeaderOfLeader(items, i);
    var L := Leaders(items, |items|);
    assert Leader(items, i) in L;
    k :| 0 <= k < |L| && L[k] == Leader(items, i);
    GroupMembers(items, L[k], |items|);
  }

  lemma {:induction false} LeadersAscend(items: seq<Observation>, n: nat)
    requires n <= |items|
    ensures NoDup(Leaders(items, n))
  {
    hide Linked, IsLeader;
    if n > 0 {
      LeadersAscend(items, n - 1);
      assert n - 1 !in Leaders(items, n - 1);
    }
  }

  lemma GroupsSeparate(items: seq<Observation>, k: nat, l: nat, a: Observation, b: Observation)
    requires k < |Groups(items)| && l < |Groups(items)|
    requires a in Groups(items)[k] && b in Groups(items)[l] && Linked(Range(items), a, b)
    ensures k == l
  {
    var L := Leaders(items, |items|);
    LeadersAscend(items, |items|);
    GroupMembers(items, L[k], |items|);
    GroupMembers(items, L[l], |items|);
    var i: nat :| i < |items| && Leader(items, i) == L[k] && items[i] == a;
    var j: nat :| j < |items| && Leader(items, j) == L[l] && items[j] == b;
    SameLeader(items, i, j);
  }

  lemma GroupNonempty(items: seq<Observation>, k: nat)
    requires k < |Groups(items)|
    ensures Groups(items)[k] != []
    ensures forall o :: o in Groups(items)[k] ==> o in items
  {
    var L := Leaders(items, |items|);
    assert L[k] in L;
    GroupMembers(items, L[k], |items|);
    assert items[L[k]] in Groups(items)[k];
  }

  // ---- conservation --------------------------------------------------------------------

  ghost function Members(assets: seq<Asset>): multiset<Observation> {
    if assets == [] then multiset{} else multiset(assets[0].observations) + Members(assets[1..])
  }

  /** Every observation of an output, asset after asset. */
  function Flatten(assets: seq<Asset>): seq<Observation> {
    if assets == [] then [] else assets[0].observations + Flatten(assets[1..])
  }

  lemma {:induction false} FlattenAppend(a: seq<Asset>, b: seq<Asset>)
    ensures Flatten(a + b) == Flatten(a) + Flatten(b)
  {
    if a == [] {
      assert a + b == b;
    } else {
      assert (a + b)[1..] == a[1..] + b;
      FlattenAppend(a[1..], b);
    }
  }

  lemma FlattenOne(a: Asset)
    ensures Flatten([a]) == a.observations
  {
    assert [a][1..] == [];
  }

  lemma {:induction false} FlattenMembers(assets: seq<Asset>)
    ensures multiset(Flatten(assets)) == Members(assets)
  {
    if assets != [] { FlattenMembers(assets[1..]); }
  }

  lemma {:induction false} InsertKeepsMembers(x: Asset, s: seq<Asset>)
    ensures Members(Insert(x, s, AssetLe)) == multiset(x.observations) + Members(s)
  {
    if s != [] {
      if AssetLe(x, s[0]) {
        assert ([x] + s)[1..] == s;
      } else {
        InsertKeepsMembers(x, s[1..]);
        assert ([s[0]] + Insert(x, s[1..], AssetLe))[1..] == Insert(x, s[1..], AssetLe);
      }
    }
  }

  lemma {:induction false} SortKeepsMembers(s: seq<Asset>)
    ensures Members(Sort(s, AssetLe)) == Members(s)
  {
    if s != [] {
      SortKeepsMembers(s[1..]);
      InsertKeepsMembers(s[0], Sort(s[1..], AssetLe));
    }
  }

  ghost function GroupMultiset(items: seq<Observation>, leaders: seq<nat>, n: nat): multiset<Observation>
    requires n <= |items|
  {
    if leaders == [] then multiset{}
    else multiset(GroupOf(items, leaders[0], n)) + GroupMultiset(items, leaders[1..], n)
  }

  /** One more observation joins exactly one group. */
  lemma {:induction false} OneMoreMember(items: seq<Observation>, leaders: seq<nat>, n: nat)
    requires 0 < n <= |items| && NoDup(leaders)
    ensures GroupMultiset(items, leaders, n) ==
            GroupMultiset(items, leaders, n - 1)
            + (if Leader(items, n - 1) in leaders then multiset{items[n - 1]} else multiset{})
  {
    hide Linked, IsLeader;
    if leaders != [] {
      var rest := leaders[1..];
      assert leaders == [leaders[0]] + rest;
      assert leaders[0] !in rest;
      OneMoreMember(items, rest, n);
    }
  }

  lemma {:induction false} GroupsConserve(items: seq<Observation>, n: nat)
    requires n <= |items|
    ensures GroupMultiset(items, Leaders(items, |items|), n) == multiset(items[..n])
  {
    hide Linked, GroupOf, GroupMultiset;
    var L := Leaders(items, |items|);
    LeadersAscend(items, |items|);
    if n == 0 {
      EmptyGroups(items, L);
    } else {
      GroupsConserve(items, n - 1);
      OneMoreMember(items, L, n);
      LeaderOfLeader(items, n - 1);
      assert items[..n] == items[..n - 1] + [items[n - 1]];
    }
  }

  lemma {:induction false} EmptyGroups(items: seq<Observation>, leaders: seq<nat>)
    ensures GroupMultiset(items, leaders, 0) == multiset{}
  {
    if leaders != [] { EmptyGroups(items, leaders[1..]); }
  }

  lemma {:induction false} ConsolidatedMembers(items: seq<Observation>, leaders: seq<nat>, groups: seq<seq<Observation>>,
                                               assetId: seq<string> -> string)
    requires |groups| == |leaders|
    requires forall k :: 0 <= k < |groups| ==> groups[k] == GroupOf(items, leaders[k], |items|)
    ensures Members(ConsolidateAll(groups, assetId)) == GroupMultiset(items, leaders, |items|)
  {
    if groups != [] {
      ConsolidatedMembers(items, leaders[1..], groups[1..], assetId);
      ConsolidateFacts(groups[0], assetId);
      hide Consolidate, GroupOf, ConsolidateAll;
      var r := ConsolidateAll(groups, assetId);
      assert r[1..] == ConsolidateAll(groups[1..], assetId);
    }
  }

  // ---- the partition theorem -------------------------------------------------------------

  ghost predicate Together(assets: seq<Asset>, a: Observation, b: Observation) {
    exists x :: x in assets && a in x.observations && b in x.observations
  }

  ghost predicate KeysDisjoint(x: Asset, y: Asset) {
    forall k :: !(k in x.correlationKeys && k in y.correlationKeys)
  }

  /** No observation is lost, added or placed twice. */
  lemma EveryObservationOnce(items: seq<Observation>, assetId: seq<string> -> string)
    ensures multiset(Flatten(Correlate(items, assetId))) == multiset(items)
  {
    var assets := ConsolidateAll(Groups(items), assetId);
    assert Correlate(items, assetId) == Sort(assets, AssetLe);
    assert forall k :: 0 <= k < |Groups(items)| ==> Groups(items)[k] == GroupOf(items, Leaders(items, |items|)[k], |items|);
    assert |Groups(items)| == |Leaders(items, |items|)|;
    hide *;
    FlattenMembers(Correlate(items, assetId));
    SortKeepsMembers(assets);
    ConsolidatedMembers(items, Leaders(items, |items|), Groups(items), assetId);
    GroupsConserve(items, |items|);
    assert items[..|items|] == items;
  }

  /** Which groups the assets come from. */
  lemma AssetsAreGroups(items: seq<Observation>, assetId: seq<string> -> string)
    ensures forall x :: x in Correlate(items, assetId) <==>
              exists k :: 0 <= k < |Groups(items)| && x == Consolidate(Groups(items)[k], assetId)
  {
    hide Groups, Consolidate, Sort;
    var all := ConsolidateAll(Groups(items), assetId);
    SortPermutes(all, AssetLe);
    forall x ensures x in all <==> exists k :: 0 <= k < |Groups(items)| && x == Consolidate(Groups(items)[k], assetId) {
      if x in all {
        var k :| 0 <= k < |all| && all[k] == x;
        assert 0 <= k < |Groups(items)| && x == Consolidate(Groups(items)[k], assetId);
      }
      if k :| 0 <= k < |Groups(items)| && x == Consolidate(Groups(items)[k], assetId) {
        assert all[k] == x;
      }
    }
  }

  /** Two observations share an asset exactly when a chain of shared keys links them. */
  lemma TogetherIffLinked(items: seq<Observation>, assetId: seq<string> -> string, a: Observation, b: Observation)
    requires a in items
    ensures Together(Correlate(items, assetId), a, b) <==> Linked(Range(items), a, b)
  {
    hide Linked, IsLeader, Groups, Consolidate, Correlate, Leaders, GroupOf;
    AssetsAreGroups(items, assetId);
    if Together(Correlate(items, assetId), a, b) {
      var x :| x in Correlate(items, assetId) && a in x.observations && b in x.observations;
      var k :| 0 <= k < |Groups(items)| && x == Consolidate(Groups(items)[k], assetId);
      ConsolidateFacts(Groups(items)[k], assetId);
      var leader := Leaders(items, |items|)[k];
      assert leader in Leaders(items, |items|);
      GroupIsComponent(items, leader, a);
    }
    if Linked(Range(items), a, b) {
      var k := GroupContaining(items, a);
      var leader := Leaders(items, |items|)[k];
      assert leader in Leaders(items, |items|);
      GroupIsComponent(items, leader, a);
      ConsolidateFacts(Groups(items)[k], assetId);
      var x := Consolidate(Groups(items)[k], assetId);
      assert x in Correlate(items, assetId) && a in x.observations && b in x.observations;
    }
  }

  lemma GroupKeysDisjoint(items: seq<Observation>, assetId: seq<string> -> string, k: nat, l: nat)
    requires k < |Groups(items)| && l < |Groups(items)| && k != l
    ensures KeysDisjoint(Consolidate(Groups(items)[k], assetId), Consolidate(Groups(items)[l], assetId))
  {
    var g, h := Groups(items)[k], Groups(items)[l];
    ConsolidateFacts(g, assetId);
    ConsolidateFacts(h, assetId);
    forall key ensures !(HasKey(g, key) && HasKey(h, key)) {
      if HasKey(g, key) && HasKey(h, key) {
        var a :| a in g && key in KeySet(a);
        var b :| b in h && key in KeySet(b);
        GroupNonempty(items, k);
        GroupNonempty(items, l);
        assert key in KeySet(a) * KeySet(b);
        LinkedEdge(Range(items), a, b);
        GroupsSeparate(items, k, l, a, b);
      }
    }
  }

  lemma GroupHasKeys(items: seq<Observation>, assetId: seq<string> -> string, k: nat)
    requires k < |Groups(items)|
    ensures Consolidate(Groups(items)[k], assetId).correlationKeys != []
  {
    hide Consolidate, Groups, KeySet;
    GroupNonempty(items, k);
    ConsolidateFacts(Groups(items)[k], assetId);
    var o := Groups(items)[k][0];
    assert SourceKey(o) in KeySet(o) && o in Groups(items)[k];
    assert HasKey(Groups(items)[k], SourceKey(o));
    assert SourceKey(o) in Consolidate(Groups(items)[k], assetId).correlationKeys;
  }

  /** Distinct assets have disjoint key tuples, and no asset appears twice. */
  lemma DistinctAssetsDisjoint(items: seq<Observation>, assetId: seq<string> -> string)
    ensures NoDup(Correlate(items, assetId))
    ensures forall x :: x in Correlate(items, assetId) ==> x.correlationKeys != [] && x.assetId == assetId(x.correlationKeys)
    ensures forall x, y :: x in Correlate(items, assetId) && y in Correlate(items, assetId) && x != y ==> KeysDisjoint(x, y)
  {
    hide Groups, Consolidate, Sort, KeysDisjoint;
    var all := ConsolidateAll(Groups(items), assetId);
    SortPermutes(all, AssetLe);
    AssetsAreGroups(items, assetId);
    forall i, j | 0 <= i < j < |all| ensures all[i] != all[j] {
      GroupKeysDisjoint(items, assetId, i, j);
      GroupHasKeys(items, assetId, i);
      DisjointDiffer(all[i], all[j]);
    }
    NoDupPermutation(all, Correlate(items, assetId));
    forall x | x in Correlate(items, assetId)
      ensures x.correlationKeys != [] && x.assetId == assetId(x.correlationKeys)
    {
      var k :| 0 <= k < |Groups(items)| && x == Consolidate(Groups(items)[k], assetId);
      GroupHasKeys(items, assetId, k);
      ConsolidateFacts(Groups(items)[k], assetId);
    }
    forall x, y | x in Correlate(items, assetId) && y in Correlate(items, assetId) && x != y ensures KeysDisjoint(x, y) {
      var k :| 0 <= k < |Groups(items)| && x == Consolidate(Groups(items)[k], assetId);
      var l :| 0 <= l < |Groups(items)| && y == Consolidate(Groups(items)[l], assetId);
      GroupKeysDisjoint(items, assetId, k, l);
    }
  }

  lemma DisjointDiffer(x: Asset, y: Asset)
    requires KeysDisjoint(x, y) && x.correlationKeys != []
    ensures x != y
  {
    assert x.correlationKeys[0] in x.correlationKeys;
  }

  /** The key tuples of the assets cover exactly the keys of the observations. */
  lemma KeysCovered(items: seq<Observation>, assetId: seq<string> -> string, key: string)
    ensures (exists x :: x in Correlate(items, assetId) && key in x.correlationKeys) <==> HasKey(items, key)
  {
    hide Correlate, Groups, Consolidate, KeySet;
    AssetsAreGroups(items, assetId);
    if x :| x in Correlate(items, assetId) && key in x.correlationKeys {
      var k :| 0 <= k < |Groups(items)| && x == Consolidate(Groups(items)[k], assetId);
      ConsolidateFacts(Groups(items)[k], assetId);
      GroupNonempty(items, k);
      assert HasKey(Groups(items)[k], key);
    }
    if HasKey(items, key) {
      var o :| o in items && key in KeySet(o);
      var k := GroupContaining(items, o);
      ConsolidateFacts(Groups(items)[k], assetId);
      assert HasKey(Groups(items)[k], key);
      assert Consolidate(Groups(items)[k], assetId) in Correlate(items, assetId);
    }
  }

  // ---- independence from the input order ---------------------------------------------------

  /** The identifier digest tells apart any two key tuples drawn from `K`. */
  ghost predicate Distinguishes(assetId: seq<string> -> string, K: set<string>) {
    forall p: seq<string>, q: seq<string> ::
      (forall k :: k in p ==> k in K) && (forall k :: k in q ==> k in K) && assetId(p) == assetId(q) ==> p == q
  }

  /** No two assets carry one id. */
  ghost predicate DistinctAssetIds(assets: seq<Asset>) {
    forall x, y :: x in assets && y in assets && x.assetId == y.assetId ==> x == y
  }

  ghost function Component(S: set<Observation>, o: Observation): set<Observation> {
    set x | x in S && Linked(S, o, x)
  }

  /** `a` is the consolidation of the observations in `C`, taken in some order. */
  ghost predicate Consolidates(a: Asset, C: set<Observation>, assetId: seq<string> -> string) {
    exists g: seq<Observation> :: NoDup(g) && (forall o :: o in g <==> o in C) && a == Consolidate(g, assetId)
  }

  /** One observation per row name, in whatever order they come. */
  ghost predicate RowsIdentify(items: seq<Observation>) {
    forall x, y :: x in items && y in items && RowName(x) == RowName(y) ==> x == y
  }

  lemma DistinctRowsMeans(items: seq<Observation>)
    ensures DistinctRows(items) <==> NoDup(items) && RowsIdentify(items)
  {
    if NoDup(items) && RowsIdentify(items) {
      forall i, j | 0 <= i < j < |items| ensures RowName(items[i]) != RowName(items[j]) {
        assert items[i] in items && items[j] in items;
      }
    }
  }

  lemma NeverTiesRows(g: seq<Observation>)
    requires RowsIdentify(g)
    ensures NeverTies(g, ObservationLe)
  {
    forall x, y | x in g && y in g && ObservationLe(x, y) && ObservationLe(y, x) ensures x == y {
      if x.source == y.source {
        StrLeAntisymmetric(x.sourceRecordId, y.sourceRecordId);
      } else {
        StrLeAntisymmetric(x.source, y.source);
      }
      assert RowName(x) == RowName(y);
    }
  }

  /** Consolidation does not depend on the order of a group whose rows are distinct. */
  lemma ConsolidateAnyOrder(g: seq<Observation>, h: seq<Observation>, assetId: seq<string> -> string)
    requires multiset(g) == multiset(h) && RowsIdentify(g)
    ensures Consolidate(g, assetId) == Consolidate(h, assetId)
  {
    ObservationLeIsTotalPreorder();
    SortPermutes(g, ObservationLe);
    SortPermutes(h, ObservationLe);
    SortSorts(g, ObservationLe);
    SortSorts(h, ObservationLe);
    var s := Sort(g, ObservationLe);
    assert RowsIdentify(s);
    NeverTiesRows(s);
    SortedUnique(s, Sort(h, ObservationLe), ObservationLe);
  }

  lemma {:induction false} GroupNoDup(items: seq<Observation>, leader: nat, n: nat)
    requires n <= |items| && NoDup(items)
    ensures NoDup(GroupOf(items, leader, n))
  {
    hide Linked, IsLeader;
    if n > 0 {
      GroupNoDup(items, leader, n - 1);
      var g := GroupOf(items, leader, n - 1);
      GroupMembers(items, leader, n - 1);
      forall i | 0 <= i < |g| ensures g[i] != items[n - 1] {
        assert g[i] in g;
      }
    }
  }

  /** The output is determined by the set of observations: its elements are the
      consolidated components. */
  lemma AssetsAreComponents(items: seq<Observation>, assetId: seq<string> -> string, a: Asset)
    requires DistinctRows(items)
    ensures a in Correlate(items, assetId) <==>
            exists o :: o in items && Consolidates(a, Component(Range(items), o), assetId)
  {
    hide Linked, Groups, Consolidate, Correlate, Component, Range, DistinctRows;
    var S := Range(items);
    DistinctRowsMeans(items);
    AssetsAreGroups(items, assetId);
    if a in Correlate(items, assetId) {
      var k :| 0 <= k < |Groups(items)| && a == Consolidate(Groups(items)[k], assetId);
      var g := Groups(items)[k];
      GroupNonempty(items, k);
      ComponentOfGroup(items, k, g[0]);
      assert Consolidates(a, Component(S, g[0]), assetId);
    }
    if o :| o in items && Consolidates(a, Component(S, o), assetId) {
      var k := GroupContaining(items, o);
      ComponentOfGroup(items, k, o);
      var h :| NoDup(h) && (forall x :: x in h <==> x in Component(S, o)) && a == Consolidate(h, assetId);
      NoDupSameElements(Groups(items)[k], h);
      GroupNonempty(items, k);
      ConsolidateAnyOrder(Groups(items)[k], h, assetId);
    }
  }

  lemma ComponentOfGroup(items: seq<Observation>, k: nat, o: Observation)
    requires DistinctRows(items) && k < |Groups(items)| && o in Groups(items)[k]
    ensures NoDup(Groups(items)[k])
    ensures forall x :: x in Groups(items)[k] <==> x in Component(Range(items), o)
  {
    DistinctRowsMeans(items);
    var leader := Leaders(items, |items|)[k];
    assert leader in Leaders(items, |items|);
    GroupNoDup(items, leader, |items|);
    GroupIsComponent(items, leader, o);
    GroupNonempty(items, k);
  }

  /** Asset ids never tie: the digest distinguishes disjoint key tuples. */
  lemma AssetIdsDistinct(items: seq<Observation>, assetId: seq<string> -> string)
    requires Distinguishes(assetId, AllKeys(items))
    ensures DistinctAssetIds(Correlate(items, assetId))
  {
    var A := Correlate(items, assetId);
    DistinctAssetsDisjoint(items, assetId);
    forall x, y | x in A && y in A && x.assetId == y.assetId ensures x == y {
      forall key | key in x.correlationKeys || key in y.correlationKeys ensures key in AllKeys(items) {
        KeysCovered(items, assetId, key);
      }
      assert x.correlationKeys == y.correlationKeys;
      assert x.correlationKeys[0] in y.correlationKeys;
      assert !KeysDisjoint(x, y);
    }
  }

  lemma DistinctIdsNeverTie(assets: seq<Asset>)
    requires DistinctAssetIds(assets)
    ensures NeverTies(assets, AssetLe)
  {
    forall x, y | x in assets && y in assets && AssetLe(x, y) && AssetLe(y, x) ensures x == y {
      StrLeAntisymmetric(x.assetId, y.assetId);
    }
  }

  lemma SortedAssets(items: seq<Observation>, assetId: seq<string> -> string)
    ensures Sorted(Correlate(items, assetId), AssetLe)
  {
    AssetLeIsTotalPreorder();
    SortSorts(ConsolidateAll(Groups(items), assetId), AssetLe);
  }

  lemma SameRange(items: seq<Observation>, permuted: seq<Observation>)
    requires DistinctRows(items) && multiset(items) == multiset(permuted)
    ensures Range(items) == Range(permuted) && DistinctRows(permuted)
    ensures forall o :: o in items <==> o in permuted
  {
    SamePermutation(items, permuted);
    DistinctRowsMeans(items);
    DistinctRowsMeans(permuted);
    NoDupPermutation(items, permuted);
    assert RowsIdentify(permuted);
    RangeMembers(items);
    RangeMembers(permuted);
  }

  lemma PermutedSame(items: seq<Observation>, permuted: seq<Observation>, assetId: seq<string> -> string)
    requires DistinctRows(items) && multiset(items) == multiset(permuted)
    requires DistinctAssetIds(Correlate(items, assetId))
    ensures Correlate(permuted, assetId) == Correlate(items, assetId)
  {
    SameRange(items, permuted);
    SortedAssets(items, assetId);
    SortedAssets(permuted, assetId);
    DistinctIdsNeverTie(Correlate(items, assetId));
    hide Correlate, Component, Range, Consolidates, DistinctRows, DistinctAssetIds;
    var A, B := Correlate(items, assetId), Correlate(permuted, assetId);
    forall a ensures a in A <==> a in B {
      AssetsAreComponents(items, assetId, a);
      AssetsAreComponents(permuted, assetId, a);
    }
    DistinctAssetsDisjoint(items, assetId);
    DistinctAssetsDisjoint(permuted, assetId);
    NoDupSameElements(A, B);
    SortedUnique(A, B, AssetLe);
  }
}
