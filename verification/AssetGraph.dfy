/** Correlation of observations into assets: the loop of `correlate_assets` against the
    connected components of the graph whose edges are shared strong identity keys.
 */
module AssetGraph {
  import opened Ordering
  import opened Models
  import opened UnionFind

  datatype Asset = Asset(
    assetId: string,
    kinds: seq<string>,
    hostnames: seq<string>,
    ipAddresses: seq<string>,
    sources: seq<string>,
    correlationKeys: seq<string>,
    observations: seq<Observation>)

  // ---- the graph ---------------------------------------------------------------

  predicate Share(a: Observation, b: Observation) {
    KeySet(a) * KeySet(b) != {}
  }

  ghost predicate IsPath(S: set<Observation>, p: seq<Observation>) {
    && p != []
    && (forall i :: 0 <= i < |p| ==> p[i] in S)
    && (forall i, j :: 0 <= i < j < |p| && j == i + 1 ==> Share(p[i], p[j]))
  }

  ghost predicate Joins(S: set<Observation>, p: seq<Observation>, a: Observation, b: Observation) {
    IsPath(S, p) && p[0] == a && p[|p| - 1] == b
  }

  /** `a` and `b` are connected by a chain of observations in `S` that share keys pairwise. */
  ghost predicate Linked(S: set<Observation>, a: Observation, b: Observation) {
    exists p :: Joins(S, p, a, b)
  }

  lemma LinkedEdge(S: set<Observation>, a: Observation, b: Observation)
    requires a in S && b in S && Share(a, b)
    ensures Linked(S, a, b)
  {
    assert Joins(S, [a, b], a, b);
  }

  lemma LinkedSelf(S: set<Observation>, a: Observation)
    requires a in S
    ensures Linked(S, a, a)
  {
    assert Joins(S, [a], a, a);
  }

  lemma LinkedTransitive(S: set<Observation>, a: Observation, b: Observation, c: Observation)
    requires Linked(S, a, b) && Linked(S, b, c)
    ensures Linked(S, a, c)
  {
    var p :| Joins(S, p, a, b);
    var q :| Joins(S, q, b, c);
    var r := p + q[1..];
    forall i, j | 0 <= i < j < |r| && j == i + 1 ensures Share(r[i], r[j]) {
      if j < |p| {
        assert Share(p[i], p[j]);
      } else {
        var m, n := i - |p| + 1, j - |p| + 1;
        assert r[j] == q[n] && r[i] == q[m];
        assert Share(q[m], q[n]);
      }
    }
    assert Joins(S, r, a, c);
  }

  lemma LinkedSymmetric(S: set<Observation>, a: Observation, b: Observation)
    requires Linked(S, a, b)
    ensures Linked(S, b, a)
  {
    var p :| Joins(S, p, a, b);
    var r := seq(|p|, i requires 0 <= i < |p| => p[|p| - 1 - i]);
    forall i, j | 0 <= i < j < |r| && j == i + 1 ensures Share(r[i], r[j]) {
      assert Share(p[|p| - 1 - j], p[|p| - 1 - i]);
    }
    assert Joins(S, r, b, a);
  }

  /** No chain leaves a part of the graph that shares no key with the rest. */
  lemma LinkedStaysInside(S: set<Observation>, C: set<Observation>, a: Observation, b: Observation)
    requires a in C && Linked(S, a, b)
    requires forall x, y :: x in C && y in S && Share(x, y) ==> y in C
    ensures b in C
  {
    var p :| Joins(S, p, a, b);
    var i := 0;
    while i < |p| - 1
      invariant 0 <= i < |p| && p[i] in C
    {
      assert Share(p[i], p[i + 1]);
      i := i + 1;
    }
  }

  lemma LinkedMembers(S: set<Observation>, a: Observation, b: Observation)
    requires Linked(S, a, b)
    ensures a in S && b in S
  {
    var p :| Joins(S, p, a, b);
  }

  lemma LinkedMonotone(S: set<Observation>, T: set<Observation>, a: Observation, b: Observation)
    requires S <= T && Linked(S, a, b)
    ensures Linked(T, a, b)
  {
    var p :| Joins(S, p, a, b);
    assert Joins(T, p, a, b);
  }

  function Range(items: seq<Observation>): set<Observation> {
    set i | 0 <= i < |items| :: items[i]
  }

  lemma RangeMembers(items: seq<Observation>)
    ensures forall o :: o in Range(items) <==> o in items
  {
  }

  // ---- components and their leaders ------------------------------------------------

  ghost predicate IsLeader(items: seq<Observation>, i: nat, j: nat) {
    && j <= i < |items|
    && Linked(Range(items), items[i], items[j])
    && forall k: nat :: k < j ==> !Linked(Range(items), items[i], items[k])
  }

  lemma {:induction false} LeaderExists(items: seq<Observation>, i: nat, bound: nat)
    requires i < |items| && bound <= i
    requires Linked(Range(items), items[i], items[bound])
    ensures exists j :: IsLeader(items, i, j)
  {
    if k: nat :| k < bound && Linked(Range(items), items[i], items[k]) {
      LeaderExists(items, i, k);
    } else {
      assert IsLeader(items, i, bound);
    }
  }

  /** The least index of the component of `items[i]`. */
  ghost function Leader(items: seq<Observation>, i: nat): (j: nat)
    requires i < |items|
    ensures IsLeader(items, i, j)
  {
    LinkedSelf(Range(items), items[i]);
    LeaderExists(items, i, i);
    var j :| IsLeader(items, i, j);
    j
  }

  /** Two positions have the same leader exactly when a chain of keys links them. */
  lemma SameLeader(items: seq<Observation>, i: nat, j: nat)
    requires i < |items| && j < |items|
    ensures Leader(items, i) == Leader(items, j) <==> Linked(Range(items), items[i], items[j])
  {
    var S := Range(items);
    var l, m := Leader(items, i), Leader(items, j);
    if l == m {
      LinkedSymmetric(S, items[j], items[m]);
      LinkedTransitive(S, items[i], items[l], items[j]);
    }
    if Linked(S, items[i], items[j]) {
      LinkedTransitive(S, items[i], items[j], items[m]);
      LinkedSymmetric(S, items[i], items[j]);
      LinkedTransitive(S, items[j], items[i], items[l]);
    }
  }

  lemma LeaderOfLeader(items: seq<Observation>, i: nat)
    requires i < |items|
    ensures Leader(items, Leader(items, i)) == Leader(items, i)
  {
    SameLeader(items, i, Leader(items, i));
  }

  // ---- groups, in the order the dictionary keeps them ---------------------------------

  /** The leaders below `n`, ascending: the insertion order of the group dictionary. */
  ghost function Leaders(items: seq<Observation>, n: nat): (r: seq<nat>)
    requires n <= |items|
    ensures forall k: nat :: k in r <==> k < n && Leader(items, k) == k
  {
    if n == 0 then []
    else Leaders(items, n - 1) + (if Leader(items, n - 1) == n - 1 then [n - 1] else [])
  }

  /** The observations below `n` led by `leader`, in input order. */
  ghost function GroupOf(items: seq<Observation>, leader: nat, n: nat): seq<Observation>
    requires n <= |items|
  {
    if n == 0 then []
    else GroupOf(items, leader, n - 1) + (if Leader(items, n - 1) == leader then [items[n - 1]] else [])
  }

  ghost function Groups(items: seq<Observation>): (r: seq<seq<Observation>>)
    ensures |r| == |Leaders(items, |items|)|
    ensures forall k :: 0 <= k < |r| ==> r[k] == GroupOf(items, Leaders(items, |items|)[k], |items|)
  {
    seq(|Leaders(items, |items|)|, k requires 0 <= k < |Leaders(items, |items|)| =>
      GroupOf(items, Leaders(items, |items|)[k], |items|))
  }

  // ---- consolidation -----------------------------------------------------------------

  predicate ObservationLe(a: Observation, b: Observation) {
    if a.source == b.source then StrLe(a.sourceRecordId, b.sourceRecordId) else StrLe(a.source, b.source)
  }

  predicate AssetLe(a: Asset, b: Asset) {
    StrLe(a.assetId, b.assetId)
  }

  lemma ObservationLeIsTotalPreorder()
    ensures TotalPreorder(ObservationLe)
  {
    StrLeIsTotalPreorder();
    forall a, b, c | ObservationLe(a, b) && ObservationLe(b, c) ensures ObservationLe(a, c) {
      if a.source == c.source && a.source != b.source {
        StrLeAntisymmetric(a.source, b.source);
      }
    }
  }

  lemma AssetLeIsTotalPreorder()
    ensures TotalPreorder(AssetLe)
  {
    StrLeIsTotalPreorder();
  }

  function AllKeys(observations: seq<Observation>): (r: set<string>)
    ensures forall k :: k in r <==> exists i :: 0 <= i < |observations| && k in KeySet(observations[i])
  {
    if observations == [] then {} else KeySet(observations[0]) + AllKeys(observations[1..])
  }

  function Hostnames(o: Observation): set<string> {
    if Present(o.hostname) then {o.hostname.value} else {}
  }

  function HostnamesIn(group: seq<Observation>): set<string> {
    set i, h | 0 <= i < |group| && h in Hostnames(group[i]) :: h
  }

  function KindsIn(group: seq<Observation>): set<string> {
    set i | 0 <= i < |group| :: group[i].kind
  }

  function SourcesIn(group: seq<Observation>): set<string> {
    set i | 0 <= i < |group| :: group[i].source
  }

  function AddressesIn(group: seq<Observation>): set<string> {
    set i, a | 0 <= i < |group| && a in group[i].ipAddresses :: a
  }

  function Consolidate(group: seq<Observation>, assetId: seq<string> -> string): Asset {
    var ordered := Sort(group, ObservationLe);
    var keys := SortedSet(AllKeys(ordered));
    Asset(assetId(keys),
          SortedSet(KindsIn(ordered)),
          SortedSet(HostnamesIn(ordered)),
          SortedSet(AddressesIn(ordered)),
          SortedSet(SourcesIn(ordered)),
          keys,
          ordered)
  }

  function ConsolidateAll(groups: seq<seq<Observation>>, assetId: seq<string> -> string): (r: seq<Asset>)
    ensures |r| == |groups|
    ensures forall k :: 0 <= k < |r| ==> r[k] == Consolidate(groups[k], assetId)
  {
    seq(|groups|, k requires 0 <= k < |groups| => Consolidate(groups[k], assetId))
  }

  /** What correlation means: consolidate every connected component, sort by asset id. */
  ghost function Correlate(items: seq<Observation>, assetId: seq<string> -> string): seq<Asset> {
    Sort(ConsolidateAll(Groups(items), assetId), AssetLe)
  }

  // ---- the union-find loop --------------------------------------------------------------

  /** Every union so far joined observations that a chain of keys really links. */
  ghost predicate RootsLinked(items: seq<Observation>, p: seq<nat>) {
    && Downward(p) && |p| == |items|
    && forall i :: 0 <= i < |p| ==> Linked(Range(items), items[i], items[Root(p, i)])
  }

  ghost predicate OwnersHoldKeys(items: seq<Observation>, owners: map<string, nat>) {
    forall k :: k in owners ==> owners[k] < |items| && k in KeySet(items[owners[k]])
  }

  /** Key `k` of observation `i` is indexed, and `i` sits in the tree of its first owner. */
  ghost predicate Joined(p: seq<nat>, owners: map<string, nat>, i: nat, k: string)
    requires Downward(p) && i < |p|
  {
    k in owners && owners[k] < |p| && Root(p, owners[k]) == Root(p, i)
  }

  ghost predicate AllJoined(items: seq<Observation>, p: seq<nat>, owners: map<string, nat>, n: nat)
    requires Downward(p) && |p| == |items| && n <= |items|
  {
    forall i: nat, k :: i < n && k in KeySet(items[i]) ==> Joined(p, owners, i, k)
  }

  lemma UnionKeepsRootsLinked(items: seq<Observation>, p: seq<nat>, q: seq<nat>, l: nat, r: nat)
    requires RootsLinked(items, p) && l < |p| && r < |p|
    requires Share(items[l], items[r])
    requires TreesJoined(p, q, l, r)
    ensures RootsLinked(items, q)
  {
    var S := Range(items);
    var a, b := Root(p, l), Root(p, r);
    LinkedEdge(S, items[l], items[r]);
    LinkedSymmetric(S, items[l], items[a]);
    LinkedTransitive(S, items[a], items[l], items[r]);
    LinkedTransitive(S, items[a], items[r], items[b]);
    LinkedSymmetric(S, items[a], items[b]);
    forall i | 0 <= i < |q| ensures Linked(S, items[i], items[Root(q, i)]) {
      var x := Root(p, i);
      if x == a && Root(q, i) == b {
        LinkedTransitive(S, items[i], items[a], items[b]);
      } else if x == b && Root(q, i) == a {
        LinkedTransitive(S, items[i], items[b], items[a]);
      }
    }
  }

  /** Once every key is indexed, a root is the least index of its component. */
  lemma RootsAreLeaders(items: seq<Observation>, p: seq<nat>, owners: map<string, nat>)
    requires RootsLinked(items, p)
    requires AllJoined(items, p, owners, |items|)
    ensures forall i: nat :: i < |p| ==> Root(p, i) == Leader(items, i)
  {
    forall i: nat | i < |p| ensures Root(p, i) == Leader(items, i) {
      RootIsLeader(items, p, owners, i);
    }
    hide *;
  }

  /** The observations in the tree of `r`. */
  ghost function TreeOf(items: seq<Observation>, p: seq<nat>, r: nat): set<Observation>
    requires Downward(p) && |p| == |items|
  {
    set j: nat | j < |p| && Root(p, j) == r :: items[j]
  }

  lemma TreeClosed(items: seq<Observation>, p: seq<nat>, owners: map<string, nat>, r: nat, x: Observation, y: Observation)
    requires RootsLinked(items, p) && AllJoined(items, p, owners, |items|)
    requires x in TreeOf(items, p, r) && y in Range(items) && Share(x, y)
    ensures y in TreeOf(items, p, r)
  {
    hide Root, Downward, KeySet, Linked;
    var j: nat :| j < |p| && Root(p, j) == r && items[j] == x;
    var m: nat :| m < |items| && items[m] == y;
    var k :| k in KeySet(x) && k in KeySet(y);
    assert Joined(p, owners, j, k) && Joined(p, owners, m, k);
  }

  lemma RootIsLeader(items: seq<Observation>, p: seq<nat>, owners: map<string, nat>, i: nat)
    requires RootsLinked(items, p) && AllJoined(items, p, owners, |items|) && i < |p|
    ensures Root(p, i) == Leader(items, i)
  {
    var S, r, l := Range(items), Root(p, i), Leader(items, i);
    var C := TreeOf(items, p, r);
    hide Root, Downward, KeySet, Linked, Share, AllJoined;
    forall x, y | x in C && y in S && Share(x, y) ensures y in C {
      TreeClosed(items, p, owners, r, x, y);
    }
    assert items[i] in C;
    LinkedStaysInside(S, C, items[i], items[l]);
    var j: nat :| j < |p| && Root(p, j) == r && items[j] == items[l];
    SameKeysSameRoot(items, p, owners, j, l);
    assert r <= l by { RootBelow(p, l); }
  }

  lemma RootBelow(p: seq<nat>, i: nat)
    requires Downward(p) && i < |p|
    ensures Root(p, i) <= i
  {
  }

  lemma SameKeysSameRoot(items: seq<Observation>, p: seq<nat>, owners: map<string, nat>, i: nat, j: nat)
    requires RootsLinked(items, p) && AllJoined(items, p, owners, |items|)
    requires i < |p| && j < |p| && items[i] == items[j]
    ensures Root(p, i) == Root(p, j)
  {
    var k := SourceKey(items[i]);
    assert k in KeySet(items[i]) && k in KeySet(items[j]);
    assert Joined(p, owners, i, k) && Joined(p, owners, j, k);
  }

  ghost predicate KeysJoined(p: seq<nat>, owners: map<string, nat>, i: nat, keys: seq<string>)
    requires Downward(p) && i < |p|
  {
    forall k :: k in keys ==> Joined(p, owners, i, k)
  }

  /** What the key loop keeps: keys of earlier observations, and `done` of this one, are joined. */
  ghost predicate Indexed(items: seq<Observation>, p: seq<nat>, owners: map<string, nat>, index: nat, done: seq<string>)
    requires index < |items|
  {
    && RootsLinked(items, p) && OwnersHoldKeys(items, owners)
    && AllJoined(items, p, owners, index) && KeysJoined(p, owners, index, done)
  }

  /** `q` is the forest `p` after the trees of `l` and `r` were joined under the lesser root. */
  ghost predicate TreesJoined(p: seq<nat>, q: seq<nat>, l: nat, r: nat)
    requires Downward(p) && l < |p| && r < |p|
  {
    && Downward(q) && |q| == |p|
    && var a, b := Root(p, l), Root(p, r);
       forall i :: 0 <= i < |p| ==>
         Root(q, i) == if Root(p, i) == a || Root(p, i) == b then (if a <= b then a else b) else Root(p, i)
  }

  lemma JoinKeepsJoined(p: seq<nat>, q: seq<nat>, l: nat, r: nat, owners: map<string, nat>, i: nat, k: string)
    requires Downward(p) && l < |p| && r < |p| && TreesJoined(p, q, l, r)
    requires i < |p| && Joined(p, owners, i, k)
    ensures Joined(q, owners, i, k)
  {
    hide Root, Downward;
  }

  lemma JoinKeepsIndexed(items: seq<Observation>, p: seq<nat>, q: seq<nat>, owners: map<string, nat>, index: nat,
                         done: seq<string>, key: string)
    requires index < |items| && Indexed(items, p, owners, index, done)
    requires key in KeySet(items[index]) && key in owners
    requires TreesJoined(p, q, index, owners[key])
    ensures Indexed(items, q, owners, index, done + [key])
  {
    assert key in KeySet(items[index]) * KeySet(items[owners[key]]);
    UnionKeepsRootsLinked(items, p, q, index, owners[key]);
    assert Joined(q, owners, index, key);
    hide Root, Linked, KeySet, Share, TreesJoined, Joined, RootsLinked, OwnersHoldKeys;
    EarlierStayJoined(items, p, q, owners, index, index, owners[key]);
    DoneStayJoined(p, q, owners, index, done, key);
  }

  lemma EarlierStayJoined(items: seq<Observation>, p: seq<nat>, q: seq<nat>, owners: map<string, nat>, n: nat, l: nat, r: nat)
    requires Downward(p) && |p| == |items| && n <= |items| && l < |p| && r < |p| && TreesJoined(p, q, l, r)
    requires AllJoined(items, p, owners, n)
    ensures AllJoined(items, q, owners, n)
  {
    hide Root, KeySet, Joined;
    forall i: nat, k | i < n && k in KeySet(items[i]) ensures Joined(q, owners, i, k) {
      JoinKeepsJoined(p, q, l, r, owners, i, k);
    }
  }

  lemma DoneStayJoined(p: seq<nat>, q: seq<nat>, owners: map<string, nat>, index: nat, done: seq<string>, key: string)
    requires Downward(p) && index < |p| && key in owners && owners[key] < |p| && TreesJoined(p, q, index, owners[key])
    requires KeysJoined(p, owners, index, done) && Joined(q, owners, index, key)
    ensures KeysJoined(q, owners, index, done + [key])
  {
    hide Root, Joined;
    forall k | k in done ensures Joined(q, owners, index, k) {
      JoinKeepsJoined(p, q, index, owners[key], owners, index, k);
    }
  }

  lemma ClaimKeepsIndexed(items: seq<Observation>, p: seq<nat>, owners: map<string, nat>, index: nat,
                          done: seq<string>, key: string)
    requires index < |items| && Indexed(items, p, owners, index, done)
    requires key in KeySet(items[index]) && key !in owners
    ensures Indexed(items, p, owners[key := index], index, done + [key])
  {
    hide Root, Downward, Linked, KeySet;
    forall i: nat, k | i < index && k in KeySet(items[i]) ensures Joined(p, owners[key := index], i, k) {
      assert Joined(p, owners, i, k);
    }
    forall k | k in done + [key] ensures Joined(p, owners[key := index], index, k) {
      if k in done { assert Joined(p, owners, index, k); }
    }
  }

  /** The inner loop: index every key of observation `index`, joining it to first owners. */
  method IndexKeys(items: seq<Observation>, parents: array<nat>, owners: map<string, nat>, index: nat)
    returns (newOwners: map<string, nat>)
    requires index < |items| && Indexed(items, parents[..], owners, index, [])
    modifies parents
    ensures RootsLinked(items, parents[..]) && OwnersHoldKeys(items, newOwners)
    ensures AllJoined(items, parents[..], newOwners, index + 1)
  {
    hide AllJoined, KeysJoined, Linked, KeySet, SortedSet;
    newOwners := owners;
    var keys := IdentityKeys(items[index]);
    for n := 0 to |keys|
      invariant Indexed(items, parents[..], newOwners, index, keys[..n])
    {
      ghost var p := parents[..];
      var key := keys[n];
      assert keys[..n + 1] == keys[..n] + [key];
      assert key in keys;
      if key in newOwners {
        Union(parents, index, newOwners[key]);
        JoinKeepsIndexed(items, p, parents[..], newOwners, index, keys[..n], key);
      } else {
        ClaimKeepsIndexed(items, p, newOwners, index, keys[..n], key);
        newOwners := newOwners[key := index];
      }
    }
    assert keys[..|keys|] == keys;
    AllKeysJoined(items, parents[..], newOwners, index, keys);
  }

  lemma AllKeysJoined(items: seq<Observation>, p: seq<nat>, owners: map<string, nat>, index: nat, keys: seq<string>)
    requires index < |items| && Indexed(items, p, owners, index, keys)
    requires keys == IdentityKeys(items[index])
    ensures AllJoined(items, p, owners, index + 1)
  {
    forall i: nat, k | i < index + 1 && k in KeySet(items[i]) ensures Joined(p, owners, i, k) {
      if i == index { assert k in keys; }
    }
  }

  method BuildForest(items: seq<Observation>) returns (parents: array<nat>)
    ensures fresh(parents) && parents.Length == |items| && Downward(parents[..])
    ensures forall i: nat :: i < |items| ==> Root(parents[..], i) == Leader(items, i)
  {
    parents := new nat[|items|](i => i);
    var owners: map<string, nat> := map[];
    forall i | 0 <= i < |items| ensures Linked(Range(items), items[i], items[Root(parents[..], i)]) {
      LinkedSelf(Range(items), items[i]);
    }
    for index := 0 to |items|
      invariant fresh(parents) && parents.Length == |items|
      invariant RootsLinked(items, parents[..]) && OwnersHoldKeys(items, owners)
      invariant AllJoined(items, parents[..], owners, index)
    {
      owners := IndexKeys(items, parents, owners, index);
    }
    RootsAreLeaders(items, parents[..], owners);
  }

  ghost predicate Grouped(items: seq<Observation>, order: seq<nat>, groups: map<nat, seq<Observation>>, n: nat)
    requires n <= |items|
  {
    && (forall r :: r in groups <==> r in order)
    && (forall r :: r in groups ==> groups[r] == GroupOf(items, r, n))
  }

  lemma {:induction false} NoEarlierMember(items: seq<Observation>, r: nat, n: nat)
    requires n <= r < |items|
    ensures GroupOf(items, r, n) == []
  {
    if n > 0 { NoEarlierMember(items, r, n - 1); }
  }

  lemma LeadersNext(items: seq<Observation>, n: nat)
    requires n < |items|
    ensures Leaders(items, n + 1) == Leaders(items, n) + (if Leader(items, n) == n then [n] else [])
    ensures Leader(items, n) in Leaders(items, n) <==> Leader(items, n) < n
    ensures Leader(items, n) <= n
  {
    hide Linked;
    LeaderOfLeader(items, n);
  }

  lemma GroupNext(items: seq<Observation>, leader: nat, n: nat)
    requires n < |items|
    ensures GroupOf(items, leader, n + 1) == GroupOf(items, leader, n) + (if Leader(items, n) == leader then [items[n]] else [])
  {
    hide Linked;
  }

  lemma NothingGrouped(items: seq<Observation>)
    ensures Leaders(items, 0) == [] && Grouped(items, [], map[], 0)
  {
  }

  lemma GroupingStep(items: seq<Observation>, order: seq<nat>, groups: map<nat, seq<Observation>>, n: nat)
    requires n < |items| && order == Leaders(items, n) && Grouped(items, order, groups, n)
    ensures var root := Leader(items, n);
            var newOrder := if root in groups then order else order + [root];
            var group := if root in groups then groups[root] else [];
            newOrder == Leaders(items, n + 1) && Grouped(items, newOrder, groups[root := group + [items[n]]], n + 1)
  {
    var root := Leader(items, n);
    LeadersNext(items, n);
    if root == n { NoEarlierMember(items, n, n); }
    hide Leader, Leaders, GroupOf;
    assert root in groups <==> root < n;
    GroupsNext(items, order, groups, n);
  }

  lemma GroupsNext(items: seq<Observation>, order: seq<nat>, groups: map<nat, seq<Observation>>, n: nat)
    requires n < |items| && Grouped(items, order, groups, n)
    requires Leader(items, n) !in groups ==> GroupOf(items, Leader(items, n), n) == []
    ensures var root := Leader(items, n);
            var newOrder := if root in groups then order else order + [root];
            var group := if root in groups then groups[root] else [];
            Grouped(items, newOrder, groups[root := group + [items[n]]], n + 1)
  {
    hide Leader, GroupOf;
    var root := Leader(items, n);
    var group := if root in groups then groups[root] else [];
    OrderNext(order, groups.Keys, root);
    var newGroups := groups[root := group + [items[n]]];
    forall r | r in newGroups ensures newGroups[r] == GroupOf(items, r, n + 1) {
      GroupStays(items, r, n, if r == root then group else groups[r]);
    }
    hide *;
    GroupedParts(items, if root in groups then order else order + [root], newGroups, n + 1);
  }

  lemma GroupedParts(items: seq<Observation>, order: seq<nat>, groups: map<nat, seq<Observation>>, n: nat)
    requires n <= |items|
    requires forall r :: r in groups <==> r in order
    requires forall r :: r in groups ==> groups[r] == GroupOf(items, r, n)
    ensures Grouped(items, order, groups, n)
  {
    hide GroupOf;
  }

  lemma OrderNext(order: seq<nat>, keys: set<nat>, root: nat)
    requires forall r :: r in keys <==> r in order
    ensures forall r :: r in keys + {root} <==> r in if root in keys then order else order + [root]
  {
  }

  lemma GroupStays(items: seq<Observation>, r: nat, n: nat, group: seq<Observation>)
    requires n < |items| && group == GroupOf(items, r, n)
    ensures GroupOf(items, r, n + 1) == if r == Leader(items, n) then group + [items[n]] else group
  {
    hide *;
    GroupNext(items, r, n);
    assert group + [] == group;
  }

  /** The second loop: `groups.setdefault(find(index), []).append(observation)`. A dictionary
      keeps insertion order, so `order` lists its keys as they arrived. */
  method GroupByRoot(items: seq<Observation>, parents: array<nat>) returns (order: seq<nat>, groups: map<nat, seq<Observation>>)
    requires parents.Length == |items| && Downward(parents[..])
    requires forall i: nat :: i < |items| ==> Root(parents[..], i) == Leader(items, i)
    modifies parents
    ensures order == Leaders(items, |items|)
    ensures Grouped(items, order, groups, |items|)
  {
    hide Grouped, Leaders, Leader, GroupOf, Linked, Root, Downward;
    order, groups := [], map[];
    NothingGrouped(items);
    for index := 0 to |items|
      invariant parents.Length == |items| && Downward(parents[..])
      invariant forall i: nat :: i < |items| ==> Root(parents[..], i) == Leader(items, i)
      invariant order == Leaders(items, index)
      invariant Grouped(items, order, groups, index)
    {
      var root := Find(parents, index);
      GroupingStep(items, order, groups, index);
      var group := if root in groups then groups[root] else [];
      if root !in groups { order := order + [root]; }
      groups := groups[root := group + [items[index]]];
    }
  }

  method CorrelateAssets(items: seq<Observation>, assetId: seq<string> -> string) returns (assets: seq<Asset>)
    ensures assets == Correlate(items, assetId)
  {
    hide *;
    var parents := BuildForest(items);
    var order, groups := GroupByRoot(items, parents);
    var grouped := ListGroups(items, order, groups);
    assets := Sort(ConsolidateAll(grouped, assetId), AssetLe);
    CorrelateMeans(items, assetId);
  }

  /** `groups.values()` */
  method ListGroups(items: seq<Observation>, order: seq<nat>, groups: map<nat, seq<Observation>>) returns (grouped: seq<seq<Observation>>)
    requires order == Leaders(items, |items|) && Grouped(items, order, groups, |items|)
    ensures grouped == Groups(items)
  {
    hide Leaders, GroupOf, Leader;
    grouped := [];
    for k := 0 to |order|
      invariant |grouped| == k
      invariant forall j :: 0 <= j < k ==> grouped[j] == GroupOf(items, order[j], |items|)
    {
      assert order[k] in order;
      grouped := grouped + [groups[order[k]]];
    }
  }

  lemma CorrelateMeans(items: seq<Observation>, assetId: seq<string> -> string)
    ensures Correlate(items, assetId) == Sort(ConsolidateAll(Groups(items), assetId), AssetLe)
  {
  }
}
