/** What correlating again gives, and exactly when the order of the observations does not matter. */
module AssetOrder {
  import opened Ordering
  import opened Models
  import opened AssetGraph
  import opened AssetPartition
  import opened Identifiers
  import opened AssetIdentity

  // ---- the observations of some assets, one asset after the other --------------------------------

  /** `B` lists the assets of the output once each, in some order. */
  ghost predicate Arranges(B: seq<Asset>, items: seq<Observation>, assetId: seq<string> -> string) {
    NoDup(B) && forall x :: x in B <==> x in Correlate(items, assetId)
  }

  lemma {:induction false} FlattenHolds(B: seq<Asset>, o: Observation)
    ensures o in Flatten(B) <==> exists k :: 0 <= k < |B| && o in B[k].observations
  {
    if B != [] {
      FlattenHolds(B[1..], o);
      if k :| 0 <= k < |B| && o in B[k].observations {
        if k > 0 { assert B[1..][k - 1] == B[k]; }
      }
      if o in Flatten(B[1..]) {
        var k :| 0 <= k < |B[1..]| && o in B[1..][k].observations;
        assert B[k + 1] == B[1..][k];
      }
    }
  }

  /** Where the observations of asset `k` start. */
  function Start(B: seq<Asset>, k: nat): nat
    requires k <= |B|
  {
    |Flatten(B[..k])|
  }

  lemma FlattenSplit(B: seq<Asset>, k: nat)
    requires k < |B|
    ensures Flatten(B) == Flatten(B[..k]) + (B[k].observations + Flatten(B[k + 1..]))
  {
    assert B == B[..k] + B[k..] && B[k..] == [B[k]] + B[k + 1..];
    FlattenAppend(B[..k], B[k..]);
  }

  lemma StartNext(B: seq<Asset>, k: nat)
    requires k < |B|
    ensures Start(B, k + 1) == Start(B, k) + |B[k].observations|
  {
    assert B[..k + 1] == B[..k] + [B[k]];
    FlattenAppend(B[..k], [B[k]]);
    FlattenOne(B[k]);
  }

  lemma BlockAt(B: seq<Asset>, k: nat, m: nat)
    requires k < |B| && m < |B[k].observations|
    ensures Start(B, k) + m < |Flatten(B)| && Flatten(B)[Start(B, k) + m] == B[k].observations[m]
  {
    FlattenSplit(B, k);
  }

  lemma BeforeBlock(B: seq<Asset>, k: nat, t: nat) returns (l: nat)
    requires k < |B| && t < Start(B, k)
    ensures t < |Flatten(B)| && l < k && Flatten(B)[t] in B[l].observations
  {
    FlattenSplit(B, k);
    var o := Flatten(B[..k])[t];
    FlattenHolds(B[..k], o);
    l :| 0 <= l < |B[..k]| && o in B[..k][l].observations;
  }

  // ---- the groups of those observations -----------------------------------------------------------

  lemma ArrangedAsset(B: seq<Asset>, items: seq<Observation>, assetId: seq<string> -> string, k: nat)
    requires Arranges(B, items, assetId) && k < |B|
    ensures B[k] in Correlate(items, assetId) && B[k].observations != []
    ensures forall o :: o in B[k].observations ==> o in items
  {
    hide Correlate;
    assert B[k] in B;
    AssetTuple(items, assetId, B[k]);
    hide Arranges;
  }

  lemma OneHome(items: seq<Observation>, assetId: seq<string> -> string, x: Asset, y: Asset, o: Observation)
    requires x in Correlate(items, assetId) && y in Correlate(items, assetId)
    requires o in x.observations && o in y.observations
    ensures x == y
  {
    AssetTuple(items, assetId, x);
    AssetTuple(items, assetId, y);
    DistinctAssetsDisjoint(items, assetId);
    hide Correlate, StrictlySorted;
    assert SourceKey(o) in KeySet(o);
    hide KeySet;
    assert HasKey(x.observations, SourceKey(o)) && HasKey(y.observations, SourceKey(o));
    CommonKey(x, y, SourceKey(o));
    hide KeysDisjoint;
  }

  lemma ArrangedRange(B: seq<Asset>, items: seq<Observation>, assetId: seq<string> -> string)
    requires Arranges(B, items, assetId)
    ensures Range(Flatten(B)) == Range(items)
  {
    var A := Correlate(items, assetId);
    EveryObservationOnce(items, assetId);
    SamePermutation(Flatten(A), items);
    RangeMembers(items);
    RangeMembers(Flatten(B));
    hide *;
    forall o ensures o in Range(Flatten(B)) <==> o in Range(items) {
      ArrangedMembers(B, items, assetId, o);
    }
  }

  lemma ArrangedMembers(B: seq<Asset>, items: seq<Observation>, assetId: seq<string> -> string, o: Observation)
    requires Arranges(B, items, assetId)
    ensures o in Flatten(B) <==> o in Flatten(Correlate(items, assetId))
  {
    var A := Correlate(items, assetId);
    FlattenHolds(A, o);
    FlattenHolds(B, o);
    hide Correlate, Flatten;
    if k :| 0 <= k < |B| && o in B[k].observations {
      assert B[k] in B && B[k] in A;
      var l :| 0 <= l < |A| && A[l] == B[k];
    }
    if k :| 0 <= k < |A| && o in A[k].observations {
      assert A[k] in A && A[k] in B;
      var l :| 0 <= l < |B| && B[l] == A[k];
    }
  }

  /** Observations are linked exactly when they belong to one asset. */
  lemma ArrangedLinked(B: seq<Asset>, items: seq<Observation>, assetId: seq<string> -> string, k: nat, l: nat, a: Observation, b: Observation)
    requires Arranges(B, items, assetId) && k < |B| && l < |B| && a in B[k].observations && b in B[l].observations
    ensures Linked(Range(Flatten(B)), a, b) <==> k == l
  {
    ArrangedRange(B, items, assetId);
    ArrangedAsset(B, items, assetId, k);
    ArrangedAsset(B, items, assetId, l);
    TogetherIffLinked(items, assetId, a, b);
    hide Correlate, Linked, Range, Flatten;
    if x :| x in Correlate(items, assetId) && a in x.observations && b in x.observations {
      OneHome(items, assetId, x, B[k], a);
      OneHome(items, assetId, x, B[l], b);
      assert k == l;
    }
    assert B[k] in Correlate(items, assetId);
  }

  lemma LeaderOfBlock(B: seq<Asset>, items: seq<Observation>, assetId: seq<string> -> string, k: nat, m: nat)
    requires Arranges(B, items, assetId) && k < |B| && m < |B[k].observations|
    ensures Start(B, k) + m < |Flatten(B)| && Leader(Flatten(B), Start(B, k) + m) == Start(B, k)
  {
    var F, s, i := Flatten(B), Start(B, k), Start(B, k) + m;
    BlockAt(B, k, m);
    BlockAt(B, k, 0);
    var leader := Leader(F, i);
    assert IsLeader(F, i, leader);
    hide Flatten, Arranges, Start, Leader, Linked;
    ArrangedLinked(B, items, assetId, k, k, F[i], F[s]);
    if leader < s {
      var l := BeforeBlock(B, k, leader);
      ArrangedLinked(B, items, assetId, k, l, F[i], F[leader]);
    }
  }

  /** The groups found in the first `m` observations of asset `k`. */
  lemma {:induction false} BlockGrouped(B: seq<Asset>, items: seq<Observation>, assetId: seq<string> -> string, k: nat, m: nat, leader: nat)
    requires Arranges(B, items, assetId) && k < |B| && m <= |B[k].observations|
    ensures Start(B, k) + m <= |Flatten(B)|
    ensures Leaders(Flatten(B), Start(B, k) + m) == Leaders(Flatten(B), Start(B, k)) + (if m > 0 then [Start(B, k)] else [])
    ensures GroupOf(Flatten(B), leader, Start(B, k) + m) ==
            GroupOf(Flatten(B), leader, Start(B, k)) + (if leader == Start(B, k) then B[k].observations[..m] else [])
  {
    hide *;
    BlockInside(B, k);
    var F, s, rows := Flatten(B), Start(B, k), B[k].observations;
    if m == 0 {
      assert rows[..0] == [];
    } else {
      BlockGrouped(B, items, assetId, k, m - 1, leader);
      LeaderOfBlock(B, items, assetId, k, m - 1);
      BlockAt(B, k, m - 1);
      LeadersNext(F, s + m - 1);
      GroupNext(F, leader, s + m - 1);
      assert rows[..m] == rows[..m - 1] + [rows[m - 1]];
    }
  }

  lemma BlockInside(B: seq<Asset>, k: nat)
    requires k < |B|
    ensures Start(B, k) + |B[k].observations| <= |Flatten(B)|
  {
    FlattenSplit(B, k);
  }

  /** All observations of asset `k` are one group, and they leave the other groups alone. */
  lemma WholeBlockGrouped(B: seq<Asset>, items: seq<Observation>, assetId: seq<string> -> string, k: nat, leader: nat)
    requires Arranges(B, items, assetId) && k < |B|
    ensures Start(B, k) <= Start(B, k + 1) <= |Flatten(B)|
    ensures Leaders(Flatten(B), Start(B, k + 1)) == Leaders(Flatten(B), Start(B, k)) + [Start(B, k)]
    ensures GroupOf(Flatten(B), leader, Start(B, k + 1)) ==
            GroupOf(Flatten(B), leader, Start(B, k)) + (if leader == Start(B, k) then B[k].observations else [])
  {
    hide *;
    var rows := B[k].observations;
    StartNext(B, k);
    ArrangedAsset(B, items, assetId, k);
    BlockGrouped(B, items, assetId, k, |rows|, leader);
    assert rows[..|rows|] == rows;
  }

  lemma NextGroupEmpty(B: seq<Asset>, items: seq<Observation>, assetId: seq<string> -> string, k: nat)
    requires Arranges(B, items, assetId) && k < |B|
    ensures Start(B, k) <= |Flatten(B)| && GroupOf(Flatten(B), Start(B, k), Start(B, k)) == []
  {
    hide *;
    ArrangedAsset(B, items, assetId, k);
    BlockAt(B, k, 0);
    NoEarlierMember(Flatten(B), Start(B, k), Start(B, k));
  }

  /** Of the groups found before asset `k` starts, group `l` is asset `l`. */
  ghost predicate GroupIs(B: seq<Asset>, k: nat, l: nat)
    requires l < k <= |B| && Start(B, k) <= |Flatten(B)|
  {
    && l < |Leaders(Flatten(B), Start(B, k))| && Leaders(Flatten(B), Start(B, k))[l] == Start(B, l)
    && GroupOf(Flatten(B), Start(B, l), Start(B, k)) == B[l].observations
  }

  ghost predicate GroupedAs(B: seq<Asset>, k: nat)
    requires k <= |B|
  {
    && Start(B, k) <= |Flatten(B)| && |Leaders(Flatten(B), Start(B, k))| == k
    && forall l :: 0 <= l < k ==> GroupIs(B, k, l)
  }

  lemma NothingGroupedYet(B: seq<Asset>)
    ensures GroupedAs(B, 0)
  {
    assert B[..0] == [];
  }

  lemma EarlierGroupKept(B: seq<Asset>, items: seq<Observation>, assetId: seq<string> -> string, k: nat, l: nat)
    requires Arranges(B, items, assetId) && l < k < |B|
    requires Start(B, k) <= |Flatten(B)| && Start(B, k + 1) <= |Flatten(B)| && GroupIs(B, k, l)
    ensures GroupIs(B, k + 1, l)
  {
    WholeBlockGrouped(B, items, assetId, k, Start(B, l));
    ArrangedAsset(B, items, assetId, l);
    EarlierStart(B, l, k);
    hide Flatten, Arranges, Start, Leaders, GroupOf, Correlate;
  }

  lemma OwnGroupFound(B: seq<Asset>, items: seq<Observation>, assetId: seq<string> -> string, k: nat)
    requires Arranges(B, items, assetId) && k < |B| && GroupedAs(B, k)
    requires Start(B, k + 1) <= |Flatten(B)|
    ensures GroupIs(B, k + 1, k)
  {
    WholeBlockGrouped(B, items, assetId, k, Start(B, k));
    NextGroupEmpty(B, items, assetId, k);
    hide Flatten, Arranges, Start, Leaders, GroupOf, Correlate;
  }

  /** The first `k` assets are the first `k` groups of their observations. */
  lemma {:induction false} BlocksGrouped(B: seq<Asset>, items: seq<Observation>, assetId: seq<string> -> string, k: nat)
    requires Arranges(B, items, assetId) && k <= |B|
    ensures GroupedAs(B, k)
  {
    hide Flatten, Arranges, Start, Leaders, GroupOf, GroupIs;
    if k == 0 {
      NothingGroupedYet(B);
    } else {
      BlocksGrouped(B, items, assetId, k - 1);
      WholeBlockGrouped(B, items, assetId, k - 1, 0);
      OwnGroupFound(B, items, assetId, k - 1);
      forall l | 0 <= l < k ensures GroupIs(B, k, l) {
        if l < k - 1 { EarlierGroupKept(B, items, assetId, k - 1, l); }
      }
    }
  }

  lemma {:induction false} EarlierStart(B: seq<Asset>, l: nat, k: nat)
    requires l < k <= |B|
    ensures Start(B, l) + |B[l].observations| <= Start(B, k)
  {
    StartNext(B, k - 1);
    if l < k - 1 { EarlierStart(B, l, k - 1); }
  }

  lemma LastStart(B: seq<Asset>)
    ensures Start(B, |B|) == |Flatten(B)|
  {
    assert B[..|B|] == B;
  }

  lemma ArrangedGroups(B: seq<Asset>, items: seq<Observation>, assetId: seq<string> -> string)
    requires Arranges(B, items, assetId)
    ensures |Groups(Flatten(B))| == |B| && forall k :: 0 <= k < |B| ==> Groups(Flatten(B))[k] == B[k].observations
  {
    BlocksGrouped(B, items, assetId, |B|);
    LastStart(B);
    hide Flatten, Arranges, Leaders, GroupOf, Start, GroupIs, Groups;
    forall k | 0 <= k < |B| ensures Groups(Flatten(B))[k] == B[k].observations {
      GroupFound(B, k);
    }
  }

  lemma GroupFound(B: seq<Asset>, k: nat)
    requires k < |B| && Start(B, |B|) == |Flatten(B)| && GroupIs(B, |B|, k)
    ensures k < |Groups(Flatten(B))| && Groups(Flatten(B))[k] == B[k].observations
  {
    hide Flatten, Leaders, GroupOf, Start;
  }

  // ---- correlating again --------------------------------------------------------------------------

  lemma ConsolidateAgain(items: seq<Observation>, assetId: seq<string> -> string, a: Asset)
    requires a in Correlate(items, assetId)
    ensures Consolidate(a.observations, assetId) == a
  {
    AssetsAreGroups(items, assetId);
    hide Correlate, Groups;
    var k :| 0 <= k < |Groups(items)| && a == Consolidate(Groups(items)[k], assetId);
    ObservationLeIsTotalPreorder();
    SortSorts(Groups(items)[k], ObservationLe);
    SortOfSorted(Sort(Groups(items)[k], ObservationLe), ObservationLe);
    hide Sort, AllKeys, HostnamesIn, KindsIn, SourcesIn, AddressesIn, ObservationLe;
  }

  lemma ArrangedAssets(B: seq<Asset>, items: seq<Observation>, assetId: seq<string> -> string)
    requires Arranges(B, items, assetId)
    ensures ConsolidateAll(Groups(Flatten(B)), assetId) == B
  {
    ArrangedGroups(B, items, assetId);
    hide Flatten, Groups, Consolidate, Correlate;
    forall k | 0 <= k < |B| ensures ConsolidateAll(Groups(Flatten(B)), assetId)[k] == B[k] {
      assert B[k] in B;
      ConsolidateAgain(items, assetId, B[k]);
    }
  }

  /** The assets of an output, in any order that sorts their ids, come back in that order. */
  lemma ArrangementReturns(B: seq<Asset>, items: seq<Observation>, assetId: seq<string> -> string)
    requires Arranges(B, items, assetId) && Sorted(B, AssetLe)
    ensures Correlate(Flatten(B), assetId) == B
  {
    ArrangedAssets(B, items, assetId);
    SortOfSorted(B, AssetLe);
    hide Flatten, Groups, ConsolidateAll;
  }

  /** Correlating the observations of an output again returns that output: for every input and every
      way to make ids. */
  lemma CorrelateAgain(items: seq<Observation>, assetId: seq<string> -> string)
    ensures Correlate(Flatten(Correlate(items, assetId)), assetId) == Correlate(items, assetId)
  {
    SortedAssets(items, assetId);
    DistinctAssetsDisjoint(items, assetId);
    hide Correlate, Flatten, KeysDisjoint;
    ArrangementReturns(Correlate(items, assetId), items, assetId);
  }

  // ---- the order of the observations --------------------------------------------------------------

  lemma {:induction false} MembersAppend(a: seq<Asset>, b: seq<Asset>)
    ensures Members(a + b) == Members(a) + Members(b)
  {
    if a == [] {
      assert a + b == b;
    } else {
      assert (a + b)[0] == a[0] && (a + b)[1..] == a[1..] + b;
      MembersAppend(a[1..], b);
    }
  }

  lemma MembersOne(x: Asset)
    ensures Members([x]) == multiset(x.observations)
  {
    assert [x][1..] == [];
  }

  /** `A` with its elements `i` and `j` exchanged. */
  function Swapped(A: seq<Asset>, i: nat, j: nat): (B: seq<Asset>)
    requires i < j < |A|
    ensures |B| == |A| && B[i] == A[j] && B[j] == A[i]
    ensures forall k :: 0 <= k < |A| && k != i && k != j ==> B[k] == A[k]
  {
    A[i := A[j]][j := A[i]]
  }

  lemma Parts(A: seq<Asset>, i: nat, j: nat)
    requires i < j < |A|
    ensures A == A[..i] + [A[i]] + A[i + 1..j] + [A[j]] + A[j + 1..]
    ensures Swapped(A, i, j) == A[..i] + [A[j]] + A[i + 1..j] + [A[i]] + A[j + 1..]
  {
  }

  lemma FiveMembers(a: seq<Asset>, x: Asset, b: seq<Asset>, y: Asset, c: seq<Asset>)
    ensures Members(a + [x] + b + [y] + c) ==
            Members(a) + multiset(x.observations) + Members(b) + multiset(y.observations) + Members(c)
  {
    hide Members;
    MembersAppend(a + [x] + b + [y], c);
    MembersAppend(a + [x] + b, [y]);
    MembersAppend(a + [x], b);
    MembersAppend(a, [x]);
    MembersOne(x);
    MembersOne(y);
  }

  lemma SwappedMembers(A: seq<Asset>, i: nat, j: nat)
    requires i < j < |A|
    ensures multiset(Flatten(Swapped(A, i, j))) == multiset(Flatten(A))
  {
    hide Members, Flatten, Swapped;
    Parts(A, i, j);
    FlattenMembers(A);
    FlattenMembers(Swapped(A, i, j));
    FiveMembers(A[..i], A[i], A[i + 1..j], A[j], A[j + 1..]);
    FiveMembers(A[..i], A[j], A[i + 1..j], A[i], A[j + 1..]);
  }

  lemma SwappedArranges(A: seq<Asset>, i: nat, j: nat)
    requires i < j < |A| && NoDup(A) && Sorted(A, AssetLe) && A[i].assetId == A[j].assetId
    ensures NoDup(Swapped(A, i, j)) && Sorted(Swapped(A, i, j), AssetLe)
    ensures forall x :: x in Swapped(A, i, j) <==> x in A
  {
    var B := Swapped(A, i, j);
    hide Swapped, StrLe;
    assert forall k :: 0 <= k < |A| ==> B[k].assetId == A[k].assetId;
    forall k, l | 0 <= k < l < |B| ensures AssetLe(B[k], B[l]) {
      assert AssetLe(A[k], A[l]);
    }
    forall x ensures x in B <==> x in A {
      if k :| 0 <= k < |A| && A[k] == x { assert B[if k == i then j else if k == j then i else k] == x; }
      if k :| 0 <= k < |B| && B[k] == x { assert A[if k == i then j else if k == j then i else k] == x; }
    }
  }

  /** Two assets of one id come out in the order their observations came in. */
  lemma TiedOrder(items: seq<Observation>, assetId: seq<string> -> string) returns (permuted: seq<Observation>)
    requires !DistinctAssetIds(Correlate(items, assetId))
    ensures multiset(permuted) == multiset(items) && Correlate(permuted, assetId) != Correlate(items, assetId)
  {
    var A := Correlate(items, assetId);
    SortedAssets(items, assetId);
    DistinctAssetsDisjoint(items, assetId);
    EveryObservationOnce(items, assetId);
    hide Correlate, Flatten, KeysDisjoint, StrLe, Swapped;
    var i, j := TiedPair(A);
    SwappedArranges(A, i, j);
    SwappedMembers(A, i, j);
    ArrangementReturns(Swapped(A, i, j), items, assetId);
    permuted := Flatten(Swapped(A, i, j));
    assert Swapped(A, i, j)[i] == A[j] && A[i] != A[j];
  }

  lemma TiedPair(A: seq<Asset>) returns (i: nat, j: nat)
    requires !DistinctAssetIds(A)
    ensures i < j < |A| && A[i].assetId == A[j].assetId
  {
    var x, y :| x in A && y in A && x.assetId == y.assetId && x != y;
    var k: nat :| k < |A| && A[k] == x;
    var l: nat :| l < |A| && A[l] == y;
    i, j := if k < l then k else l, if k < l then l else k;
  }

  ghost predicate OrderIrrelevant(items: seq<Observation>, assetId: seq<string> -> string) {
    forall permuted: seq<Observation> :: multiset(permuted) == multiset(items) ==>
      Correlate(permuted, assetId) == Correlate(items, assetId)
  }

  /** Distinct source rows give one output in every order exactly when no two assets share an id. */
  lemma AnyInputOrder(items: seq<Observation>, assetId: seq<string> -> string)
    requires DistinctRows(items)
    ensures OrderIrrelevant(items, assetId) <==> DistinctAssetIds(Correlate(items, assetId))
  {
    hide Correlate, DistinctAssetIds, DistinctRows;
    if DistinctAssetIds(Correlate(items, assetId)) {
      forall permuted: seq<Observation> | multiset(permuted) == multiset(items)
        ensures Correlate(permuted, assetId) == Correlate(items, assetId)
      {
        PermutedSame(items, permuted, assetId);
      }
    } else {
      var permuted := TiedOrder(items, assetId);
    }
  }

  /** So a batch of distinct rows without nested source keys has one output, for every injective digest. */
  lemma UnnestedAnyOrder(digest: string -> string, items: seq<Observation>)
    requires InjectiveDigest(digest) && Unnested(items) && DistinctRows(items)
    ensures OrderIrrelevant(items, AssetIds(digest))
  {
    hide *;
    UnnestedIdsDistinct(digest, items);
    AnyInputOrder(items, AssetIds(digest));
  }
}
