/** How an output changes when the input grows, and when nothing is shared. */
module AssetGrowth {
  import opened Ordering
  import opened Models
  import opened AssetGraph
  import opened AssetPartition

  /** `o` claims a key that `a` already holds. */
  ghost predicate Touches(a: Asset, o: Observation) {
    exists k :: k in a.correlationKeys && k in KeySet(o)
  }

  /** `m` replaces exactly the assets of `before` that share a key with `o`. */
  ghost predicate MergesTouched(before: seq<Asset>, after: seq<Asset>, o: Observation, m: Asset) {
    && m in after
    && (forall x :: x in m.observations <==> x == o || exists a :: a in before && Touches(a, o) && x in a.observations)
    && (forall a :: a in after <==> a == m || (a in before && !Touches(a, o)))
  }

  /** A component that shares no key with a new observation stays as it is. */
  lemma UntouchedComponent(S: set<Observation>, o: Observation, x: Observation)
    requires x in S
    requires forall z :: z in Component(S, x) ==> !Share(z, o)
    ensures Component(S + {o}, x) == Component(S, x)
  {
    var T, C := S + {o}, Component(S, x);
    LinkedSelf(S, x);
    forall u, v | u in C && v in T && Share(u, v) ensures v in C {
      if v != o {
        LinkedEdge(S, u, v);
        LinkedTransitive(S, x, u, v);
      }
    }
    forall y ensures y in Component(T, x) <==> y in C {
      if y in Component(T, x) { LinkedStaysInside(T, C, x, y); }
      if y in C { LinkedMonotone(S, T, x, y); }
    }
  }

  lemma TouchedComponent(S: set<Observation>, o: Observation, x: Observation, z: Observation)
    requires x in S && z in Component(S, x) && Share(z, o)
    ensures Linked(S + {o}, x, o) && Linked(S + {o}, o, x)
  {
    LinkedMonotone(S, S + {o}, x, z);
    LinkedEdge(S + {o}, z, o);
    LinkedTransitive(S + {o}, x, z, o);
    LinkedSymmetric(S + {o}, x, o);
  }

  lemma SameComponent(S: set<Observation>, x: Observation, y: Observation)
    requires Linked(S, x, y)
    ensures Component(S, x) == Component(S, y)
  {
    LinkedSymmetric(S, x, y);
    forall z ensures z in Component(S, x) <==> z in Component(S, y) {
      if z in Component(S, x) { LinkedTransitive(S, y, x, z); }
      if z in Component(S, y) { LinkedTransitive(S, x, y, z); }
    }
  }

  lemma ConsolidatesFacts(a: Asset, C: set<Observation>, assetId: seq<string> -> string)
    requires Consolidates(a, C, assetId)
    ensures forall x :: x in a.observations <==> x in C
    ensures forall k :: k in a.correlationKeys <==> exists z :: z in C && k in KeySet(z)
  {
    var g :| NoDup(g) && (forall o :: o in g <==> o in C) && a == Consolidate(g, assetId);
    ConsolidateFacts(g, assetId);
    forall k ensures k in a.correlationKeys <==> exists z :: z in C && k in KeySet(z) {
      if HasKey(g, k) { var z :| z in g && k in KeySet(z); }
    }
  }

  lemma ConsolidatesUnique(a: Asset, b: Asset, C: set<Observation>, assetId: seq<string> -> string)
    requires Consolidates(a, C, assetId) && Consolidates(b, C, assetId)
    requires forall x, y :: x in C && y in C && RowName(x) == RowName(y) ==> x == y
    ensures a == b
  {
    var g :| NoDup(g) && (forall o :: o in g <==> o in C) && a == Consolidate(g, assetId);
    var h :| NoDup(h) && (forall o :: o in h <==> o in C) && b == Consolidate(h, assetId);
    NoDupSameElements(g, h);
    ConsolidateAnyOrder(g, h, assetId);
  }

  /** An asset touches `o` exactly when its component holds an observation sharing a key with `o`. */
  lemma TouchesMeans(a: Asset, C: set<Observation>, o: Observation, assetId: seq<string> -> string)
    requires Consolidates(a, C, assetId)
    ensures Touches(a, o) <==> exists z :: z in C && Share(z, o)
  {
    ConsolidatesFacts(a, C, assetId);
    if Touches(a, o) {
      var k :| k in a.correlationKeys && k in KeySet(o);
      var z :| z in C && k in KeySet(z);
      assert k in KeySet(z) * KeySet(o);
    }
    if z :| z in C && Share(z, o) {
      var k :| k in KeySet(z) * KeySet(o);
      assert k in a.correlationKeys && k in KeySet(o);
    }
  }

  /** The asset of an output that contains a given observation. */
  lemma AssetOf(items: seq<Observation>, o: Observation, assetId: seq<string> -> string) returns (a: Asset)
    requires DistinctRows(items) && o in items
    ensures a in Correlate(items, assetId) && Consolidates(a, Component(Range(items), o), assetId)
  {
    var k := GroupContaining(items, o);
    ComponentOfGroup(items, k, o);
    a := Consolidate(Groups(items)[k], assetId);
    AssetsAreGroups(items, assetId);
  }

  lemma GrownAsset(items: seq<Observation>, o: Observation, assetId: seq<string> -> string, m: Asset, a: Asset)
    requires DistinctRows(items) && DistinctRows(items + [o]) && o !in items
    requires Consolidates(m, Component(Range(items + [o]), o), assetId)
    ensures a in Correlate(items + [o], assetId) <==>
            a == m || (a in Correlate(items, assetId) && !Touches(a, o))
  {
    hide Linked, Share, Correlate, DistinctRows, Consolidates;
    var S, T := Range(items), Range(items + [o]);
    RangeMembers(items);
    RangeMembers(items + [o]);
    assert T == S + {o};
    AssetsAreComponents(items, assetId, a);
    AssetsAreComponents(items + [o], assetId, a);
    if a in Correlate(items + [o], assetId) {
      var y :| y in items + [o] && Consolidates(a, Component(T, y), assetId);
      if Linked(T, y, o) {
        SameComponent(T, y, o);
        RowsOfGrown(items + [o]);
        ConsolidatesUnique(a, m, Component(T, o), assetId);
      } else {
        LinkedSelf(T, y);
        forall z | z in Component(S, y) ensures !Share(z, o) {
          if Share(z, o) { TouchedComponent(S, o, y, z); }
        }
        UntouchedComponent(S, o, y);
        TouchesMeans(a, Component(S, y), o, assetId);
      }
    }
    if a in Correlate(items, assetId) && !Touches(a, o) {
      var x :| x in items && Consolidates(a, Component(S, x), assetId);
      TouchesMeans(a, Component(S, x), o, assetId);
      UntouchedComponent(S, o, x);
      assert x in items + [o];
    }
  }

  lemma RowsOfGrown(items: seq<Observation>)
    requires DistinctRows(items)
    ensures forall x, y :: x in Range(items) && y in Range(items) && RowName(x) == RowName(y) ==> x == y
  {
    DistinctRowsMeans(items);
    RangeMembers(items);
  }

  lemma MergedMembers(items: seq<Observation>, o: Observation, assetId: seq<string> -> string, x: Observation)
    requires DistinctRows(items) && o !in items && x in items
    ensures Linked(Range(items + [o]), o, x) <==>
            exists a :: a in Correlate(items, assetId) && Touches(a, o) && x in a.observations
  {
    hide Share, Correlate, DistinctRows, Consolidates;
    var S, T := Range(items), Range(items + [o]);
    RangeMembers(items);
    RangeMembers(items + [o]);
    assert T == S + {o};
    if Linked(T, o, x) {
      var a := AssetOf(items, x, assetId);
      ConsolidatesFacts(a, Component(S, x), assetId);
      TouchesMeans(a, Component(S, x), o, assetId);
      LinkedSelf(S, x);
      LinkedSymmetric(T, o, x);
      LinkedMembers(T, x, o);
      assert o in Component(T, x) && o !in Component(S, x);
      if forall z :: z in Component(S, x) ==> !Share(z, o) {
        UntouchedComponent(S, o, x);
      }
    }
    if a :| a in Correlate(items, assetId) && Touches(a, o) && x in a.observations {
      AssetsAreComponents(items, assetId, a);
      var y :| y in items && Consolidates(a, Component(S, y), assetId);
      ConsolidatesFacts(a, Component(S, y), assetId);
      TouchesMeans(a, Component(S, y), o, assetId);
      SameComponent(S, y, x);
      var z :| z in Component(S, x) && Share(z, o);
      TouchedComponent(S, o, x, z);
    }
  }

  /** Adding one observation replaces exactly the assets that share a key with it by one
      asset made of their observations and the new one. */
  lemma AddingOneObservation(items: seq<Observation>, o: Observation, assetId: seq<string> -> string)
    requires DistinctRows(items + [o])
    ensures exists m :: MergesTouched(Correlate(items, assetId), Correlate(items + [o], assetId), o, m)
  {
    hide Linked, Correlate, Touches, Consolidates;
    forall i, j | 0 <= i < j < |items| ensures RowName(items[i]) != RowName(items[j]) {
      assert items[i] == (items + [o])[i] && items[j] == (items + [o])[j];
    }
    forall i | 0 <= i < |items| ensures items[i] != o {
      assert RowName((items + [o])[i]) != RowName((items + [o])[|items|]);
    }
    assert DistinctRows(items) && o !in items;
    assert o in items + [o];
    var m := AssetOf(items + [o], o, assetId);
    var A, B := Correlate(items, assetId), Correlate(items + [o], assetId);
    forall a ensures a in B <==> a == m || (a in A && !Touches(a, o)) {
      GrownAsset(items, o, assetId, m, a);
    }
    ConsolidatesFacts(m, Component(Range(items + [o]), o), assetId);
    RangeMembers(items + [o]);
    LinkedSelf(Range(items + [o]), o);
    forall x ensures x in m.observations <==> x == o || exists a :: a in A && Touches(a, o) && x in a.observations {
      if x in items {
        MergedMembers(items, o, assetId, x);
      } else if a :| a in A && Touches(a, o) && x in a.observations {
        AssetsAreComponents(items, assetId, a);
        var y :| y in items && Consolidates(a, Component(Range(items), y), assetId);
        ConsolidatesFacts(a, Component(Range(items), y), assetId);
        RangeMembers(items);
      }
    }
    assert MergesTouched(A, B, o, m);
  }

  /** Observations that share no key stay apart: one asset each, none lost. */
  lemma UnsharedKeysStayApart(items: seq<Observation>, assetId: seq<string> -> string)
    requires DistinctRows(items)
    requires forall x, y :: x in items && y in items && x != y ==> !Share(x, y)
    ensures |Correlate(items, assetId)| == |items|
    ensures forall a :: a in Correlate(items, assetId) <==> exists o :: o in items && a == Consolidate([o], assetId)
  {
    hide *;
    RangeMembers(items);
    forall o | o in items ensures Component(Range(items), o) == {o} {
      AloneInComponent(Range(items), o);
    }
    forall a ensures a in Correlate(items, assetId) <==> exists o :: o in items && a == Consolidate([o], assetId) {
      AssetsAreComponents(items, assetId, a);
      forall o ensures Consolidates(a, {o}, assetId) <==> a == Consolidate([o], assetId) {
        SingletonConsolidates(a, o, assetId);
      }
    }
    SingletonCount(items, assetId);
  }

  lemma AloneInComponent(S: set<Observation>, o: Observation)
    requires o in S && forall x, y :: x in S && y in S && x != y ==> !Share(x, y)
    ensures Component(S, o) == {o}
  {
    hide Linked, Share;
    LinkedSelf(S, o);
    forall x | x in Component(S, o) ensures x == o {
      LinkedStaysInside(S, {o}, o, x);
    }
  }

  lemma SingletonConsolidates(a: Asset, o: Observation, assetId: seq<string> -> string)
    ensures Consolidates(a, {o}, assetId) <==> a == Consolidate([o], assetId)
  {
    hide Consolidate;
    assert NoDup([o]) && forall x :: x in [o] <==> x in {o};
    if Consolidates(a, {o}, assetId) {
      var g :| NoDup(g) && (forall x :: x in g <==> x in {o}) && a == Consolidate(g, assetId);
      NoDupSameElements(g, [o]);
      assert RowsIdentify(g);
      ConsolidateAnyOrder(g, [o], assetId);
    }
  }

  lemma SingletonCount(items: seq<Observation>, assetId: seq<string> -> string)
    requires DistinctRows(items)
    requires forall a :: a in Correlate(items, assetId) <==> exists o :: o in items && a == Consolidate([o], assetId)
    ensures |Correlate(items, assetId)| == |items|
  {
    var A := Correlate(items, assetId);
    EveryObservationOnce(items, assetId);
    forall i | 0 <= i < |A| ensures |A[i].observations| == 1 {
      assert A[i] in A;
      var o :| o in items && A[i] == Consolidate([o], assetId);
      ConsolidateFacts([o], assetId);
      SamePermutation([o], A[i].observations);
    }
    FlattenLength(A);
    SamePermutation(Flatten(A), items);
  }

  lemma {:induction false} FlattenLength(assets: seq<Asset>)
    requires forall i :: 0 <= i < |assets| ==> |assets[i].observations| == 1
    ensures |Flatten(assets)| == |assets|
  {
    if assets != [] { FlattenLength(assets[1..]); }
  }
}
