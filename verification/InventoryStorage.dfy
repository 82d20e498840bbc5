/** When a discovery batch fits an empty evidence database: exactly which batches commit, and why
    an accepted EC2 export always does.
 */
module InventoryStorage {
  import opened Ordering
  import opened Texts
  import opened Models
  import opened AssetGraph
  import opened AssetPartition
  import opened Identifiers
  import opened AssetCollision
  import opened AwsDiscovery
  import opened EvidenceStore

  // ---- the rows a batch inserts ----------------------------------------------------------

  /** One observation row with the asset it is filed under. */
  datatype Entry = Entry(assetId: string, row: Observation)

  function EntriesOf(a: Asset): (r: seq<Entry>)
    ensures |r| == |a.observations|
    ensures forall i :: 0 <= i < |r| ==> r[i] == Entry(a.assetId, a.observations[i])
  {
    seq(|a.observations|, i requires 0 <= i < |a.observations| => Entry(a.assetId, a.observations[i]))
  }

  /** The observation rows of a batch, in the order they are inserted. */
  function Entries(assets: seq<Asset>): seq<Entry> {
    if assets == [] then [] else Entries(assets[..|assets| - 1]) + EntriesOf(assets[|assets| - 1])
  }

  function EntryId(digest: Digest, e: Entry): string {
    ObservationId(digest, e.assetId, e.row.source, e.row.sourceRecordId)
  }

  /** Source and record id as the observation id joins them. */
  function NulText(o: Observation): string {
    o.source + "\0" + o.sourceRecordId
  }

  predicate Named(o: Observation) {
    NonBlank(o.source) && NonBlank(o.sourceRecordId)
  }

  /** Two rows that one database cannot hold: one source row twice, or one observation id twice. */
  predicate Clash(d: Entry, e: Entry) {
    RowName(d.row) == RowName(e.row) || EntryText(d) == EntryText(e)
  }

  ghost predicate Fits(entries: seq<Entry>) {
    && (forall k :: 0 <= k < |entries| ==> Named(entries[k].row))
    && (forall j, k :: 0 <= j < k < |entries| ==> !Clash(entries[j], entries[k]))
  }

  lemma FitsNext(entries: seq<Entry>, e: Entry)
    ensures Fits(entries + [e]) <==> Fits(entries) && Named(e.row) && forall d :: d in entries ==> !Clash(d, e)
  {
    hide Named, Clash;
    var more := entries + [e];
    assert more[|entries|] == e && forall k :: 0 <= k < |entries| ==> more[k] == entries[k];
    if Fits(more) {
      forall d | d in entries ensures !Clash(d, e) {
        var j :| 0 <= j < |entries| && entries[j] == d;
        assert !Clash(more[j], more[|entries|]);
      }
    }
  }

  lemma FitsFirst(entries: seq<Entry>, n: nat)
    requires n <= |entries| && Fits(entries)
    ensures Fits(entries[..n])
  {
    hide Named, Clash;
  }

  // ---- one insertion ------------------------------------------------------------------------

  ghost predicate StoredAs(digest: Digest, t: Tables, id: string, e: Entry)
    requires id in t.observations
  {
    id == EntryId(digest, e) && t.observations[id].source == e.row.source && t.observations[id].recordId == e.row.sourceRecordId
  }

  /** The observation table holds exactly the rows `done`. */
  ghost predicate Stored(digest: Digest, t: Tables, done: seq<Entry>) {
    && (forall id :: id in t.observations ==> exists e :: e in done && StoredAs(digest, t, id, e))
    && (forall e :: e in done ==> EntryId(digest, e) in t.observations && StoredAs(digest, t, EntryId(digest, e), e))
  }

  /** An entry as the observation id joins it. */
  function EntryText(e: Entry): string {
    e.assetId + "\0" + NulText(e.row)
  }

  lemma EntryIdsEqual(digest: Digest, d: Entry, e: Entry)
    ensures EntryText(d) == EntryText(e) ==> EntryId(digest, d) == EntryId(digest, e)
    ensures InjectiveDigest(digest) && EntryId(digest, d) == EntryId(digest, e) ==> EntryText(d) == EntryText(e)
  {
    var x, y := d.assetId + "\0" + d.row.source + "\0" + d.row.sourceRecordId, e.assetId + "\0" + e.row.source + "\0" + e.row.sourceRecordId;
    assert x == EntryText(d) && y == EntryText(e);
    assert EntryId(digest, d)[12..] == digest(x) && EntryId(digest, e)[12..] == digest(y);
  }

  lemma EntryIdNonBlank(digest: Digest, e: Entry)
    ensures NonBlank(EntryId(digest, e))
  {
    assert EntryId(digest, e)[0] == 'o';
  }

  lemma IdTaken(digest: Digest, t: Tables, done: seq<Entry>, e: Entry)
    requires Stored(digest, t, done)
    ensures (exists d :: d in done && EntryText(d) == EntryText(e)) ==> EntryId(digest, e) in t.observations
    ensures InjectiveDigest(digest) && EntryId(digest, e) in t.observations ==> exists d :: d in done && EntryText(d) == EntryText(e)
  {
    hide EntryId, EntryText, InjectiveDigest;
    var id := EntryId(digest, e);
    if id in t.observations {
      var d :| d in done && StoredAs(digest, t, id, d);
      EntryIdsEqual(digest, d, e);
    }
    if d :| d in done && EntryText(d) == EntryText(e) {
      EntryIdsEqual(digest, d, e);
    }
  }

  lemma NameTaken(digest: Digest, t: Tables, done: seq<Entry>, e: Entry)
    requires Stored(digest, t, done)
    ensures RowTaken(t, e.row.source, e.row.sourceRecordId) <==> exists d :: d in done && RowName(d.row) == RowName(e.row)
  {
    hide EntryId;
    if o :| o in t.observations && t.observations[o].source == e.row.source && t.observations[o].recordId == e.row.sourceRecordId {
      var d :| d in done && StoredAs(digest, t, o, d);
      assert RowName(d.row) == RowName(e.row);
    }
    if d :| d in done && RowName(d.row) == RowName(e.row) {
      assert StoredAs(digest, t, EntryId(digest, d), d);
    }
  }

  /** A row fits only when it is named and clashes with no stored row, and under an injective digest
      exactly then. */
  lemma InsertExactly(digest: Digest, t: Tables, done: seq<Entry>, e: Entry, scope: Scope, at: int)
    requires Stored(digest, t, done) && e.assetId in t.assets
    ensures var inserted := InsertObservation(t, EntryId(digest, e), ObservationOf(e.assetId, e.row, scope, at)).Some?;
            var fits := Named(e.row) && forall d :: d in done ==> !Clash(d, e);
            (inserted ==> fits) && (InjectiveDigest(digest) && fits ==> inserted)
  {
    IdTaken(digest, t, done, e);
    NameTaken(digest, t, done, e);
    EntryIdNonBlank(digest, e);
    hide NonBlank, RowTaken, EntryId, Stored, EntryText, InjectiveDigest;
  }

  lemma InsertedStored(digest: Digest, t: Tables, done: seq<Entry>, e: Entry, scope: Scope, at: int)
    requires Stored(digest, t, done) && InsertObservation(t, EntryId(digest, e), ObservationOf(e.assetId, e.row, scope, at)).Some?
    ensures var u := InsertObservation(t, EntryId(digest, e), ObservationOf(e.assetId, e.row, scope, at)).value;
            u.assets == t.assets && Stored(digest, u, done + [e])
  {
    hide NonBlank, RowTaken, EntryId;
    var u := InsertObservation(t, EntryId(digest, e), ObservationOf(e.assetId, e.row, scope, at)).value;
    assert e in done + [e] && StoredAs(digest, u, EntryId(digest, e), e);
    forall id | id in u.observations ensures exists d :: d in done + [e] && StoredAs(digest, u, id, d) {
      if id != EntryId(digest, e) {
        var d :| d in done && StoredAs(digest, t, id, d);
        assert d in done + [e] && StoredAs(digest, u, id, d);
      }
    }
    forall d | d in done + [e] ensures EntryId(digest, d) in u.observations && StoredAs(digest, u, EntryId(digest, d), d) {
      if d in done { assert StoredAs(digest, t, EntryId(digest, d), d); }
    }
  }

  // ---- one asset and whole batches ------------------------------------------------------------

  lemma EntriesGrow(done: seq<Entry>, a: Asset, n: nat)
    requires 0 < n <= |a.observations|
    ensures done + EntriesOf(a)[..n] == done + EntriesOf(a)[..n - 1] + [Entry(a.assetId, a.observations[n - 1])]
  {
    hide EntriesOf;
    var es := EntriesOf(a);
    assert es[..n] == es[..n - 1] + [es[n - 1]];
  }

  lemma {:induction false} ObservationsExactly(digest: Digest, t: Tables, done: seq<Entry>, a: Asset, scope: Scope, at: int, n: nat)
    requires Stored(digest, t, done) && Fits(done) && a.assetId in t.assets && n <= |a.observations|
    ensures var e := AddObservations(digest, t, a, scope, at, n);
            && (e.Some? ==> Fits(done + EntriesOf(a)[..n]))
            && (InjectiveDigest(digest) && Fits(done + EntriesOf(a)[..n]) ==> e.Some?)
            && (e.Some? ==> e.value.assets == t.assets && Stored(digest, e.value, done + EntriesOf(a)[..n]))
  {
    hide InjectiveDigest, Stored, Fits, InsertObservation, ObservationId, Named, Clash, EntriesOf, ObservationOf;
    if n == 0 {
      assert done + EntriesOf(a)[..0] == done;
    } else {
      ObservationsExactly(digest, t, done, a, scope, at, n - 1);
      var o, some := a.observations[n - 1], done + EntriesOf(a)[..n - 1];
      var entry := Entry(a.assetId, o);
      EntriesGrow(done, a, n);
      FitsNext(some, entry);
      var before := AddObservations(digest, t, a, scope, at, n - 1);
      if before.Some? {
        InsertExactly(digest, before.value, some, entry, scope, at);
        if InsertObservation(before.value, EntryId(digest, entry), ObservationOf(a.assetId, o, scope, at)).Some? {
          InsertedStored(digest, before.value, some, entry, scope, at);
        }
      }
    }
  }

  lemma ForeignKeyFails(digest: Digest, t: Tables, a: Asset, scope: Scope, at: int)
    requires a.assetId !in t.assets && a.observations != []
    ensures AddObservations(digest, t, a, scope, at, |a.observations|).None?
  {
    assert AddObservations(digest, t, a, scope, at, 1).None? by {
      hide RowTaken, NonBlank;
      assert AddObservations(digest, t, a, scope, at, 0) == Some(t);
    }
    hide *;
    FailedObservation(digest, t, a, scope, at, 1, |a.observations|);
  }

  predicate GoodId(id: string) {
    Stripped(id) && NonBlank(id)
  }

  ghost predicate GoodIds(assets: seq<Asset>) {
    && (forall i :: 0 <= i < |assets| ==> GoodId(assets[i].assetId))
    && (forall i, j :: 0 <= i < j < |assets| ==> assets[i].assetId != assets[j].assetId)
  }

  ghost predicate Lists(t: Tables, assets: seq<Asset>) {
    forall id :: id in t.assets <==> exists i :: 0 <= i < |assets| && assets[i].assetId == id
  }

  lemma GoodIdsNext(assets: seq<Asset>, a: Asset)
    ensures GoodIds(assets + [a]) <==>
            GoodIds(assets) && GoodId(a.assetId) && forall i :: 0 <= i < |assets| ==> assets[i].assetId != a.assetId
  {
    hide GoodId;
    var more := assets + [a];
    assert more[|assets|] == a && forall k :: 0 <= k < |assets| ==> more[k] == assets[k];
  }

  lemma StoreAssetExactly(t: Tables, assets: seq<Asset>, a: Asset, at: int)
    requires Lists(t, assets) && GoodIds(assets) && Stripped(a.assetId)
    ensures StoreAsset(t, a, at).Some? <==> GoodId(a.assetId) && forall i :: 0 <= i < |assets| ==> assets[i].assetId != a.assetId
    ensures StoreAsset(t, a, at).Some? ==>
              var u := StoreAsset(t, a, at).value; u.observations == t.observations && Lists(u, assets + [a])
  {
    StripMeans(a.assetId);
    assert NonBlank(a.assetId) ==> a.assetId != "";
    hide Strip, NonBlank, Stripped;
    if StoreAsset(t, a, at).Some? {
      var u, more := StoreAsset(t, a, at).value, assets + [a];
      assert more[|assets|] == a && forall k :: 0 <= k < |assets| ==> more[k] == assets[k];
      forall id ensures id in u.assets <==> exists i :: 0 <= i < |more| && more[i].assetId == id {
        if i :| 0 <= i < |assets| && assets[i].assetId == id { assert more[i].assetId == id; }
      }
    }
  }

  lemma UnstrippedIdFails(digest: Digest, t: Tables, assets: seq<Asset>, a: Asset, scope: Scope, at: int)
    requires Lists(t, assets) && GoodIds(assets) && !Stripped(a.assetId) && a.observations != []
    ensures StoreAsset(t, a, at).Some? ==>
              AddObservations(digest, StoreAsset(t, a, at).value, a, scope, at, |a.observations|).None?
  {
    StripMeans(a.assetId);
    hide Strip, NonBlank, Stripped, AddObservations;
    if StoreAsset(t, a, at).Some? {
      assert a.assetId !in t.assets;
      ForeignKeyFails(digest, StoreAsset(t, a, at).value, a, scope, at);
    }
  }

  /** A batch fits an empty database only when its asset ids and its observation rows do, and under
      an injective digest exactly then. */
  lemma {:induction false} BatchExactly(digest: Digest, assets: seq<Asset>, scope: Scope, at: int, n: nat)
    requires n <= |assets| && forall i :: 0 <= i < |assets| ==> assets[i].observations != []
    ensures var e := AddInventory(digest, EMPTY, assets, scope, at, n);
            && (e.Some? ==> GoodIds(assets[..n]) && Fits(Entries(assets[..n])))
            && (InjectiveDigest(digest) && GoodIds(assets[..n]) && Fits(Entries(assets[..n])) ==> e.Some?)
            && (e.Some? ==> Lists(e.value, assets[..n]) && Stored(digest, e.value, Entries(assets[..n])))
  {
    hide *;
    if n == 0 {
      NothingStored(digest, assets, scope, at);
    } else {
      BatchExactly(digest, assets, scope, at, n - 1);
      var some, a := assets[..n - 1], assets[n - 1];
      assert assets[..n] == some + [a];
      FittingPrefix(some, a);
      if AddInventory(digest, EMPTY, assets, scope, at, n - 1).Some? {
        InventoryNext(digest, EMPTY, assets, scope, at, n - 1);
        BatchStep(digest, AddInventory(digest, EMPTY, assets, scope, at, n - 1).value, some, a, scope, at);
      } else {
        FailedInventory(digest, EMPTY, assets, scope, at, n - 1, n);
      }
    }
  }

  lemma NothingStored(digest: Digest, assets: seq<Asset>, scope: Scope, at: int)
    ensures assets[..0] == [] && AddInventory(digest, EMPTY, assets, scope, at, 0) == Some(EMPTY)
    ensures GoodIds([]) && Fits(Entries([])) && Lists(EMPTY, []) && Stored(digest, EMPTY, Entries([]))
  {
  }

  lemma FittingPrefix(some: seq<Asset>, a: Asset)
    ensures GoodIds(some + [a]) && Fits(Entries(some + [a])) ==> GoodIds(some) && Fits(Entries(some))
  {
    hide *;
    GoodIdsNext(some, a);
    EntriesNext(some, a);
    if Fits(Entries(some + [a])) {
      FitsFirst(Entries(some + [a]), |Entries(some)|);
      assert Entries(some + [a])[..|Entries(some)|] == Entries(some);
    }
  }

  lemma EntriesNext(assets: seq<Asset>, a: Asset)
    ensures Entries(assets + [a]) == Entries(assets) + EntriesOf(a)
  {
    assert (assets + [a])[..|assets|] == assets;
  }

  lemma BatchStep(digest: Digest, t: Tables, some: seq<Asset>, a: Asset, scope: Scope, at: int)
    requires a.observations != []
    requires Lists(t, some) && Stored(digest, t, Entries(some)) && GoodIds(some) && Fits(Entries(some))
    ensures var withAsset := StoreAsset(t, a, at);
            var e := if withAsset.None? then None else AddObservations(digest, withAsset.value, a, scope, at, |a.observations|);
            && (e.Some? ==> GoodIds(some + [a]) && Fits(Entries(some + [a])))
            && (InjectiveDigest(digest) && GoodIds(some + [a]) && Fits(Entries(some + [a])) ==> e.Some?)
            && (e.Some? ==> Lists(e.value, some + [a]) && Stored(digest, e.value, Entries(some + [a])))
  {
    hide *;
    GoodIdsNext(some, a);
    if !Stripped(a.assetId) {
      UnstrippedIdFails(digest, t, some, a, scope, at);
      GoodIdStripped(a.assetId);
    } else {
      StoreAssetExactly(t, some, a, at);
      if StoreAsset(t, a, at).Some? {
        RowsStep(digest, t, StoreAsset(t, a, at).value, some, a, scope, at);
      }
    }
  }

  lemma GoodIdStripped(id: string)
    ensures GoodId(id) ==> Stripped(id)
  {
    hide Stripped, NonBlank;
  }

  lemma RowsStep(digest: Digest, t: Tables, u: Tables, some: seq<Asset>, a: Asset, scope: Scope, at: int)
    requires Stored(digest, t, Entries(some)) && Fits(Entries(some))
    requires u.observations == t.observations && Lists(u, some + [a])
    ensures var e := AddObservations(digest, u, a, scope, at, |a.observations|);
            && (e.Some? ==> Fits(Entries(some + [a])))
            && (InjectiveDigest(digest) && Fits(Entries(some + [a])) ==> e.Some?)
            && (e.Some? ==> Lists(e.value, some + [a]) && Stored(digest, e.value, Entries(some + [a])))
  {
    hide *;
    EntriesNext(some, a);
    SameRowsStored(digest, t, u, Entries(some));
    OwnAssetListed(u, some, a);
    ObservationsExactly(digest, u, Entries(some), a, scope, at, |a.observations|);
    assert |EntriesOf(a)| == |a.observations|;
    assert EntriesOf(a)[..|a.observations|] == EntriesOf(a);
    var e := AddObservations(digest, u, a, scope, at, |a.observations|);
    if e.Some? { SameAssetsListed(u, e.value, some + [a]); }
  }

  lemma OwnAssetListed(t: Tables, some: seq<Asset>, a: Asset)
    requires Lists(t, some + [a])
    ensures a.assetId in t.assets
  {
    assert (some + [a])[|some|] == a;
  }

  lemma SameAssetsListed(t: Tables, u: Tables, assets: seq<Asset>)
    requires Lists(t, assets) && u.assets == t.assets
    ensures Lists(u, assets)
  {
  }

  lemma SameRowsStored(digest: Digest, t: Tables, u: Tables, done: seq<Entry>)
    requires Stored(digest, t, done) && u.observations == t.observations
    ensures Stored(digest, u, done)
  {
    hide EntryId;
    assert forall id, e :: id in t.observations && StoredAs(digest, t, id, e) ==> StoredAs(digest, u, id, e);
    hide StoredAs;
  }

  ghost predicate BatchFits(assets: seq<Asset>) {
    assets != [] && (forall i :: 0 <= i < |assets| ==> assets[i].observations != []) && GoodIds(assets) && Fits(Entries(assets))
  }

  /** `store_inventory` commits only fitting batches to an empty database, and under an injective
      digest exactly those. */
  lemma BatchCommits(digest: Digest, assets: seq<Asset>, scope: Scope, at: int)
    ensures Effect(digest, EMPTY, StoreInventory(assets, scope, at)).Some? ==> BatchFits(assets)
    ensures InjectiveDigest(digest) && BatchFits(assets) ==> Effect(digest, EMPTY, StoreInventory(assets, scope, at)).Some?
  {
    hide GoodIds, Fits, Entries, InjectiveDigest, AddInventory;
    if forall i :: 0 <= i < |assets| ==> assets[i].observations != [] {
      BatchExactly(digest, assets, scope, at, |assets|);
      assert assets[..|assets|] == assets;
    }
  }

  // ---- correlated batches -----------------------------------------------------------------------

  lemma {:induction false} EntryRows(assets: seq<Asset>)
    ensures |Entries(assets)| == |Flatten(assets)|
    ensures forall k :: 0 <= k < |Entries(assets)| ==> Entries(assets)[k].row == Flatten(assets)[k]
  {
    if assets != [] {
      var some, a := assets[..|assets| - 1], assets[|assets| - 1];
      EntryRows(some);
      FlattenAppend(some, [a]);
      FlattenOne(a);
      assert assets == some + [a];
    }
  }

  ghost predicate IsEntryOf(assets: seq<Asset>, e: Entry) {
    exists a :: a in assets && e.assetId == a.assetId && e.row in a.observations
  }

  lemma {:induction false} EntryMembers(assets: seq<Asset>, e: Entry)
    ensures e in Entries(assets) <==> IsEntryOf(assets, e)
  {
    if assets != [] {
      var some, a := assets[..|assets| - 1], assets[|assets| - 1];
      EntryMembers(some, e);
      assert assets == some + [a];
      assert e in EntriesOf(a) <==> e.assetId == a.assetId && e.row in a.observations by { EntriesOfMembers(a, e); }
      hide EntriesOf;
      if e in Entries(some) {
        var x :| x in some && e.assetId == x.assetId && e.row in x.observations;
        assert x in assets;
      }
      if e in EntriesOf(a) { assert a in assets; }
      if x :| x in assets && e.assetId == x.assetId && e.row in x.observations {
        assert x in some || x == a;
      }
    }
  }

  lemma EntriesOfMembers(a: Asset, e: Entry)
    ensures e in EntriesOf(a) <==> e.assetId == a.assetId && e.row in a.observations
  {
    if e.assetId == a.assetId && e.row in a.observations {
      var i :| 0 <= i < |a.observations| && a.observations[i] == e.row;
      assert EntriesOf(a)[i] == e;
    }
  }

  /** Different rows of one asset have different joined texts. */
  ghost predicate TextsApart(a: Asset) {
    forall x, y :: x in a.observations && y in a.observations && NulText(x) == NulText(y) ==> x == y
  }

  /** Asset ids as the digest makes them: no white space at the ends and no NUL. */
  ghost predicate PlainIds(assetId: seq<string> -> string) {
    forall keys :: GoodId(assetId(keys)) && '\0' !in assetId(keys)
  }

  lemma SameAssetText(d: Entry, e: Entry)
    requires '\0' !in d.assetId && '\0' !in e.assetId
    requires EntryText(d) == EntryText(e)
    ensures d.assetId == e.assetId && NulText(d.row) == NulText(e.row)
  {
    hide NulText;
    FirstPartEqual('\0', d.assetId, e.assetId, NulText(d.row), NulText(e.row));
  }

  ghost predicate IdsIdentify(assets: seq<Asset>) {
    && (forall a :: a in assets ==> '\0' !in a.assetId)
    && (forall a, b :: a in assets && b in assets && a.assetId == b.assetId ==> a == b)
  }

  ghost predicate NamedRows(items: seq<Observation>) {
    forall o :: o in items ==> Named(o)
  }

  lemma OneAssetOfText(assets: seq<Asset>, d: Entry, e: Entry)
    requires IdsIdentify(assets) && IsEntryOf(assets, d) && IsEntryOf(assets, e)
    requires EntryText(d) == EntryText(e)
    ensures NulText(d.row) == NulText(e.row) && Together(assets, d.row, e.row)
  {
    var a :| a in assets && d.assetId == a.assetId && d.row in a.observations;
    var b :| b in assets && e.assetId == b.assetId && e.row in b.observations;
    SameAssetText(d, e);
    assert a == b;
  }

  lemma ApartEntriesFit(assets: seq<Asset>, d: Entry, e: Entry)
    requires IdsIdentify(assets) && IsEntryOf(assets, d) && IsEntryOf(assets, e)
    requires forall a :: a in assets ==> TextsApart(a)
    requires RowName(d.row) != RowName(e.row)
    ensures !Clash(d, e)
  {
    if Clash(d, e) {
      OneAssetOfText(assets, d, e);
      TogetherNotApart(assets, d.row, e.row);
    }
  }

  lemma FittingRowsApart(assets: seq<Asset>, a: Asset, x: Observation, y: Observation)
    requires Fits(Entries(assets)) && a in assets
    requires x in a.observations && y in a.observations && NulText(x) == NulText(y)
    ensures x == y
  {
    hide Named, Entries, NulText;
    var d, e := Entry(a.assetId, x), Entry(a.assetId, y);
    EntryMembers(assets, d);
    EntryMembers(assets, e);
    var j :| 0 <= j < |Entries(assets)| && Entries(assets)[j] == d;
    var k :| 0 <= k < |Entries(assets)| && Entries(assets)[k] == e;
    if j < k {
      assert !Clash(Entries(assets)[j], Entries(assets)[k]);
    } else if k < j {
      assert !Clash(Entries(assets)[k], Entries(assets)[j]);
    }
  }

  /** The rows of a batch fit exactly when they are distinct and named, and no asset has two rows
      of one joined text. */
  lemma EntriesFit(assets: seq<Asset>)
    requires IdsIdentify(assets)
    ensures Fits(Entries(assets)) <==>
              DistinctRows(Flatten(assets)) && NamedRows(Flatten(assets)) && forall a :: a in assets ==> TextsApart(a)
  {
    EntryRows(assets);
    var entries, rows := Entries(assets), Flatten(assets);
    hide Named, Entries, Flatten, NulText, IdsIdentify;
    if Fits(entries) {
      forall i, j | 0 <= i < j < |rows| ensures RowName(rows[i]) != RowName(rows[j]) {
        assert !Clash(entries[i], entries[j]);
      }
      forall o | o in rows ensures Named(o) {
        var i :| 0 <= i < |rows| && rows[i] == o;
        assert Named(entries[i].row);
      }
      forall a, x, y | a in assets && x in a.observations && y in a.observations && NulText(x) == NulText(y) ensures x == y {
        FittingRowsApart(assets, a, x, y);
      }
    }
    if DistinctRows(rows) && NamedRows(rows) && forall a :: a in assets ==> TextsApart(a) {
      forall k | 0 <= k < |entries| ensures Named(entries[k].row) {
        assert rows[k] in rows;
      }
      forall j, k | 0 <= j < k < |entries| ensures !Clash(entries[j], entries[k]) {
        EntryMembers(assets, entries[j]);
        EntryMembers(assets, entries[k]);
        assert RowName(rows[j]) != RowName(rows[k]);
        ApartEntriesFit(assets, entries[j], entries[k]);
      }
    }
  }

  lemma CorrelatedIds(items: seq<Observation>, assetId: seq<string> -> string)
    requires PlainIds(assetId)
    ensures var assets := Correlate(items, assetId);
            (DistinctAssetIds(assets) ==> IdsIdentify(assets)) && (GoodIds(assets) <==> DistinctAssetIds(assets))
  {
    DistinctAssetsDisjoint(items, assetId);
    hide Correlate, KeysDisjoint, GoodId;
    var assets := Correlate(items, assetId);
    PlainAssets(assets, assetId);
    if DistinctAssetIds(assets) {
      DistinctIdsGood(assets);
    } else {
      var x, y :| x in assets && y in assets && x.assetId == y.assetId && x != y;
      var i :| 0 <= i < |assets| && assets[i] == x;
      var j :| 0 <= j < |assets| && assets[j] == y;
      assert !GoodIds(assets);
    }
  }

  lemma PlainAssets(assets: seq<Asset>, assetId: seq<string> -> string)
    requires PlainIds(assetId) && forall a :: a in assets ==> a.assetId == assetId(a.correlationKeys)
    ensures forall a :: a in assets ==> GoodId(a.assetId) && '\0' !in a.assetId
  {
    hide GoodId;
  }

  lemma DistinctIdsGood(assets: seq<Asset>)
    requires DistinctAssetIds(assets) && NoDup(assets) && forall a :: a in assets ==> GoodId(a.assetId) && '\0' !in a.assetId
    ensures IdsIdentify(assets) && GoodIds(assets)
  {
    hide GoodId;
    forall i | 0 <= i < |assets| ensures GoodId(assets[i].assetId) {
      assert assets[i] in assets;
    }
    forall i, j | 0 <= i < j < |assets| ensures assets[i].assetId != assets[j].assetId {
      assert assets[i] in assets && assets[j] in assets && assets[i] != assets[j];
    }
  }

  lemma CorrelatedRows(items: seq<Observation>, assetId: seq<string> -> string)
    ensures var rows := Flatten(Correlate(items, assetId));
            (DistinctRows(rows) <==> DistinctRows(items)) && (NamedRows(rows) <==> NamedRows(items))
    ensures Correlate(items, assetId) == [] <==> items == []
    ensures forall a :: a in Correlate(items, assetId) ==> a.observations != []
  {
    EveryObservationOnce(items, assetId);
    var rows := Flatten(Correlate(items, assetId));
    SamePermutation(rows, items);
    if DistinctRows(items) { SameRange(items, rows); }
    if DistinctRows(rows) { SameRange(rows, items); }
    forall a | a in Correlate(items, assetId) ensures a.observations != [] {
      AssetNonempty(items, assetId, a);
    }
    hide Correlate, Range, DistinctRows, Named;
    if Correlate(items, assetId) != [] {
      var a := Correlate(items, assetId)[0];
      assert a in Correlate(items, assetId);
      assert rows != [];
    }
  }

  lemma AssetNonempty(items: seq<Observation>, assetId: seq<string> -> string, a: Asset)
    requires a in Correlate(items, assetId)
    ensures a.observations != []
  {
    hide Correlate, Consolidate, Groups;
    AssetsAreGroups(items, assetId);
    var k :| 0 <= k < |Groups(items)| && a == Consolidate(Groups(items)[k], assetId);
    GroupNonempty(items, k);
    ConsolidateFacts(Groups(items)[k], assetId);
    SamePermutation(Groups(items)[k], a.observations);
  }

  /** Storing the correlation of some rows into an empty database commits exactly when there are
      rows, they are distinct and named, no two assets have one id, and no two rows of one asset have
      the same joined text. */
  lemma CorrelatedBatchStores(digest: Digest, items: seq<Observation>, assetId: seq<string> -> string, scope: Scope, at: int)
    requires InjectiveDigest(digest) && PlainIds(assetId)
    ensures Effect(digest, EMPTY, StoreInventory(Correlate(items, assetId), scope, at)).Some? <==>
              && items != [] && DistinctRows(items) && NamedRows(items) && DistinctAssetIds(Correlate(items, assetId))
              && forall a :: a in Correlate(items, assetId) ==> TextsApart(a)
  {
    hide *;
    var assets := Correlate(items, assetId);
    CorrelatedIds(items, assetId);
    CorrelatedRows(items, assetId);
    if DistinctAssetIds(assets) { EntriesFit(assets); }
    BatchCommits(digest, assets, scope, at);
    BatchFitsMeans(assets);
  }

  lemma BatchFitsMeans(assets: seq<Asset>)
    requires forall a :: a in assets ==> a.observations != []
    ensures BatchFits(assets) <==> assets != [] && GoodIds(assets) && Fits(Entries(assets))
  {
    hide GoodIds, Fits, Entries;
    assert forall i :: 0 <= i < |assets| ==> assets[i] in assets;
  }

  // ---- rows that the database refuses -----------------------------------------------------------

  /** A row of a cloud resource. */
  function CloudRow(source: string, id: string): Observation {
    RowOf((source, id), None, "p", "a", Some("r"))
  }

  lemma NulSourceText(x: string, y: string)
    requires SourceText(x) && SourceText(y)
    ensures SourceText(x + "\0" + y)
  {
    NulRecordText(x, y);
    LowerMeans(x);
    LowerMeans(y);
    LowerMeans(x + "\0" + y);
    hide Lower, RequiredText;
  }

  lemma NulRecordText(y: string, z: string)
    requires RequiredText(y) && RequiredText(z)
    ensures RequiredText(y + "\0" + z)
  {
    hide IsSpace;
    var r := y + "\0" + z;
    assert r[0] == y[0] && r[|r| - 1] == z[|z| - 1];
  }

  lemma NulRowsAccepted(x: string, y: string, z: string)
    requires SourceText(x) && SourceText(y) && RequiredText(z)
    ensures WellFormed(CloudRow(x + "\0" + y, z)) && WellFormed(CloudRow(x, y + "\0" + z))
  {
    SampleTexts();
    NulSourceText(x, y);
    NulRecordText(y, z);
    hide SourceText, Stripped, HostText;
    RowAccepted((x + "\0" + y, z), None, "p", "a", Some("r"));
    RowAccepted((x, y + "\0" + z), None, "p", "a", Some("r"));
  }

  lemma NulRowsJoin(x: string, y: string, z: string)
    ensures var a, b := CloudRow(x + "\0" + y, z), CloudRow(x, y + "\0" + z);
            NulText(a) == NulText(b) && a != b && DistinctRows([a, b])
  {
    assert x + "\0" + y + "\0" + z == x + "\0" + (y + "\0" + z);
    assert |x + "\0" + y| > |x|;
  }

  lemma SharedTextRefused(digest: Digest, assets: seq<Asset>, a: Observation, b: Observation, scope: Scope, at: int)
    requires Together(assets, a, b) && NulText(a) == NulText(b) && a != b
    ensures Effect(digest, EMPTY, StoreInventory(assets, scope, at)).None?
  {
    hide Fits, Entries, GoodIds, NulText, Effect;
    BatchCommits(digest, assets, scope, at);
    var c :| c in assets && a in c.observations && b in c.observations;
    if Fits(Entries(assets)) { FittingRowsApart(assets, c, a, b); }
  }

  /** Distinct rows that validation accepts and no empty database takes together, whatever the
      digests: the NUL between source and record id may stand in either, and then one asset gets one
      observation id twice. */
  lemma NulRowsRefused(digest: Digest, assetId: seq<string> -> string, x: string, y: string, z: string, scope: Scope, at: int)
    ensures var items := [CloudRow(x + "\0" + y, z), CloudRow(x, y + "\0" + z)];
            DistinctRows(items) && Effect(digest, EMPTY, StoreInventory(Correlate(items, assetId), scope, at)).None?
    ensures SourceText(x) && SourceText(y) && RequiredText(z) ==>
              WellFormed(CloudRow(x + "\0" + y, z)) && WellFormed(CloudRow(x, y + "\0" + z))
  {
    if SourceText(x) && SourceText(y) && RequiredText(z) { NulRowsAccepted(x, y, z); }
    var a, b := CloudRow(x + "\0" + y, z), CloudRow(x, y + "\0" + z);
    hide *;
    CloudRowsTogether(x + "\0" + y, z, x, y + "\0" + z, assetId);
    NulRowsJoin(x, y, z);
    SharedTextRefused(digest, Correlate([a, b], assetId), a, b, scope, at);
  }

  lemma TogetherNotApart(assets: seq<Asset>, a: Observation, b: Observation)
    requires Together(assets, a, b) && NulText(a) == NulText(b) && a != b
    ensures !(forall c :: c in assets ==> TextsApart(c))
  {
    hide NulText;
    var c :| c in assets && a in c.observations && b in c.observations;
    assert !TextsApart(c);
  }

  lemma CloudRowsTogether(s: string, i: string, t: string, j: string, assetId: seq<string> -> string)
    ensures Together(Correlate([CloudRow(s, i), CloudRow(t, j)], assetId), CloudRow(s, i), CloudRow(t, j))
  {
    var a, b := CloudRow(s, i), CloudRow(t, j);
    CloudRowHasKey(s, i);
    CloudRowHasKey(t, j);
    hide KeySet, Correlate, Linked, CloudRow, CloudKey;
    assert CloudKey("p", "a", "r") in KeySet(a) * KeySet(b);
    var items := [a, b];
    assert items[0] == a && items[1] == b && a in items && b in items;
    RangeMembers(items);
    LinkedEdge(Range(items), a, b);
    TogetherIffLinked(items, assetId, a, b);
  }

  lemma CloudRowHasKey(s: string, i: string)
    ensures CloudKey("p", "a", "r") in KeySet(CloudRow(s, i))
  {
    hide Lower;
  }

  /** SQLite measures a text up to its first NUL, so a record id that starts with one is refused
      although validation accepts it. */
  lemma LeadingNulRefused(rest: string)
    ensures !NonBlank("\0" + rest)
    ensures RequiredText(rest) ==> RequiredText("\0" + rest)
  {
    var text := "\0" + rest;
    assert text[0] == '\0';
    if RequiredText(rest) { assert text[|text| - 1] == rest[|rest| - 1]; }
  }

  // ---- EC2 exports --------------------------------------------------------------------------------

  /** A digest text consists of hexadecimal digits. */
  ghost predicate HexDigest(digest: Digest) {
    forall x, i :: 0 <= i < |digest(x)| ==> IsHex(digest(x)[i])
  }

  lemma HexIdsPlain(digest: Digest)
    requires HexDigest(digest)
    ensures PlainIds(AssetIds(digest))
  {
    forall keys ensures GoodId(AssetIds(digest)(keys)) && '\0' !in AssetIds(digest)(keys) {
      HexIdPlain(digest(JoinLines(keys)));
    }
  }

  lemma HexIdPlain(hex: string)
    requires forall i :: 0 <= i < |hex| ==> IsHex(hex[i])
    ensures GoodId("asset-" + hex) && '\0' !in "asset-" + hex
  {
    var id := "asset-" + hex;
    assert id[0] == 'a';
    assert forall i :: 6 <= i < |id| ==> id[i] == hex[i - 6];
    assert id[5] == '-';
  }

  lemma ClaimNamed(context: Context, instance: Instance)
    ensures Named(Claim(context, instance))
  {
    hide SortedSet, ReviewTags;
    assert SOURCE[0] == 'a';
    assert Arn(context, instance.instanceId)[0] == 'a';
  }

  lemma ClaimsNamed(context: Context, rows: seq<Row>)
    ensures NamedRows(Claims(context, rows))
  {
    hide Named, Claim;
    var claims := Claims(context, rows);
    forall o | o in claims ensures Named(o) {
      var i :| 0 <= i < |claims| && claims[i] == o;
      ClaimNamed(context, rows[i].instance);
    }
  }

  lemma FixturesNamed(context: Context, reservations: seq<Reservation>)
    requires Accepted(context, reservations)
    ensures NamedRows(Fixtures(context, reservations))
  {
    FixturesAreClaims(context, reservations);
    SamePermutation(Fixtures(context, reservations), Claims(context, Rows(reservations)));
    ClaimsNamed(context, Rows(reservations));
    hide Fixtures, Accepted, Named, Claim, Rows, DistinctRows, Claims;
  }

  lemma SingleRowApart(o: Observation, assetId: seq<string> -> string)
    ensures TextsApart(Consolidate([o], assetId))
  {
    ConsolidateFacts([o], assetId);
    hide Consolidate, NulText;
  }

  lemma FixturesApart(context: Context, reservations: seq<Reservation>, assetId: seq<string> -> string)
    requires Accepted(context, reservations)
    ensures forall a :: a in Correlate(Fixtures(context, reservations), assetId) ==> TextsApart(a)
  {
    hide *;
    OneAssetPerInstance(context, reservations, assetId);
    forall a | a in Correlate(Fixtures(context, reservations), assetId) ensures TextsApart(a) {
      var o :| o in Claims(context, Rows(reservations)) && a == Consolidate([o], assetId);
      SingleRowApart(o, assetId);
    }
  }

  /** Retaining an accepted export commits exactly when it has an instance, for all injective digests. */
  lemma AcceptedExportStores(assetDigest: Digest, rowDigest: Digest, context: Context, reservations: seq<Reservation>,
                             scope: Scope, at: int)
    requires InjectiveDigest(assetDigest) && HexDigest(assetDigest) && InjectiveDigest(rowDigest)
    requires Accepted(context, reservations)
    ensures var batch := Correlate(Fixtures(context, reservations), AssetIds(assetDigest));
            Effect(rowDigest, EMPTY, StoreInventory(batch, scope, at)).Some? <==> Rows(reservations) != []
  {
    hide *;
    FixturesAreClaims(context, reservations);
    FixturesNamed(context, reservations);
    FixturesApart(context, reservations, AssetIds(assetDigest));
    ExportKeysDistinguish(assetDigest, context, reservations);
    AssetIdsDistinct(Fixtures(context, reservations), AssetIds(assetDigest));
    HexIdsPlain(assetDigest);
    CorrelatedBatchStores(rowDigest, Fixtures(context, reservations), AssetIds(assetDigest), scope, at);
    assert Fixtures(context, reservations) == [] <==> Rows(reservations) == [];
  }
}
