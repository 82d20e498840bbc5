/** Records of one reproduced EC2 batch and the comparison of two neighbouring batches. */
module InventoryCompare {
  import opened Ordering
  import opened Models
  import opened AssetGraph
  import opened AssetPartition
  import opened AwsDiscovery
  import opened Identifiers
  import opened JsonFields

  type Claims = Fields

  datatype Snapshot = Snapshot(assetId: string, observations: seq<Claims>)

  /** What `read_ec2` returns for one batch; instants are integers. */
  datatype Document = Document(
    scope: string,
    account: string,
    region: string,
    observedAt: int,
    inputSha256: string,
    sourceRecords: seq<SourceRow>,
    assets: seq<Snapshot>)

  datatype Record = Record(assetId: string, claims: Claims, sourceReference: SourceRow)

  type Records = map<string, Record>

  // ---- `_records` ------------------------------------------------------------------------

  /** The row a record id refers to: a dictionary keeps the last of equal keys. */
  function Reference(rows: seq<SourceRow>, id: string): Option<SourceRow> {
    if rows == [] then None
    else
      var last := rows[|rows| - 1];
      if last.sourceRecordId == id then Some(last) else Reference(rows[..|rows| - 1], id)
  }

  /** `references[claims['source_record_id']]`, or nothing where that lookup raises. */
  function ClaimReference(rows: seq<SourceRow>, claims: Claims): Option<SourceRow> {
    if "source_record_id" in claims && claims["source_record_id"].Text?
    then Reference(rows, claims["source_record_id"].text)
    else None
  }

  predicate GoodSnapshot(rows: seq<SourceRow>, s: Snapshot) {
    |s.observations| == 1 && ClaimReference(rows, s.observations[0]).Some?
  }

  predicate Recordable(doc: Document) {
    forall i :: 0 <= i < |doc.assets| ==> GoodSnapshot(doc.sourceRecords, doc.assets[i])
  }

  function RecordFor(rows: seq<SourceRow>, s: Snapshot): Record
    requires GoodSnapshot(rows, s)
  {
    Record(s.assetId, s.observations[0], ClaimReference(rows, s.observations[0]).value)
  }

  /** The records of the first `n` snapshots, by asset id. */
  function RecordsUpTo(doc: Document, n: nat): (r: Records)
    requires n <= |doc.assets| && Recordable(doc)
    ensures forall id :: id in r ==> r[id].assetId == id
  {
    if n == 0 then map[]
    else RecordsUpTo(doc, n - 1)[doc.assets[n - 1].assetId := RecordFor(doc.sourceRecords, doc.assets[n - 1])]
  }

  function RecordsOf(doc: Document): (r: Records)
    requires Recordable(doc)
    ensures forall id :: id in r ==> r[id].assetId == id
  {
    RecordsUpTo(doc, |doc.assets|)
  }

  method ReadRecords(doc: Document) returns (result: Result<Records>)
    ensures result.Ok? <==> Recordable(doc)
    ensures result.Ok? ==> result.value == RecordsOf(doc)
  {
    var references: map<string, SourceRow> := map[];
    for n := 0 to |doc.sourceRecords|
      invariant forall id :: Reference(doc.sourceRecords[..n], id) ==
                             if id in references then Some(references[id]) else None
    {
      assert doc.sourceRecords[..n + 1][..n] == doc.sourceRecords[..n];
      references := references[doc.sourceRecords[n].sourceRecordId := doc.sourceRecords[n]];
    }
    assert doc.sourceRecords[..|doc.sourceRecords|] == doc.sourceRecords;
    var records: Records := map[];
    for n := 0 to |doc.assets|
      invariant forall i :: 0 <= i < n ==> GoodSnapshot(doc.sourceRecords, doc.assets[i])
      invariant Recordable(doc) ==> records == RecordsUpTo(doc, n)
    {
      var snapshot := doc.assets[n];
      if |snapshot.observations| != 1 {
        return Rejected;
      }
      var claims := snapshot.observations[0];
      if "source_record_id" !in claims || !claims["source_record_id"].Text? || claims["source_record_id"].text !in references {
        return Rejected;
      }
      records := records[snapshot.assetId := Record(snapshot.assetId, claims, references[claims["source_record_id"].text])];
    }
    result := Ok(records);
  }

  // ---- an accepted export always has records ------------------------------------------------

  function OptionalJson(value: Option<string>): Json {
    if value.Some? then Text(value.value) else Null
  }

  function ToDict(o: Observation): Claims {
    map["source" := Text(o.source), "source_record_id" := Text(o.sourceRecordId), "kind" := Text(o.kind),
        "hostname" := OptionalJson(o.hostname), "ip_addresses" := TextList(o.ipAddresses),
        "cloud_provider" := OptionalJson(o.cloudProvider), "cloud_account" := OptionalJson(o.cloudAccount),
        "cloud_resource_id" := OptionalJson(o.cloudResourceId), "tags" := TextMap(o.tags)]
  }

  function ToSnapshot(a: Asset): Snapshot {
    Snapshot(a.assetId, Map(a.observations, ToDict))
  }

  /** The document of a retained export: one snapshot per correlated asset. */
  ghost function DocumentOf(context: Context, reservations: seq<Reservation>, assetId: seq<string> -> string,
                            scope: string, observedAt: int, inputSha256: string): Document
  {
    Document(scope, context.account, context.region, observedAt, inputSha256,
             References(context, Rows(reservations)),
             Map(Correlate(Fixtures(context, reservations), assetId), ToSnapshot))
  }

  lemma {:induction false} ReferenceFound(rows: seq<SourceRow>, i: nat)
    requires i < |rows|
    requires forall j :: 0 <= j < |rows| && rows[j].sourceRecordId == rows[i].sourceRecordId ==> j == i
    ensures Reference(rows, rows[i].sourceRecordId) == Some(rows[i])
  {
    if i < |rows| - 1 {
      ReferenceFound(rows[..|rows| - 1], i);
    }
  }

  ghost predicate DistinctIds(doc: Document, n: nat)
    requires n <= |doc.assets|
  {
    forall i, j :: 0 <= i < j < n ==> doc.assets[i].assetId != doc.assets[j].assetId
  }

  ghost predicate IsAssetId(doc: Document, n: nat, id: string)
    requires n <= |doc.assets|
  {
    exists i :: 0 <= i < n && doc.assets[i].assetId == id
  }

  /** `m` holds exactly the records of the first `n` snapshots. */
  ghost predicate Found(doc: Document, n: nat, m: Records)
    requires n <= |doc.assets| && Recordable(doc)
  {
    && |m| == n
    && (forall id :: id in m ==> IsAssetId(doc, n, id))
    && (forall i :: 0 <= i < n ==> HasRecord(doc, i, m))
  }

  ghost predicate HasRecord(doc: Document, i: nat, m: Records)
    requires i < |doc.assets| && Recordable(doc)
  {
    doc.assets[i].assetId in m && m[doc.assets[i].assetId] == RecordFor(doc.sourceRecords, doc.assets[i])
  }

  lemma RecordableAt(doc: Document, n: nat)
    requires Recordable(doc) && n < |doc.assets|
    ensures GoodSnapshot(doc.sourceRecords, doc.assets[n])
  {
  }

  lemma DistinctPair(doc: Document, i: nat, n: nat)
    requires i < n < |doc.assets| && DistinctIds(doc, n + 1)
    ensures doc.assets[i].assetId != doc.assets[n].assetId
  {
  }

  lemma NewId(doc: Document, n: nat, m: Records)
    requires n < |doc.assets| && DistinctIds(doc, n + 1) && forall id :: id in m ==> IsAssetId(doc, n, id)
    ensures doc.assets[n].assetId !in m
  {
    forall i: nat | i < n ensures doc.assets[i].assetId != doc.assets[n].assetId {
      DistinctPair(doc, i, n);
    }
  }

  lemma IdKept(doc: Document, n: nat, id: string)
    requires n < |doc.assets|
    ensures IsAssetId(doc, n + 1, id) <==> IsAssetId(doc, n, id) || id == doc.assets[n].assetId
  {
  }

  lemma FoundNext(doc: Document, n: nat, m: Records)
    requires n < |doc.assets| && Recordable(doc) && DistinctIds(doc, n + 1) && Found(doc, n, m)
    ensures Found(doc, n + 1, m[doc.assets[n].assetId := RecordFor(doc.sourceRecords, doc.assets[n])])
  {
    NewId(doc, n, m);
    RecordableAt(doc, n);
    hide ClaimReference, RecordFor, Recordable, DistinctIds, IsAssetId, GoodSnapshot, HasRecord;
    var id, r := doc.assets[n].assetId, RecordFor(doc.sourceRecords, doc.assets[n]);
    var more := m[id := r];
    OneMoreKey(m, id, r);
    IdsKept(doc, n, m, more);
    RecordsKept(doc, n, m, more);
  }

  lemma OneMoreKey(m: Records, id: string, r: Record)
    requires id !in m
    ensures |m[id := r]| == |m| + 1 && m[id := r].Keys == m.Keys + {id}
  {
    assert m[id := r].Keys == m.Keys + {id};
  }

  lemma IdsKept(doc: Document, n: nat, m: Records, more: Records)
    requires n < |doc.assets| && more.Keys == m.Keys + {doc.assets[n].assetId} && forall x :: x in m ==> IsAssetId(doc, n, x)
    ensures forall x :: x in more ==> IsAssetId(doc, n + 1, x)
  {
    hide IsAssetId;
    forall x | x in more ensures IsAssetId(doc, n + 1, x) {
      IdKept(doc, n, x);
    }
  }

  lemma RecordsKept(doc: Document, n: nat, m: Records, more: Records)
    requires n < |doc.assets| && Recordable(doc) && GoodSnapshot(doc.sourceRecords, doc.assets[n]) && doc.assets[n].assetId !in m
    requires more == m[doc.assets[n].assetId := RecordFor(doc.sourceRecords, doc.assets[n])]
    requires forall i :: 0 <= i < n ==> HasRecord(doc, i, m)
    ensures forall i :: 0 <= i < n + 1 ==> HasRecord(doc, i, more)
  {
    hide ClaimReference, RecordFor, Recordable, GoodSnapshot;
    forall i | 0 <= i < n + 1 ensures HasRecord(doc, i, more) {
      if i < n { assert HasRecord(doc, i, m); }
    }
  }

  lemma {:induction false} RecordsFound(doc: Document, n: nat)
    requires n <= |doc.assets| && Recordable(doc) && DistinctIds(doc, n)
    ensures Found(doc, n, RecordsUpTo(doc, n))
  {
    hide ClaimReference, RecordFor, Recordable, IsAssetId, HasRecord;
    if n > 0 {
      RecordsFound(doc, n - 1);
      hide Found;
      FoundNext(doc, n - 1, RecordsUpTo(doc, n - 1));
    }
  }

  /** The record that `_records` makes of instance `i` of an export. */
  ghost function InstanceRecord(context: Context, reservations: seq<Reservation>, assetId: seq<string> -> string, i: nat): Record
    requires i < |Rows(reservations)|
  {
    var claim := AwsDiscovery.Claims(context, Rows(reservations))[i];
    Record(Consolidate([claim], assetId).assetId, ToDict(claim), References(context, Rows(reservations))[i])
  }

  lemma RetainedAsset(context: Context, reservations: seq<Reservation>, assetId: seq<string> -> string, a: Asset)
    requires Accepted(context, reservations) && a in Correlate(Fixtures(context, reservations), assetId)
    ensures GoodSnapshot(References(context, Rows(reservations)), ToSnapshot(a))
  {
    hide *;
    OneAssetPerInstance(context, reservations, assetId);
    var claims := AwsDiscovery.Claims(context, Rows(reservations));
    var o :| o in claims && a == Consolidate([o], assetId);
    var m :| 0 <= m < |claims| && claims[m] == o;
    SnapshotOfInstance(context, reservations, assetId, m);
  }

  /** `_records` never raises on a retained export. */
  lemma RetainedExportRecordable(context: Context, reservations: seq<Reservation>, assetId: seq<string> -> string,
                                 scope: string, observedAt: int, inputSha256: string)
    requires Accepted(context, reservations)
    ensures Recordable(DocumentOf(context, reservations, assetId, scope, observedAt, inputSha256))
  {
    hide Accepted, Correlate, Fixtures, Rows, References, ToSnapshot, Map, GoodSnapshot;
    var doc := DocumentOf(context, reservations, assetId, scope, observedAt, inputSha256);
    var assets := Correlate(Fixtures(context, reservations), assetId);
    forall i | 0 <= i < |doc.assets| ensures GoodSnapshot(doc.sourceRecords, doc.assets[i]) {
      RetainedAsset(context, reservations, assetId, assets[i]);
    }
  }

  lemma RetainedExportDistinctIds(context: Context, reservations: seq<Reservation>, assetId: seq<string> -> string,
                                  scope: string, observedAt: int, inputSha256: string)
    requires Distinguishes(assetId, AllKeys(Fixtures(context, reservations)))
    ensures var doc := DocumentOf(context, reservations, assetId, scope, observedAt, inputSha256);
            DistinctIds(doc, |doc.assets|)
  {
    AssetIdsDistinct(Fixtures(context, reservations), assetId);
    DistinctAssetsDisjoint(Fixtures(context, reservations), assetId);
    hide Correlate, Fixtures, KeysDisjoint, NeverTies;
    var doc := DocumentOf(context, reservations, assetId, scope, observedAt, inputSha256);
    var assets := Correlate(Fixtures(context, reservations), assetId);
    forall i, j | 0 <= i < j < |doc.assets| ensures doc.assets[i].assetId != doc.assets[j].assetId {
      assert assets[i] in assets && assets[j] in assets && assets[i] != assets[j];
    }
  }

  lemma DistinguishedRecords(context: Context, reservations: seq<Reservation>, assetId: seq<string> -> string,
                             scope: string, observedAt: int, inputSha256: string)
    requires Accepted(context, reservations)
    requires Distinguishes(assetId, AllKeys(Fixtures(context, reservations)))
    ensures var doc := DocumentOf(context, reservations, assetId, scope, observedAt, inputSha256);
            && Recordable(doc)
            && |RecordsOf(doc)| == |Rows(reservations)|
            && forall i :: 0 <= i < |Rows(reservations)| ==>
                 InstanceRecord(context, reservations, assetId, i).assetId in RecordsOf(doc)
                 && RecordsOf(doc)[InstanceRecord(context, reservations, assetId, i).assetId]
                    == InstanceRecord(context, reservations, assetId, i)
  {
    hide *;
    var doc := DocumentOf(context, reservations, assetId, scope, observedAt, inputSha256);
    RetainedExportRecordable(context, reservations, assetId, scope, observedAt, inputSha256);
    RetainedExportDistinctIds(context, reservations, assetId, scope, observedAt, inputSha256);
    OneAssetPerInstance(context, reservations, assetId);
    AllRecords(doc);
    DocumentParts(context, reservations, assetId, scope, observedAt, inputSha256);
    forall i | 0 <= i < |Rows(reservations)|
      ensures InstanceRecord(context, reservations, assetId, i).assetId in RecordsOf(doc)
      ensures RecordsOf(doc)[InstanceRecord(context, reservations, assetId, i).assetId] == InstanceRecord(context, reservations, assetId, i)
    {
      RecordOfRow(context, reservations, assetId, doc, i);
    }
  }

  lemma AllRecords(doc: Document)
    requires Recordable(doc) && DistinctIds(doc, |doc.assets|)
    ensures Found(doc, |doc.assets|, RecordsOf(doc)) && |RecordsOf(doc)| == |doc.assets|
  {
    RecordsFound(doc, |doc.assets|);
    hide Recordable, DistinctIds, IsAssetId, HasRecord, RecordsUpTo;
  }

  lemma DocumentParts(context: Context, reservations: seq<Reservation>, assetId: seq<string> -> string,
                      scope: string, observedAt: int, inputSha256: string)
    ensures var doc := DocumentOf(context, reservations, assetId, scope, observedAt, inputSha256);
            var assets := Correlate(Fixtures(context, reservations), assetId);
            && doc.sourceRecords == References(context, Rows(reservations)) && |doc.assets| == |assets|
            && forall k :: 0 <= k < |assets| ==> doc.assets[k] == ToSnapshot(assets[k])
  {
    hide Correlate, Fixtures, Rows, References, ToSnapshot;
  }

  lemma RecordOfRow(context: Context, reservations: seq<Reservation>, assetId: seq<string> -> string, doc: Document, i: nat)
    requires Accepted(context, reservations) && i < |Rows(reservations)|
    requires var assets := Correlate(Fixtures(context, reservations), assetId);
             && doc.sourceRecords == References(context, Rows(reservations)) && |doc.assets| == |assets|
             && forall k :: 0 <= k < |assets| ==> doc.assets[k] == ToSnapshot(assets[k])
    requires Recordable(doc) && Found(doc, |doc.assets|, RecordsOf(doc))
    ensures var r := InstanceRecord(context, reservations, assetId, i);
            r.assetId in RecordsOf(doc) && RecordsOf(doc)[r.assetId] == r
  {
    hide *;
    var assets := Correlate(Fixtures(context, reservations), assetId);
    var claims := AwsDiscovery.Claims(context, Rows(reservations));
    OneAssetPerInstance(context, reservations, assetId);
    SnapshotOfInstance(context, reservations, assetId, i);
    assert claims[i] in claims;
    assert Consolidate([claims[i]], assetId) in assets;
    var k :| 0 <= k < |assets| && assets[k] == Consolidate([claims[i]], assetId);
    FoundAt(doc, k);
  }

  lemma FoundAt(doc: Document, k: nat)
    requires k < |doc.assets| && Recordable(doc) && Found(doc, |doc.assets|, RecordsOf(doc))
    ensures GoodSnapshot(doc.sourceRecords, doc.assets[k])
    ensures doc.assets[k].assetId in RecordsOf(doc)
    ensures RecordsOf(doc)[doc.assets[k].assetId] == RecordFor(doc.sourceRecords, doc.assets[k])
  {
    RecordableAt(doc, k);
    assert HasRecord(doc, k, RecordsOf(doc));
    hide Recordable, RecordsOf, RecordFor, GoodSnapshot, IsAssetId;
  }

  /** Every instance of a retained export has exactly one record, with its own claims and its own
      row reference, and there are no other records, for every injective digest. */
  lemma RetainedExportRecords(context: Context, reservations: seq<Reservation>, digest: string -> string,
                              scope: string, observedAt: int, inputSha256: string)
    requires Accepted(context, reservations) && InjectiveDigest(digest)
    ensures var doc := DocumentOf(context, reservations, AssetIds(digest), scope, observedAt, inputSha256);
            && Recordable(doc)
            && |RecordsOf(doc)| == |Rows(reservations)|
            && forall i :: 0 <= i < |Rows(reservations)| ==>
                 InstanceRecord(context, reservations, AssetIds(digest), i).assetId in RecordsOf(doc)
                 && RecordsOf(doc)[InstanceRecord(context, reservations, AssetIds(digest), i).assetId]
                    == InstanceRecord(context, reservations, AssetIds(digest), i)
  {
    hide *;
    ExportKeysDistinguish(digest, context, reservations);
    DistinguishedRecords(context, reservations, AssetIds(digest), scope, observedAt, inputSha256);
  }

  lemma SnapshotOfInstance(context: Context, reservations: seq<Reservation>, assetId: seq<string> -> string, i: nat)
    requires Accepted(context, reservations) && i < |Rows(reservations)|
    ensures var s := ToSnapshot(Consolidate([AwsDiscovery.Claims(context, Rows(reservations))[i]], assetId));
            && GoodSnapshot(References(context, Rows(reservations)), s)
            && RecordFor(References(context, Rows(reservations)), s) == InstanceRecord(context, reservations, assetId, i)
            && InstanceRecord(context, reservations, assetId, i).assetId == s.assetId
  {
    hide Claim, Consolidate, Reference;
    var rows := Rows(reservations);
    var o := AwsDiscovery.Claims(context, rows)[i];
    ConsolidateFacts([o], assetId);
    var a := Consolidate([o], assetId);
    SamePermutation([o], a.observations);
    assert a.observations[0] in [o];
    OwnRowReference(context, reservations, i);
    ReferenceFound(References(context, rows), i);
  }

  // ---- comparison --------------------------------------------------------------------------

  datatype Change = Change(assetId: string, changedFields: seq<string>, previous: Record, current: Record)

  datatype Comparison = Comparison(
    added: seq<Record>,
    notObserved: seq<Record>,
    changes: seq<Change>,
    unchangedAssetIds: seq<string>)

  datatype AssetCounts = AssetCounts(previousAssets: nat, currentAssets: nat, added: nat, notObserved: nat, changed: nat, same: nat)

  datatype Report = Report(sourceBytesChanged: bool, counts: AssetCounts, comparison: Comparison)

  predicate Differs(before: Records, after: Records, id: string) {
    id in before && id in after && ChangedFields(before[id].claims, after[id].claims) != []
  }

  function AddedIds(before: Records, after: Records): set<string> {
    after.Keys - before.Keys
  }

  function DifferingIds(before: Records, after: Records): set<string> {
    set id | id in before.Keys * after.Keys && Differs(before, after, id)
  }

  function AgreeingIds(before: Records, after: Records): set<string> {
    set id | id in before.Keys * after.Keys && !Differs(before, after, id)
  }

  function ChangesFor(before: Records, after: Records, ids: seq<string>): (r: seq<Change>)
    requires forall id :: id in ids ==> id in before && id in after
    ensures |r| == |ids|
    ensures forall i :: 0 <= i < |r| ==>
              r[i] == Change(ids[i], ChangedFields(before[ids[i]].claims, after[ids[i]].claims), before[ids[i]], after[ids[i]])
  {
    seq(|ids|, i requires 0 <= i < |ids| =>
      Change(ids[i], ChangedFields(before[ids[i]].claims, after[ids[i]].claims), before[ids[i]], after[ids[i]]))
  }

  /** The two-batch comparison, field by field of its report. */
  function Compare(before: Records, after: Records): Comparison {
    Comparison(
      Pick(after, SortedSet(AddedIds(before, after))),
      Pick(before, SortedSet(AddedIds(after, before))),
      ChangesFor(before, after, SortedSet(DifferingIds(before, after))),
      SortedSet(AgreeingIds(before, after)))
  }

  /** Every count is the length of the list it counts. */
  function CountsOf(before: Records, after: Records): AssetCounts {
    var c := Compare(before, after);
    AssetCounts(|before|, |after|, |c.added|, |c.notObserved|, |c.changes|, |c.unchangedAssetIds|)
  }

  predicate SameContext(a: Document, b: Document) {
    a.scope == b.scope && a.account == b.account && a.region == b.region
  }

  predicate Comparable(old_: Document, new_: Document) {
    SameContext(old_, new_) && old_.observedAt < new_.observedAt && Recordable(old_) && Recordable(new_)
  }

  method CompareInventories(old_: Document, new_: Document) returns (result: Result<Report>)
    ensures result.Ok? <==> Comparable(old_, new_)
    ensures result.Ok? ==>
              && result.value.comparison == Compare(RecordsOf(old_), RecordsOf(new_))
              && result.value.counts == CountsOf(RecordsOf(old_), RecordsOf(new_))
              && (result.value.sourceBytesChanged <==> old_.inputSha256 != new_.inputSha256)
  {
    if !SameContext(old_, new_) {
      return Rejected;
    }
    if new_.observedAt <= old_.observedAt {
      return Rejected;
    }
    var before := ReadRecords(old_);
    if before.Rejected? {
      return Rejected;
    }
    var after := ReadRecords(new_);
    if after.Rejected? {
      return Rejected;
    }
    var comparison := DiffRecords(before.value, after.value);
    CommonSplit(before.value, after.value);
    var common := |before.value.Keys * after.value.Keys|;
    var counts := AssetCounts(|before.value|, |after.value|, |comparison.added|, |comparison.notObserved|,
                         |comparison.changes|, common - |comparison.changes|);
    result := Ok(Report(old_.inputSha256 != new_.inputSha256, counts, comparison));
  }

  method DiffRecords(before: Records, after: Records) returns (comparison: Comparison)
    ensures comparison == Compare(before, after)
  {
    hide ChangedFields, Filter, SortedSet;
    var common := SortedSet(before.Keys * after.Keys);
    ghost var differs := (id: string) => Differs(before, after, id);
    var changes: seq<Change>, changedIds: set<string> := [], {};
    ghost var named: seq<string> := [];
    EmptyFilter(common, differs);
    for n := 0 to |common|
      invariant named == Filter(common[..n], differs)
      invariant forall id :: id in named ==> id in before && id in after
      invariant changes == ChangesFor(before, after, named)
      invariant forall id :: id in changedIds <==> id in named
    {
      var id := common[n];
      assert id in common;
      FilterNext(common, n, differs);
      var fields := ChangedFields(before[id].claims, after[id].claims);
      if fields != [] {
        named := named + [id];
        changes := changes + [Change(id, fields, before[id], after[id])];
        changedIds := changedIds + {id};
      }
    }
    assert common[..|common|] == common;
    var same := SortedSet(before.Keys * after.Keys - changedIds);
    DiffersSplit(before, after, changedIds, named);
    comparison := Comparison(
      Pick(after, SortedSet(AddedIds(before, after))),
      Pick(before, SortedSet(AddedIds(after, before))),
      changes, same);
  }

  lemma EmptyFilter(s: seq<string>, p: string -> bool)
    ensures Filter(s[..0], p) == []
  {
  }

  lemma DiffersSplit(before: Records, after: Records, changedIds: set<string>, named: seq<string>)
    requires named == Filter(SortedSet(before.Keys * after.Keys), (id: string) => Differs(before, after, id))
    requires forall id :: id in changedIds <==> id in named
    ensures named == SortedSet(DifferingIds(before, after))
    ensures before.Keys * after.Keys - changedIds == AgreeingIds(before, after)
  {
    hide ChangedFields, SortedSet;
    var differs := (id: string) => Differs(before, after, id);
    FilterSortedSet(before.Keys * after.Keys, differs);
    assert (set id | id in before.Keys * after.Keys && differs(id)) == DifferingIds(before, after);
  }

  // ---- what a comparison says ------------------------------------------------------------

  lemma Partition(a: set<string>, b: set<string>, c: set<string>)
    requires a == b + c && b !! c
    ensures |SortedSet(a)| == |SortedSet(b)| + |SortedSet(c)| == |a|
  {
  }

  lemma CommonSplit(before: Records, after: Records)
    ensures |before.Keys * after.Keys| == |Compare(before, after).changes| + |Compare(before, after).unchangedAssetIds|
  {
    hide ChangedFields, SortedSet, Differs;
    var common := before.Keys * after.Keys;
    Partition(common, DifferingIds(before, after), AgreeingIds(before, after));
  }

  /** The classes account for every record of both batches, each exactly once. */
  lemma ComparisonAccounts(before: Records, after: Records)
    ensures var c := Compare(before, after);
            && |before| == |c.notObserved| + |c.changes| + |c.unchangedAssetIds|
            && |after| == |c.added| + |c.changes| + |c.unchangedAssetIds|
    ensures var n := CountsOf(before, after);
            && n.previousAssets == n.notObserved + n.changed + n.same
            && n.currentAssets == n.added + n.changed + n.same
  {
    CommonSplit(before, after);
    hide ChangedFields, SortedSet, Differs, ChangesFor, Pick;
    var common := before.Keys * after.Keys;
    assert |before.Keys| == |before.Keys - after.Keys| + |common|;
    assert |after.Keys| == |after.Keys - before.Keys| + |common|;
  }

  /** An identity is reported unchanged exactly when both batches hold it and every field reads
      the same. */
  lemma UnchangedMeans(before: Records, after: Records, id: string)
    ensures id in Compare(before, after).unchangedAssetIds <==>
              id in before && id in after && forall f :: Get(before[id].claims, f) == Get(after[id].claims, f)
  {
    hide ChangedFields, Get;
    if id in before && id in after { NoChangedFields(before[id].claims, after[id].claims); }
  }

  // ---- row positions are not changes -------------------------------------------------------

  lemma {:induction false} SameAssetsSameClaims(a: Document, b: Document, n: nat)
    requires a.assets == b.assets && n <= |a.assets| && Recordable(a) && Recordable(b)
    ensures RecordsUpTo(a, n).Keys == RecordsUpTo(b, n).Keys
    ensures forall id :: id in RecordsUpTo(a, n) ==> RecordsUpTo(a, n)[id].claims == RecordsUpTo(b, n)[id].claims
  {
    hide ClaimReference;
    if n > 0 { SameAssetsSameClaims(a, b, n - 1); }
  }

  /** Two exports of the same instances in another order have the same snapshots, and comparing
      their batches reports no addition, omission or change. */
  lemma ReorderedExportUnchanged(context: Context, a: seq<Reservation>, b: seq<Reservation>, assetId: seq<string> -> string,
                                 scope: string, earlier: int, later: int, sha: string, otherSha: string)
    requires Accepted(context, a)
    requires multiset(Instances(Rows(a))) == multiset(Instances(Rows(b)))
    requires |b| <= MAX_INSTANCES && forall i :: 0 <= i < |b| ==> b[i].ownerId == context.account
    ensures var x := DocumentOf(context, a, assetId, scope, earlier, sha);
            var y := DocumentOf(context, b, assetId, scope, later, otherSha);
            && x.assets == y.assets && Recordable(x) && Recordable(y)
            && var c := Compare(RecordsOf(x), RecordsOf(y));
               c.added == [] && c.notObserved == [] && c.changes == []
               && forall id :: id in c.unchangedAssetIds <==> id in RecordsOf(x)
  {
    InstanceOrderIrrelevant(context, a, b);
    var x := DocumentOf(context, a, assetId, scope, earlier, sha);
    var y := DocumentOf(context, b, assetId, scope, later, otherSha);
    RetainedExportRecordable(context, a, assetId, scope, earlier, sha);
    RetainedExportRecordable(context, b, assetId, scope, later, otherSha);
    SameAssetsSameClaims(x, y, |x.assets|);
    SameClaimsUnchanged(RecordsOf(x), RecordsOf(y));
    hide Recordable, Accepted, Correlate, Fixtures, Compare;
  }

  lemma SameClaimsUnchanged(before: Records, after: Records)
    requires before.Keys == after.Keys && forall id :: id in before ==> before[id].claims == after[id].claims
    ensures var c := Compare(before, after);
            c.added == [] && c.notObserved == [] && c.changes == [] && forall id :: id in c.unchangedAssetIds <==> id in before
  {
    forall id | id in before ensures !Differs(before, after, id) {
      NoChangedFields(before[id].claims, after[id].claims);
    }
    hide Differs, ChangedFields;
    assert AddedIds(before, after) == {} && AddedIds(after, before) == {} && DifferingIds(before, after) == {};
    assert AgreeingIds(before, after) == before.Keys;
  }
}
