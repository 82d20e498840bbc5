/** What comparing the records of two accepted EC2 exports says about their instances. */
module ExportCompare {
  import opened Ordering
  import opened Models
  import opened AssetGraph
  import opened Identifiers
  import opened AwsDiscovery
  import opened JsonFields
  import opened InventoryCompare

  // ---- asset ids of instances --------------------------------------------------------------

  predicate Known(context: Context, instance: Instance) {
    IsRegion(context.region) && IsAccount(context.account) && IsInstanceId(instance.instanceId)
  }

  lemma ClaimTuplesEqual(context: Context, p: Instance, q: Instance)
    requires Known(context, p) && Known(context, q)
    requires JoinLines(SortedSet(KeySet(Claim(context, p)))) == JoinLines(SortedSet(KeySet(Claim(context, q))))
    ensures p.instanceId == q.instanceId
  {
    ClaimKeysUnbroken(context, p);
    ClaimKeysUnbroken(context, q);
    KeysAreReal(Claim(context, p));
    KeysAreReal(Claim(context, q));
    var x, y := SortedSet(KeySet(Claim(context, p))), SortedSet(KeySet(Claim(context, q)));
    assert RealKeys(x) && RealKeys(y);
    UnbrokenJoinInjective(x, y);
    assert SourceKey(Claim(context, p)) in x && SourceKey(Claim(context, p)) in y;
    assert SourceKey(Claim(context, p)) in KeySet(Claim(context, p)) * KeySet(Claim(context, q));
    hide *;
    ShareByKey(Claim(context, p), Claim(context, q), SourceKey(Claim(context, p)));
    assert IsAccount(context.account) by { KnownAccount(context, p); }
    ClaimsShareNothing(context, p, q);
  }

  lemma KnownAccount(context: Context, p: Instance)
    requires Known(context, p)
    ensures IsAccount(context.account)
  {
    hide IsRegion, IsInstanceId, IsAccount;
  }

  lemma ShareByKey(a: Observation, b: Observation, k: string)
    requires k in KeySet(a) * KeySet(b)
    ensures Share(a, b)
  {
    hide KeySet;
  }

  /** With an injective digest two instances of one context have one asset id exactly when they are
      the same instance. */
  lemma SameIdSameInstance(digest: string -> string, context: Context, p: Instance, q: Instance)
    requires InjectiveDigest(digest) && Known(context, p) && Known(context, q)
    ensures Consolidate([Claim(context, p)], AssetIds(digest)).assetId == Consolidate([Claim(context, q)], AssetIds(digest)).assetId
            <==> p.instanceId == q.instanceId
  {
    SoloKeys(Claim(context, p), AssetIds(digest));
    SoloKeys(Claim(context, q), AssetIds(digest));
    KnownAccount(context, p);
    ClaimKeys(context, p);
    ClaimKeys(context, q);
    var x, y := SortedSet(KeySet(Claim(context, p))), SortedSet(KeySet(Claim(context, q)));
    hide Known, Claim, KeySet, SortedSet, Consolidate, JoinLines, Arn;
    if AssetIds(digest)(x) == AssetIds(digest)(y) {
      assert digest(JoinLines(x)) == AssetIds(digest)(x)[6..] && digest(JoinLines(y)) == AssetIds(digest)(y)[6..];
      ClaimTuplesEqual(context, p, q);
    }
  }

  // ---- records of an export ------------------------------------------------------------------

  /** The instance of row `i`. */
  function InstanceAt(reservations: seq<Reservation>, i: nat): Instance
    requires i < |Rows(reservations)|
  {
    Rows(reservations)[i].instance
  }

  lemma AcceptedKnown(context: Context, reservations: seq<Reservation>, i: nat)
    requires Accepted(context, reservations) && i < |Rows(reservations)|
    ensures Known(context, InstanceAt(reservations, i))
  {
    hide IsRegion, IsAccount, IsInstanceId, GoodAddress, GoodTags, Rows;
  }

  ghost predicate RowHasId(context: Context, reservations: seq<Reservation>, digest: string -> string, i: nat, id: string)
    requires i < |Rows(reservations)|
  {
    InstanceRecord(context, reservations, AssetIds(digest), i).assetId == id
  }

  lemma SnapshotIds(context: Context, reservations: seq<Reservation>, assetId: seq<string> -> string,
                    scope: string, observedAt: int, inputSha256: string, k: nat)
    requires k < |DocumentOf(context, reservations, assetId, scope, observedAt, inputSha256).assets|
    ensures k < |Correlate(Fixtures(context, reservations), assetId)|
    ensures DocumentOf(context, reservations, assetId, scope, observedAt, inputSha256).assets[k].assetId ==
            Correlate(Fixtures(context, reservations), assetId)[k].assetId
  {
    hide Correlate, Fixtures, Rows, References;
  }

  lemma AssetHasInstance(context: Context, reservations: seq<Reservation>, digest: string -> string, k: nat)
    requires Accepted(context, reservations) && k < |Correlate(Fixtures(context, reservations), AssetIds(digest))|
    ensures exists i :: 0 <= i < |Rows(reservations)| &&
              RowHasId(context, reservations, digest, i, Correlate(Fixtures(context, reservations), AssetIds(digest))[k].assetId)
  {
    hide *;
    OneAssetPerInstance(context, reservations, AssetIds(digest));
    var a := Correlate(Fixtures(context, reservations), AssetIds(digest))[k];
    assert a in Correlate(Fixtures(context, reservations), AssetIds(digest));
    var claims := AwsDiscovery.Claims(context, Rows(reservations));
    var o :| o in claims && a == Consolidate([o], AssetIds(digest));
    var i :| 0 <= i < |claims| && claims[i] == o;
    InstanceRecordId(context, reservations, AssetIds(digest), i);
    RowHasIdMeans(context, reservations, digest, i, a.assetId);
  }

  /** Every record belongs to an instance. */
  lemma RecordHasInstance(context: Context, reservations: seq<Reservation>, digest: string -> string,
                          scope: string, observedAt: int, inputSha256: string, id: string)
    requires Accepted(context, reservations) && InjectiveDigest(digest)
    requires Recordable(DocumentOf(context, reservations, AssetIds(digest), scope, observedAt, inputSha256))
    requires id in RecordsOf(DocumentOf(context, reservations, AssetIds(digest), scope, observedAt, inputSha256))
    ensures exists i :: 0 <= i < |Rows(reservations)| && RowHasId(context, reservations, digest, i, id)
  {
    hide *;
    var doc := DocumentOf(context, reservations, AssetIds(digest), scope, observedAt, inputSha256);
    ExportKeysDistinguish(digest, context, reservations);
    RetainedExportDistinctIds(context, reservations, AssetIds(digest), scope, observedAt, inputSha256);
    RecordsNamed(doc, id);
    var k :| 0 <= k < |doc.assets| && doc.assets[k].assetId == id;
    SnapshotIds(context, reservations, AssetIds(digest), scope, observedAt, inputSha256, k);
    AssetHasInstance(context, reservations, digest, k);
  }

  lemma RowHasIdMeans(context: Context, reservations: seq<Reservation>, digest: string -> string, i: nat, id: string)
    requires i < |Rows(reservations)|
    ensures RowHasId(context, reservations, digest, i, id) <==> InstanceRecord(context, reservations, AssetIds(digest), i).assetId == id
  {
    hide InstanceRecord;
  }

  lemma RecordsNamed(doc: Document, id: string)
    requires Recordable(doc) && DistinctIds(doc, |doc.assets|) && id in RecordsOf(doc)
    ensures exists k :: 0 <= k < |doc.assets| && doc.assets[k].assetId == id
  {
    RecordsFound(doc, |doc.assets|);
    hide Recordable, DistinctIds, HasRecord, RecordsUpTo;
  }

  lemma InstanceRecordId(context: Context, reservations: seq<Reservation>, assetId: seq<string> -> string, i: nat)
    requires i < |Rows(reservations)|
    ensures var claim := AwsDiscovery.Claims(context, Rows(reservations))[i];
            && claim == Claim(context, InstanceAt(reservations, i))
            && InstanceRecord(context, reservations, assetId, i).assetId == Consolidate([claim], assetId).assetId
            && InstanceRecord(context, reservations, assetId, i).claims == ToDict(claim)
  {
    hide Claim, Consolidate, ToDict, Rows;
  }

  /** `m` maps exactly the asset ids of the instances to their records. */
  ghost predicate Describes(m: Records, context: Context, reservations: seq<Reservation>, digest: string -> string) {
    && (forall i :: 0 <= i < |Rows(reservations)| ==> DescribesRow(m, context, reservations, digest, i))
    && (forall id :: id in m ==> exists i :: 0 <= i < |Rows(reservations)| && RowHasId(context, reservations, digest, i, id))
  }

  ghost predicate DescribesRow(m: Records, context: Context, reservations: seq<Reservation>, digest: string -> string, i: nat)
    requires i < |Rows(reservations)|
  {
    var r := InstanceRecord(context, reservations, AssetIds(digest), i);
    r.assetId in m && m[r.assetId] == r
  }

  lemma RowDescribed(m: Records, context: Context, reservations: seq<Reservation>, digest: string -> string, i: nat)
    requires i < |Rows(reservations)|
    requires InstanceRecord(context, reservations, AssetIds(digest), i).assetId in m
    requires m[InstanceRecord(context, reservations, AssetIds(digest), i).assetId] == InstanceRecord(context, reservations, AssetIds(digest), i)
    ensures DescribesRow(m, context, reservations, digest, i)
  {
    hide InstanceRecord;
  }

  lemma RowsDescribed(m: Records, context: Context, reservations: seq<Reservation>, digest: string -> string)
    requires forall i :: 0 <= i < |Rows(reservations)| ==> DescribesRow(m, context, reservations, digest, i)
    requires forall id :: id in m ==> exists i :: 0 <= i < |Rows(reservations)| && RowHasId(context, reservations, digest, i, id)
    ensures Describes(m, context, reservations, digest)
  {
    hide DescribesRow, RowHasId, Rows;
  }

  lemma ExportDescribed(context: Context, reservations: seq<Reservation>, digest: string -> string,
                        scope: string, observedAt: int, inputSha256: string)
    requires Accepted(context, reservations) && InjectiveDigest(digest)
    ensures var doc := DocumentOf(context, reservations, AssetIds(digest), scope, observedAt, inputSha256);
            Recordable(doc) && Describes(RecordsOf(doc), context, reservations, digest)
  {
    hide *;
    RetainedExportRecords(context, reservations, digest, scope, observedAt, inputSha256);
    var m := RecordsOf(DocumentOf(context, reservations, AssetIds(digest), scope, observedAt, inputSha256));
    forall i | 0 <= i < |Rows(reservations)| ensures DescribesRow(m, context, reservations, digest, i) {
      RowDescribed(m, context, reservations, digest, i);
    }
    forall id | id in m ensures exists i :: 0 <= i < |Rows(reservations)| && RowHasId(context, reservations, digest, i, id) {
      RecordHasInstance(context, reservations, digest, scope, observedAt, inputSha256, id);
    }
    RowsDescribed(m, context, reservations, digest);
  }

  // ---- claims of one instance in two exports ---------------------------------------------------

  predicate InstanceDiffers(p: Instance, q: Instance) {
    Addresses(p) != Addresses(q) || ReviewTags(p.tags) != ReviewTags(q.tags)
  }

  lemma SortedSetInjective(a: set<string>, b: set<string>)
    ensures SortedSet(a) == SortedSet(b) <==> a == b
  {
    if SortedSet(a) == SortedSet(b) {
      assert forall x :: x in a <==> x in SortedSet(a);
      assert forall x :: x in b <==> x in SortedSet(b);
    }
  }

  lemma SameInstanceFields(context: Context, p: Instance, q: Instance, f: string)
    requires p.instanceId == q.instanceId
    ensures Get(ToDict(Claim(context, p)), f) != Get(ToDict(Claim(context, q)), f) <==>
            || (f == "ip_addresses" && Addresses(p) != Addresses(q))
            || (f == "tags" && ReviewTags(p.tags) != ReviewTags(q.tags))
  {
    SortedSetInjective(Addresses(p), Addresses(q));
    hide Addresses, ReviewTags, SortedSet, Arn;
  }

  /** The fields in which two claims of one instance differ. */
  function InstanceChanges(p: Instance, q: Instance): seq<string> {
    (if Addresses(p) != Addresses(q) then ["ip_addresses"] else []) +
    (if ReviewTags(p.tags) != ReviewTags(q.tags) then ["tags"] else [])
  }

  lemma FieldListsSorted()
    ensures StrictlySorted([]) && StrictlySorted(["ip_addresses"]) && StrictlySorted(["tags"]) && StrictlySorted(["ip_addresses", "tags"])
  {
    FirstCharLe("ip_addresses", "tags");
    hide StrLe;
  }

  lemma InstanceChangesSorted(p: Instance, q: Instance)
    ensures StrictlySorted(InstanceChanges(p, q))
  {
    FieldListsSorted();
    hide StrictlySorted, Addresses, ReviewTags;
    var address: seq<string> := if Addresses(p) != Addresses(q) then ["ip_addresses"] else [];
    var tags: seq<string> := if ReviewTags(p.tags) != ReviewTags(q.tags) then ["tags"] else [];
    assert address + [] == address && [] + tags == tags;
    assert ["ip_addresses"] + ["tags"] == ["ip_addresses", "tags"];
  }

  /** Between two exports an instance changes exactly in its addresses and its review tags. */
  lemma SameInstanceChanges(context: Context, p: Instance, q: Instance)
    requires p.instanceId == q.instanceId
    ensures ChangedFields(ToDict(Claim(context, p)), ToDict(Claim(context, q))) == InstanceChanges(p, q)
    ensures InstanceChanges(p, q) != [] <==> InstanceDiffers(p, q)
  {
    var x, y := ToDict(Claim(context, p)), ToDict(Claim(context, q));
    ChangedFieldsMeans(x, y);
    InstanceChangesSorted(p, q);
    var fields, expected := ChangedFields(x, y), InstanceChanges(p, q);
    assert StrictlySorted(fields) by { hide *; ChangedFieldsSorted(x, y); }
    hide ToDict, Claim, ChangedFields, Get, Addresses, ReviewTags, StrictlySorted;
    forall f ensures f in fields <==> f in expected {
      SameInstanceFields(context, p, q, f);
    }
    SameSortedLists(fields, expected);
  }

  lemma ChangedFieldsSorted(x: Fields, y: Fields)
    ensures StrictlySorted(ChangedFields(x, y))
  {
    hide StrictlySorted;
  }

  lemma SameSortedLists(a: seq<string>, b: seq<string>)
    requires StrictlySorted(a) && StrictlySorted(b) && forall x :: x in a <==> x in b
    ensures a == b
  {
    hide StrictlySorted, SortedSet;
    var s := set x | x in a;
    SortedSetUnique(a, s);
    SortedSetUnique(b, s);
  }

  // ---- the comparison of two exports -------------------------------------------------------------

  ghost predicate Holds(reservations: seq<Reservation>, instanceId: string) {
    exists i :: 0 <= i < |Rows(reservations)| && InstanceAt(reservations, i).instanceId == instanceId
  }

  /** The record of row `i` is filed in the other batch exactly when that batch holds the instance. */
  lemma RowFiled(context: Context, a: seq<Reservation>, b: seq<Reservation>, digest: string -> string, m: Records, i: nat)
    requires Accepted(context, a) && Accepted(context, b) && InjectiveDigest(digest)
    requires Describes(m, context, b, digest) && i < |Rows(a)|
    ensures InstanceRecord(context, a, AssetIds(digest), i).assetId in m <==> Holds(b, InstanceAt(a, i).instanceId)
  {
    hide Accepted, Rows, InstanceRecord, InjectiveDigest, InstanceAt, DescribesRow;
    var id := InstanceRecord(context, a, AssetIds(digest), i).assetId;
    if id in m {
      var j :| 0 <= j < |Rows(b)| && RowHasId(context, b, digest, j, id);
      RowsAgree(context, a, b, digest, i, j);
    }
    if j :| 0 <= j < |Rows(b)| && InstanceAt(b, j).instanceId == InstanceAt(a, i).instanceId {
      RowsAgree(context, a, b, digest, i, j);
      assert DescribesRow(m, context, b, digest, j);
      DescribedId(m, context, b, digest, j);
    }
  }

  lemma DescribedId(m: Records, context: Context, b: seq<Reservation>, digest: string -> string, j: nat)
    requires j < |Rows(b)| && DescribesRow(m, context, b, digest, j)
    ensures InstanceRecord(context, b, AssetIds(digest), j).assetId in m
    ensures m[InstanceRecord(context, b, AssetIds(digest), j).assetId] == InstanceRecord(context, b, AssetIds(digest), j)
  {
    hide InstanceRecord;
  }

  /** Two rows have one asset id exactly when they have one instance id. */
  lemma RowsAgree(context: Context, a: seq<Reservation>, b: seq<Reservation>, digest: string -> string, i: nat, j: nat)
    requires Accepted(context, a) && Accepted(context, b) && InjectiveDigest(digest) && i < |Rows(a)| && j < |Rows(b)|
    ensures InstanceRecord(context, a, AssetIds(digest), i).assetId == InstanceRecord(context, b, AssetIds(digest), j).assetId <==>
            InstanceAt(a, i).instanceId == InstanceAt(b, j).instanceId
  {
    hide *;
    AcceptedKnown(context, a, i);
    AcceptedKnown(context, b, j);
    InstanceRecordId(context, a, AssetIds(digest), i);
    InstanceRecordId(context, b, AssetIds(digest), j);
    SameIdSameInstance(digest, context, InstanceAt(a, i), InstanceAt(b, j));
  }

  lemma PickMember<V>(m: map<string, V>, ids: seq<string>, v: V)
    requires forall id :: id in ids ==> id in m
    ensures v in Pick(m, ids) <==> exists id :: id in ids && v == m[id]
  {
    var picked := Pick(m, ids);
    hide Pick;
    if v in picked {
      var k :| 0 <= k < |picked| && picked[k] == v;
      assert ids[k] in ids;
    }
    if id :| id in ids && v == m[id] {
      var k :| 0 <= k < |ids| && ids[k] == id;
      assert picked[k] == v;
    }
  }

  lemma PickedRecords(m: Records, other: Records, r: Record)
    ensures r in Pick(m, SortedSet(m.Keys - other.Keys)) <==> exists id :: id in m && id !in other && r == m[id]
  {
    var ids := SortedSet(m.Keys - other.Keys);
    assert forall id :: id in ids <==> id in m && id !in other;
    PickMember(m, ids, r);
    hide Pick, SortedSet;
  }

  ghost predicate RecordOnlyIn(context: Context, a: seq<Reservation>, b: seq<Reservation>, digest: string -> string, r: Record, i: nat)
    requires i < |Rows(a)|
  {
    !Holds(b, InstanceAt(a, i).instanceId) && r == InstanceRecord(context, a, AssetIds(digest), i)
  }

  /** `r` is the record of an instance that `a` holds and `b` does not. */
  ghost predicate OnlyIn(context: Context, a: seq<Reservation>, b: seq<Reservation>, digest: string -> string, r: Record) {
    exists i :: 0 <= i < |Rows(a)| && RecordOnlyIn(context, a, b, digest, r, i)
  }

  lemma OneSided(context: Context, a: seq<Reservation>, b: seq<Reservation>, digest: string -> string,
                 m: Records, other: Records, r: Record)
    requires Accepted(context, a) && Accepted(context, b) && InjectiveDigest(digest)
    requires Describes(m, context, a, digest) && Describes(other, context, b, digest)
    ensures r in Pick(m, SortedSet(m.Keys - other.Keys)) <==> OnlyIn(context, a, b, digest, r)
  {
    PickedRecords(m, other, r);
    hide Accepted, Rows, InstanceRecord, InjectiveDigest, InstanceAt, DescribesRow, Holds, Pick, SortedSet;
    if id :| id in m && id !in other && r == m[id] {
      var i :| 0 <= i < |Rows(a)| && RowHasId(context, a, digest, i, id);
      assert DescribesRow(m, context, a, digest, i);
      DescribedId(m, context, a, digest, i);
      RowFiled(context, a, b, digest, other, i);
      assert RecordOnlyIn(context, a, b, digest, r, i);
    }
    if i :| 0 <= i < |Rows(a)| && RecordOnlyIn(context, a, b, digest, r, i) {
      assert DescribesRow(m, context, a, digest, i);
      DescribedId(m, context, a, digest, i);
      RowFiled(context, a, b, digest, other, i);
    }
  }

  /** Change `c` reports the same instance in both exports, with different addresses or review tags. */
  ghost predicate ChangedInstance(context: Context, a: seq<Reservation>, b: seq<Reservation>, digest: string -> string,
                                  c: Change, i: nat, j: nat)
    requires i < |Rows(a)| && j < |Rows(b)|
  {
    var p, q := InstanceAt(a, i), InstanceAt(b, j);
    && p.instanceId == q.instanceId && InstanceDiffers(p, q)
    && c == Change(InstanceRecord(context, a, AssetIds(digest), i).assetId, InstanceChanges(p, q),
                   InstanceRecord(context, a, AssetIds(digest), i), InstanceRecord(context, b, AssetIds(digest), j))
  }

  ghost predicate Changed(context: Context, a: seq<Reservation>, b: seq<Reservation>, digest: string -> string, c: Change) {
    exists i, j :: 0 <= i < |Rows(a)| && 0 <= j < |Rows(b)| && ChangedInstance(context, a, b, digest, c, i, j)
  }

  lemma ListedChange(before: Records, after: Records, c: Change)
    ensures c in ChangesFor(before, after, SortedSet(DifferingIds(before, after))) <==>
              && c.assetId in before && c.assetId in after && Differs(before, after, c.assetId)
              && c == Change(c.assetId, ChangedFields(before[c.assetId].claims, after[c.assetId].claims), before[c.assetId], after[c.assetId])
  {
    var ids := SortedSet(DifferingIds(before, after));
    var changes := ChangesFor(before, after, ids);
    assert forall id :: id in ids <==> id in before && id in after && Differs(before, after, id);
    hide ChangedFields, SortedSet, Differs, DifferingIds, ChangesFor;
    if c in changes {
      var k :| 0 <= k < |changes| && changes[k] == c;
      assert ids[k] in ids;
    }
    if c.assetId in before && c.assetId in after && Differs(before, after, c.assetId)
       && c == Change(c.assetId, ChangedFields(before[c.assetId].claims, after[c.assetId].claims), before[c.assetId], after[c.assetId]) {
      var k :| 0 <= k < |ids| && ids[k] == c.assetId;
      assert changes[k] == c;
    }
  }

  /** The change of two rows of one instance. */
  lemma RowsChange(context: Context, a: seq<Reservation>, b: seq<Reservation>, digest: string -> string,
                   before: Records, after: Records, i: nat, j: nat)
    requires i < |Rows(a)| && j < |Rows(b)| && InstanceAt(a, i).instanceId == InstanceAt(b, j).instanceId
    requires DescribesRow(before, context, a, digest, i) && DescribesRow(after, context, b, digest, j)
    requires InstanceRecord(context, a, AssetIds(digest), i).assetId == InstanceRecord(context, b, AssetIds(digest), j).assetId
    ensures var id := InstanceRecord(context, a, AssetIds(digest), i).assetId;
            && id in before && before[id] == InstanceRecord(context, a, AssetIds(digest), i)
            && id in after && after[id] == InstanceRecord(context, b, AssetIds(digest), j)
            && ChangedFields(before[id].claims, after[id].claims) == InstanceChanges(InstanceAt(a, i), InstanceAt(b, j))
            && (Differs(before, after, id) <==> InstanceDiffers(InstanceAt(a, i), InstanceAt(b, j)))
  {
    DescribedId(before, context, a, digest, i);
    DescribedId(after, context, b, digest, j);
    InstanceRecordId(context, a, AssetIds(digest), i);
    InstanceRecordId(context, b, AssetIds(digest), j);
    SameInstanceChanges(context, InstanceAt(a, i), InstanceAt(b, j));
    hide InstanceRecord, InstanceAt, Rows, ChangedFields, InstanceChanges, InstanceDiffers, DescribesRow, Claim, ToDict, Consolidate;
  }

  lemma ChangedSides(context: Context, a: seq<Reservation>, b: seq<Reservation>, digest: string -> string,
                     before: Records, after: Records, c: Change)
    requires Accepted(context, a) && Accepted(context, b) && InjectiveDigest(digest)
    requires Describes(before, context, a, digest) && Describes(after, context, b, digest)
    ensures c in Compare(before, after).changes <==> Changed(context, a, b, digest, c)
  {
    ListedChange(before, after, c);
    CompareParts(before, after);
    hide Compare, Accepted, Rows, InjectiveDigest, InstanceAt, DescribesRow, ChangesFor, SortedSet, DifferingIds, Differs, InstanceRecord,
         InstanceDiffers, InstanceChanges, ChangedFields;
    var id := c.assetId;
    if id in before && id in after && Differs(before, after, id)
       && c == Change(id, ChangedFields(before[id].claims, after[id].claims), before[id], after[id]) {
      var i :| 0 <= i < |Rows(a)| && RowHasId(context, a, digest, i, id);
      var j :| 0 <= j < |Rows(b)| && RowHasId(context, b, digest, j, id);
      assert DescribesRow(before, context, a, digest, i) && DescribesRow(after, context, b, digest, j);
      RowsAgree(context, a, b, digest, i, j);
      RowsChange(context, a, b, digest, before, after, i, j);
      assert ChangedInstance(context, a, b, digest, c, i, j);
    }
    if i, j :| 0 <= i < |Rows(a)| && 0 <= j < |Rows(b)| && ChangedInstance(context, a, b, digest, c, i, j) {
      assert DescribesRow(before, context, a, digest, i) && DescribesRow(after, context, b, digest, j);
      RowsAgree(context, a, b, digest, i, j);
      RowsChange(context, a, b, digest, before, after, i, j);
    }
  }

  /** `records` are those of the instances that `a` holds and `b` does not. */
  ghost predicate ListsOnlyIn(records: seq<Record>, context: Context, a: seq<Reservation>, b: seq<Reservation>, digest: string -> string) {
    forall r :: r in records <==> OnlyIn(context, a, b, digest, r)
  }

  /** `changes` are those of the instances that both exports hold with different addresses or tags. */
  ghost predicate ListsChanged(changes: seq<Change>, context: Context, a: seq<Reservation>, b: seq<Reservation>, digest: string -> string) {
    forall c :: c in changes <==> Changed(context, a, b, digest, c)
  }

  lemma OneSidedListed(context: Context, a: seq<Reservation>, b: seq<Reservation>, digest: string -> string, m: Records, other: Records)
    requires Accepted(context, a) && Accepted(context, b) && InjectiveDigest(digest)
    requires Describes(m, context, a, digest) && Describes(other, context, b, digest)
    ensures ListsOnlyIn(Pick(m, SortedSet(m.Keys - other.Keys)), context, a, b, digest)
  {
    hide Accepted, InjectiveDigest, Describes, Pick, SortedSet, OnlyIn;
    forall r ensures r in Pick(m, SortedSet(m.Keys - other.Keys)) <==> OnlyIn(context, a, b, digest, r) {
      OneSided(context, a, b, digest, m, other, r);
    }
  }

  lemma ChangesListed(context: Context, a: seq<Reservation>, b: seq<Reservation>, digest: string -> string, m: Records, n: Records)
    requires Accepted(context, a) && Accepted(context, b) && InjectiveDigest(digest)
    requires Describes(m, context, a, digest) && Describes(n, context, b, digest)
    ensures ListsChanged(Compare(m, n).changes, context, a, b, digest)
  {
    hide Accepted, InjectiveDigest, Describes, Compare, Changed;
    forall c ensures c in Compare(m, n).changes <==> Changed(context, a, b, digest, c) {
      ChangedSides(context, a, b, digest, m, n, c);
    }
  }

  lemma RecordsCompared(digest: string -> string, context: Context, a: seq<Reservation>, b: seq<Reservation>, m: Records, n: Records)
    requires Accepted(context, a) && Accepted(context, b) && InjectiveDigest(digest)
    requires Describes(m, context, a, digest) && Describes(n, context, b, digest)
    ensures ListsOnlyIn(Compare(m, n).added, context, b, a, digest)
    ensures ListsOnlyIn(Compare(m, n).notObserved, context, a, b, digest)
    ensures ListsChanged(Compare(m, n).changes, context, a, b, digest)
  {
    hide *;
    CompareParts(m, n);
    OneSidedListed(context, b, a, digest, n, m);
    OneSidedListed(context, a, b, digest, m, n);
    ChangesListed(context, a, b, digest, m, n);
  }

  /** Comparing two accepted exports of one context: added and no longer observed records are those
      of the instances that one export alone holds, and changes are those of the instances whose
      addresses or review tags differ, with exactly these fields. */
  lemma ExportsCompared(digest: string -> string, context: Context, a: seq<Reservation>, b: seq<Reservation>,
                        scope: string, earlier: int, later: int, sha: string, otherSha: string)
    requires Accepted(context, a) && Accepted(context, b) && InjectiveDigest(digest)
    ensures var x := DocumentOf(context, a, AssetIds(digest), scope, earlier, sha);
            var y := DocumentOf(context, b, AssetIds(digest), scope, later, otherSha);
            && Recordable(x) && Recordable(y)
            && ListsOnlyIn(Compare(RecordsOf(x), RecordsOf(y)).added, context, b, a, digest)
            && ListsOnlyIn(Compare(RecordsOf(x), RecordsOf(y)).notObserved, context, a, b, digest)
            && ListsChanged(Compare(RecordsOf(x), RecordsOf(y)).changes, context, a, b, digest)
  {
    hide *;
    var x := DocumentOf(context, a, AssetIds(digest), scope, earlier, sha);
    var y := DocumentOf(context, b, AssetIds(digest), scope, later, otherSha);
    ExportDescribed(context, a, digest, scope, earlier, sha);
    ExportDescribed(context, b, digest, scope, later, otherSha);
    RecordsCompared(digest, context, a, b, RecordsOf(x), RecordsOf(y));
  }

  lemma CompareParts(before: Records, after: Records)
    ensures Compare(before, after).added == Pick(after, SortedSet(after.Keys - before.Keys))
    ensures Compare(before, after).notObserved == Pick(before, SortedSet(before.Keys - after.Keys))
    ensures Compare(before, after).changes == ChangesFor(before, after, SortedSet(DifferingIds(before, after)))
  {
    hide SortedSet, Pick, ChangesFor, DifferingIds, AgreeingIds;
  }
}
