/** The comparison of two retained reviews of one discovery batch, and what replaying the
    comparisons of a whole review history gives.
 */
module AssessmentCompare {
  import opened Ordering
  import opened JsonFields
  import opened ReviewHistory

  type ItemMap = map<string, Item>

  datatype Change = Change(findingId: string, changedFields: seq<string>, previous: Item, current: Item)

  datatype Comparison = Comparison(added: seq<Item>, omitted: seq<Item>, changes: seq<Change>, unchangedCount: nat)

  datatype Report = Report(reviewInputsChanged: bool, comparison: Comparison)

  /** An item as the dictionary that the comparison reads. */
  function FieldsOf(item: Item): Fields {
    item.rest["finding_id" := Text(item.findingId)]["asset_id" := Text(item.assetId)]
  }

  /** Every field of the two items reads the same. */
  ghost predicate ReadsAs(a: Item, b: Item) {
    forall name :: Get(FieldsOf(a), name) == Get(FieldsOf(b), name)
  }

  /** A dictionary from finding ids to items that carry them, as `_items` builds it. */
  ghost predicate Keyed(m: ItemMap) {
    forall f :: f in m ==> m[f].findingId == f
  }

  ghost predicate SameAssets(before: ItemMap, after: ItemMap) {
    forall f :: f in before && f in after ==> before[f].assetId == after[f].assetId
  }

  // ---- the comparison ------------------------------------------------------------------------

  predicate Differs(before: ItemMap, after: ItemMap, f: string) {
    f in before && f in after && ChangedFields(FieldsOf(before[f]), FieldsOf(after[f])) != []
  }

  function ChangeOf(before: ItemMap, after: ItemMap, f: string): Change
    requires f in before && f in after
  {
    Change(f, ChangedFields(FieldsOf(before[f]), FieldsOf(after[f])), before[f], after[f])
  }

  function ChangesIn(before: ItemMap, after: ItemMap, ids: seq<string>): seq<Change>
    requires forall f :: f in ids ==> f in before && f in after
  {
    if ids == [] then []
    else
      var last := ids[|ids| - 1];
      ChangesIn(before, after, ids[..|ids| - 1]) +
      (if Differs(before, after, last) then [ChangeOf(before, after, last)] else [])
  }

  lemma {:induction false} ChangesExactly(before: ItemMap, after: ItemMap, ids: seq<string>)
    requires forall f :: f in ids ==> f in before && f in after
    ensures forall c :: c in ChangesIn(before, after, ids) <==>
              c.findingId in ids && Differs(before, after, c.findingId) && c == ChangeOf(before, after, c.findingId)
    ensures |ChangesIn(before, after, ids)| <= |ids|
  {
    hide ChangedFields, FieldsOf;
    if ids != [] {
      var m := |ids| - 1;
      var rest, last := ids[..m], ids[m];
      ChangesExactly(before, after, rest);
      assert forall f :: f in ids <==> f in rest || f == last;
      hide Differs;
    }
  }

  function Common(before: ItemMap, after: ItemMap): (r: seq<string>)
    ensures forall f :: f in r <==> f in before && f in after
    ensures |r| == |before.Keys * after.Keys|
  {
    SortedSet(before.Keys * after.Keys)
  }

  /** The comparison, field by field of its report. */
  function Compare(before: ItemMap, after: ItemMap): Comparison {
    var changes := ChangesIn(before, after, Common(before, after));
    Comparison(
      Pick(after, SortedSet(after.Keys - before.Keys)),
      Pick(before, SortedSet(before.Keys - after.Keys)),
      changes,
      if |changes| <= |before.Keys * after.Keys| then |before.Keys * after.Keys| - |changes| else 0)
  }

  /** The guards of `compare_assessments` on two reviews of one export. */
  ghost predicate ReviewsComparable(a: Review, b: Review) {
    Succeeds(a, b) && forall f :: f in Items(a) && f in Items(b) ==> Items(a)[f].assetId == Items(b)[f].assetId
  }

  /** Receipts that do not verify are `None`. */
  method CompareAssessments(previous: Option<Review>, current: Option<Review>) returns (result: Result<Report>)
    ensures result.Ok? <==> previous.Some? && current.Some? && ReviewsComparable(previous.value, current.value)
    ensures result.Ok? ==>
              && result.value.comparison == Compare(Items(previous.value), Items(current.value))
              && (result.value.reviewInputsChanged <==> previous.value.inputSha256 != current.value.inputSha256)
  {
    hide Compare, Common, Items, ByFinding;
    if previous.None? || current.None? {
      return Rejected;
    }
    var old_, new_ := previous.value, current.value;
    if new_.discovery != old_.discovery || new_.model != old_.model {
      return Rejected;
    }
    if new_.asOf < old_.asOf || new_.assessedAt < old_.assessedAt {
      return Rejected;
    }
    var before, after := Items(old_), Items(new_);
    if exists f :: f in Common(before, after) && before[f].assetId != after[f].assetId {
      return Rejected;
    }
    var comparison := DiffItems(before, after);
    result := Ok(Report(old_.inputSha256 != new_.inputSha256, comparison));
  }

  method DiffItems(before: ItemMap, after: ItemMap) returns (comparison: Comparison)
    ensures comparison == Compare(before, after)
  {
    var common := Common(before, after);
    DifferingCount(before, after);
    hide ChangedFields, FieldsOf, SortedSet, Common;
    var changes: seq<Change> := [];
    for n := 0 to |common|
      invariant changes == ChangesIn(before, after, common[..n])
    {
      var f := common[n];
      var left, right := before[f], after[f];
      assert common[..n + 1][..n] == common[..n];
      var fields := ChangedFields(FieldsOf(left), FieldsOf(right));
      if fields != [] {
        changes := changes + [Change(f, fields, left, right)];
      }
    }
    assert common[..|common|] == common;
    comparison := Comparison(
      Pick(after, SortedSet(after.Keys - before.Keys)),
      Pick(before, SortedSet(before.Keys - after.Keys)),
      changes,
      |common| - |changes|);
  }

  /** Any earlier review of an accepted history can be compared with any later one. */
  lemma HistoryComparable(s: Setting, records: seq<Review>, i: nat, j: nat)
    requires Accepts(s, records) && i < j < |records|
    ensures ReviewsComparable(records[i], records[j])
  {
    OneLineage(s, records, i, j);
    hide Items, Accepts;
    forall f | f in Items(records[i]) && f in Items(records[j])
      ensures Items(records[i])[f].assetId == Items(records[j])[f].assetId
    {
      FindingStaysOnAsset(s, records, i, j, f);
    }
  }

  // ---- what a comparison says ----------------------------------------------------------------

  lemma DiffersMeans(before: ItemMap, after: ItemMap, f: string)
    requires f in before && f in after
    ensures Differs(before, after, f) <==> !ReadsAs(before[f], after[f])
  {
    NoChangedFields(FieldsOf(before[f]), FieldsOf(after[f]));
  }

  /** A finding is listed as changed exactly when both reviews hold it and some field reads
      differently. */
  lemma ChangesMean(before: ItemMap, after: ItemMap, c: Change)
    ensures c in Compare(before, after).changes <==>
              && c.findingId in before && c.findingId in after && !ReadsAs(before[c.findingId], after[c.findingId])
              && c == ChangeOf(before, after, c.findingId)
  {
    ChangesExactly(before, after, Common(before, after));
    var f := c.findingId;
    if f in before && f in after {
      DiffersMeans(before, after, f);
      assert f in Common(before, after);
    }
    hide ChangedFields, Differs, ReadsAs, FieldsOf, ChangesIn, SortedSet;
  }

  /** The listed fields are exactly those that read differently; the finding and its asset are
      never among them. */
  lemma ChangedFieldsListed(before: ItemMap, after: ItemMap, c: Change)
    requires Keyed(before) && Keyed(after) && SameAssets(before, after) && c in Compare(before, after).changes
    ensures c.findingId in before && c.findingId in after
    ensures c.previous == before[c.findingId] && c.current == after[c.findingId]
    ensures forall name :: name in c.changedFields <==> Get(FieldsOf(c.previous), name) != Get(FieldsOf(c.current), name)
    ensures "finding_id" !in c.changedFields && "asset_id" !in c.changedFields
  {
    ChangesMean(before, after, c);
    ChangedFieldsMeans(FieldsOf(c.previous), FieldsOf(c.current));
    hide ChangedFields, ReadsAs, Compare;
  }

  lemma DifferingCount(before: ItemMap, after: ItemMap)
    ensures |ChangesIn(before, after, Common(before, after))| <= |before.Keys * after.Keys|
  {
    ChangesExactly(before, after, Common(before, after));
  }

  /** Additions, omissions, changes and unchanged findings account for both reviews once. */
  lemma ComparisonAccounts(before: ItemMap, after: ItemMap)
    ensures var c := Compare(before, after);
            && |before| == |c.omitted| + |c.changes| + c.unchangedCount
            && |after| == |c.added| + |c.changes| + c.unchangedCount
  {
    DifferingCount(before, after);
    hide Common, ChangesIn, SortedSet;
    var common := before.Keys * after.Keys;
    assert |before.Keys| == |before.Keys - after.Keys| + |common|;
    assert |after.Keys| == |after.Keys - before.Keys| + |common|;
  }

  /** A change read backwards. */
  function Reversed(c: Change): Change {
    c.(previous := c.current, current := c.previous)
  }

  lemma {:induction false} ChangesReversed(before: ItemMap, after: ItemMap, ids: seq<string>)
    requires forall f :: f in ids ==> f in before && f in after
    ensures ChangesIn(after, before, ids) == Map(ChangesIn(before, after, ids), Reversed)
  {
    if ids != [] {
      var m := |ids| - 1;
      ChangesReversed(before, after, ids[..m]);
      ChangedFieldsSymmetric(FieldsOf(before[ids[m]]), FieldsOf(after[ids[m]]));
      hide ChangedFields, FieldsOf, Map;
      if Differs(before, after, ids[m]) {
        MapNext(ChangesIn(before, after, ids[..m]), ChangeOf(before, after, ids[m]), Reversed);
      }
    }
  }

  lemma CommonSymmetric(before: ItemMap, after: ItemMap)
    ensures Common(after, before) == Common(before, after)
    ensures |after.Keys * before.Keys| == |before.Keys * after.Keys|
  {
    assert before.Keys * after.Keys == after.Keys * before.Keys;
  }

  /** Comparing the other way round exchanges additions and omissions and reverses each change. */
  lemma ComparisonReversed(before: ItemMap, after: ItemMap)
    ensures var c := Compare(before, after);
            Compare(after, before) == Comparison(c.omitted, c.added, Map(c.changes, Reversed), c.unchangedCount)
  {
    CommonSymmetric(before, after);
    ChangesReversed(before, after, Common(before, after));
    hide ChangesIn, SortedSet, Map, Pick, Common;
  }

  // ---- replaying comparisons -------------------------------------------------------------------

  function CurrentOf(c: Change): Item { c.current }

  /** Apply a comparison to the items of an older review. */
  ghost function Patch(items: ItemMap, c: Comparison): ItemMap {
    (items - (set o | o in c.omitted :: o.findingId)) + ByFinding(c.added) + ByFinding(Map(c.changes, CurrentOf))
  }

  /** The same findings, each reading the same. */
  ghost predicate SameReading(a: ItemMap, b: ItemMap) {
    a.Keys == b.Keys && forall f :: f in a ==> ReadsAs(a[f], b[f])
  }

  lemma ByFindingKeys(items: seq<Item>, f: string)
    ensures f in ByFinding(items) <==> exists i :: 0 <= i < |items| && items[i].findingId == f
  {
    if f in ByFinding(items) {
      var i :| 0 <= i < |items| && items[i] == ByFinding(items)[f];
    }
  }

  lemma PickedFinding(m: ItemMap, ids: seq<string>, f: string)
    requires Keyed(m) && forall id :: id in ids ==> id in m
    ensures f in ByFinding(Pick(m, ids)) <==> f in ids
    ensures f in ids ==> ByFinding(Pick(m, ids))[f] == m[f]
  {
    var items := Pick(m, ids);
    ByFindingKeys(items, f);
    assert forall i :: 0 <= i < |ids| ==> items[i] == m[ids[i]] && items[i].findingId == ids[i];
    hide *;
    if f in ids {
      var i :| 0 <= i < |ids| && ids[i] == f;
      assert items[i].findingId == f;
    }
    if f in ByFinding(items) {
      var j :| 0 <= j < |items| && items[j] == ByFinding(items)[f];
      assert ids[j] == f;
    }
  }

  lemma PickedByFinding(m: ItemMap, ids: set<string>)
    requires Keyed(m) && ids <= m.Keys
    ensures ByFinding(Pick(m, SortedSet(ids))).Keys == ids
    ensures forall f :: f in ids ==> ByFinding(Pick(m, SortedSet(ids)))[f] == m[f]
  {
    hide *;
    var picked := ByFinding(Pick(m, SortedSet(ids)));
    forall f ensures f in picked <==> f in ids {
      PickedFinding(m, SortedSet(ids), f);
    }
    forall f | f in ids ensures picked[f] == m[f] {
      PickedFinding(m, SortedSet(ids), f);
    }
  }

  lemma PickedNames(m: ItemMap, ids: seq<string>)
    requires Keyed(m) && forall id :: id in ids ==> id in m
    ensures (set o | o in Pick(m, ids) :: o.findingId) == set id | id in ids
  {
    var items := Pick(m, ids);
    hide Pick;
    forall f | f in ids ensures f in (set o | o in items :: o.findingId) {
      var i :| 0 <= i < |ids| && ids[i] == f;
      assert items[i] in items && items[i].findingId == f;
    }
  }

  lemma OmittedNames(before: ItemMap, after: ItemMap)
    requires Keyed(before)
    ensures (set o | o in Compare(before, after).omitted :: o.findingId) == before.Keys - after.Keys
  {
    var gone := before.Keys - after.Keys;
    OmittedItems(before, after);
    hide *;
    PickedNames(before, SortedSet(gone));
    MembersAgain(gone);
  }

  lemma OmittedItems(before: ItemMap, after: ItemMap)
    ensures Compare(before, after).omitted == Pick(before, SortedSet(before.Keys - after.Keys))
  {
    hide SortedSet, Pick, ChangesIn, Common;
  }

  lemma MembersAgain(s: set<string>)
    ensures (set id | id in SortedSet(s)) == s
  {
    hide SortedSet;
  }

  lemma ChangedFinding(before: ItemMap, after: ItemMap, changes: seq<Change>, f: string)
    requires Keyed(before) && Keyed(after)
    requires forall c :: c in changes <==>
               c.findingId in Common(before, after) && Differs(before, after, c.findingId) && c == ChangeOf(before, after, c.findingId)
    ensures f in ByFinding(Map(changes, CurrentOf)) <==> Differs(before, after, f)
    ensures Differs(before, after, f) ==> f in after && ByFinding(Map(changes, CurrentOf))[f] == after[f]
  {
    var items := Map(changes, CurrentOf);
    assert forall i :: 0 <= i < |items| ==> items[i] == changes[i].current;
    assert Differs(before, after, f) ==> f in Common(before, after);
    forall c | c in changes
      ensures c.findingId in after && c.current == after[c.findingId] && c.current.findingId == c.findingId && Differs(before, after, c.findingId)
    {
      ChangeCurrent(before, after, c);
    }
    if Differs(before, after, f) { ChangeNamed(before, after, f); }
    var listed := Differs(before, after, f);
    assert listed ==> exists c :: c in changes && c.findingId == f;
    hide *;
    CurrentsByFinding(changes, items, after, f);
  }

  lemma CurrentsByFinding(changes: seq<Change>, items: seq<Item>, after: ItemMap, f: string)
    requires |items| == |changes| && forall i :: 0 <= i < |items| ==> items[i] == changes[i].current
    requires forall c :: c in changes ==> c.findingId in after && c.current == after[c.findingId] && c.current.findingId == c.findingId
    ensures f in ByFinding(items) <==> exists c :: c in changes && c.findingId == f
    ensures f in ByFinding(items) ==> f in after && ByFinding(items)[f] == after[f]
  {
    ByFindingKeys(items, f);
    hide ByFinding;
    if c :| c in changes && c.findingId == f {
      var i :| 0 <= i < |changes| && changes[i] == c;
      assert items[i].findingId == f;
    }
    if f in ByFinding(items) {
      var i :| 0 <= i < |items| && items[i] == ByFinding(items)[f];
      assert changes[i] in changes && changes[i].findingId == f;
    }
  }

  lemma ChangeNamed(before: ItemMap, after: ItemMap, f: string)
    requires f in before && f in after
    ensures ChangeOf(before, after, f).findingId == f
  {
    hide ChangedFields, FieldsOf;
  }

  lemma ChangeCurrent(before: ItemMap, after: ItemMap, c: Change)
    requires Keyed(after) && c.findingId in before && c.findingId in after && c == ChangeOf(before, after, c.findingId)
    ensures c.current == after[c.findingId] && c.current.findingId == c.findingId
  {
    hide ChangedFields, FieldsOf;
  }

  lemma ChangedByFinding(before: ItemMap, after: ItemMap)
    requires Keyed(before) && Keyed(after)
    ensures var changed := ByFinding(Map(Compare(before, after).changes, CurrentOf));
            && (forall f :: f in changed <==> Differs(before, after, f))
            && (forall f :: f in changed ==> f in after && changed[f] == after[f])
  {
    var changes := Compare(before, after).changes;
    ChangesExactly(before, after, Common(before, after));
    hide *;
    forall f ensures f in ByFinding(Map(changes, CurrentOf)) <==> Differs(before, after, f)
             ensures Differs(before, after, f) ==> f in after && ByFinding(Map(changes, CurrentOf))[f] == after[f]
    {
      ChangedFinding(before, after, changes, f);
    }
  }

  /** What a patch holds, one finding at a time. */
  lemma Patched(items: ItemMap, before: ItemMap, after: ItemMap, f: string)
    requires Keyed(before) && Keyed(after) && items.Keys == before.Keys
    ensures f in Patch(items, Compare(before, after)) <==> f in after
    ensures f in after ==>
              Patch(items, Compare(before, after))[f] == if f !in before || Differs(before, after, f) then after[f] else items[f]
  {
    OmittedNames(before, after);
    PickedByFinding(after, after.Keys - before.Keys);
    ChangedByFinding(before, after);
    var c := Compare(before, after);
    assert c.added == Pick(after, SortedSet(after.Keys - before.Keys));
    assert Differs(before, after, f) ==> f in before && f in after;
    hide Compare, Differs, Pick, SortedSet, ByFinding, Map, Keyed;
    var gone := set o | o in c.omitted :: o.findingId;
    var kept := items - gone;
    assert f in kept <==> f in items && f !in gone;
  }

  lemma ReadsSelf(a: Item)
    ensures ReadsAs(a, a)
  {
  }

  lemma ReadsTransitive(a: Item, b: Item, c: Item)
    requires ReadsAs(a, b) && ReadsAs(b, c)
    ensures ReadsAs(a, c)
  {
    hide Get, FieldsOf;
  }

  /** Patching anything that reads like the older review gives something that reads like the
      newer one: a comparison loses nothing. */
  lemma PatchRebuilds(items: ItemMap, before: ItemMap, after: ItemMap)
    requires Keyed(before) && Keyed(after) && SameReading(items, before)
    ensures SameReading(Patch(items, Compare(before, after)), after)
  {
    var p := Patch(items, Compare(before, after));
    hide Patch, Compare, Differs, ReadsAs;
    forall f ensures f in p <==> f in after {
      Patched(items, before, after, f);
    }
    forall f | f in p ensures ReadsAs(p[f], after[f]) {
      Patched(items, before, after, f);
      if f in before && !Differs(before, after, f) {
        DiffersMeans(before, after, f);
        ReadsTransitive(items[f], before[f], after[f]);
      } else {
        ReadsSelf(after[f]);
      }
    }
  }

  // ---- over a whole history -------------------------------------------------------------------

  /** The comparison of review `n` with its predecessor. */
  function StepAt(records: seq<Review>, n: nat): Comparison
    requires 0 < n < |records|
  {
    Compare(Items(records[n - 1]), Items(records[n]))
  }

  /** Start from the first review and apply the comparisons of the next `n` steps. */
  ghost function Replayed(records: seq<Review>, n: nat): ItemMap
    requires n < |records|
  {
    if n == 0 then Items(records[0]) else Patch(Replayed(records, n - 1), StepAt(records, n))
  }

  lemma ItemsKeyed(r: Review)
    ensures Keyed(Items(r))
  {
  }

  /** The first review and the comparisons of neighbouring reviews determine every review. */
  lemma {:induction false} HistoryReplays(records: seq<Review>, n: nat)
    requires n < |records|
    ensures SameReading(Replayed(records, n), Items(records[n]))
  {
    hide Items, Patch, Compare, ReadsAs;
    if n == 0 {
      forall f | f in Items(records[0]) ensures ReadsAs(Items(records[0])[f], Items(records[0])[f]) {
        ReadsSelf(Items(records[0])[f]);
      }
    } else {
      HistoryReplays(records, n - 1);
      ItemsKeyed(records[n - 1]);
      ItemsKeyed(records[n]);
      PatchRebuilds(Replayed(records, n - 1), Items(records[n - 1]), Items(records[n]));
    }
  }

  function AddedOver(records: seq<Review>, n: nat): nat
    requires n < |records|
  {
    if n == 0 then 0 else AddedOver(records, n - 1) + |StepAt(records, n).added|
  }

  function OmittedOver(records: seq<Review>, n: nat): nat
    requires n < |records|
  {
    if n == 0 then 0 else OmittedOver(records, n - 1) + |StepAt(records, n).omitted|
  }

  /** Over any run of reviews, findings added minus findings omitted is the growth of the queue. */
  lemma {:induction false} HistoryBalances(records: seq<Review>, n: nat)
    requires n < |records|
    ensures |Items(records[0])| + AddedOver(records, n) == |Items(records[n])| + OmittedOver(records, n)
  {
    hide Items, Compare;
    if n > 0 {
      HistoryBalances(records, n - 1);
      ComparisonAccounts(Items(records[n - 1]), Items(records[n]));
    }
  }
}
