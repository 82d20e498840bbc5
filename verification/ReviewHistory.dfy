/** Append-only review histories: whole-history validation, the loader of a hash chain and the
    writer that extends a pinned predecessor.
 */
module ReviewHistory {
  import opened Ordering
  import opened JsonFields

  const MAX_REVIEWS := 32
  const MAX_DECISIONS := 20000

  /** One queued finding of a review; `rest` holds its remaining fields. */
  datatype Item = Item(findingId: string, assetId: string, rest: Fields)

  /** One retained assessment. `discovery` and `model` are canonical texts, dates are integers, and
      `inputSha256` names the digests of the reviewed inputs. */
  datatype Review = Review(
    asOf: int,
    assessedAt: int,
    discovery: string,
    model: string,
    inputSha256: string,
    unassigned: seq<Item>,
    queues: seq<seq<Item>>)

  /** Hashing, canonical JSON text and the replay of a review against the original export. */
  datatype Setting = Setting(
    sha: string -> string,
    payload: Review -> string,
    parse: string -> Option<Review>,
    itemText: Item -> string,
    nodeText: (nat, Option<string>, string) -> string,
    reproduces: Review -> bool)

  /** The one assumption about encodings: digests and node texts are injective and canonical
      text parses back. */
  ghost predicate Faithful(s: Setting) {
    && (forall x, y :: s.sha(x) == s.sha(y) ==> x == y)
    && (forall n: nat, p, d, m: nat, q, e :: s.nodeText(n, p, d) == s.nodeText(m, q, e) ==> n == m && p == q && d == e)
    && (forall r :: s.parse(s.payload(r)) == Some(r))
  }

  datatype ReviewRow = ReviewRow(sequence: nat, previous: Option<string>, payload: string, digest: string, node: string)
  datatype DecisionRow = DecisionRow(sequence: nat, findingId: string, assetId: string, text: string)
  datatype Database = Database(reviews: seq<ReviewRow>, decisions: seq<DecisionRow>)

  function Head(s: Setting, sequence: nat, previous: Option<string>, digest: string): string {
    s.sha(s.nodeText(sequence, previous, digest))
  }

  // ---- items of a review -----------------------------------------------------------------

  function Concat(queues: seq<seq<Item>>): seq<Item> {
    if queues == [] then [] else queues[0] + Concat(queues[1..])
  }

  function FindingOf(item: Item): string { item.findingId }

  function ByFinding(items: seq<Item>): (r: map<string, Item>)
    ensures forall f :: f in r ==> r[f] in items && r[f].findingId == f
    ensures forall i :: 0 <= i < |items| ==> items[i].findingId in r
  {
    var r := IndexBy(items, FindingOf);
    assert forall i :: 0 <= i < |items| ==> FindingOf(items[i]) in r;
    r
  }

  /** `_items`: a dictionary over unassigned and queued items. */
  function Items(r: Review): map<string, Item> {
    ByFinding(r.unassigned + Concat(r.queues))
  }

  // ---- what a history must satisfy ---------------------------------------------------------

  function DecisionsOf(s: Setting, sequence: nat, items: map<string, Item>, ids: seq<string>): (r: seq<DecisionRow>)
    requires forall f :: f in ids ==> f in items
    ensures |r| == |ids|
    ensures forall i :: 0 <= i < |r| ==> r[i] == DecisionRow(sequence, ids[i], items[ids[i]].assetId, s.itemText(items[ids[i]]))
  {
    seq(|ids|, i requires 0 <= i < |ids| => DecisionRow(sequence, ids[i], items[ids[i]].assetId, s.itemText(items[ids[i]])))
  }

  function ReviewDecisions(s: Setting, sequence: nat, r: Review): seq<DecisionRow> {
    DecisionsOf(s, sequence, Items(r), SortedSet(Items(r).Keys))
  }

  /** The decision rows of the first `n` reviews. */
  function Decisions(s: Setting, records: seq<Review>, n: nat): seq<DecisionRow>
    requires n <= |records|
  {
    if n == 0 then [] else Decisions(s, records, n - 1) + ReviewDecisions(s, n, records[n - 1])
  }

  /** The asset that the latest of the first `n` reviews gives to a finding. */
  function AssetOf(records: seq<Review>, n: nat, f: string): Option<string>
    requires n <= |records|
  {
    if n == 0 then None
    else if f in Items(records[n - 1]) then Some(Items(records[n - 1])[f].assetId)
    else AssetOf(records, n - 1, f)
  }

  /** Review `n` moves no known finding to another asset. */
  ghost predicate KeepsAssets(records: seq<Review>, n: nat)
    requires n < |records|
  {
    forall f :: f in Items(records[n]) ==> AssetOf(records, n, f) in {None, Some(Items(records[n])[f].assetId)}
  }

  predicate Succeeds(a: Review, b: Review) {
    b.discovery == a.discovery && b.model == a.model && a.asOf <= b.asOf && a.assessedAt <= b.assessedAt
  }

  ghost predicate NewReceipt(s: Setting, records: seq<Review>, n: nat)
    requires n < |records|
  {
    forall j :: 0 <= j < n ==> s.sha(s.payload(records[j])) != s.sha(s.payload(records[n]))
  }

  /** Review `n` may follow the reviews before it. */
  ghost predicate GoodReview(s: Setting, records: seq<Review>, n: nat)
    requires n < |records|
  {
    && NewReceipt(s, records, n)
    && s.reproduces(records[n])
    && (n > 0 ==> Succeeds(records[n - 1], records[n]))
    && KeepsAssets(records, n)
    && |Decisions(s, records, n + 1)| <= MAX_DECISIONS
  }

  ghost predicate Accepts(s: Setting, records: seq<Review>) {
    1 <= |records| <= MAX_REVIEWS && forall n :: 0 <= n < |records| ==> GoodReview(s, records, n)
  }

  // ---- `_validate` ---------------------------------------------------------------------------

  function Lookup(m: map<string, string>, f: string): Option<string> {
    if f in m then Some(m[f]) else None
  }

  /** `identities` maps exactly the findings decided so far to their assets. */
  ghost predicate Tracks(identities: map<string, string>, records: seq<Review>, n: nat)
    requires n <= |records|
  {
    forall f :: Lookup(identities, f) == AssetOf(records, n, f)
  }

  ghost predicate TracksDuring(identities: map<string, string>, records: seq<Review>, n: nat, done: seq<string>)
    requires n < |records| && forall f :: f in done ==> f in Items(records[n])
  {
    forall f :: Lookup(identities, f) == if f in done then Some(Items(records[n])[f].assetId) else AssetOf(records, n, f)
  }

  lemma TrackStep(identities: map<string, string>, records: seq<Review>, n: nat, done: seq<string>, f: string)
    requires n < |records| && f in Items(records[n]) && f !in done && forall g :: g in done ==> g in Items(records[n])
    requires TracksDuring(identities, records, n, done)
    ensures Lookup(identities, f) == AssetOf(records, n, f)
    ensures TracksDuring(identities[f := Items(records[n])[f].assetId], records, n, done + [f])
  {
    hide AssetOf, Items;
    var more := identities[f := Items(records[n])[f].assetId];
    forall g ensures Lookup(more, g) == if g in done + [f] then Some(Items(records[n])[g].assetId) else AssetOf(records, n, g) {
      assert Lookup(identities, g) == if g in done then Some(Items(records[n])[g].assetId) else AssetOf(records, n, g);
    }
  }

  lemma TracksAll(identities: map<string, string>, records: seq<Review>, n: nat, done: seq<string>)
    requires n < |records| && (forall f :: f in done <==> f in Items(records[n])) && TracksDuring(identities, records, n, done)
    ensures Tracks(identities, records, n + 1)
  {
    hide Items;
  }

  lemma TracksNone(identities: map<string, string>, records: seq<Review>, n: nat)
    requires n < |records| && Tracks(identities, records, n)
    ensures TracksDuring(identities, records, n, [])
  {
    hide Items;
  }

  lemma DecisionsNext(s: Setting, sequence: nat, items: map<string, Item>, ids: seq<string>, f: string)
    requires f in items && forall g :: g in ids ==> g in items
    ensures DecisionsOf(s, sequence, items, ids + [f]) ==
            DecisionsOf(s, sequence, items, ids) + [DecisionRow(sequence, f, items[f].assetId, s.itemText(items[f]))]
  {
  }

  /** The items `done` of review `n` keep their assets, and their identities and `rows` are recorded. */
  ghost predicate ItemsRead(s: Setting, records: seq<Review>, n: nat, done: seq<string>, identities: map<string, string>, rows: seq<DecisionRow>)
    requires n < |records|
  {
    && (forall f :: f in done ==> f in Items(records[n]))
    && TracksDuring(identities, records, n, done)
    && rows == Decisions(s, records, n) + DecisionsOf(s, n + 1, Items(records[n]), done)
    && forall f :: f in done ==> AssetOf(records, n, f) in {None, Some(Items(records[n])[f].assetId)}
  }

  lemma NoItemRead(s: Setting, records: seq<Review>, n: nat, identities: map<string, string>)
    requires n < |records| && Tracks(identities, records, n)
    ensures ItemsRead(s, records, n, [], identities, Decisions(s, records, n))
  {
    TracksNone(identities, records, n);
    hide Items, Tracks, TracksDuring, AssetOf, Decisions;
  }

  lemma ItemMoved(records: seq<Review>, n: nat, done: seq<string>, identities: map<string, string>, f: string)
    requires n < |records| && f in Items(records[n]) && f in identities && identities[f] != Items(records[n])[f].assetId
    requires f !in done && (forall g :: g in done ==> g in Items(records[n])) && TracksDuring(identities, records, n, done)
    ensures !KeepsAssets(records, n)
  {
    TrackStep(identities, records, n, done, f);
    hide Items, TracksDuring, AssetOf;
  }

  lemma ItemRead(s: Setting, records: seq<Review>, n: nat, done: seq<string>, identities: map<string, string>, rows: seq<DecisionRow>,
                 f: string)
    requires n < |records| && ItemsRead(s, records, n, done, identities, rows) && f in Items(records[n]) && f !in done
    ensures var item := Items(records[n])[f];
            if f in identities && identities[f] != item.assetId then !KeepsAssets(records, n)
            else ItemsRead(s, records, n, done + [f], identities[f := item.assetId],
                           rows + [DecisionRow(n + 1, f, item.assetId, s.itemText(item))])
  {
    hide Items, Tracks, TracksDuring, AssetOf, Decisions, DecisionsOf, KeepsAssets;
    var item := Items(records[n])[f];
    if f in identities && identities[f] != item.assetId {
      ItemMoved(records, n, done, identities, f);
    } else {
      TrackStep(identities, records, n, done, f);
      DecisionsNext(s, n + 1, Items(records[n]), done, f);
      AppendLast(Decisions(s, records, n), DecisionsOf(s, n + 1, Items(records[n]), done),
                 DecisionRow(n + 1, f, item.assetId, s.itemText(item)));
      MoreItems(done, f);
    }
  }

  lemma AppendLast(a: seq<DecisionRow>, b: seq<DecisionRow>, x: DecisionRow)
    ensures a + b + [x] == a + (b + [x])
  {
  }

  lemma MoreItems(done: seq<string>, f: string)
    ensures forall g :: g in done + [f] <==> g in done || g == f
  {
  }

  lemma AllItemsRead(s: Setting, records: seq<Review>, n: nat, done: seq<string>, identities: map<string, string>, rows: seq<DecisionRow>)
    requires n < |records| && ItemsRead(s, records, n, done, identities, rows) && done == SortedSet(Items(records[n]).Keys)
    ensures KeepsAssets(records, n) && Tracks(identities, records, n + 1) && rows == Decisions(s, records, n + 1)
  {
    TracksAll(identities, records, n, done);
    hide Items, Tracks, TracksDuring, AssetOf, SortedSet;
  }

  lemma RowsBound(s: Setting, records: seq<Review>, n: nat, done: seq<string>, identities: map<string, string>, rows: seq<DecisionRow>)
    requires n < |records| && ItemsRead(s, records, n, done, identities, rows) && done <= SortedSet(Items(records[n]).Keys)
    ensures |rows| <= |Decisions(s, records, n + 1)|
  {
    hide Items, Tracks, TracksDuring, AssetOf, SortedSet;
  }

  /** The inner loop: the items of one review, by finding id. */
  method ValidateItems(s: Setting, records: seq<Review>, n: nat, identities: map<string, string>, decisions: seq<DecisionRow>)
    returns (ok: bool, newIdentities: map<string, string>, newDecisions: seq<DecisionRow>)
    requires n < |records| && Tracks(identities, records, n) && decisions == Decisions(s, records, n)
    requires |decisions| <= MAX_DECISIONS
    ensures ok <==> KeepsAssets(records, n) && |Decisions(s, records, n + 1)| <= MAX_DECISIONS
    ensures ok ==> Tracks(newIdentities, records, n + 1) && newDecisions == Decisions(s, records, n + 1)
  {
    hide *;
    var items := Items(records[n]);
    var ids := SortedSet(items.Keys);
    newIdentities, newDecisions := identities, decisions;
    NoItemRead(s, records, n, identities);
    assert ids[..0] == [];
    for m := 0 to |ids|
      invariant ItemsRead(s, records, n, ids[..m], newIdentities, newDecisions) && |newDecisions| <= MAX_DECISIONS
    {
      var f := ids[m];
      SortedSetNext(items.Keys, m);
      ItemRead(s, records, n, ids[..m], newIdentities, newDecisions, f);
      var asset := items[f].assetId;
      if f in newIdentities && newIdentities[f] != asset {
        return false, newIdentities, newDecisions;
      }
      newIdentities := newIdentities[f := asset];
      newDecisions := newDecisions + [DecisionRow(n + 1, f, asset, s.itemText(items[f]))];
      if |newDecisions| > MAX_DECISIONS {
        RowsBound(s, records, n, ids[..m + 1], newIdentities, newDecisions);
        return false, newIdentities, newDecisions;
      }
    }
    assert ids[..|ids|] == ids;
    AllItemsRead(s, records, n, ids, newIdentities, newDecisions);
    ok := true;
  }

  method Validate(s: Setting, records: seq<Review>) returns (result: Result<seq<DecisionRow>>)
    ensures result.Ok? <==> Accepts(s, records)
    ensures result.Ok? ==> result.value == Decisions(s, records, |records|)
  {
    NothingValidated(s, records);
    hide *;
    if !(1 <= |records| <= MAX_REVIEWS) {
      return Rejected;
    }
    var receipts: set<string>, identities: map<string, string>, decisions: seq<DecisionRow> := {}, map[], [];
    var previous: Option<Review> := None;
    for n := 0 to |records|
      invariant forall j :: 0 <= j < n ==> GoodReview(s, records, j)
      invariant forall d :: d in receipts <==> ReceiptSeen(s, records, n, d)
      invariant Tracks(identities, records, n)
      invariant decisions == Decisions(s, records, n) && |decisions| <= MAX_DECISIONS
      invariant previous == if n == 0 then None else Some(records[n - 1])
    {
      var record := records[n];
      var receipt := s.sha(s.payload(record));
      ReviewChecks(s, records, n);
      if receipt in receipts {
        return Rejected;
      }
      if !s.reproduces(record) {
        return Rejected;
      }
      if previous.Some? {
        if record.discovery != previous.value.discovery || record.model != previous.value.model {
          return Rejected;
        }
        if record.asOf < previous.value.asOf || record.assessedAt < previous.value.assessedAt {
          return Rejected;
        }
      }
      var ok;
      ok, identities, decisions := ValidateItems(s, records, n, identities, decisions);
      if !ok {
        return Rejected;
      }
      receipts := receipts + {receipt};
      previous := Some(record);
    }
    result := Ok(decisions);
  }

  ghost predicate ReceiptSeen(s: Setting, records: seq<Review>, n: nat, digest: string)
    requires n <= |records|
  {
    exists j :: 0 <= j < n && digest == s.sha(s.payload(records[j]))
  }

  /** The guards of one iteration, together, are the definition of a good review. */
  lemma ReviewChecks(s: Setting, records: seq<Review>, n: nat)
    requires n < |records|
    ensures GoodReview(s, records, n) <==>
              && !ReceiptSeen(s, records, n, s.sha(s.payload(records[n])))
              && s.reproduces(records[n])
              && (n > 0 ==> records[n].discovery == records[n - 1].discovery && records[n].model == records[n - 1].model
                            && records[n].asOf >= records[n - 1].asOf && records[n].assessedAt >= records[n - 1].assessedAt)
              && KeepsAssets(records, n) && |Decisions(s, records, n + 1)| <= MAX_DECISIONS
    ensures forall d :: ReceiptSeen(s, records, n + 1, d) <==> ReceiptSeen(s, records, n, d) || d == s.sha(s.payload(records[n]))
    ensures Accepts(s, records) ==> GoodReview(s, records, n)
  {
    hide KeepsAssets, Decisions;
    var digest := s.sha(s.payload(records[n]));
    assert ReceiptSeen(s, records, n, digest) <==> !NewReceipt(s, records, n) by {
      if j :| 0 <= j < n && digest == s.sha(s.payload(records[j])) {
        assert !NewReceipt(s, records, n);
      }
    }
    forall d ensures ReceiptSeen(s, records, n + 1, d) <==> ReceiptSeen(s, records, n, d) || d == digest {
      if j :| 0 <= j < n && d == s.sha(s.payload(records[j])) {
        assert 0 <= j < n + 1 && d == s.sha(s.payload(records[j]));
      }
      if d == digest {
        assert d == s.sha(s.payload(records[n]));
      }
    }
  }

  lemma NothingValidated(s: Setting, records: seq<Review>)
    ensures Tracks(map[], records, 0) && Decisions(s, records, 0) == []
    ensures forall d :: !ReceiptSeen(s, records, 0, d)
    ensures 0 <= MAX_DECISIONS
    ensures Accepts(s, records) <==> 1 <= |records| <= MAX_REVIEWS && forall n :: 0 <= n < |records| ==> GoodReview(s, records, n)
  {
  }

  // ---- the chain -----------------------------------------------------------------------------

  /** The head of the first `n` reviews. */
  function HeadOf(s: Setting, records: seq<Review>, n: nat): Option<string>
    requires n <= |records|
  {
    if n == 0 then None
    else Some(Head(s, n, HeadOf(s, records, n - 1), s.sha(s.payload(records[n - 1]))))
  }

  function RowOf(s: Setting, records: seq<Review>, n: nat): ReviewRow
    requires n < |records|
  {
    var payload := s.payload(records[n]);
    ReviewRow(n + 1, HeadOf(s, records, n), payload, s.sha(payload), HeadOf(s, records, n + 1).value)
  }

  function Rows(s: Setting, records: seq<Review>, n: nat): (r: seq<ReviewRow>)
    requires n <= |records|
    ensures |r| == n
    ensures forall i :: 0 <= i < n ==> r[i] == RowOf(s, records, i)
  {
    seq(n, i requires 0 <= i < n => RowOf(s, records, i))
  }

  /** What the writer stores for a history. */
  function DatabaseOf(s: Setting, records: seq<Review>): Database {
    Database(Rows(s, records, |records|), Decisions(s, records, |records|))
  }

  predicate RowLe(a: ReviewRow, b: ReviewRow) { a.sequence <= b.sequence }

  /** `ORDER BY sequence, finding_id` */
  predicate DecisionLe(a: DecisionRow, b: DecisionRow) {
    if a.sequence == b.sequence then StrLe(a.findingId, b.findingId) else a.sequence < b.sequence
  }

  function PreviousNode(rows: seq<ReviewRow>, k: nat): Option<string>
    requires k <= |rows|
  {
    if k == 0 then None else Some(rows[k - 1].node)
  }

  /** Row `k` continues the chain and carries a canonical payload. */
  predicate GoodRow(s: Setting, rows: seq<ReviewRow>, k: nat)
    requires k < |rows|
  {
    var row := rows[k];
    && row.sequence == k + 1
    && row.previous == PreviousNode(rows, k)
    && row.digest == s.sha(row.payload)
    && row.node == Head(s, k + 1, row.previous, row.digest)
    && s.parse(row.payload).Some? && s.payload(s.parse(row.payload).value) == row.payload
  }

  ghost predicate GoodRows(s: Setting, rows: seq<ReviewRow>) {
    forall k :: 0 <= k < |rows| ==> GoodRow(s, rows, k)
  }

  function Parsed(s: Setting, row: ReviewRow): Option<Review> {
    s.parse(row.payload)
  }

  function RecordsOf(s: Setting, rows: seq<ReviewRow>): (r: seq<Review>)
    requires forall k :: 0 <= k < |rows| ==> Parsed(s, rows[k]).Some?
    ensures |r| == |rows|
    ensures forall k :: 0 <= k < |r| ==> r[k] == Parsed(s, rows[k]).value
  {
    seq(|rows|, k requires 0 <= k < |rows| => Parsed(s, rows[k]).value)
  }

  function Stored(db: Database): seq<ReviewRow> {
    Sort(db.reviews, RowLe)
  }

  /** A database from which the records of a history load; `expected` optionally pins its head. */
  ghost predicate Loadable(s: Setting, db: Database, expected: Option<string>) {
    var rows := Stored(db);
    && 1 <= |rows| <= MAX_REVIEWS && |db.decisions| <= MAX_DECISIONS
    && GoodRows(s, rows)
    && (expected.Some? ==> rows[|rows| - 1].node == expected.value)
    && LoadedRecords(s, rows).Some?
    && Accepts(s, LoadedRecords(s, rows).value)
    && Sort(db.decisions, DecisionLe) == Decisions(s, LoadedRecords(s, rows).value, |LoadedRecords(s, rows).value|)
  }

  ghost function LoadedRecords(s: Setting, rows: seq<ReviewRow>): Option<seq<Review>> {
    if forall k :: 0 <= k < |rows| ==> Parsed(s, rows[k]).Some? then Some(RecordsOf(s, rows)) else None
  }

  datatype History = History(records: seq<Review>, head: string, decisionCount: nat)

  method ReadChain(s: Setting, rows: seq<ReviewRow>) returns (result: Result<seq<Review>>)
    ensures result.Ok? <==> GoodRows(s, rows)
    ensures result.Ok? ==> LoadedRecords(s, rows) == Some(result.value)
  {
    hide *;
    var records: seq<Review>, previous: Option<string> := [], None;
    ChainStarts(s, rows);
    for n := 0 to |rows|
      invariant |records| == n
      invariant forall k :: 0 <= k < n ==> GoodRow(s, rows, k) && Parsed(s, rows[k]) == Some(records[k])
      invariant previous == PreviousNode(rows, n)
    {
      var row := rows[n];
      RowChecks(s, rows, n);
      if row.sequence != n + 1 || row.previous != previous || row.digest != s.sha(row.payload)
         || row.node != Head(s, row.sequence, row.previous, row.digest) {
        return Rejected;
      }
      var record := s.parse(row.payload);
      if record.None? || s.payload(record.value) != row.payload {
        return Rejected;
      }
      records := records + [record.value];
      previous := Some(row.node);
    }
    ChainEnds(s, rows, records);
    result := Ok(records);
  }

  lemma ChainStarts(s: Setting, rows: seq<ReviewRow>)
    ensures PreviousNode(rows, 0) == None
    ensures GoodRows(s, rows) <==> forall k :: 0 <= k < |rows| ==> GoodRow(s, rows, k)
  {
  }

  lemma RowChecks(s: Setting, rows: seq<ReviewRow>, n: nat)
    requires n < |rows|
    ensures GoodRow(s, rows, n) <==>
              && rows[n].sequence == n + 1 && rows[n].previous == PreviousNode(rows, n) && rows[n].digest == s.sha(rows[n].payload)
              && rows[n].node == Head(s, rows[n].sequence, rows[n].previous, rows[n].digest)
              && s.parse(rows[n].payload).Some? && s.payload(s.parse(rows[n].payload).value) == rows[n].payload
    ensures Parsed(s, rows[n]) == s.parse(rows[n].payload)
    ensures PreviousNode(rows, n + 1) == Some(rows[n].node)
  {
  }

  lemma ChainEnds(s: Setting, rows: seq<ReviewRow>, records: seq<Review>)
    requires |records| == |rows| && forall k :: 0 <= k < |rows| ==> Parsed(s, rows[k]) == Some(records[k])
    ensures LoadedRecords(s, rows) == Some(records)
  {
    assert RecordsOf(s, rows) == records;
  }

  method Load(s: Setting, db: Database, expected: Option<string>) returns (result: Result<History>)
    ensures result.Ok? <==> Loadable(s, db, expected)
    ensures result.Ok? ==>
              && LoadedRecords(s, Stored(db)) == Some(result.value.records)
              && result.value.head == Stored(db)[|Stored(db)| - 1].node
              && result.value.decisionCount == |Decisions(s, result.value.records, |result.value.records|)|
  {
    hide GoodRows, Accepts, Decisions, LoadedRecords, Sort, RowLe, DecisionLe;
    var rows := Sort(db.reviews, RowLe);
    var normalized := Sort(db.decisions, DecisionLe);
    SortPermutes(db.decisions, DecisionLe);
    if !(1 <= |rows| <= MAX_REVIEWS) || |normalized| > MAX_DECISIONS {
      return Rejected;
    }
    var records := ReadChain(s, rows);
    if records.Rejected? {
      return Rejected;
    }
    var head := rows[|rows| - 1].node;
    if expected.Some? && head != expected.value {
      return Rejected;
    }
    var decisions := Validate(s, records.value);
    if decisions.Rejected? {
      return Rejected;
    }
    if normalized != decisions.value {
      return Rejected;
    }
    result := Ok(History(records.value, head, |decisions.value|));
  }

  // ---- `retain_history` -----------------------------------------------------------------------

  /** Two rows that a UNIQUE constraint would not let into one table. */
  predicate RowsClash(s: Setting, records: seq<Review>, j: nat, k: nat)
    requires j < |records| && k < |records|
  {
    RowOf(s, records, j).digest == RowOf(s, records, k).digest || RowOf(s, records, j).node == RowOf(s, records, k).node
  }

  /** The insertion loop; `Rejected` is a UNIQUE constraint that fails. */
  method WriteChain(s: Setting, records: seq<Review>) returns (result: Result<seq<ReviewRow>>)
    ensures result.Ok? ==> result.value == Rows(s, records, |records|)
    ensures result.Rejected? ==> exists j, k :: 0 <= j < k < |records| && RowsClash(s, records, j, k)
  {
    hide Head;
    var rows: seq<ReviewRow>, previous: Option<string> := [], None;
    for n := 0 to |records|
      invariant rows == Rows(s, records, n)
      invariant previous == HeadOf(s, records, n)
    {
      var payload := s.payload(records[n]);
      var digest := s.sha(payload);
      var node := Head(s, n + 1, previous, digest);
      RowWritten(s, records, n);
      hide RowOf, HeadOf;
      if j :| 0 <= j < n && (rows[j].digest == digest || rows[j].node == node) {
        assert rows[j] == RowOf(s, records, j) && RowsClash(s, records, j, n);
        return Rejected;
      }
      rows := rows + [ReviewRow(n + 1, previous, payload, digest, node)];
      previous := Some(node);
    }
    result := Ok(rows);
  }

  lemma RowWritten(s: Setting, records: seq<Review>, n: nat)
    requires n < |records|
    ensures var digest := s.sha(s.payload(records[n])); var node := Head(s, n + 1, HeadOf(s, records, n), digest);
            && RowOf(s, records, n) == ReviewRow(n + 1, HeadOf(s, records, n), s.payload(records[n]), digest, node)
            && HeadOf(s, records, n + 1) == Some(node)
  {
    hide Head;
  }

  /** The records an append starts from: none for a new history, which takes no predecessor, or
      those of the database whose head the caller pins. */
  ghost function BaseOf(s: Setting, history: Option<Database>, expected: Option<string>): Option<seq<Review>> {
    match history
    case None => if expected.None? then Some([]) else None
    case Some(db) => if expected.Some? && Loadable(s, db, expected) then LoadedRecords(s, Stored(db)) else None
  }

  /** The history that an append would produce, if it may. */
  ghost function Appended(s: Setting, receipt: Option<Review>, history: Option<Database>, expected: Option<string>): Option<seq<Review>> {
    var base := BaseOf(s, history, expected);
    if base.Some? && receipt.Some? && Accepts(s, base.value + [receipt.value]) then Some(base.value + [receipt.value]) else None
  }

  /** Start a history, or extend the one whose head the caller pins; `receipt` is the verified
      assessment, or nothing when it does not reproduce. */
  method Retain(s: Setting, receipt: Option<Review>, history: Option<Database>, expected: Option<string>)
    returns (result: Result<Database>)
    requires Faithful(s)
    ensures result.Ok? <==> Appended(s, receipt, history, expected).Some?
    ensures result.Ok? ==>
              var records := Appended(s, receipt, history, expected).value;
              result.value == DatabaseOf(s, records) && Loadable(s, result.value, HeadOf(s, records, |records|))
  {
    hide *;
    AppendNeeds(s, receipt, history, expected);
    var base: seq<Review> := [];
    if history.None? {
      if expected.Some? {
        return Rejected;
      }
    } else {
      if expected.None? {
        return Rejected;
      }
      var loaded := Load(s, history.value, expected);
      if loaded.Rejected? {
        return Rejected;
      }
      base := loaded.value.records;
    }
    if receipt.None? {
      return Rejected;
    }
    var records := base + [receipt.value];
    var decisions := Validate(s, records);
    if decisions.Rejected? {
      return Rejected;
    }
    var db := WriteDatabase(s, records, decisions.value);
    var verified := Load(s, db, Some(db.reviews[|db.reviews| - 1].node));
    if verified.Rejected? {
      assert false;
    }
    result := Ok(db);
  }

  lemma AppendNeeds(s: Setting, receipt: Option<Review>, history: Option<Database>, expected: Option<string>)
    ensures history.None? ==> BaseOf(s, history, expected) == if expected.None? then Some([]) else None
    ensures history.Some? && expected.Some? && Loadable(s, history.value, expected) ==>
              BaseOf(s, history, expected) == LoadedRecords(s, Stored(history.value))
    ensures history.Some? && (expected.None? || !Loadable(s, history.value, expected)) ==> BaseOf(s, history, expected) == None
    ensures var base := BaseOf(s, history, expected);
            Appended(s, receipt, history, expected) ==
              if base.Some? && receipt.Some? && Accepts(s, base.value + [receipt.value]) then Some(base.value + [receipt.value]) else None
  {
  }

  /** The new database of an accepted history; no constraint fails while it is filled. */
  method WriteDatabase(s: Setting, records: seq<Review>, decisions: seq<DecisionRow>) returns (db: Database)
    requires Faithful(s) && Accepts(s, records) && decisions == Decisions(s, records, |records|)
    ensures db == DatabaseOf(s, records) && db.reviews != []
    ensures HeadOf(s, records, |records|) == Some(db.reviews[|db.reviews| - 1].node)
    ensures Loadable(s, db, HeadOf(s, records, |records|))
  {
    WrittenHistoryLoads(s, records);
    LastNode(s, records);
    hide Faithful, Accepts, Decisions, Loadable, HeadOf, RowOf;
    var rows := WriteChain(s, records);
    if rows.Rejected? {
      ghost var j, k :| 0 <= j < k < |records| && RowsClash(s, records, j, k);
      RowsDiffer(s, records, j, k);
      assert false;
    }
    db := Database(rows.value, decisions);
  }

  lemma LastNode(s: Setting, records: seq<Review>)
    requires Accepts(s, records)
    ensures records != []
    ensures HeadOf(s, records, |records|) == Some(Rows(s, records, |records|)[|records| - 1].node)
  {
  }

  /** With injective digests the UNIQUE constraints never fail on an accepted history. */
  lemma RowsDiffer(s: Setting, records: seq<Review>, j: nat, k: nat)
    requires Faithful(s) && Accepts(s, records) && j < k < |records|
    ensures !RowsClash(s, records, j, k)
  {
    assert GoodReview(s, records, k);
  }

  // ---- the written chain loads ------------------------------------------------------------------

  lemma RowLeIsTotalPreorder()
    ensures TotalPreorder(RowLe)
  {
  }

  lemma DecisionLeIsTotalPreorder()
    ensures TotalPreorder(DecisionLe)
  {
    StrLeIsTotalPreorder();
  }

  lemma RowsStored(s: Setting, records: seq<Review>)
    ensures Sort(Rows(s, records, |records|), RowLe) == Rows(s, records, |records|)
  {
    RowLeIsTotalPreorder();
    RowsNeverTie(s, records);
    hide *;
    SortOfSorted(Rows(s, records, |records|), RowLe);
  }

  lemma RowsNeverTie(s: Setting, records: seq<Review>)
    ensures Sorted(Rows(s, records, |records|), RowLe) && NeverTies(Rows(s, records, |records|), RowLe)
  {
    var rows := Rows(s, records, |records|);
    assert forall i :: 0 <= i < |rows| ==> rows[i].sequence == i + 1 by { hide HeadOf; }
    hide Rows, RowOf;
    NumberedNeverTie(rows);
  }

  lemma NumberedNeverTie(rows: seq<ReviewRow>)
    requires forall i :: 0 <= i < |rows| ==> rows[i].sequence == i + 1
    ensures Sorted(rows, RowLe) && NeverTies(rows, RowLe)
  {
    forall x, y | x in rows && y in rows && RowLe(x, y) && RowLe(y, x) ensures x == y {
      var i :| 0 <= i < |rows| && rows[i] == x;
      var j :| 0 <= j < |rows| && rows[j] == y;
    }
  }

  ghost predicate StrictDecisions(d: seq<DecisionRow>) {
    forall i, j :: 0 <= i < j < |d| ==> DecisionLe(d[i], d[j]) && (d[i].sequence, d[i].findingId) != (d[j].sequence, d[j].findingId)
  }

  ghost predicate SequencesIn(d: seq<DecisionRow>, lo: nat, hi: nat) {
    forall i :: 0 <= i < |d| ==> lo <= d[i].sequence <= hi
  }

  lemma StrictAppend(rest: seq<DecisionRow>, last: seq<DecisionRow>, n: nat)
    requires n > 0 && StrictDecisions(rest) && StrictDecisions(last) && SequencesIn(rest, 0, n - 1) && SequencesIn(last, n, n)
    ensures StrictDecisions(rest + last) && SequencesIn(rest + last, 0, n)
  {
    hide StrLe;
    var all := rest + last;
    forall i, j | 0 <= i < j < |all|
      ensures DecisionLe(all[i], all[j]) && (all[i].sequence, all[i].findingId) != (all[j].sequence, all[j].findingId)
    {
      if i >= |rest| {
        assert all[i] == last[i - |rest|] && all[j] == last[j - |rest|];
      }
    }
  }

  lemma ReviewDecisionsStrict(s: Setting, n: nat, r: Review)
    ensures StrictDecisions(ReviewDecisions(s, n, r)) && SequencesIn(ReviewDecisions(s, n, r), n, n)
  {
    DecisionNames(s, n, r);
    var ids := SortedSet(Items(r).Keys);
    assert StrictlySorted(ids);
    hide *;
    NamedStrict(ReviewDecisions(s, n, r), ids, n);
  }

  lemma NamedStrict(d: seq<DecisionRow>, ids: seq<string>, n: nat)
    requires |d| == |ids| && StrictlySorted(ids)
    requires forall i :: 0 <= i < |d| ==> d[i].sequence == n && d[i].findingId == ids[i]
    ensures StrictDecisions(d) && SequencesIn(d, n, n)
  {
    hide StrictlySorted, StrLe;
    forall i, j | 0 <= i < j < |d| ensures DecisionLe(d[i], d[j]) && (d[i].sequence, d[i].findingId) != (d[j].sequence, d[j].findingId) {
      StrictPair(ids, i, j);
    }
  }

  lemma StrictPair(ids: seq<string>, i: nat, j: nat)
    requires StrictlySorted(ids) && i < j < |ids|
    ensures StrLe(ids[i], ids[j]) && ids[i] != ids[j]
  {
    hide StrLe;
  }

  lemma DecisionNames(s: Setting, n: nat, r: Review)
    ensures var d, ids := ReviewDecisions(s, n, r), SortedSet(Items(r).Keys);
            |d| == |ids| && forall i :: 0 <= i < |d| ==> d[i].sequence == n && d[i].findingId == ids[i]
  {
    hide Items, SortedSet;
  }

  lemma NoDecisions()
    ensures StrictDecisions([]) && SequencesIn([], 0, 0)
  {
  }

  lemma {:induction false} DecisionsSorted(s: Setting, records: seq<Review>, n: nat)
    requires n <= |records|
    ensures StrictDecisions(Decisions(s, records, n)) && SequencesIn(Decisions(s, records, n), 0, n)
  {
    hide StrictDecisions, SequencesIn, ReviewDecisions;
    if n == 0 {
      NoDecisions();
    } else {
      DecisionsSorted(s, records, n - 1);
      ReviewDecisionsStrict(s, n, records[n - 1]);
      StrictAppend(Decisions(s, records, n - 1), ReviewDecisions(s, n, records[n - 1]), n);
    }
  }

  lemma StrictNeverTies(d: seq<DecisionRow>)
    requires StrictDecisions(d)
    ensures Sorted(d, DecisionLe) && NeverTies(d, DecisionLe)
  {
    forall x, y | x in d && y in d && DecisionLe(x, y) && DecisionLe(y, x) ensures x == y {
      assert x.sequence == y.sequence && x.findingId == y.findingId by {
        if x.sequence == y.sequence { StrLeAntisymmetric(x.findingId, y.findingId); }
      }
      hide DecisionLe;
      var i :| 0 <= i < |d| && d[i] == x;
      var j :| 0 <= j < |d| && d[j] == y;
      assert !(i < j) && !(j < i);
    }
  }

  /** The decision rows come back from the database in the order they were written. */
  lemma DecisionsStored(s: Setting, records: seq<Review>)
    ensures Sort(Decisions(s, records, |records|), DecisionLe) == Decisions(s, records, |records|)
  {
    hide *;
    DecisionsSorted(s, records, |records|);
    DecisionLeIsTotalPreorder();
    StrictNeverTies(Decisions(s, records, |records|));
    SortOfSorted(Decisions(s, records, |records|), DecisionLe);
  }

  /** The chain and rows that the writer stores for an accepted history always load again. */
  lemma WrittenHistoryLoads(s: Setting, records: seq<Review>)
    requires Faithful(s) && Accepts(s, records)
    ensures Loadable(s, DatabaseOf(s, records), HeadOf(s, records, |records|))
    ensures LoadedRecords(s, Stored(DatabaseOf(s, records))) == Some(records)
  {
    var rows, db := Rows(s, records, |records|), DatabaseOf(s, records);
    assert db.reviews == rows && db.decisions == Decisions(s, records, |records|) by { hide Rows, Decisions; }
    assert Stored(db) == rows by {
      hide Rows, Decisions, Accepts, Faithful;
      RowsStored(s, records);
    }
    AcceptedBounds(s, records);
    hide *;
    LastNode(s, records);
    DecisionsStored(s, records);
    WrittenRowsGood(s, records);
    LoadableFrom(s, db, records, HeadOf(s, records, |records|));
  }

  lemma AcceptedBounds(s: Setting, records: seq<Review>)
    requires Accepts(s, records)
    ensures 1 <= |records| <= MAX_REVIEWS && |Decisions(s, records, |records|)| <= MAX_DECISIONS
  {
    assert GoodReview(s, records, |records| - 1);
    hide Decisions, KeepsAssets, NewReceipt, Succeeds;
  }

  /** What the loader needs of a database whose rows are in order. */
  lemma LoadableFrom(s: Setting, db: Database, records: seq<Review>, expected: Option<string>)
    requires 1 <= |Stored(db)| <= MAX_REVIEWS && |db.decisions| <= MAX_DECISIONS
    requires GoodRows(s, Stored(db)) && LoadedRecords(s, Stored(db)) == Some(records)
    requires expected.Some? ==> Stored(db)[|Stored(db)| - 1].node == expected.value
    requires Accepts(s, records) && Sort(db.decisions, DecisionLe) == Decisions(s, records, |records|)
    ensures Loadable(s, db, expected)
  {
    hide Stored, GoodRows, LoadedRecords, Accepts, Decisions, Sort, DecisionLe;
  }

  lemma WrittenRow(s: Setting, records: seq<Review>, k: nat)
    requires Faithful(s) && k < |records|
    ensures GoodRow(s, Rows(s, records, |records|), k) && Parsed(s, Rows(s, records, |records|)[k]) == Some(records[k])
  {
    var rows := Rows(s, records, |records|);
    assert rows[k] == RowOf(s, records, k);
    assert s.parse(s.payload(records[k])) == Some(records[k]);
    if k > 0 { assert rows[k - 1] == RowOf(s, records, k - 1); }
    hide Rows, Head, Faithful;
  }

  lemma WrittenRowsGood(s: Setting, records: seq<Review>)
    requires Faithful(s)
    ensures GoodRows(s, Rows(s, records, |records|)) && LoadedRecords(s, Rows(s, records, |records|)) == Some(records)
  {
    hide Faithful, Rows, GoodRow, Parsed;
    var rows := Rows(s, records, |records|);
    forall k | 0 <= k < |rows| ensures GoodRow(s, rows, k) && Parsed(s, rows[k]) == Some(records[k]) {
      WrittenRow(s, records, k);
    }
    hide RecordsOf;
    assert RecordsOf(s, rows) == records;
  }

  // ---- what acceptance and heads mean over whole histories ------------------------------------

  lemma {:induction false} DecisionsPrefix(s: Setting, records: seq<Review>, n: nat, m: nat)
    requires m <= n <= |records|
    ensures Decisions(s, records[..n], m) == Decisions(s, records, m)
    ensures forall f :: AssetOf(records[..n], m, f) == AssetOf(records, m, f)
    ensures HeadOf(s, records[..n], m) == HeadOf(s, records, m)
  {
    hide ReviewDecisions, Items, Head;
    if m > 0 {
      DecisionsPrefix(s, records, n, m - 1);
      assert records[..n][m - 1] == records[m - 1];
    }
  }

  lemma {:induction false} DecisionsGrow(s: Setting, records: seq<Review>, n: nat, m: nat)
    requires n <= m <= |records|
    ensures Decisions(s, records, n) <= Decisions(s, records, m)
    decreases m
  {
    hide ReviewDecisions;
    if n < m { DecisionsGrow(s, records, n, m - 1); }
  }

  /** Validation is prefix-closed, and the decisions of a prefix are a prefix of all decisions. */
  lemma PrefixAccepted(s: Setting, records: seq<Review>, n: nat)
    requires Accepts(s, records) && 1 <= n <= |records|
    ensures Accepts(s, records[..n])
    ensures Decisions(s, records[..n], n) <= Decisions(s, records, |records|)
  {
    DecisionsPrefix(s, records, n, n);
    DecisionsGrow(s, records, n, |records|);
    forall m | 0 <= m < n ensures GoodReview(s, records[..n], m) {
      PrefixGood(s, records, n, m);
    }
    hide Decisions, GoodReview;
  }

  lemma PrefixGood(s: Setting, records: seq<Review>, n: nat, m: nat)
    requires m < n <= |records| && GoodReview(s, records, m)
    ensures GoodReview(s, records[..n], m)
  {
    DecisionsPrefix(s, records, n, m + 1);
    PrefixKeepsAssets(s, records, n, m);
    PrefixNewReceipt(s, records, n, m);
    var some := records[..n];
    assert some[m] == records[m] && (m > 0 ==> some[m - 1] == records[m - 1]);
    hide Decisions, KeepsAssets, NewReceipt, Succeeds;
  }

  lemma PrefixKeepsAssets(s: Setting, records: seq<Review>, n: nat, m: nat)
    requires m < n <= |records| && KeepsAssets(records, m)
    ensures KeepsAssets(records[..n], m)
  {
    DecisionsPrefix(s, records, n, m);
    hide AssetOf, Items, Decisions;
    assert records[..n][m] == records[m];
  }

  lemma PrefixNewReceipt(s: Setting, records: seq<Review>, n: nat, m: nat)
    requires m < n <= |records| && NewReceipt(s, records, m)
    ensures NewReceipt(s, records[..n], m)
  {
    assert forall j :: 0 <= j <= m ==> records[..n][j] == records[j];
  }

  lemma AcceptedStep(s: Setting, records: seq<Review>, j: nat)
    requires Accepts(s, records) && 0 < j < |records|
    ensures Succeeds(records[j - 1], records[j]) && KeepsAssets(records, j)
  {
    assert GoodReview(s, records, j);
    hide Decisions, KeepsAssets, NewReceipt;
  }

  /** Dates and assessment times never go back and the discovery and model never change, over
      all pairs of reviews. */
  lemma {:induction false} OneLineage(s: Setting, records: seq<Review>, i: nat, j: nat)
    requires Accepts(s, records) && i <= j < |records|
    ensures Succeeds(records[i], records[j])
    decreases j
  {
    if i < j {
      OneLineage(s, records, i, j - 1);
      AcceptedStep(s, records, j);
    }
  }

  /** A finding keeps its asset over all pairs of reviews that decide it, however many reviews
      between them omit it. */
  lemma {:induction false} FindingStaysOnAsset(s: Setting, records: seq<Review>, i: nat, j: nat, f: string)
    requires Accepts(s, records) && i < j < |records|
    requires f in Items(records[i]) && f in Items(records[j])
    ensures Items(records[i])[f].assetId == Items(records[j])[f].assetId
  {
    hide Items, Accepts;
    AcceptedStep(s, records, j);
    LatestKeepsAsset(s, records, i, j, f);
  }

  lemma {:induction false} LatestKeepsAsset(s: Setting, records: seq<Review>, i: nat, n: nat, f: string)
    requires Accepts(s, records) && i < n <= |records| && f in Items(records[i])
    ensures AssetOf(records, n, f) == Some(Items(records[i])[f].assetId)
    decreases n
  {
    hide Items, Accepts;
    if i < n - 1 {
      LatestKeepsAsset(s, records, i, n - 1, f);
      AcceptedStep(s, records, n - 1);
    }
  }

  /** With injective digests a head determines the whole list of reviews before it. */
  lemma {:induction false} HeadDetermines(s: Setting, a: seq<Review>, b: seq<Review>, n: nat, m: nat)
    requires Faithful(s) && n <= |a| && m <= |b| && HeadOf(s, a, n) == HeadOf(s, b, m)
    ensures n == m && a[..n] == b[..m]
  {
    if n > 0 && m > 0 {
      HeadInjective(s, n, HeadOf(s, a, n - 1), a[n - 1], m, HeadOf(s, b, m - 1), b[m - 1]);
      HeadDetermines(s, a, b, n - 1, m - 1);
      hide *;
      PrefixNext(a, n);
      PrefixNext(b, m);
    }
  }

  lemma PrefixNext(records: seq<Review>, n: nat)
    requires 0 < n <= |records|
    ensures records[..n] == records[..n - 1] + [records[n - 1]]
  {
  }

  lemma HeadInjective(s: Setting, n: nat, p: Option<string>, x: Review, m: nat, q: Option<string>, y: Review)
    requires Faithful(s) && Head(s, n, p, s.sha(s.payload(x))) == Head(s, m, q, s.sha(s.payload(y)))
    ensures n == m && p == q && x == y
  {
    assert s.nodeText(n, p, s.sha(s.payload(x))) == s.nodeText(m, q, s.sha(s.payload(y)));
    assert s.sha(s.payload(x)) == s.sha(s.payload(y));
    assert s.parse(s.payload(x)) == Some(x) && s.parse(s.payload(y)) == Some(y);
  }

  /** The nodes of a loadable database are the heads of its records. */
  lemma {:induction false} NodesAreHeads(s: Setting, rows: seq<ReviewRow>, records: seq<Review>, n: nat)
    requires GoodRows(s, rows) && LoadedRecords(s, rows) == Some(records) && n <= |rows|
    ensures |records| == |rows| && PreviousNode(rows, n) == HeadOf(s, records, n)
  {
    if n > 0 {
      NodesAreHeads(s, rows, records, n - 1);
      assert GoodRow(s, rows, n - 1);
      assert Parsed(s, rows[n - 1]) == Some(records[n - 1]);
    }
  }

  /** A loaded history: its records are accepted and its head is the head of those records. */
  lemma LoadedHead(s: Setting, db: Database, expected: Option<string>)
    requires Loadable(s, db, expected)
    ensures LoadedRecords(s, Stored(db)).Some?
    ensures var records := LoadedRecords(s, Stored(db)).value;
            && Accepts(s, records) && |records| == |Stored(db)|
            && HeadOf(s, records, |records|) == Some(Stored(db)[|Stored(db)| - 1].node)
            && (expected.Some? ==> HeadOf(s, records, |records|) == expected)
  {
    hide Accepts, GoodRows, Decisions, LoadedRecords, HeadOf, Stored, Sort, DecisionLe;
    var rows := Stored(db);
    NodesAreHeads(s, rows, LoadedRecords(s, rows).value, |rows|);
  }

  /** Two loadable histories with the same pinned head hold the same reviews. */
  lemma SameHeadSameReviews(s: Setting, a: Database, b: Database, head: string)
    requires Faithful(s) && Loadable(s, a, Some(head)) && Loadable(s, b, Some(head))
    ensures LoadedRecords(s, Stored(a)) == LoadedRecords(s, Stored(b))
  {
    hide *;
    LoadedHead(s, a, Some(head));
    LoadedHead(s, b, Some(head));
    var x, y := LoadedRecords(s, Stored(a)).value, LoadedRecords(s, Stored(b)).value;
    HeadDetermines(s, x, y, |x|, |y|);
    assert x[..|x|] == x && y[..|y|] == y;
  }

  /** An append to a history pinned at `head` keeps `head` as the head at the old length, adds
      one review, and is never made to a database whose head is another one. */
  lemma AppendExtendsPinned(s: Setting, history: Database, head: string, base: seq<Review>, r: Review)
    requires Faithful(s) && BaseOf(s, Some(history), Some(head)) == Some(base) && Accepts(s, base + [r])
    ensures HeadOf(s, base + [r], |base|) == Some(head)
    ensures Stored(history)[|Stored(history)| - 1].node == head
    ensures HeadOf(s, base + [r], |base| + 1) != Some(head)
    ensures LoadedRecords(s, Stored(DatabaseOf(s, base + [r]))) == Some(base + [r])
  {
    LoadedHead(s, history, Some(head));
    DecisionsPrefix(s, base + [r], |base|, |base|);
    assert (base + [r])[..|base|] == base;
    WrittenHistoryLoads(s, base + [r]);
    if HeadOf(s, base + [r], |base| + 1) == Some(head) {
      HeadDetermines(s, base + [r], base, |base| + 1, |base|);
    }
  }
}
