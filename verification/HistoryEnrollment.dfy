/** Selection of a review history by a recipient: an enrollment pins one revision and may only
    advance along a strict extension of the selected lineage.
 */
module HistoryEnrollment {
  import opened Ordering
  import opened ReviewHistory

  /** The canonical enrollment document. */
  datatype Enrollment = Enrollment(
    enrollmentId: string,
    revision: nat,
    previous: Option<string>,
    reviewCount: nat,
    decisionCount: nat,
    head: string,
    databaseSha: string,
    exportSha: string,
    discoverySha: string,
    modelSha: string)

  /** Hashing and canonical text, and the replay of a review against any supplied export. */
  datatype Recipient = Recipient(
    history: Setting,
    replay: (string, Review) -> bool,
    text: Enrollment -> string,
    parse: string -> Option<Enrollment>,
    databaseBytes: Database -> string)

  ghost predicate FaithfulText(e: Recipient) {
    Faithful(e.history) && forall d :: e.parse(e.text(d)) == Some(d)
  }

  /** The history rules under one supplied export. */
  function Under(e: Recipient, export_: string): Setting {
    e.history.(reproduces := (r: Review) => e.replay(export_, r))
  }

  lemma UnderFaithful(e: Recipient, export_: string)
    requires FaithfulText(e)
    ensures Faithful(Under(e, export_))
  {
    var s := Under(e, export_);
    assert s.sha == e.history.sha && s.nodeText == e.history.nodeText && s.payload == e.history.payload && s.parse == e.history.parse;
  }

  function Digest(e: Recipient, data: string): string {
    e.history.sha(data)
  }

  predicate WellFormed(d: Enrollment) {
    && 1 <= d.revision <= d.reviewCount <= MAX_REVIEWS
    && d.decisionCount <= MAX_DECISIONS
    && (d.revision == 1 <==> d.previous.None?)
  }

  /** `_parse`: the document behind pinned bytes, or nothing. */
  function Parse(e: Recipient, data: string, pin: string): Option<Enrollment> {
    if Digest(e, data) != pin then None
    else
      var d := e.parse(data);
      if d.Some? && e.text(d.value) == data && WellFormed(d.value) then d else None
  }

  // ---- captured histories -------------------------------------------------------------------

  /** The records that a database holds under an export. */
  ghost function Captured(e: Recipient, db: Database, export_: string): seq<Review> {
    var loaded := LoadedRecords(Under(e, export_), Stored(db));
    if loaded.Some? then loaded.value else []
  }

  ghost predicate Captures(e: Recipient, db: Database, export_: string, head: string) {
    Loadable(Under(e, export_), db, Some(head))
  }

  function Document(e: Recipient, db: Database, export_: string, h: History, id: string, revision: nat, previous: Option<string>): Enrollment
    requires h.records != []
  {
    Enrollment(id, revision, previous, |h.records|, h.decisionCount, h.head, Digest(e, e.databaseBytes(db)), Digest(e, export_),
               Digest(e, h.records[0].discovery), Digest(e, h.records[0].model))
  }

  /** The history a capture returns. */
  ghost function HistoryAt(e: Recipient, db: Database, export_: string, head: string): History
    requires Captures(e, db, export_, head)
  {
    var records := Captured(e, db, export_);
    History(records, head, |Decisions(Under(e, export_), records, |records|)|)
  }

  lemma CapturedFacts(e: Recipient, db: Database, export_: string, head: string)
    requires Captures(e, db, export_, head)
    ensures var records := Captured(e, db, export_); var s := Under(e, export_);
            && LoadedRecords(s, Stored(db)) == Some(records)
            && Accepts(s, records) && 1 <= |records| <= MAX_REVIEWS
            && HeadOf(s, records, |records|) == Some(head)
            && Stored(db)[|Stored(db)| - 1].node == head
            && |Decisions(s, records, |records|)| <= MAX_DECISIONS
  {
    var s := Under(e, export_);
    LoadedHead(s, db, Some(head));
    var records := Captured(e, db, export_);
    assert GoodReview(s, records, |records| - 1);
  }

  ghost function Selected(e: Recipient, db: Database, export_: string, head: string, id: string, revision: nat,
                          previous: Option<string>): Enrollment
    requires Captures(e, db, export_, head)
  {
    CapturedFacts(e, db, export_, head);
    Document(e, db, export_, HistoryAt(e, db, export_, head), id, revision, previous)
  }

  // ---- the three operations --------------------------------------------------------------------

  method Capture(e: Recipient, db: Database, export_: string, head: string) returns (result: Result<History>)
    ensures result.Ok? <==> Captures(e, db, export_, head)
    ensures result.Ok? ==> result.value == HistoryAt(e, db, export_, head) && result.value.records != []
  {
    result := Load(Under(e, export_), db, Some(head));
    if result.Ok? {
      CapturedFacts(e, db, export_, head);
    }
  }

  /** Start a selection; the result is the published enrollment bytes. */
  method Enroll(e: Recipient, db: Database, export_: string, head: string, freshId: string) returns (result: Result<string>)
    requires FaithfulText(e)
    ensures result.Ok? <==> Captures(e, db, export_, head)
    ensures result.Ok? ==> result.value == e.text(Selected(e, db, export_, head, freshId, 1, None))
  {
    hide *;
    var captured := Capture(e, db, export_, head);
    if captured.Rejected? {
      return Rejected;
    }
    EnrollParses(e, db, export_, head, freshId);
    var document := Document(e, db, export_, captured.value, freshId, 1, None);
    var data := e.text(document);
    if Parse(e, data, Digest(e, data)).None? {
      assert false;
    }
    result := Ok(data);
  }

  lemma EnrollParses(e: Recipient, db: Database, export_: string, head: string, id: string)
    requires FaithfulText(e) && Captures(e, db, export_, head)
    ensures HistoryAt(e, db, export_, head).records != []
    ensures var d := Document(e, db, export_, HistoryAt(e, db, export_, head), id, 1, None);
            d == Selected(e, db, export_, head, id, 1, None) && Parse(e, e.text(d), Digest(e, e.text(d))).Some?
  {
    CapturedFacts(e, db, export_, head);
    var d := Document(e, db, export_, HistoryAt(e, db, export_, head), id, 1, None);
    assert WellFormed(d) by {
      hide Captured, Captures, Decisions, Accepts, FaithfulText, Digest, LoadedRecords;
    }
    hide Captured, Captures, Decisions, Accepts, FaithfulText, Parse, WellFormed, Digest, LoadedRecords, Document;
    WellFormedParses(e, d);
  }

  /** `candidate` continues the lineage that `old` selected. */
  predicate SameLineage(old_: Enrollment, candidate: Enrollment) {
    candidate.exportSha == old_.exportSha && candidate.discoverySha == old_.discoverySha && candidate.modelSha == old_.modelSha
  }

  ghost predicate CanAdvance(e: Recipient, data: string, pin: string, db: Database, export_: string, head: string) {
    && Parse(e, data, pin).Some?
    && Captures(e, db, export_, head)
    && var old_ := Parse(e, data, pin).value; var records := Captured(e, db, export_); var s := Under(e, export_);
       && |records| > old_.reviewCount
       && HeadOf(s, records, old_.reviewCount) == Some(old_.head)
       && |Decisions(s, records, old_.reviewCount)| == old_.decisionCount
       && SameLineage(old_, Advanced(e, data, pin, db, export_, head))
  }

  ghost function Advanced(e: Recipient, data: string, pin: string, db: Database, export_: string, head: string): Enrollment
    requires Parse(e, data, pin).Some? && Captures(e, db, export_, head)
  {
    var old_ := Parse(e, data, pin).value;
    Selected(e, db, export_, head, old_.enrollmentId, old_.revision + 1, Some(pin))
  }

  lemma ItemCount(s: Setting, n: nat, r: Review)
    ensures |ReviewDecisions(s, n, r)| == |Items(r)|
  {
    hide Items;
    assert |Items(r)| == |Items(r).Keys|;
  }

  /** The loop over the supposed prefix: its head and its decision count. */
  method MeasurePrefix(s: Setting, records: seq<Review>, n: nat) returns (head: Option<string>, decisions: nat)
    requires n <= |records|
    ensures head == HeadOf(s, records, n) && decisions == |Decisions(s, records, n)|
  {
    hide Items, ReviewDecisions;
    head, decisions := None, 0;
    for m := 0 to n
      invariant head == HeadOf(s, records, m) && decisions == |Decisions(s, records, m)|
    {
      ItemCount(s, m + 1, records[m]);
      head := Some(Head(s, m + 1, head, s.sha(s.payload(records[m]))));
      decisions := decisions + |Items(records[m])|;
    }
  }

  /** Advance a pinned enrollment to a longer history of the same lineage. */
  method Advance(e: Recipient, data: string, pin: string, db: Database, export_: string, head: string)
    returns (result: Result<string>)
    requires FaithfulText(e)
    ensures result.Ok? <==> CanAdvance(e, data, pin, db, export_, head)
    ensures result.Ok? ==> result.value == e.text(Advanced(e, data, pin, db, export_, head))
  {
    hide *;
    var parsed := Parse(e, data, pin);
    AdvanceNeeds(e, data, pin, db, export_, head);
    if parsed.None? {
      return Rejected;
    }
    var old_ := parsed.value;
    var captured := Capture(e, db, export_, head);
    if captured.Rejected? {
      return Rejected;
    }
    var h := captured.value;
    var candidate := Document(e, db, export_, h, old_.enrollmentId, old_.revision + 1, Some(pin));
    AdvanceGuards(e, data, pin, db, export_, head, old_, h, candidate);
    if |h.records| <= old_.reviewCount {
      return Rejected;
    }
    var prefixHead, prefixDecisions := MeasurePrefix(Under(e, export_), h.records, old_.reviewCount);
    if prefixHead != Some(old_.head) || prefixDecisions != old_.decisionCount || !SameLineage(old_, candidate) {
      return Rejected;
    }
    var bytes := e.text(candidate);
    if Parse(e, bytes, Digest(e, bytes)).None? {
      assert false;
    }
    result := Ok(bytes);
  }

  lemma AdvanceNeeds(e: Recipient, data: string, pin: string, db: Database, export_: string, head: string)
    ensures CanAdvance(e, data, pin, db, export_, head) ==> Parse(e, data, pin).Some? && Captures(e, db, export_, head)
  {
  }

  /** The guards of an advance, together, are `CanAdvance`, and then publication parses its own
      document. */
  lemma AdvanceGuards(e: Recipient, data: string, pin: string, db: Database, export_: string, head: string,
                      old_: Enrollment, h: History, candidate: Enrollment)
    requires FaithfulText(e) && Parse(e, data, pin) == Some(old_)
    requires Captures(e, db, export_, head) && h == HistoryAt(e, db, export_, head) && h.records != []
    requires candidate == Document(e, db, export_, h, old_.enrollmentId, old_.revision + 1, Some(pin))
    ensures candidate == Advanced(e, data, pin, db, export_, head)
    ensures CanAdvance(e, data, pin, db, export_, head) <==>
              && |h.records| > old_.reviewCount
              && HeadOf(Under(e, export_), h.records, old_.reviewCount) == Some(old_.head)
              && |Decisions(Under(e, export_), h.records, old_.reviewCount)| == old_.decisionCount
              && SameLineage(old_, candidate)
    ensures |h.records| > old_.reviewCount ==> Parse(e, e.text(candidate), Digest(e, e.text(candidate))).Some?
  {
    hide *;
    AdvancedIs(e, data, pin, db, export_, head, old_, h, candidate);
    CanAdvanceMeans(e, data, pin, db, export_, head, old_, h, candidate);
    ParsedWellFormed(e, data, pin, old_);
    DocumentWellFormed(e, db, export_, head, h, candidate, old_, pin);
    if |h.records| > old_.reviewCount { WellFormedParses(e, candidate); }
  }

  lemma AdvancedIs(e: Recipient, data: string, pin: string, db: Database, export_: string, head: string,
                   old_: Enrollment, h: History, candidate: Enrollment)
    requires Parse(e, data, pin) == Some(old_)
    requires Captures(e, db, export_, head) && h == HistoryAt(e, db, export_, head) && h.records != []
    requires candidate == Document(e, db, export_, h, old_.enrollmentId, old_.revision + 1, Some(pin))
    ensures candidate == Advanced(e, data, pin, db, export_, head)
  {
    hide Document, HistoryAt, Captures, Parse;
  }

  lemma CanAdvanceMeans(e: Recipient, data: string, pin: string, db: Database, export_: string, head: string,
                        old_: Enrollment, h: History, candidate: Enrollment)
    requires Parse(e, data, pin) == Some(old_)
    requires Captures(e, db, export_, head) && h == HistoryAt(e, db, export_, head)
    requires candidate == Advanced(e, data, pin, db, export_, head)
    ensures CanAdvance(e, data, pin, db, export_, head) <==>
              && |h.records| > old_.reviewCount
              && HeadOf(Under(e, export_), h.records, old_.reviewCount) == Some(old_.head)
              && |Decisions(Under(e, export_), h.records, old_.reviewCount)| == old_.decisionCount
              && SameLineage(old_, candidate)
  {
    assert h.records == Captured(e, db, export_);
    hide HistoryAt, Captures, Captured, Parse, Advanced, HeadOf, Decisions, SameLineage, Under;
  }

  lemma ParsedWellFormed(e: Recipient, data: string, pin: string, d: Enrollment)
    requires Parse(e, data, pin) == Some(d)
    ensures WellFormed(d)
  {
    hide WellFormed, Digest;
  }

  lemma DocumentWellFormed(e: Recipient, db: Database, export_: string, head: string, h: History, candidate: Enrollment,
                           old_: Enrollment, pin: string)
    requires Captures(e, db, export_, head) && h == HistoryAt(e, db, export_, head) && h.records != [] && WellFormed(old_)
    requires candidate == Document(e, db, export_, h, old_.enrollmentId, old_.revision + 1, Some(pin))
    ensures |h.records| > old_.reviewCount ==> WellFormed(candidate)
  {
    CapturedFacts(e, db, export_, head);
    hide Captured, Captures, Decisions, HeadOf, Accepts, LoadedRecords, Under, Digest;
  }

  lemma WellFormedParses(e: Recipient, d: Enrollment)
    requires FaithfulText(e) && WellFormed(d)
    ensures Parse(e, e.text(d), Digest(e, e.text(d))) == Some(d)
  {
    hide WellFormed, Digest, Faithful;
  }

  ghost predicate Verifies(e: Recipient, data: string, pin: string, db: Database, export_: string) {
    && Parse(e, data, pin).Some?
    && var d := Parse(e, data, pin).value;
       && Captures(e, db, export_, d.head)
       && e.text(Selected(e, db, export_, d.head, d.enrollmentId, d.revision, d.previous)) == data
  }

  method Verify(e: Recipient, data: string, pin: string, db: Database, export_: string) returns (ok: bool)
    ensures ok <==> Verifies(e, data, pin, db, export_)
  {
    var parsed := Parse(e, data, pin);
    if parsed.None? {
      return false;
    }
    var d := parsed.value;
    var captured := Capture(e, db, export_, d.head);
    if captured.Rejected? {
      return false;
    }
    var candidate := Document(e, db, export_, captured.value, d.enrollmentId, d.revision, d.previous);
    ok := e.text(candidate) == data;
  }

  // ---- runs -------------------------------------------------------------------------------------

  /** One publication: the enrollment bytes and the evidence they were made from. */
  datatype Published = Published(data: string, db: Database, export_: string, head: string)

  ghost predicate StartsWith(e: Recipient, p: Published) {
    Captures(e, p.db, p.export_, p.head) && exists id :: p.data == e.text(Selected(e, p.db, p.export_, p.head, id, 1, None))
  }

  /** `q` advances from the bytes `p` published, whatever history, export and pins it was given. */
  ghost predicate AdvancesTo(e: Recipient, p: Published, q: Published) {
    exists pin :: CanAdvance(e, p.data, pin, q.db, q.export_, q.head)
                  && q.data == e.text(Advanced(e, p.data, pin, q.db, q.export_, q.head))
  }

  /** A run: one enrollment, then advances, each from the bytes published before. */
  ghost predicate Run(e: Recipient, run: seq<Published>) {
    run != [] && StartsWith(e, run[0]) && forall i, j :: 0 <= i < j < |run| && j == i + 1 ==> AdvancesTo(e, run[i], run[j])
  }

  ghost function Records(e: Recipient, p: Published): seq<Review> {
    Captured(e, p.db, p.export_)
  }

  /** What a publication of revision `n` says about its evidence. */
  ghost predicate Says(e: Recipient, p: Published, n: nat, d: Enrollment) {
    && Captures(e, p.db, p.export_, p.head)
    && d == Selected(e, p.db, p.export_, p.head, d.enrollmentId, n, d.previous)
    && WellFormed(d) && p.data == e.text(d)
  }

  lemma SaysParses(e: Recipient, p: Published, n: nat, d: Enrollment, pin: string)
    requires FaithfulText(e) && Says(e, p, n, d) && Parse(e, p.data, pin).Some?
    ensures Parse(e, p.data, pin) == Some(d)
  {
  }

  lemma SaysMeans(e: Recipient, p: Published, n: nat, d: Enrollment)
    requires FaithfulText(e) && Says(e, p, n, d)
    ensures e.parse(p.data) == Some(d)
    ensures d.head == p.head && d.revision == n && d.reviewCount == |Records(e, p)| && d.exportSha == Digest(e, p.export_)
    ensures d.decisionCount == |Decisions(Under(e, p.export_), Records(e, p), |Records(e, p)|)|
    ensures HeadOf(Under(e, p.export_), Records(e, p), |Records(e, p)|) == Some(p.head)
    ensures 1 <= d.revision <= d.reviewCount <= MAX_REVIEWS
  {
    CapturedFacts(e, p.db, p.export_, p.head);
  }

  /** A captured history whose prefix has the selected head extends the selected reviews. */
  lemma SelectedPrefix(e: Recipient, p: Published, n: nat, d: Enrollment, records: seq<Review>)
    requires FaithfulText(e) && Says(e, p, n, d)
    requires d.reviewCount <= |records| && HeadOf(Under(e, p.export_), records, d.reviewCount) == Some(d.head)
    ensures d.reviewCount == |Records(e, p)| && Records(e, p) == records[..|Records(e, p)|]
  {
    SaysMeans(e, p, n, d);
    UnderFaithful(e, p.export_);
    hide *;
    var a := Records(e, p);
    HeadDetermines(Under(e, p.export_), a, records, |a|, |a|);
    assert a[..|a|] == a;
  }

  lemma AdvanceMeans(e: Recipient, data: string, pin: string, db: Database, export_: string, head: string, old_: Enrollment)
    requires CanAdvance(e, data, pin, db, export_, head) && Parse(e, data, pin) == Some(old_)
    ensures Captures(e, db, export_, head) && WellFormed(old_)
    ensures var records := Captured(e, db, export_); var f := Advanced(e, data, pin, db, export_, head);
            && |records| > old_.reviewCount && HeadOf(Under(e, export_), records, old_.reviewCount) == Some(old_.head)
            && SameLineage(old_, f) && f.exportSha == Digest(e, export_) && f.enrollmentId == old_.enrollmentId
            && f == Selected(e, db, export_, head, f.enrollmentId, old_.revision + 1, f.previous)
            && f.previous == Some(pin) && f.revision == old_.revision + 1 && f.reviewCount == |records|
            && WellFormed(f)
  {
    ParsedWellFormed(e, data, pin, old_);
    CapturedFacts(e, db, export_, head);
    SelectedMeans(e, db, export_, head, old_.enrollmentId, old_.revision + 1, Some(pin));
    hide Captured, Captures, HeadOf, Decisions, Accepts, Selected, Parse, LoadedRecords, SameLineage;
  }

  lemma SelectedMeans(e: Recipient, db: Database, export_: string, head: string, id: string, revision: nat, previous: Option<string>)
    requires Captures(e, db, export_, head)
    ensures var f := Selected(e, db, export_, head, id, revision, previous); var records := Captured(e, db, export_);
            && f.enrollmentId == id && f.revision == revision && f.previous == previous && f.reviewCount == |records|
            && f.decisionCount == |Decisions(Under(e, export_), records, |records|)| && f.head == head
            && f.exportSha == Digest(e, export_) && f.databaseSha == Digest(e, e.databaseBytes(db))
  {
    hide Captured, Captures, Decisions, Digest;
  }

  /** One advance: a strict extension under the same export, label, discovery and model. */
  lemma AdvanceExtends(e: Recipient, p: Published, q: Published, n: nat, d: Enrollment) returns (f: Enrollment)
    requires FaithfulText(e) && Says(e, p, n, d) && AdvancesTo(e, p, q)
    ensures Says(e, q, n + 1, f)
    ensures q.export_ == p.export_ && f.enrollmentId == d.enrollmentId && SameLineage(d, f)
    ensures |Records(e, p)| < |Records(e, q)| && Records(e, p) == Records(e, q)[..|Records(e, p)|]
  {
    var pin :| CanAdvance(e, p.data, pin, q.db, q.export_, q.head)
               && q.data == e.text(Advanced(e, p.data, pin, q.db, q.export_, q.head));
    SaysParses(e, p, n, d, pin);
    SaysMeans(e, p, n, d);
    AdvanceMeans(e, p.data, pin, q.db, q.export_, q.head, d);
    f := Advanced(e, p.data, pin, q.db, q.export_, q.head);
    DigestInjective(e, p.export_, q.export_);
    hide Captured, Captures, HeadOf, Decisions, Accepts, Faithful, CanAdvance, Advanced, Selected, Digest, FaithfulText;
    SelectedPrefix(e, p, n, d, Records(e, q));
  }

  lemma DigestInjective(e: Recipient, x: string, y: string)
    requires FaithfulText(e)
    ensures Digest(e, x) == Digest(e, y) ==> x == y
  {
  }

  lemma StartSays(e: Recipient, p: Published) returns (d: Enrollment)
    requires StartsWith(e, p)
    ensures Says(e, p, 1, d)
  {
    var id :| p.data == e.text(Selected(e, p.db, p.export_, p.head, id, 1, None));
    d := Selected(e, p.db, p.export_, p.head, id, 1, None);
    CapturedFacts(e, p.db, p.export_, p.head);
  }

  lemma {:induction false} RunSays(e: Recipient, run: seq<Published>, n: nat) returns (d: Enrollment)
    requires FaithfulText(e) && Run(e, run) && n < |run|
    ensures Says(e, run[n], n + 1, d)
  {
    if n == 0 {
      d := StartSays(e, run[0]);
    } else {
      var before := RunSays(e, run, n - 1);
      assert AdvancesTo(e, run[n - 1], run[n]);
      d := AdvanceExtends(e, run[n - 1], run[n], n, before);
    }
  }

  lemma RunStep(e: Recipient, run: seq<Published>, j: nat)
    requires FaithfulText(e) && Run(e, run) && j + 1 < |run|
    ensures |Records(e, run[j])| < |Records(e, run[j + 1])|
    ensures Records(e, run[j]) == Records(e, run[j + 1])[..|Records(e, run[j])|]
    ensures SameSelection(e, run[j], run[j + 1])
  {
    var d := RunSays(e, run, j);
    assert AdvancesTo(e, run[j], run[j + 1]);
    hide AdvancesTo, Run, Says, FaithfulText, Records, SameLineage;
    var f := AdvanceExtends(e, run[j], run[j + 1], j + 1, d);
    SaysMeans(e, run[j], j + 1, d);
    SaysMeans(e, run[j + 1], j + 2, f);
  }

  /** Both publications are of one export and label, with one discovery and model. */
  ghost predicate SameSelection(e: Recipient, p: Published, q: Published) {
    && p.export_ == q.export_
    && e.parse(p.data).Some? && e.parse(q.data).Some?
    && e.parse(p.data).value.enrollmentId == e.parse(q.data).value.enrollmentId
    && SameLineage(e.parse(p.data).value, e.parse(q.data).value)
  }

  /** Over any run each selected history is a strict prefix of every later one. */
  lemma {:induction false} SelectionsGrow(e: Recipient, run: seq<Published>, i: nat, j: nat)
    requires FaithfulText(e) && Run(e, run) && i < j < |run|
    ensures |Records(e, run[i])| < |Records(e, run[j])|
    ensures Records(e, run[i]) == Records(e, run[j])[..|Records(e, run[i])|]
    decreases j
  {
    hide *;
    RunStep(e, run, j - 1);
    if i < j - 1 {
      SelectionsGrow(e, run, i, j - 1);
      PrefixOfPrefix(Records(e, run[i]), Records(e, run[j - 1]), Records(e, run[j]));
    }
  }

  lemma PrefixOfPrefix(a: seq<Review>, b: seq<Review>, c: seq<Review>)
    requires |a| <= |b| <= |c| && a == b[..|a|] && b == c[..|b|]
    ensures a == c[..|a|]
  {
  }

  /** Over any run export, label, discovery and model never change. */
  lemma {:induction false} SelectionConstant(e: Recipient, run: seq<Published>, i: nat, j: nat)
    requires FaithfulText(e) && Run(e, run) && i < j < |run|
    ensures SameSelection(e, run[i], run[j])
    decreases j
  {
    hide *;
    RunStep(e, run, j - 1);
    if i < j - 1 {
      SelectionConstant(e, run, i, j - 1);
      SameSelectionTransitive(e, run[i], run[j - 1], run[j]);
    }
  }

  lemma SameSelectionTransitive(e: Recipient, p: Published, q: Published, r: Published)
    requires SameSelection(e, p, q) && SameSelection(e, q, r)
    ensures SameSelection(e, p, r)
  {
  }

  /** A revision counts its advances and never exceeds its reviews, so a chain has at most 32
      publications. */
  lemma RevisionsBounded(e: Recipient, run: seq<Published>, n: nat)
    requires FaithfulText(e) && Run(e, run) && n < |run|
    ensures e.parse(run[n].data).Some?
    ensures var d := e.parse(run[n].data).value;
            d.revision == n + 1 <= d.reviewCount == |Records(e, run[n])| <= MAX_REVIEWS
    ensures |run| <= MAX_REVIEWS
  {
    var d := RunSays(e, run, n);
    assert e.parse(run[n].data) == Some(d);
    CapturedFacts(e, run[n].db, run[n].export_, run[n].head);
    var last := RunSays(e, run, |run| - 1);
  }

  lemma SameEncodings(e: Recipient, x: string, y: string)
    ensures Under(e, x).sha == Under(e, y).sha && Under(e, x).payload == Under(e, y).payload
    ensures Under(e, x).itemText == Under(e, y).itemText && Under(e, x).nodeText == Under(e, y).nodeText
  {
  }

  lemma SameReviewDecisions(s: Setting, t: Setting, n: nat, r: Review)
    requires s.itemText == t.itemText
    ensures ReviewDecisions(s, n, r) == ReviewDecisions(t, n, r)
  {
    hide Items, SortedSet;
  }

  lemma {:induction false} SameDecisions(s: Setting, t: Setting, records: seq<Review>, n: nat)
    requires s.itemText == t.itemText && n <= |records|
    ensures Decisions(s, records, n) == Decisions(t, records, n)
  {
    hide ReviewDecisions;
    if n > 0 {
      SameDecisions(s, t, records, n - 1);
      SameReviewDecisions(s, t, n, records[n - 1]);
    }
  }

  lemma {:induction false} SameHeads(s: Setting, t: Setting, records: seq<Review>, n: nat)
    requires s.sha == t.sha && s.payload == t.payload && s.nodeText == t.nodeText && n <= |records|
    ensures HeadOf(s, records, n) == HeadOf(t, records, n)
  {
    if n > 0 { SameHeads(s, t, records, n - 1); }
  }

  /** Heads and decision rows do not depend on the export that reviews are replayed against. */
  lemma ExportIrrelevant(e: Recipient, x: string, y: string, records: seq<Review>, n: nat)
    requires n <= |records|
    ensures HeadOf(Under(e, x), records, n) == HeadOf(Under(e, y), records, n)
    ensures Decisions(Under(e, x), records, n) == Decisions(Under(e, y), records, n)
  {
    hide *;
    SameEncodings(e, x, y);
    SameHeads(Under(e, x), Under(e, y), records, n);
    SameDecisions(Under(e, x), Under(e, y), records, n);
  }

  /** In a run the decision count of the prefix needs no check of its own: a history captured under
      any export whose prefix has the selected head has the selected number of decisions there. */
  lemma HeadCheckImpliesDecisions(e: Recipient, run: seq<Published>, n: nat, db: Database, export_: string, head: string)
    requires FaithfulText(e) && Run(e, run) && n < |run|
    requires Captures(e, db, export_, head)
    requires e.parse(run[n].data).Some?
    requires var old_ := e.parse(run[n].data).value; var records := Captured(e, db, export_);
             |records| > old_.reviewCount && HeadOf(Under(e, export_), records, old_.reviewCount) == Some(old_.head)
    ensures var old_ := e.parse(run[n].data).value; var records := Captured(e, db, export_);
            |Decisions(Under(e, export_), records, old_.reviewCount)| == old_.decisionCount
  {
    var p := run[n];
    var s := Under(e, p.export_);
    var d := RunSays(e, run, n);
    SaysMeans(e, p, n + 1, d);
    hide *;
    var a, records := Records(e, p), Captured(e, db, export_);
    ExportIrrelevant(e, export_, p.export_, records, d.reviewCount);
    SelectedPrefix(e, p, n + 1, d, records);
    DecisionsPrefix(s, records, |a|, |a|);
  }

  /** Verification accepts every publication of a run on its own evidence, and other evidence
      only if it is the same export and database bytes with the same reviews. */
  lemma VerifiesExactly(e: Recipient, run: seq<Published>, n: nat, db: Database, export_: string)
    requires FaithfulText(e) && Run(e, run) && n < |run|
    ensures Verifies(e, run[n].data, Digest(e, run[n].data), run[n].db, run[n].export_)
    ensures Verifies(e, run[n].data, Digest(e, run[n].data), db, export_) ==>
              export_ == run[n].export_ && e.databaseBytes(db) == e.databaseBytes(run[n].db)
              && Captured(e, db, export_) == Records(e, run[n])
  {
    hide *;
    var d := RunSays(e, run, n);
    OwnVerifies(e, run[n], n + 1, d);
    if Verifies(e, run[n].data, Digest(e, run[n].data), db, export_) {
      OnlyOwnVerifies(e, run[n], n + 1, d, db, export_);
    }
  }

  lemma OwnVerifies(e: Recipient, p: Published, n: nat, d: Enrollment)
    requires FaithfulText(e) && Says(e, p, n, d)
    ensures Verifies(e, p.data, Digest(e, p.data), p.db, p.export_)
  {
    SaysMeans(e, p, n, d);
    WellFormedParses(e, d);
    hide FaithfulText, WellFormed, Captures, Selected, Parse, Digest, Records, Decisions, HeadOf;
  }

  lemma OnlyOwnVerifies(e: Recipient, p: Published, n: nat, d: Enrollment, db: Database, export_: string)
    requires FaithfulText(e) && Says(e, p, n, d) && Verifies(e, p.data, Digest(e, p.data), db, export_)
    ensures export_ == p.export_ && e.databaseBytes(db) == e.databaseBytes(p.db) && Captured(e, db, export_) == Records(e, p)
  {
    SaysMeans(e, p, n, d);
    SaysParses(e, p, n, d, Digest(e, p.data));
    SelectedMeans(e, db, export_, d.head, d.enrollmentId, d.revision, d.previous);
    SelectedMeans(e, p.db, p.export_, p.head, d.enrollmentId, n, d.previous);
    TextInjective(e, Selected(e, db, export_, d.head, d.enrollmentId, d.revision, d.previous), d);
    DigestInjective(e, export_, p.export_);
    DigestInjective(e, e.databaseBytes(db), e.databaseBytes(p.db));
    UnderFaithful(e, export_);
    hide FaithfulText, WellFormed, Selected, Parse, Digest, Decisions, HeadOf, Loadable, LoadedRecords, Stored, Faithful, Under;
    SameHeadSameReviews(Under(e, export_), db, p.db, d.head);
  }

  lemma TextInjective(e: Recipient, a: Enrollment, b: Enrollment)
    requires FaithfulText(e)
    ensures e.text(a) == e.text(b) ==> a == b
  {
    assert e.parse(e.text(a)) == Some(a) && e.parse(e.text(b)) == Some(b);
    hide Faithful;
  }
}
