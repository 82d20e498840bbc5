/** Comparison of a supplied batch sequence with a recipient's pinned expectations. */
module TimelineCheckpoint {
  import opened Ordering
  import opened InventoryCompare
  import opened ObservationTimeline

  /** A claimed observation time and the digest of the export expected or supplied for it. */
  datatype Slot = Slot(observedAt: int, exportSha256: string)

  datatype Checkpoint = Checkpoint(scope: string, account: string, region: string, expected: seq<Slot>)

  datatype SlotStatus = Matched | MissingBatch | ExportMismatch

  datatype SlotReview = SlotReview(
    expectedSequence: nat,
    slot: Slot,
    actualExport: Option<string>,
    suppliedSequence: Option<nat>,
    status: SlotStatus)

  datatype Unexpected = Unexpected(suppliedSequence: nat, slot: Slot)

  datatype SlotCounts = SlotCounts(matched: nat, missing: nat, mismatch: nat, unexpected: nat)

  datatype Review = Review(
    counts: SlotCounts,
    requirementsSatisfied: bool,
    slots: seq<SlotReview>,
    unexpected: seq<Unexpected>)

  ghost predicate Increasing(s: seq<Slot>) {
    forall i, j :: 0 <= i < j < |s| ==> s[i].observedAt < s[j].observedAt
  }

  /** The ordering loop of `read_checkpoint`. */
  method CheckSlots(slots: seq<Slot>) returns (ok: bool)
    ensures ok <==> MIN_BATCHES <= |slots| <= MAX_BATCHES && Increasing(slots)
  {
    if !(MIN_BATCHES <= |slots| <= MAX_BATCHES) {
      return false;
    }
    var previous: Option<int> := None;
    for n := 0 to |slots|
      invariant previous == if n == 0 then None else Some(slots[n - 1].observedAt)
      invariant forall i, j :: 0 <= i < j < n ==> slots[i].observedAt < slots[j].observedAt
    {
      if previous.Some? && slots[n].observedAt <= previous.value {
        assert slots[n - 1].observedAt >= slots[n].observedAt;
        return false;
      }
      previous := Some(slots[n].observedAt);
    }
    ok := true;
  }

  // ---- what a review says ---------------------------------------------------------------------

  /** The position of the supplied batch for a claimed time; a dictionary keeps the last. */
  function Find(supplied: seq<Slot>, t: int): (r: Option<nat>)
    ensures r.Some? ==> r.value < |supplied| && supplied[r.value].observedAt == t
    ensures r.None? ==> forall i :: 0 <= i < |supplied| ==> supplied[i].observedAt != t
  {
    if supplied == [] then None
    else if supplied[|supplied| - 1].observedAt == t then Some(|supplied| - 1)
    else Find(supplied[..|supplied| - 1], t)
  }

  function ReviewSlot(supplied: seq<Slot>, expected: seq<Slot>, i: nat): SlotReview
    requires i < |expected|
  {
    var at := Find(supplied, expected[i].observedAt);
    if at.None? then SlotReview(i + 1, expected[i], None, None, MissingBatch)
    else
      var actual := supplied[at.value].exportSha256;
      SlotReview(i + 1, expected[i], Some(actual), Some(at.value + 1),
                 if actual == expected[i].exportSha256 then Matched else ExportMismatch)
  }

  function ReviewSlots(supplied: seq<Slot>, expected: seq<Slot>, n: nat): seq<SlotReview>
    requires n <= |expected|
  {
    if n == 0 then [] else ReviewSlots(supplied, expected, n - 1) + [ReviewSlot(supplied, expected, n - 1)]
  }

  function UnexpectedBatches(supplied: seq<Slot>, expected: seq<Slot>, n: nat): seq<Unexpected>
    requires n <= |supplied|
  {
    if n == 0 then []
    else
      UnexpectedBatches(supplied, expected, n - 1) +
      (if Find(expected, supplied[n - 1].observedAt).None? then [Unexpected(n, supplied[n - 1])] else [])
  }

  function CountStatus(slots: seq<SlotReview>, s: SlotStatus): nat {
    if slots == [] then 0
    else CountStatus(slots[..|slots| - 1], s) + (if slots[|slots| - 1].status == s then 1 else 0)
  }

  function ReviewOf(supplied: seq<Slot>, expected: seq<Slot>): Review {
    var slots := ReviewSlots(supplied, expected, |expected|);
    var unexpected := UnexpectedBatches(supplied, expected, |supplied|);
    var counts := SlotCounts(CountStatus(slots, Matched), CountStatus(slots, MissingBatch),
                             CountStatus(slots, ExportMismatch), |unexpected|);
    Review(counts, counts.missing == 0 && counts.mismatch == 0 && counts.unexpected == 0, slots, unexpected)
  }

  function SuppliedSlots(steps: seq<Step>): (r: seq<Slot>)
    ensures |r| == |steps|
    ensures forall i :: 0 <= i < |r| ==> r[i] == Slot(steps[i].document.observedAt, steps[i].document.inputSha256)
  {
    seq(|steps|, i requires 0 <= i < |steps| => Slot(steps[i].document.observedAt, steps[i].document.inputSha256))
  }

  predicate InContext(checkpoint: Checkpoint, document: Document) {
    document.scope == checkpoint.scope && document.account == checkpoint.account && document.region == checkpoint.region
  }

  // ---- the loops ----------------------------------------------------------------------------------

  /** `observed` answers for every time what `Find` does over the supplied steps. */
  ghost predicate Indexes(observed: map<int, Step>, steps: seq<Step>) {
    forall t :: var at := Find(SuppliedSlots(steps), t);
      (t in observed <==> at.Some?) && (at.Some? ==> observed[t] == steps[at.value])
  }

  lemma IndexesNext(observed: map<int, Step>, steps: seq<Step>, step: Step)
    requires Indexes(observed, steps)
    ensures Indexes(observed[step.document.observedAt := step], steps + [step])
  {
    var slots, more := SuppliedSlots(steps), SuppliedSlots(steps + [step]);
    assert more[..|more| - 1] == slots;
  }

  method ReviewSteps(steps: seq<Step>, checkpoint: Checkpoint) returns (result: Result<Review>)
    requires forall i :: 0 <= i < |steps| ==> steps[i].sequence == i + 1
    ensures result.Ok? <==> forall i :: 0 <= i < |steps| ==> InContext(checkpoint, steps[i].document)
    ensures result.Ok? ==> result.value == ReviewOf(SuppliedSlots(steps), checkpoint.expected)
  {
    hide Indexes;
    ghost var supplied := SuppliedSlots(steps);
    var expected := checkpoint.expected;
    var observed: map<int, Step> := map[];
    IndexesNothing(steps);
    for n := 0 to |steps|
      invariant forall i :: 0 <= i < n ==> InContext(checkpoint, steps[i].document)
      invariant Indexes(observed, steps[..n])
    {
      if !InContext(checkpoint, steps[n].document) {
        return Rejected;
      }
      IndexesNext(observed, steps[..n], steps[n]);
      assert steps[..n + 1] == steps[..n] + [steps[n]];
      observed := observed[steps[n].document.observedAt := steps[n]];
    }
    assert steps[..|steps|] == steps;
    var slots, matched, missing, mismatch := ReviewExpected(steps, expected, observed);
    var unexpected := ListUnexpected(steps, expected);
    assert |supplied| == |steps|;
    var counts := SlotCounts(matched, missing, mismatch, |unexpected|);
    result := Ok(Review(counts, counts.missing == 0 && counts.mismatch == 0 && counts.unexpected == 0, slots, unexpected));
  }

  lemma IndexesNothing(steps: seq<Step>)
    ensures Indexes(map[], steps[..0])
  {
  }

  lemma IndexesAt(observed: map<int, Step>, steps: seq<Step>, t: int)
    requires Indexes(observed, steps)
    ensures var at := Find(SuppliedSlots(steps), t);
            (t in observed <==> at.Some?) && (at.Some? ==> observed[t] == steps[at.value])
  {
  }

  method ListUnexpected(steps: seq<Step>, expected: seq<Slot>) returns (unexpected: seq<Unexpected>)
    requires forall i :: 0 <= i < |steps| ==> steps[i].sequence == i + 1
    ensures unexpected == UnexpectedBatches(SuppliedSlots(steps), expected, |steps|)
  {
    var times := set i | 0 <= i < |expected| :: expected[i].observedAt;
    unexpected := [];
    for n := 0 to |steps|
      invariant unexpected == UnexpectedBatches(SuppliedSlots(steps), expected, n)
    {
      var document := steps[n].document;
      assert document.observedAt in times <==> Find(expected, document.observedAt).Some?;
      hide Find;
      if document.observedAt !in times {
        unexpected := unexpected + [Unexpected(steps[n].sequence, Slot(document.observedAt, document.inputSha256))];
      }
    }
  }

  method ReviewExpected(steps: seq<Step>, expected: seq<Slot>, observed: map<int, Step>)
    returns (slots: seq<SlotReview>, matched: nat, missing: nat, mismatch: nat)
    requires Indexes(observed, steps) && forall i :: 0 <= i < |steps| ==> steps[i].sequence == i + 1
    ensures slots == ReviewSlots(SuppliedSlots(steps), expected, |expected|)
    ensures matched == CountStatus(slots, Matched) && missing == CountStatus(slots, MissingBatch)
    ensures mismatch == CountStatus(slots, ExportMismatch)
  {
    hide Indexes;
    slots, matched, missing, mismatch := [], 0, 0, 0;
    for n := 0 to |expected|
      invariant slots == ReviewSlots(SuppliedSlots(steps), expected, n)
      invariant matched == CountStatus(slots, Matched) && missing == CountStatus(slots, MissingBatch)
      invariant mismatch == CountStatus(slots, ExportMismatch)
    {
      var slot := expected[n];
      IndexesAt(observed, steps, slot.observedAt);
      var status := MissingBatch;
      var actual: Option<string>, sequence: Option<nat> := None, None;
      if slot.observedAt in observed {
        var batch := observed[slot.observedAt];
        actual, sequence := Some(batch.document.inputSha256), Some(batch.sequence);
        status := if batch.document.inputSha256 == slot.exportSha256 then Matched else ExportMismatch;
      }
      match status {
        case Matched => matched := matched + 1;
        case MissingBatch => missing := missing + 1;
        case ExportMismatch => mismatch := mismatch + 1;
      }
      var review := SlotReview(n + 1, slot, actual, sequence, status);
      assert review == ReviewSlot(SuppliedSlots(steps), expected, n);
      assert (slots + [review])[..|slots|] == slots;
      slots := slots + [review];
    }
  }

  method AssessSequence(batches: seq<Batch>, checkpoint: Checkpoint) returns (result: Result<Review>)
    ensures result.Ok? <==>
              && MIN_BATCHES <= |checkpoint.expected| <= MAX_BATCHES && Increasing(checkpoint.expected)
              && AcceptedSequence(batches)
              && forall i :: 0 <= i < |batches| ==> InContext(checkpoint, batches[i].value)
    ensures result.Ok? ==>
              && Increasing(SuppliedSlots(TimelineOf(batches).batches))
              && result.value == ReviewOf(SuppliedSlots(TimelineOf(batches).batches), checkpoint.expected)
              && (result.value.requirementsSatisfied <==> SuppliedSlots(TimelineOf(batches).batches) == checkpoint.expected)
  {
    hide AcceptedSequence, TimelineOf, Increasing, SuppliedSlots, ReviewOf;
    var ok := CheckSlots(checkpoint.expected);
    if !ok {
      return Rejected;
    }
    var timeline := BuildTimeline(batches);
    if timeline.Rejected? {
      return Rejected;
    }
    StepsNumbered(batches);
    TimesIncrease(batches);
    result := ReviewSteps(timeline.value.batches, checkpoint);
    SatisfiedIffAsExpected(SuppliedSlots(timeline.value.batches), checkpoint.expected);
  }

  lemma StepsNumbered(batches: seq<Batch>)
    requires AcceptedSequence(batches)
    ensures |TimelineOf(batches).batches| == |batches|
    ensures forall i :: 0 <= i < |batches| ==>
              batches[i].Some? && TimelineOf(batches).batches[i].sequence == i + 1
              && TimelineOf(batches).batches[i].document == batches[i].value
  {
    hide EventsAt, Tally, Totals, SeenIds;
  }

  lemma {:induction false} EarlierBatches(batches: seq<Batch>, n: nat, i: nat, j: nat)
    requires n <= |batches| && AcceptedUpTo(batches, n) && i < j < n
    ensures batches[i].Some? && batches[j].Some? && batches[i].value.observedAt < batches[j].value.observedAt
    decreases j
  {
    hide GoodBatch;
    assert Follows(batches[j - 1], batches[j]);
    if i < j - 1 { EarlierBatches(batches, n, i, j - 1); }
  }

  lemma TimesIncrease(batches: seq<Batch>)
    requires AcceptedSequence(batches)
    ensures Increasing(SuppliedSlots(TimelineOf(batches).batches))
  {
    SequenceAccepted(batches);
    StepsNumbered(batches);
    hide *;
    BatchSlotsIncrease(batches, TimelineOf(batches).batches);
  }

  lemma SequenceAccepted(batches: seq<Batch>)
    requires AcceptedSequence(batches)
    ensures AcceptedUpTo(batches, |batches|)
  {
    hide AcceptedUpTo;
  }

  lemma BatchSlotsIncrease(batches: seq<Batch>, steps: seq<Step>)
    requires AcceptedUpTo(batches, |batches|) && |steps| == |batches|
    requires forall i :: 0 <= i < |batches| ==> batches[i].Some? && steps[i].document == batches[i].value
    ensures Increasing(SuppliedSlots(steps))
  {
    hide AcceptedUpTo, SuppliedSlots;
    var slots := SuppliedSlots(steps);
    forall i, j | 0 <= i < j < |slots| ensures slots[i].observedAt < slots[j].observedAt {
      EarlierBatches(batches, |batches|, i, j);
    }
  }

  // ---- what the counts and the verdict mean ----------------------------------------------------------

  lemma {:induction false} SlotCountsAdd(slots: seq<SlotReview>)
    ensures CountStatus(slots, Matched) + CountStatus(slots, MissingBatch) + CountStatus(slots, ExportMismatch) == |slots|
  {
    if slots != [] { SlotCountsAdd(slots[..|slots| - 1]); }
  }

  lemma {:induction false} ReviewSlotsAt(supplied: seq<Slot>, expected: seq<Slot>, n: nat)
    requires n <= |expected|
    ensures |ReviewSlots(supplied, expected, n)| == n
    ensures forall i :: 0 <= i < n ==> ReviewSlots(supplied, expected, n)[i] == ReviewSlot(supplied, expected, i)
  {
    if n > 0 { ReviewSlotsAt(supplied, expected, n - 1); }
  }

  ghost function Times(s: seq<Slot>): set<int> {
    set i | 0 <= i < |s| :: s[i].observedAt
  }

  /** Expected slots without a batch are the expected times that were not supplied. */
  lemma {:induction false} MissingTimes(supplied: seq<Slot>, expected: seq<Slot>, n: nat)
    requires n <= |expected| && Increasing(expected)
    ensures CountStatus(ReviewSlots(supplied, expected, n), MissingBatch) == |Times(expected[..n]) - Times(supplied)|
  {
    hide *;
    if n > 0 {
      MissingTimes(supplied, expected, n - 1);
      NextMissing(supplied, expected, n);
      TimesNext(expected, n);
      OneMoreTime(Times(expected[..n - 1]), expected[n - 1].observedAt, Times(supplied));
    } else {
      NothingMissing(supplied, expected);
    }
  }

  lemma NothingMissing(supplied: seq<Slot>, expected: seq<Slot>)
    ensures CountStatus(ReviewSlots(supplied, expected, 0), MissingBatch) == 0
    ensures |Times(expected[..0]) - Times(supplied)| == 0
  {
    assert Times(expected[..0]) == {};
  }

  lemma NextMissing(supplied: seq<Slot>, expected: seq<Slot>, n: nat)
    requires 0 < n <= |expected|
    ensures CountStatus(ReviewSlots(supplied, expected, n), MissingBatch) ==
            CountStatus(ReviewSlots(supplied, expected, n - 1), MissingBatch) +
            (if expected[n - 1].observedAt in Times(supplied) then 0 else 1)
  {
    TimesFound(supplied, expected[n - 1].observedAt);
    hide Times, Find;
    var slots := ReviewSlots(supplied, expected, n);
    assert slots[..|slots| - 1] == ReviewSlots(supplied, expected, n - 1);
  }

  lemma TimesFound(supplied: seq<Slot>, t: int)
    ensures t in Times(supplied) <==> Find(supplied, t).Some?
  {
  }

  lemma OneMoreTime(times: set<int>, t: int, other: set<int>)
    requires t !in times
    ensures |(times + {t}) - other| == |times - other| + (if t in other then 0 else 1)
  {
    if t in other {
      assert (times + {t}) - other == times - other;
    } else {
      assert (times + {t}) - other == (times - other) + {t};
    }
  }

  lemma {:induction false} UnexpectedTimes(supplied: seq<Slot>, expected: seq<Slot>, n: nat)
    requires n <= |supplied| && Increasing(supplied)
    ensures |UnexpectedBatches(supplied, expected, n)| == |Times(supplied[..n]) - Times(expected)|
  {
    if n > 0 {
      UnexpectedTimes(supplied, expected, n - 1);
      TimesNext(supplied, n);
      TimesFound(expected, supplied[n - 1].observedAt);
      OneMoreTime(Times(supplied[..n - 1]), supplied[n - 1].observedAt, Times(expected));
      hide Times, Find, Increasing;
    } else {
      assert Times(supplied[..0]) == {};
    }
  }

  lemma TimesNext(s: seq<Slot>, n: nat)
    requires 0 < n <= |s| && Increasing(s)
    ensures Times(s[..n]) == Times(s[..n - 1]) + {s[n - 1].observedAt}
    ensures s[n - 1].observedAt !in Times(s[..n - 1])
  {
    forall t | t in Times(s[..n - 1]) ensures t in Times(s[..n]) {
      var i :| 0 <= i < n - 1 && s[..n - 1][i].observedAt == t;
      assert s[..n][i].observedAt == t;
    }
    assert s[..n][n - 1] == s[n - 1];
  }

  lemma {:induction false} TimesCount(s: seq<Slot>, n: nat)
    requires n <= |s| && Increasing(s)
    ensures |Times(s[..n])| == n
  {
    if n > 0 {
      TimesCount(s, n - 1);
      TimesNext(s, n);
    } else {
      assert Times(s[..0]) == {};
    }
  }

  /** Every expected slot and every supplied batch is counted exactly once. */
  lemma CountsAccount(supplied: seq<Slot>, expected: seq<Slot>)
    requires Increasing(supplied) && Increasing(expected)
    ensures var c := ReviewOf(supplied, expected).counts;
            && c.matched + c.missing + c.mismatch == |expected|
            && c.matched + c.mismatch + c.unexpected == |supplied|
  {
    ReviewSlotsAt(supplied, expected, |expected|);
    SlotCountsAdd(ReviewSlots(supplied, expected, |expected|));
    MissingTimes(supplied, expected, |expected|);
    UnexpectedTimes(supplied, expected, |supplied|);
    assert expected[..|expected|] == expected && supplied[..|supplied|] == supplied;
    TimesCount(supplied, |supplied|);
    TimesCount(expected, |expected|);
    var e, s := Times(expected), Times(supplied);
    hide *;
    assert |e| == |e - s| + |e * s| && |s| == |s - e| + |e * s|;
    ReviewCounts(supplied, expected);
  }

  lemma ReviewCounts(supplied: seq<Slot>, expected: seq<Slot>)
    ensures var c := ReviewOf(supplied, expected).counts; var slots := ReviewSlots(supplied, expected, |expected|);
            && c.matched == CountStatus(slots, Matched) && c.missing == CountStatus(slots, MissingBatch)
            && c.mismatch == CountStatus(slots, ExportMismatch)
            && c.unexpected == |UnexpectedBatches(supplied, expected, |supplied|)|
            && (ReviewOf(supplied, expected).requirementsSatisfied <==> c.missing == 0 && c.mismatch == 0 && c.unexpected == 0)
            && ReviewOf(supplied, expected).slots == slots
  {
  }

  /** Found slots name supplied batches in strictly increasing order. */
  lemma FoundPositionsIncrease(supplied: seq<Slot>, expected: seq<Slot>, i: nat, j: nat)
    requires Increasing(supplied) && Increasing(expected) && i < j < |expected|
    requires ReviewSlot(supplied, expected, i).suppliedSequence.Some? && ReviewSlot(supplied, expected, j).suppliedSequence.Some?
    ensures |ReviewOf(supplied, expected).slots| == |expected|
    ensures ReviewOf(supplied, expected).slots[i].suppliedSequence.Some? && ReviewOf(supplied, expected).slots[j].suppliedSequence.Some?
    ensures ReviewOf(supplied, expected).slots[i].suppliedSequence.value < ReviewOf(supplied, expected).slots[j].suppliedSequence.value
  {
    ReviewSlotsAt(supplied, expected, |expected|);
    var a, b := Find(supplied, expected[i].observedAt), Find(supplied, expected[j].observedAt);
    assert supplied[a.value].observedAt < supplied[b.value].observedAt;
  }

  lemma {:induction false} NoSuchStatus(slots: seq<SlotReview>, s: SlotStatus)
    ensures CountStatus(slots, s) == 0 <==> forall i :: 0 <= i < |slots| ==> slots[i].status != s
  {
    if slots != [] {
      var m := |slots| - 1;
      NoSuchStatus(slots[..m], s);
      assert forall i :: 0 <= i < m ==> slots[..m][i] == slots[i];
    }
  }

  lemma FindAt(s: seq<Slot>, i: nat)
    requires i < |s| && Increasing(s)
    ensures Find(s, s[i].observedAt) == Some(i)
  {
    var at := Find(s, s[i].observedAt);
    assert at.Some?;
  }

  function TimeList(s: seq<Slot>): (r: seq<int>)
    ensures |r| == |s|
    ensures forall i :: 0 <= i < |r| ==> r[i] == s[i].observedAt
  {
    seq(|s|, i requires 0 <= i < |s| => s[i].observedAt)
  }

  predicate IntLe(a: int, b: int) { a <= b }

  /** With no time missing or unexpected, the claimed times agree position by position. */
  lemma SameTimes(a: seq<Slot>, b: seq<Slot>)
    requires Increasing(a) && Increasing(b) && Times(a) == Times(b)
    ensures TimeList(a) == TimeList(b)
  {
    TimeListMembers(a);
    TimeListMembers(b);
    NoDupSameElements(TimeList(a), TimeList(b));
    SortedUnique(TimeList(a), TimeList(b), IntLe);
  }

  lemma TimeListMembers(a: seq<Slot>)
    requires Increasing(a)
    ensures NoDup(TimeList(a)) && Sorted(TimeList(a), IntLe)
    ensures forall t :: t in TimeList(a) <==> t in Times(a)
  {
    forall t | t in Times(a) ensures t in TimeList(a) {
      var i :| 0 <= i < |a| && a[i].observedAt == t;
      assert TimeList(a)[i] == t;
    }
  }

  /** The requirements are satisfied exactly when the supplied times and export digests are the
      expected ones, in order. */
  lemma SatisfiedIffAsExpected(supplied: seq<Slot>, expected: seq<Slot>)
    requires Increasing(supplied) && Increasing(expected)
    ensures ReviewOf(supplied, expected).requirementsSatisfied <==> supplied == expected
  {
    VerdictMeans(supplied, expected);
    if ReviewOf(supplied, expected).requirementsSatisfied {
      SameTimes(supplied, expected);
      assert |supplied| == |expected|;
      forall i | 0 <= i < |expected| ensures supplied[i] == expected[i] {
        assert TimeList(supplied)[i] == TimeList(expected)[i];
        FindAt(supplied, i);
        assert ReviewSlot(supplied, expected, i).status == Matched;
      }
    }
    if supplied == expected {
      forall i: nat | i < |expected| ensures ReviewSlot(supplied, expected, i).status == Matched { FindAt(supplied, i); }
    }
  }

  /** The verdict: the same times on both sides and every expected slot matched. */
  lemma VerdictMeans(supplied: seq<Slot>, expected: seq<Slot>)
    requires Increasing(supplied) && Increasing(expected)
    ensures ReviewOf(supplied, expected).requirementsSatisfied <==>
              Times(supplied) == Times(expected) &&
              forall i: nat :: i < |expected| ==> ReviewSlot(supplied, expected, i).status == Matched
  {
    var slots := ReviewSlots(supplied, expected, |expected|);
    ReviewSlotsAt(supplied, expected, |expected|);
    NoSuchStatus(slots, MissingBatch);
    NoSuchStatus(slots, ExportMismatch);
    MissingTimes(supplied, expected, |expected|);
    UnexpectedTimes(supplied, expected, |supplied|);
    assert expected[..|expected|] == expected && supplied[..|supplied|] == supplied;
    ReviewCounts(supplied, expected);
    hide ReviewOf, ReviewSlots, CountStatus, UnexpectedBatches, Times, Find;
    var e, s := Times(expected), Times(supplied);
    assert (|e - s| == 0 && |s - e| == 0) <==> s == e by {
      if |e - s| == 0 && |s - e| == 0 { assert e - s == {} && s - e == {}; }
      if s == e { assert e - s == {} && s - e == {}; }
    }
    forall i: nat | i < |expected| ensures slots[i].status == ReviewSlot(supplied, expected, i).status {}
  }
}
