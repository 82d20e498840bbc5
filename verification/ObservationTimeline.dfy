/** Transitions over an ordered sequence of reproduced EC2 batches: the loop of
    `build_timeline` against definitions over the whole earlier history.
 */
module ObservationTimeline {
  import opened Ordering
  import opened InventoryCompare
  import opened JsonFields

  const MIN_BATCHES := 2
  const MAX_BATCHES := 16

  datatype Status = FirstObserved | Changed | Unchanged | ObservedAgain | NotObserved

  datatype Sighting = Sighting(batchSequence: nat, record: Record)

  datatype Event = Event(
    assetId: string,
    status: Status,
    current: Option<Record>,
    previousObservation: Option<Sighting>,
    changedFields: seq<string>)

  datatype Counts = Counts(firstObserved: nat, changed: nat, sameAsBefore: nat, observedAgain: nat, notObserved: nat)

  datatype Step = Step(sequence: nat, document: Document, counts: Counts, events: seq<Event>)

  datatype Timeline = Timeline(uniqueAssetCount: nat, eventTotals: Counts, batches: seq<Step>)

  // ---- definitions over the history -------------------------------------------------------

  /** The records of the batches, oldest first. */
  type History = seq<Records>

  /** The latest of the first `n` batches that holds `id`. */
  function Latest(h: History, n: nat, id: string): (r: Option<nat>)
    requires n <= |h|
    ensures r.Some? ==> r.value < n && id in h[r.value]
  {
    if n == 0 then None
    else if id in h[n - 1] then Some(n - 1)
    else Latest(h, n - 1, id)
  }

  function Prior(h: History, n: nat, id: string): Option<Sighting>
    requires n <= |h|
  {
    var k := Latest(h, n, id);
    if k.None? then None else Some(Sighting(k.value + 1, h[k.value][id]))
  }

  function Previous(h: History, n: nat): Records
    requires n <= |h|
  {
    if n == 0 then map[] else h[n - 1]
  }

  function FieldsSince(prior: Option<Sighting>, record: Record): seq<string> {
    if prior.None? then [] else ChangedFields(prior.value.record.claims, record.claims)
  }

  /** How one identity of a batch is labelled. */
  function StatusOf(prior: Option<Sighting>, inPrevious: bool, fields: seq<string>): Status {
    if prior.None? then FirstObserved
    else if !inPrevious then ObservedAgain
    else if fields != [] then Changed else Unchanged
  }

  function PresentEvent(h: History, n: nat, id: string): Event
    requires n < |h| && id in h[n]
  {
    var prior := Prior(h, n, id);
    var fields := FieldsSince(prior, h[n][id]);
    Event(id, StatusOf(prior, id in Previous(h, n), fields), Some(h[n][id]), prior, fields)
  }

  function AbsentEvent(h: History, n: nat, id: string): Event
    requires n <= |h|
  {
    Event(id, NotObserved, None, Prior(h, n, id), [])
  }

  function PresentEvents(h: History, n: nat, ids: seq<string>): (r: seq<Event>)
    requires n < |h| && forall id :: id in ids ==> id in h[n]
    ensures |r| == |ids|
    ensures forall i :: 0 <= i < |r| ==> r[i] == PresentEvent(h, n, ids[i])
  {
    seq(|ids|, i requires 0 <= i < |ids| => PresentEvent(h, n, ids[i]))
  }

  function AbsentEvents(h: History, n: nat, ids: seq<string>): (r: seq<Event>)
    requires n <= |h|
    ensures |r| == |ids|
    ensures forall i :: 0 <= i < |r| ==> r[i] == AbsentEvent(h, n, ids[i])
  {
    seq(|ids|, i requires 0 <= i < |ids| => AbsentEvent(h, n, ids[i]))
  }

  function Departed(h: History, n: nat): set<string>
    requires n < |h|
  {
    AddedIds(h[n], Previous(h, n))
  }

  /** The events of batch `n`, in report order. */
  function EventsAt(h: History, n: nat): seq<Event>
    requires n < |h|
  {
    PresentEvents(h, n, SortedSet(h[n].Keys)) + AbsentEvents(h, n, SortedSet(Departed(h, n)))
  }

  const ZERO := Counts(0, 0, 0, 0, 0)

  function Bump(c: Counts, s: Status): Counts {
    match s
    case FirstObserved => c.(firstObserved := c.firstObserved + 1)
    case Changed => c.(changed := c.changed + 1)
    case Unchanged => c.(sameAsBefore := c.sameAsBefore + 1)
    case ObservedAgain => c.(observedAgain := c.observedAgain + 1)
    case NotObserved => c.(notObserved := c.notObserved + 1)
  }

  function Add(a: Counts, b: Counts): Counts {
    Counts(a.firstObserved + b.firstObserved, a.changed + b.changed, a.sameAsBefore + b.sameAsBefore,
           a.observedAgain + b.observedAgain, a.notObserved + b.notObserved)
  }

  function Tally(events: seq<Event>): Counts {
    if events == [] then ZERO else Bump(Tally(events[..|events| - 1]), events[|events| - 1].status)
  }

  function Totals(h: History, n: nat): Counts
    requires n <= |h|
  {
    if n == 0 then ZERO else Add(Totals(h, n - 1), Tally(EventsAt(h, n - 1)))
  }

  /** Every identity that occurs in the first `n` batches. */
  function SeenIds(h: History, n: nat): set<string>
    requires n <= |h|
  {
    if n == 0 then {} else SeenIds(h, n - 1) + h[n - 1].Keys
  }

  // ---- acceptance ---------------------------------------------------------------------------

  /** A batch is what `read_ec2` returned, or nothing when it did not reproduce. */
  type Batch = Option<Document>

  predicate GoodBatch(b: Batch) {
    b.Some? && Recordable(b.value)
  }

  predicate Follows(a: Batch, b: Batch) {
    a.Some? && b.Some? && SameContext(a.value, b.value) && a.value.observedAt < b.value.observedAt
  }

  ghost predicate AcceptedUpTo(batches: seq<Batch>, n: nat)
    requires n <= |batches|
  {
    && (forall i :: 0 <= i < n ==> GoodBatch(batches[i]))
    && (forall i, j :: 0 <= i < j < n && j == i + 1 ==> Follows(batches[i], batches[j]))
  }

  ghost predicate AcceptedSequence(batches: seq<Batch>) {
    MIN_BATCHES <= |batches| <= MAX_BATCHES && AcceptedUpTo(batches, |batches|)
  }

  function RecordsAt(b: Batch): Records {
    if GoodBatch(b) then RecordsOf(b.value) else map[]
  }

  function HistoryOf(batches: seq<Batch>): (h: History)
    ensures |h| == |batches|
    ensures forall i :: 0 <= i < |h| ==> h[i] == RecordsAt(batches[i])
  {
    seq(|batches|, i requires 0 <= i < |batches| => RecordsAt(batches[i]))
  }

  function Steps(batches: seq<Batch>, h: History, n: nat): (r: seq<Step>)
    requires n <= |h| && n <= |batches| && forall i :: 0 <= i < n ==> batches[i].Some?
    ensures |r| == n
    ensures forall i :: 0 <= i < n ==> r[i] == Step(i + 1, batches[i].value, Tally(EventsAt(h, i)), EventsAt(h, i))
  {
    seq(n, i requires 0 <= i < n => Step(i + 1, batches[i].value, Tally(EventsAt(h, i)), EventsAt(h, i)))
  }

  function TimelineOf(batches: seq<Batch>): Timeline
    requires AcceptedSequence(batches)
  {
    var h := HistoryOf(batches);
    Timeline(|SeenIds(h, |h|)|, Totals(h, |h|), Steps(batches, h, |h|))
  }

  // ---- the loops ------------------------------------------------------------------------------

  function Lookup(lastSeen: map<string, Sighting>, id: string): Option<Sighting> {
    if id in lastSeen then Some(lastSeen[id]) else None
  }

  /** `last_seen` maps exactly the identities seen so far to their latest batch and record. */
  ghost predicate SeenUpTo(lastSeen: map<string, Sighting>, h: History, n: nat)
    requires n <= |h|
  {
    forall id :: Lookup(lastSeen, id) == Prior(h, n, id)
  }

  /** The same, after the first identities `done` of batch `n`. */
  ghost predicate SeenDuring(lastSeen: map<string, Sighting>, h: History, n: nat, done: seq<string>)
    requires n < |h| && forall id :: id in done ==> id in h[n]
  {
    forall id :: Lookup(lastSeen, id) == if id in done then Some(Sighting(n + 1, h[n][id])) else Prior(h, n, id)
  }

  lemma SeenAfter(lastSeen: map<string, Sighting>, h: History, n: nat, done: seq<string>)
    requires n < |h| && (forall id :: id in done <==> id in h[n]) && SeenDuring(lastSeen, h, n, done)
    ensures SeenUpTo(lastSeen, h, n + 1)
  {
  }

  lemma TallyNext(events: seq<Event>, e: Event)
    ensures Tally(events + [e]) == Bump(Tally(events), e.status)
  {
    assert (events + [e])[..|events|] == events;
  }

  lemma PresentStep(h: History, n: nat, lastSeen: map<string, Sighting>, done: seq<string>, id: string)
    requires n < |h| && id in h[n] && id !in done && forall x :: x in done ==> x in h[n]
    requires SeenDuring(lastSeen, h, n, done)
    ensures Lookup(lastSeen, id) == Prior(h, n, id)
    ensures PresentEvents(h, n, done + [id]) == PresentEvents(h, n, done) + [PresentEvent(h, n, id)]
    ensures SeenDuring(lastSeen[id := Sighting(n + 1, h[n][id])], h, n, done + [id])
  {
    hide Prior, PresentEvent;
    var more := lastSeen[id := Sighting(n + 1, h[n][id])];
    forall x ensures Lookup(more, x) == if x in done + [id] then Some(Sighting(n + 1, h[n][x])) else Prior(h, n, x) {
      assert Lookup(lastSeen, x) == if x in done then Some(Sighting(n + 1, h[n][x])) else Prior(h, n, x);
    }
  }

  /** The first inner loop: the identities of the batch, in order. */
  method ObservePresent(ghost h: History, sequence: nat, current: Records, previous: Records, ids: seq<string>,
                        lastSeen: map<string, Sighting>)
    returns (events: seq<Event>, counts: Counts, newLastSeen: map<string, Sighting>)
    requires 0 < sequence <= |h| && current == h[sequence - 1] && previous == Previous(h, sequence - 1)
    requires NoDup(ids) && forall id :: id in ids <==> id in current
    requires SeenUpTo(lastSeen, h, sequence - 1)
    ensures events == PresentEvents(h, sequence - 1, ids) && counts == Tally(events)
    ensures SeenUpTo(newLastSeen, h, sequence)
  {
    ghost var n := sequence - 1;
    hide *;
    NothingDone(h, n, lastSeen);
    NothingPresent(h, n, ids);
    events, counts, newLastSeen := [], ZERO, lastSeen;
    for m := 0 to |ids|
      invariant events == PresentEvents(h, n, ids[..m]) && counts == Tally(events)
      invariant SeenDuring(newLastSeen, h, n, ids[..m])
    {
      var id := ids[m];
      NewInPrefix(ids, m);
      PresentStep(h, n, newLastSeen, ids[..m], id);
      var record := current[id];
      var prior := Lookup(newLastSeen, id);
      var fields := FieldsSince(prior, record);
      var status := StatusOf(prior, id in previous, fields);
      var event := Event(id, status, Some(record), prior, fields);
      PresentEventIs(h, n, id);
      TallyNext(events, event);
      events := events + [event];
      newLastSeen := newLastSeen[id := Sighting(sequence, record)];
      counts := Bump(counts, status);
    }
    assert ids[..|ids|] == ids;
    SeenAfter(newLastSeen, h, n, ids);
  }

  lemma NothingPresent(h: History, n: nat, ids: seq<string>)
    requires n < |h|
    ensures ids[..0] == [] && PresentEvents(h, n, []) == []
  {
    hide PresentEvent;
  }

  lemma NewInPrefix(ids: seq<string>, m: nat)
    requires m < |ids| && NoDup(ids)
    ensures ids[m] in ids && ids[m] !in ids[..m] && ids[..m + 1] == ids[..m] + [ids[m]]
  {
  }

  lemma PresentEventIs(h: History, n: nat, id: string)
    requires n < |h| && id in h[n]
    ensures var prior := Prior(h, n, id); var fields := FieldsSince(prior, h[n][id]);
            PresentEvent(h, n, id) == Event(id, StatusOf(prior, id in Previous(h, n), fields), Some(h[n][id]), prior, fields)
  {
    hide Prior, FieldsSince, StatusOf, Previous;
  }

  lemma NothingDone(h: History, n: nat, lastSeen: map<string, Sighting>)
    requires n < |h| && SeenUpTo(lastSeen, h, n)
    ensures SeenDuring(lastSeen, h, n, []) && Tally([]) == ZERO
  {
  }

  /** The second inner loop: the identities `gone` of the previous batch that this one omits. */
  method ObserveDeparted(ghost h: History, ghost sequence: nat, gone: seq<string>, lastSeen: map<string, Sighting>,
                         presentEvents: seq<Event>, presentCounts: Counts)
    returns (events: seq<Event>, counts: Counts)
    requires 0 < sequence <= |h|
    requires forall id :: id in gone ==> id in Departed(h, sequence - 1)
    requires SeenUpTo(lastSeen, h, sequence) && presentCounts == Tally(presentEvents)
    ensures events == presentEvents + AbsentEvents(h, sequence - 1, gone)
    ensures counts == Tally(events)
  {
    hide *;
    ghost var n := sequence - 1;
    events, counts := presentEvents, presentCounts;
    assert AbsentEvents(h, n, gone[..0]) == [];
    for m := 0 to |gone|
      invariant events == presentEvents + AbsentEvents(h, n, gone[..m])
      invariant counts == Tally(events)
    {
      assert gone[m] in gone;
      assert gone[..m + 1] == gone[..m] + [gone[m]];
      DepartedSighting(h, n, lastSeen, gone[m]);
      var event := Event(gone[m], NotObserved, None, Some(lastSeen[gone[m]]), []);
      AbsentNext(h, n, gone[..m], gone[m]);
      TallyNext(events, event);
      events := events + [event];
      counts := Bump(counts, NotObserved);
    }
    assert gone[..|gone|] == gone;
  }

  lemma AbsentNext(h: History, n: nat, done: seq<string>, id: string)
    requires n <= |h|
    ensures AbsentEvents(h, n, done + [id]) == AbsentEvents(h, n, done) + [AbsentEvent(h, n, id)]
  {
    hide AbsentEvent;
  }

  lemma DepartedSighting(h: History, n: nat, lastSeen: map<string, Sighting>, id: string)
    requires n < |h| && id in Departed(h, n) && SeenUpTo(lastSeen, h, n + 1)
    ensures Prior(h, n, id) == Some(Sighting(n, h[n - 1][id]))
    ensures id in lastSeen
    ensures AbsentEvent(h, n, id) == Event(id, NotObserved, None, Some(lastSeen[id]), [])
  {
    assert Lookup(lastSeen, id) == Prior(h, n + 1, id);
  }

  /** What the batch loop keeps: its state describes the first `n` batches. */
  ghost predicate Progress(batches: seq<Batch>, n: nat, h: History, previous: Records, lastSeen: map<string, Sighting>,
                           totals: Counts, steps: seq<Step>)
    requires n <= |batches|
  {
    && AcceptedUpTo(batches, n)
    && |h| == n && (forall i :: 0 <= i < n ==> h[i] == RecordsAt(batches[i]))
    && previous == Previous(h, n)
    && SeenUpTo(lastSeen, h, n)
    && totals == Totals(h, n)
    && steps == Steps(batches, h, n)
  }

  lemma ProgressNext(batches: seq<Batch>, n: nat, h: History, previous: Records, lastSeen: map<string, Sighting>,
                     totals: Counts, steps: seq<Step>, events: seq<Event>, newLastSeen: map<string, Sighting>)
    requires n < |batches| && Progress(batches, n, h, previous, lastSeen, totals, steps)
    requires GoodBatch(batches[n]) && (n > 0 ==> Follows(batches[n - 1], batches[n]))
    requires SeenUpTo(newLastSeen, h + [RecordsAt(batches[n])], n + 1)
    requires events == EventsAt(h + [RecordsAt(batches[n])], n)
    ensures Progress(batches, n + 1, h + [RecordsAt(batches[n])], RecordsAt(batches[n]), newLastSeen,
                     Add(totals, Tally(events)), steps + [Step(n + 1, batches[n].value, Tally(events), events)])
  {
    hide GoodBatch, Follows, RecordsAt, EventsAt, Tally, AcceptedUpTo, Totals, SeenUpTo, Steps;
    var record := RecordsAt(batches[n]);
    TotalsStable(h, h + [record], n);
    AcceptedNext(batches, n);
    StepsNext(batches, h, h + [record], n);
    TotalsNext(h + [record], n);
    hide *;
    assert h + [record] == h + [RecordsAt(batches[n])];
  }

  lemma TotalsNext(h: History, n: nat)
    requires n < |h|
    ensures Totals(h, n + 1) == Add(Totals(h, n), Tally(EventsAt(h, n)))
    ensures Previous(h, n + 1) == h[n]
  {
  }

  lemma AcceptedNext(batches: seq<Batch>, n: nat)
    requires n < |batches| && AcceptedUpTo(batches, n)
    requires GoodBatch(batches[n]) && (n > 0 ==> Follows(batches[n - 1], batches[n]))
    ensures AcceptedUpTo(batches, n + 1)
    ensures forall i :: 0 <= i < n + 1 ==> batches[i].Some?
  {
  }

  lemma StepsNext(batches: seq<Batch>, h: History, more: History, n: nat)
    requires n < |batches| && |h| == n && |more| == n + 1 && h <= more
    requires forall i :: 0 <= i < n + 1 ==> batches[i].Some?
    ensures Steps(batches, more, n + 1) ==
            Steps(batches, h, n) + [Step(n + 1, batches[n].value, Tally(EventsAt(more, n)), EventsAt(more, n))]
  {
    hide EventsAt, Tally, Steps;
    var a := Steps(batches, more, n + 1);
    var b := Steps(batches, h, n) + [Step(n + 1, batches[n].value, Tally(EventsAt(more, n)), EventsAt(more, n))];
    forall i | 0 <= i < n + 1 ensures a[i] == b[i] {
      if i < n { EventsStable(h, more, i); }
    }
    assert a == b;
  }

  lemma SeenStable(h: History, records: Records, lastSeen: map<string, Sighting>)
    requires SeenUpTo(lastSeen, h, |h|)
    ensures SeenUpTo(lastSeen, h + [records], |h|)
  {
    forall id ensures Prior(h + [records], |h|, id) == Prior(h, |h|, id) {
      LatestStable(h, h + [records], |h|, id);
    }
  }

  lemma ProgressFacts(batches: seq<Batch>, n: nat, h: History, previous: Records, lastSeen: map<string, Sighting>,
                      totals: Counts, steps: seq<Step>)
    requires n <= |batches| && Progress(batches, n, h, previous, lastSeen, totals, steps)
    ensures |h| == n && previous == Previous(h, n) && SeenUpTo(lastSeen, h, n)
    ensures n > 0 ==> batches[n - 1].Some?
    ensures n < |batches| && AcceptedSequence(batches) ==>
              GoodBatch(batches[n]) && (n > 0 ==> Follows(batches[n - 1], batches[n]))
  {
  }

  lemma ProgressEnds(batches: seq<Batch>, h: History, previous: Records, lastSeen: map<string, Sighting>,
                     totals: Counts, steps: seq<Step>)
    requires MIN_BATCHES <= |batches| <= MAX_BATCHES && Progress(batches, |batches|, h, previous, lastSeen, totals, steps)
    ensures AcceptedSequence(batches) && Timeline(|lastSeen|, totals, steps) == TimelineOf(batches)
  {
    LastSeenKeys(lastSeen, h);
    hide EventsAt, Tally, SeenUpTo, GoodBatch, RecordsAt, SeenIds, Totals, Follows;
    assert h == HistoryOf(batches);
  }

  lemma AcceptedLength(batches: seq<Batch>)
    ensures AcceptedSequence(batches) ==> MIN_BATCHES <= |batches| <= MAX_BATCHES
  {
  }

  lemma ProgressStarts(batches: seq<Batch>)
    ensures Progress(batches, 0, [], map[], map[], ZERO, [])
  {
  }

  method BuildTimeline(batches: seq<Batch>) returns (result: Result<Timeline>)
    ensures result.Ok? <==> AcceptedSequence(batches)
    ensures result.Ok? ==> result.value == TimelineOf(batches)
  {
    AcceptedLength(batches);
    hide *;
    if !(MIN_BATCHES <= |batches| <= MAX_BATCHES) {
      return Rejected;
    }
    var steps: seq<Step>, lastSeen: map<string, Sighting>, previous: Records, totals := [], map[], map[], ZERO;
    ghost var h: History := [];
    ProgressStarts(batches);
    for n := 0 to |batches|
      invariant Progress(batches, n, h, previous, lastSeen, totals, steps)
    {
      ProgressFacts(batches, n, h, previous, lastSeen, totals, steps);
      if batches[n].None? {
        assert !GoodBatch(batches[n]) by { NoBatch(); }
        return Rejected;
      }
      var document := batches[n].value;
      if n > 0 {
        FollowsMeans(batches[n - 1], batches[n]);
        if !SameContext(batches[n - 1].value, document) {
          return Rejected;
        }
        if document.observedAt <= batches[n - 1].value.observedAt {
          return Rejected;
        }
      }
      var records := ReadRecords(document);
      GoodBatchMeans(batches[n]);
      if records.Rejected? {
        return Rejected;
      }
      ghost var more := h + [records.value];
      SeenStable(h, records.value, lastSeen);
      PreviousStable(h, records.value);
      var ids := SortedSet(records.value.Keys);
      SortedSetDistinct(records.value.Keys);
      ghost var before := lastSeen;
      var present, presentCounts;
      present, presentCounts, lastSeen := ObservePresent(more, n + 1, records.value, previous, ids, lastSeen);
      var gone := SortedSet(previous.Keys - records.value.Keys);
      DepartedMeans(more, n);
      var events, counts := ObserveDeparted(more, n + 1, gone, lastSeen, present, presentCounts);
      BothParts(more, n, ids, gone);
      ProgressNext(batches, n, h, previous, before, totals, steps, events, lastSeen);
      h := more;
      totals := Add(totals, counts);
      steps := steps + [Step(n + 1, document, counts, events)];
      previous := records.value;
    }
    ProgressEnds(batches, h, previous, lastSeen, totals, steps);
    result := Ok(Timeline(|lastSeen|, totals, steps));
  }

  lemma NoBatch()
    ensures !GoodBatch(None)
  {
  }

  lemma GoodBatchMeans(b: Batch)
    requires b.Some?
    ensures GoodBatch(b) <==> Recordable(b.value)
    ensures GoodBatch(b) ==> RecordsAt(b) == RecordsOf(b.value)
  {
  }

  lemma FollowsMeans(a: Batch, b: Batch)
    requires a.Some? && b.Some?
    ensures Follows(a, b) <==> SameContext(a.value, b.value) && a.value.observedAt < b.value.observedAt
  {
  }

  lemma PreviousStable(h: History, records: Records)
    ensures Previous(h + [records], |h|) == Previous(h, |h|)
  {
  }

  lemma SortedSetDistinct(s: set<string>)
    ensures NoDup(SortedSet(s))
  {
  }

  lemma DepartedMeans(h: History, n: nat)
    requires n < |h|
    ensures Departed(h, n) == Previous(h, n).Keys - h[n].Keys
  {
  }

  lemma BothParts(h: History, n: nat, ids: seq<string>, gone: seq<string>)
    requires n < |h| && ids == SortedSet(h[n].Keys) && gone == SortedSet(Previous(h, n).Keys - h[n].Keys)
    ensures EventsAt(h, n) == PresentEvents(h, n, ids) + AbsentEvents(h, n, gone)
  {
  }

  lemma {:induction false} LatestStable(h: History, more: History, n: nat, id: string)
    requires n <= |h| && h <= more
    ensures Latest(more, n, id) == Latest(h, n, id)
    ensures Prior(more, n, id) == Prior(h, n, id)
  {
    if n > 0 { LatestStable(h, more, n - 1, id); }
  }

  lemma EventStable(h: History, more: History, n: nat, id: string)
    requires n < |h| && h <= more
    ensures id in h[n] ==> PresentEvent(more, n, id) == PresentEvent(h, n, id)
    ensures AbsentEvent(more, n, id) == AbsentEvent(h, n, id)
  {
    hide ChangedFields, Latest;
    LatestStable(h, more, n, id);
  }

  lemma EventsStable(h: History, more: History, n: nat)
    requires n < |h| && h <= more
    ensures EventsAt(more, n) == EventsAt(h, n)
  {
    hide PresentEvent, AbsentEvent, SortedSet;
    forall id
      ensures id in h[n] ==> PresentEvent(more, n, id) == PresentEvent(h, n, id)
      ensures AbsentEvent(more, n, id) == AbsentEvent(h, n, id)
    {
      EventStable(h, more, n, id);
    }
    assert PresentEvents(more, n, SortedSet(h[n].Keys)) == PresentEvents(h, n, SortedSet(h[n].Keys));
    assert Departed(h, n) == Departed(more, n);
    assert AbsentEvents(more, n, SortedSet(Departed(h, n))) == AbsentEvents(h, n, SortedSet(Departed(h, n)));
  }

  lemma {:induction false} TotalsStable(h: History, more: History, n: nat)
    requires n <= |h| && h <= more
    ensures Totals(more, n) == Totals(h, n)
  {
    hide EventsAt, Tally;
    if n > 0 {
      TotalsStable(h, more, n - 1);
      EventsStable(h, more, n - 1);
    }
  }

  lemma {:induction false} SeenMeans(h: History, n: nat, id: string)
    requires n <= |h|
    ensures id in SeenIds(h, n) <==> Latest(h, n, id).Some?
  {
    if n > 0 { SeenMeans(h, n - 1, id); }
  }

  lemma LastSeenKeys(lastSeen: map<string, Sighting>, h: History)
    requires SeenUpTo(lastSeen, h, |h|)
    ensures lastSeen.Keys == SeenIds(h, |h|) && |lastSeen| == |SeenIds(h, |h|)|
  {
    forall id ensures id in lastSeen <==> id in SeenIds(h, |h|) {
      SeenMeans(h, |h|, id);
      assert Lookup(lastSeen, id) == Prior(h, |h|, id);
    }
    assert |lastSeen| == |lastSeen.Keys|;
  }
}
