/** What the timeline's labels, totals and neighbouring comparisons mean over any history. */
module TimelineProperties {
  import opened Ordering
  import opened InventoryCompare
  import opened JsonFields
  import opened ObservationTimeline

  // ---- each label against its definition over the whole history ----------------------------

  ghost predicate IsLatest(h: History, n: nat, id: string, k: nat)
    requires n <= |h|
  {
    k < n && id in h[k] && forall j :: k < j < n ==> id !in h[j]
  }

  lemma {:induction false} LatestMeans(h: History, n: nat, id: string)
    requires n <= |h|
    ensures forall k: nat :: Latest(h, n, id) == Some(k) <==> IsLatest(h, n, id, k)
    ensures Latest(h, n, id).None? <==> forall k :: 0 <= k < n ==> id !in h[k]
  {
    if n > 0 {
      LatestMeans(h, n - 1, id);
      forall k: nat ensures Latest(h, n, id) == Some(k) <==> IsLatest(h, n, id, k) {
        if id !in h[n - 1] {
          assert Latest(h, n - 1, id) == Some(k) <==> IsLatest(h, n - 1, id, k);
          assert IsLatest(h, n, id, k) <==> IsLatest(h, n - 1, id, k);
        }
      }
    }
  }

  /** A previous observation is named exactly when it is the true latest earlier one. */
  lemma PreviousObservationIsLatest(h: History, n: nat, id: string, s: Sighting)
    requires n < |h|
    ensures Prior(h, n, id) == Some(s) <==>
              exists k: nat :: IsLatest(h, n, id, k) && s == Sighting(k + 1, h[k][id])
    ensures id in h[n] ==> PresentEvent(h, n, id).previousObservation == Prior(h, n, id)
    ensures id in h[n] ==> PresentEvent(h, n, id).current == Some(h[n][id])
  {
    LatestMeans(h, n, id);
  }

  /** The label of every observed identity holds exactly when its definition over all earlier
      batches holds. */
  lemma StatusMeans(h: History, n: nat, id: string)
    requires n < |h| && id in h[n]
    ensures var status := PresentEvent(h, n, id).status;
            && (status == FirstObserved <==> forall k :: 0 <= k < n ==> id !in h[k])
            && (status == ObservedAgain <==> (exists k :: 0 <= k < n && id in h[k]) && id !in h[n - 1])
            && (status == Changed <==>
                (n > 0 && id in h[n - 1] && exists f :: Get(h[n - 1][id].claims, f) != Get(h[n][id].claims, f)))
            && (status == Unchanged <==>
                (n > 0 && id in h[n - 1] && forall f :: Get(h[n - 1][id].claims, f) == Get(h[n][id].claims, f)))
  {
    hide ChangedFields, Get;
    LatestMeans(h, n, id);
    if n > 0 && id in h[n - 1] {
      assert Latest(h, n, id) == Some(n - 1);
      NoChangedFields(h[n - 1][id].claims, h[n][id].claims);
    }
  }

  ghost predicate HasEvent(h: History, n: nat, e: Event)
    requires n < |h|
  {
    e in EventsAt(h, n)
  }

  /** A batch reports each of its identities and each departure once, and nothing else. */
  lemma EventsExactly(h: History, n: nat, e: Event)
    requires n < |h|
    ensures HasEvent(h, n, e) <==>
              (e.assetId in h[n] && e == PresentEvent(h, n, e.assetId)) ||
              (n > 0 && e.assetId in h[n - 1] && e.assetId !in h[n] && e == AbsentEvent(h, n, e.assetId))
    ensures |EventsAt(h, n)| == |h[n].Keys| + |Departed(h, n)|
  {
    var ids, gone := SortedSet(h[n].Keys), SortedSet(Departed(h, n));
    assert forall id :: id in ids <==> id in h[n];
    assert forall id :: id in gone <==> n > 0 && id in h[n - 1] && id !in h[n];
    PresentEventListed(h, n, ids, e);
    AbsentEventListed(h, n, gone, e);
    hide PresentEvent, AbsentEvent, PresentEvents, AbsentEvents, SortedSet, Departed;
  }

  lemma PresentEventListed(h: History, n: nat, ids: seq<string>, e: Event)
    requires n < |h| && forall id :: id in ids ==> id in h[n]
    ensures e in PresentEvents(h, n, ids) <==> e.assetId in ids && e == PresentEvent(h, n, e.assetId)
  {
    var ps := PresentEvents(h, n, ids);
    hide PresentEvent, AbsentEvent, PresentEvents;
    if e in ps {
      var i :| 0 <= i < |ps| && ps[i] == e;
      PresentNames(h, n, ids[i]);
      assert ids[i] in ids;
    }
    if e.assetId in ids && e == PresentEvent(h, n, e.assetId) {
      var i :| 0 <= i < |ids| && ids[i] == e.assetId;
      assert ps[i] == e;
    }
  }

  lemma AbsentEventListed(h: History, n: nat, ids: seq<string>, e: Event)
    requires n < |h|
    ensures e in AbsentEvents(h, n, ids) <==> e.assetId in ids && e == AbsentEvent(h, n, e.assetId)
  {
    var as_ := AbsentEvents(h, n, ids);
    hide PresentEvent, AbsentEvent, AbsentEvents;
    if e in as_ {
      var i :| 0 <= i < |as_| && as_[i] == e;
      PresentNames(h, n, ids[i]);
      assert ids[i] in ids;
    }
    if e.assetId in ids && e == AbsentEvent(h, n, e.assetId) {
      var i :| 0 <= i < |ids| && ids[i] == e.assetId;
      assert as_[i] == e;
    }
  }

  lemma PresentNames(h: History, n: nat, id: string)
    requires n < |h|
    ensures id in h[n] ==> PresentEvent(h, n, id).assetId == id && PresentEvent(h, n, id).status != NotObserved
    ensures AbsentEvent(h, n, id).assetId == id && AbsentEvent(h, n, id).status == NotObserved
  {
  }

  // ---- the word of one identity ---------------------------------------------------------------

  datatype Presence = Unseen | Here | Away

  /** The language `first_observed (changed|unchanged)* (not_observed observed_again
      (changed|unchanged)*)* [not_observed]` as an automaton; `None` rejects. */
  function Advance(p: Presence, s: Status): Option<Presence> {
    match (p, s)
    case (Unseen, FirstObserved) => Some(Here)
    case (Here, Changed) => Some(Here)
    case (Here, Unchanged) => Some(Here)
    case (Here, NotObserved) => Some(Away)
    case (Away, ObservedAgain) => Some(Here)
    case _ => None
  }

  function RunWord(word: seq<Status>): Option<Presence> {
    if word == [] then Some(Unseen)
    else
      var before := RunWord(word[..|word| - 1]);
      if before.None? then None else Advance(before.value, word[|word| - 1])
  }

  /** The labels that the first `n` batches give to `id`, in order. */
  function Word(h: History, n: nat, id: string): seq<Status>
    requires n <= |h|
  {
    if n == 0 then [] else Word(h, n - 1, id) + Labels(EventsAt(h, n - 1), id)
  }

  function Labels(events: seq<Event>, id: string): seq<Status> {
    if events == [] then []
    else Labels(events[..|events| - 1], id) +
         (if events[|events| - 1].assetId == id then [events[|events| - 1].status] else [])
  }

  function PresenceAfter(h: History, n: nat, id: string): Presence
    requires n <= |h|
  {
    if n > 0 && id in h[n - 1] then Here
    else if Latest(h, n, id).Some? then Away
    else Unseen
  }

  lemma {:induction false} LabelsAppend(a: seq<Event>, b: seq<Event>, id: string)
    ensures Labels(a + b, id) == Labels(a, id) + Labels(b, id)
  {
    if b == [] {
      assert a + b == a;
    } else {
      assert (a + b)[..|a + b| - 1] == a + b[..|b| - 1];
      LabelsAppend(a, b[..|b| - 1], id);
    }
  }

  lemma {:induction false} PresentLabels(h: History, n: nat, ids: seq<string>, id: string)
    requires n < |h| && NoDup(ids) && forall x :: x in ids ==> x in h[n]
    ensures Labels(PresentEvents(h, n, ids), id) == if id in ids then [PresentEvent(h, n, id).status] else []
  {
    hide PresentEvent;
    if ids != [] {
      var m := |ids| - 1;
      var rest, last := ids[..m], ids[m];
      assert ids == rest + [last] && last !in rest && last in ids;
      assert NoDup(rest) && forall id :: id in rest ==> id in h[n];
      hide NoDup, PresentEvents;
      PresentLabels(h, n, rest, id);
      PresentNames(h, n, last);
      PresentLast(h, n, rest, last);
      LabelsAppend(PresentEvents(h, n, rest), [PresentEvent(h, n, last)], id);
      LabelsOne(PresentEvent(h, n, last), id);
    }
  }

  lemma LabelsOne(e: Event, id: string)
    ensures Labels([e], id) == if e.assetId == id then [e.status] else []
  {
    assert [e][..0] == [];
  }

  lemma {:induction false} AbsentLabels(h: History, n: nat, gone: seq<string>, id: string)
    requires n < |h| && NoDup(gone)
    ensures Labels(AbsentEvents(h, n, gone), id) == if id in gone then [NotObserved] else []
  {
    hide AbsentEvent;
    if gone != [] {
      var m := |gone| - 1;
      var rest, last := gone[..m], gone[m];
      assert gone == rest + [last] && last !in rest && NoDup(rest);
      hide NoDup, AbsentEvents, Labels;
      AbsentLabels(h, n, rest, id);
      AbsentLabelsNext(h, n, rest, last, id);
    }
  }

  lemma AbsentLabelsNext(h: History, n: nat, rest: seq<string>, last: string, id: string)
    requires n < |h|
    ensures Labels(AbsentEvents(h, n, rest + [last]), id) ==
            Labels(AbsentEvents(h, n, rest), id) + (if id == last then [NotObserved] else [])
  {
    hide AbsentEvent, AbsentEvents, Labels;
    PresentNames(h, n, last);
    AbsentNext(h, n, rest, last);
    LabelsAppend(AbsentEvents(h, n, rest), [AbsentEvent(h, n, last)], id);
    LabelsOne(AbsentEvent(h, n, last), id);
  }

  /** One batch labels an identity at most once. */
  lemma LabelsAt(h: History, n: nat, id: string)
    requires n < |h|
    ensures Labels(EventsAt(h, n), id) ==
            if id in h[n] then [PresentEvent(h, n, id).status]
            else if id in Departed(h, n) then [NotObserved] else []
  {
    hide PresentEvent, AbsentEvent, Labels;
    var ids, gone := SortedSet(h[n].Keys), SortedSet(Departed(h, n));
    SortedSetDistinct(h[n].Keys);
    SortedSetDistinct(Departed(h, n));
    LabelsAppend(PresentEvents(h, n, ids), AbsentEvents(h, n, gone), id);
    PresentLabels(h, n, ids, id);
    AbsentLabels(h, n, gone, id);
    assert id in ids <==> id in h[n].Keys;
    assert id in gone <==> id in Departed(h, n);
  }

  lemma PresenceStep(h: History, n: nat, id: string)
    requires n < |h|
    ensures id in h[n] ==> Advance(PresenceAfter(h, n, id), PresentEvent(h, n, id).status) == Some(PresenceAfter(h, n + 1, id))
    ensures id in Departed(h, n) ==> Advance(PresenceAfter(h, n, id), NotObserved) == Some(PresenceAfter(h, n + 1, id))
    ensures id !in h[n] && id !in Departed(h, n) ==> PresenceAfter(h, n + 1, id) == PresenceAfter(h, n, id)
  {
    hide ChangedFields;
    if id in Departed(h, n) {
      assert Latest(h, n, id) == Some(n - 1);
      assert Latest(h, n + 1, id) == Latest(h, n, id);
    }
  }

  lemma RunAnother(word: seq<Status>, s: Status)
    requires RunWord(word).Some?
    ensures RunWord(word + [s]) == Advance(RunWord(word).value, s)
  {
    assert (word + [s])[..|word|] == word;
  }

  /** The events of every identity over any run form a word of the language, and the automaton
      ends in the identity's real presence. */
  lemma {:induction false} WordAccepted(h: History, n: nat, id: string)
    requires n <= |h|
    ensures RunWord(Word(h, n, id)) == Some(PresenceAfter(h, n, id))
  {
    hide EventsAt, Labels, RunWord, Advance, PresenceAfter, Departed, PresentEvent;
    if n == 0 {
      EmptyWord(h, id);
    } else {
      WordAccepted(h, n - 1, id);
      LabelsAt(h, n - 1, id);
      PresenceStep(h, n - 1, id);
      var word := Word(h, n - 1, id);
      if id in h[n - 1] {
        RunAnother(word, PresentEvent(h, n - 1, id).status);
      } else if id in Departed(h, n - 1) {
        RunAnother(word, NotObserved);
      } else {
        assert word + [] == word;
      }
    }
  }

  lemma EmptyWord(h: History, id: string)
    ensures RunWord(Word(h, 0, id)) == Some(Unseen) == Some(PresenceAfter(h, 0, id))
  {
  }

  // ---- totals ------------------------------------------------------------------------------------

  /** The first observed among `ids`. */
  ghost function Firsts(h: History, n: nat, ids: seq<string>): set<string>
    requires n < |h|
  {
    set id | id in ids && id !in SeenIds(h, n)
  }

  ghost function Returns(h: History, n: nat, ids: seq<string>): set<string>
    requires n < |h|
  {
    set id | id in ids && id in SeenIds(h, n) && id !in Previous(h, n)
  }

  lemma OneMore(h: History, n: nat, rest: seq<string>, last: string)
    requires n < |h| && last !in rest
    ensures |Firsts(h, n, rest + [last])| == |Firsts(h, n, rest)| + if last !in SeenIds(h, n) then 1 else 0
    ensures |Returns(h, n, rest + [last])| ==
            |Returns(h, n, rest)| + if last in SeenIds(h, n) && last !in Previous(h, n) then 1 else 0
  {
    hide SeenIds, Previous;
    assert Firsts(h, n, rest + [last]) == Firsts(h, n, rest) + if last !in SeenIds(h, n) then {last} else {};
    assert Returns(h, n, rest + [last]) ==
           Returns(h, n, rest) + if last in SeenIds(h, n) && last !in Previous(h, n) then {last} else {};
  }

  lemma {:induction false} PresentTally(h: History, n: nat, ids: seq<string>)
    requires n < |h| && NoDup(ids) && forall id :: id in ids ==> id in h[n]
    ensures var c := Tally(PresentEvents(h, n, ids));
            c.firstObserved == |Firsts(h, n, ids)| && c.observedAgain == |Returns(h, n, ids)| && c.notObserved == 0
  {
    if ids == [] {
      assert Firsts(h, n, ids) == {} && Returns(h, n, ids) == {};
    } else {
      var m := |ids| - 1;
      var rest, last := ids[..m], ids[m];
      assert last in ids && last !in rest && ids == rest + [last];
      assert NoDup(rest) && forall id :: id in rest ==> id in h[n];
      hide *;
      PresentTally(h, n, rest);
      PresentLast(h, n, rest, last);
      TallyNext(PresentEvents(h, n, rest), PresentEvent(h, n, last));
      LabelBySets(h, n, last);
      OneMore(h, n, rest, last);
      BumpMeans(Tally(PresentEvents(h, n, rest)), PresentEvent(h, n, last).status);
    }
  }

  lemma PresentLast(h: History, n: nat, ids: seq<string>, id: string)
    requires n < |h| && id in h[n] && forall x :: x in ids ==> x in h[n]
    ensures PresentEvents(h, n, ids + [id]) == PresentEvents(h, n, ids) + [PresentEvent(h, n, id)]
  {
    hide PresentEvent;
  }

  lemma BumpMeans(c: Counts, status: Status)
    ensures var d := Bump(c, status);
            && d.firstObserved == c.firstObserved + (if status == FirstObserved then 1 else 0)
            && d.observedAgain == c.observedAgain + (if status == ObservedAgain then 1 else 0)
            && d.notObserved == c.notObserved + (if status == NotObserved then 1 else 0)
  {
  }

  lemma LabelBySets(h: History, n: nat, id: string)
    requires n < |h| && id in h[n]
    ensures var status := PresentEvent(h, n, id).status;
            && (status == FirstObserved <==> id !in SeenIds(h, n))
            && (status == ObservedAgain <==> id in SeenIds(h, n) && id !in Previous(h, n))
            && status != NotObserved
  {
    hide ChangedFields;
    SeenMeans(h, n, id);
  }

  lemma {:induction false} AbsentTally(h: History, n: nat, present: seq<Event>, gone: seq<string>)
    requires n <= |h|
    ensures var c := Tally(present + AbsentEvents(h, n, gone)); var p := Tally(present);
            c.firstObserved == p.firstObserved && c.observedAgain == p.observedAgain && c.notObserved == p.notObserved + |gone|
  {
    hide Tally, Prior;
    if gone == [] {
      assert present + AbsentEvents(h, n, gone) == present;
    } else {
      var m := |gone| - 1;
      var e := AbsentEvent(h, n, gone[m]);
      AbsentTally(h, n, present, gone[..m]);
      var before := present + AbsentEvents(h, n, gone[..m]);
      assert present + AbsentEvents(h, n, gone) == before + [e];
      TallyNext(before, e);
    }
  }

  lemma StepTally(h: History, n: nat)
    requires n < |h|
    ensures var c := Tally(EventsAt(h, n));
            && c.firstObserved == |h[n].Keys - SeenIds(h, n)|
            && c.observedAgain == |(h[n].Keys * SeenIds(h, n)) - Previous(h, n).Keys|
            && c.notObserved == |Previous(h, n).Keys - h[n].Keys|
  {
    var ids, gone := SortedSet(h[n].Keys), SortedSet(Departed(h, n));
    SortedSetDistinct(h[n].Keys);
    PresentTally(h, n, ids);
    AbsentTally(h, n, PresentEvents(h, n, ids), gone);
    ArrivalSets(h, n, ids);
    DepartedMeans(h, n);
    hide Tally, SeenIds, SortedSet, PresentEvents, AbsentEvents, Firsts, Returns, Previous, Departed;
    assert |gone| == |Departed(h, n)|;
  }

  lemma ArrivalSets(h: History, n: nat, ids: seq<string>)
    requires n < |h| && forall id :: id in ids <==> id in h[n]
    ensures Firsts(h, n, ids) == h[n].Keys - SeenIds(h, n)
    ensures Returns(h, n, ids) == (h[n].Keys * SeenIds(h, n)) - Previous(h, n).Keys
  {
    hide SeenIds, Previous;
  }

  lemma SeenNext(h: History, n: nat)
    requires n < |h|
    ensures SeenIds(h, n + 1) == SeenIds(h, n) + h[n].Keys
  {
  }

  lemma SetBalance(seen: set<string>, before: set<string>, now: set<string>)
    requires before <= seen
    ensures |seen + now| == |seen| + |now - seen|
    ensures |now| == |before| + |now - seen| + |(now * seen) - before| - |before - now|
  {
    assert now - before == (now - seen) + ((now * seen) - before);
    assert now == (now - before) + (now * before);
    assert before == (before - now) + (now * before);
  }

  /** Over any run: as many first observations as identities ever seen, and arrivals minus
      departures leave exactly the identities of the last batch. */
  lemma {:induction false} TotalsBalance(h: History, n: nat)
    requires n <= |h|
    ensures Totals(h, n).firstObserved == |SeenIds(h, n)|
    ensures Totals(h, n).firstObserved + Totals(h, n).observedAgain - Totals(h, n).notObserved == |Previous(h, n)|
  {
    hide *;
    if n == 0 {
      NothingBalances(h);
    } else {
      TotalsBalance(h, n - 1);
      BatchBalance(h, n - 1);
      TotalsNext(h, n - 1);
      SeenNext(h, n - 1);
      AddMeans(Totals(h, n - 1), Tally(EventsAt(h, n - 1)));
    }
  }

  lemma NothingBalances(h: History)
    ensures Totals(h, 0).firstObserved == |SeenIds(h, 0)|
    ensures Totals(h, 0).firstObserved + Totals(h, 0).observedAgain - Totals(h, 0).notObserved == |Previous(h, 0)|
  {
    NothingTotalled(h);
    hide Totals, SeenIds, Previous;
  }

  /** One batch adds its new identities, and its arrivals less its departures lead to its size. */
  lemma BatchBalance(h: History, n: nat)
    requires n < |h|
    ensures var c := Tally(EventsAt(h, n));
            && |SeenIds(h, n) + h[n].Keys| == |SeenIds(h, n)| + c.firstObserved
            && |h[n]| == |Previous(h, n)| + c.firstObserved + c.observedAgain - c.notObserved
  {
    hide *;
    StepTally(h, n);
    PreviousSeen(h, n);
    SetBalance(SeenIds(h, n), Previous(h, n).Keys, h[n].Keys);
    assert |h[n]| == |h[n].Keys| && |Previous(h, n)| == |Previous(h, n).Keys|;
  }

  lemma AddMeans(a: Counts, b: Counts)
    ensures var c := Add(a, b);
            && c.firstObserved == a.firstObserved + b.firstObserved && c.observedAgain == a.observedAgain + b.observedAgain
            && c.notObserved == a.notObserved + b.notObserved
  {
  }

  /** The balance as an accepted timeline reports it. */
  lemma TimelineBalances(batches: seq<Batch>)
    requires AcceptedSequence(batches)
    ensures var timeline := TimelineOf(batches); var totals := timeline.eventTotals;
            && totals.firstObserved == timeline.uniqueAssetCount
            && totals.firstObserved + totals.observedAgain - totals.notObserved == |RecordsAt(batches[|batches| - 1])|
  {
    hide RecordsOf, EventsAt, Tally, GoodBatch, Follows;
    TotalsBalance(HistoryOf(batches), |batches|);
  }

  lemma NothingTotalled(h: History)
    ensures Totals(h, 0) == ZERO && SeenIds(h, 0) == {} && Previous(h, 0) == map[]
  {
  }

  lemma PreviousSeen(h: History, n: nat)
    requires n <= |h|
    ensures Previous(h, n).Keys <= SeenIds(h, n)
  {
  }

  // ---- a step refines the comparison of its two batches ------------------------------------------

  lemma {:induction false} FilterPresent(h: History, n: nat, ids: seq<string>, p: Event -> bool)
    requires n < |h| && forall id :: id in ids ==> id in h[n]
    ensures Filter(PresentEvents(h, n, ids), p) ==
            PresentEvents(h, n, Filter(ids, (id: string) => id in h[n] && p(PresentEvent(h, n, id))))
  {
    var q := (id: string) => id in h[n] && p(PresentEvent(h, n, id));
    if ids != [] {
      var x, kept := ids[0], Filter(ids[1..], q);
      assert x in ids;
      FilterPresent(h, n, ids[1..], p);
      PresentFirst(h, n, x, ids[1..]);
      assert ids == [x] + ids[1..];
      FilterFirst(x, ids[1..], q);
      FilterFirst(PresentEvent(h, n, x), PresentEvents(h, n, ids[1..]), p);
      PresentFirst(h, n, x, kept);
    }
  }

  lemma PresentFirst(h: History, n: nat, id: string, ids: seq<string>)
    requires n < |h| && id in h[n] && forall x :: x in ids ==> x in h[n]
    ensures PresentEvents(h, n, [id] + ids) == [PresentEvent(h, n, id)] + PresentEvents(h, n, ids)
  {
    hide PresentEvent;
  }

  lemma FilterFirst<T(!new)>(x: T, s: seq<T>, p: T -> bool)
    ensures Filter([x] + s, p) == (if p(x) then [x] else []) + Filter(s, p)
  {
    assert ([x] + s)[1..] == s;
  }

  lemma EventsOfKind(h: History, n: nat, p: Event -> bool, S: set<string>)
    requires n < |h|
    requires forall e: Event :: e.status == NotObserved ==> !p(e)
    requires forall id :: id in S <==> id in h[n] && p(PresentEvent(h, n, id))
    ensures Filter(EventsAt(h, n), p) == PresentEvents(h, n, SortedSet(S))
  {
    var ids, gone := SortedSet(h[n].Keys), SortedSet(Departed(h, n));
    assert EventsAt(h, n) == PresentEvents(h, n, ids) + AbsentEvents(h, n, gone);
    AbsentNone(h, n, gone, p);
    hide *;
    var q := (id: string) => id in h[n] && p(PresentEvent(h, n, id));
    FilterAppend(PresentEvents(h, n, ids), AbsentEvents(h, n, gone), p);
    FilterPresent(h, n, ids, p);
    KindIds(h[n].Keys, q, S);
  }

  lemma AbsentNone(h: History, n: nat, gone: seq<string>, p: Event -> bool)
    requires n < |h| && forall e: Event :: e.status == NotObserved ==> !p(e)
    ensures Filter(AbsentEvents(h, n, gone), p) == []
  {
    hide Prior, Filter;
    FilterNone(AbsentEvents(h, n, gone), p);
  }

  lemma KindIds(ids: set<string>, q: string -> bool, S: set<string>)
    requires forall id :: id in S <==> id in ids && q(id)
    ensures Filter(SortedSet(ids), q) == SortedSet(S)
  {
    hide *;
    FilterSortedSet(ids, q);
    assert (set id | id in ids && q(id)) == S;
  }

  lemma DepartureEvents(h: History, n: nat)
    requires n < |h|
    ensures Filter(EventsAt(h, n), (e: Event) => e.status == NotObserved) == AbsentEvents(h, n, SortedSet(Departed(h, n)))
  {
    var p := (e: Event) => e.status == NotObserved;
    var ids, gone := SortedSet(h[n].Keys), SortedSet(Departed(h, n));
    forall i | 0 <= i < |ids| ensures !p(PresentEvents(h, n, ids)[i]) {
      assert ids[i] in ids;
      PresentNames(h, n, ids[i]);
    }
    FilterAppend(PresentEvents(h, n, ids), AbsentEvents(h, n, gone), p);
    FilterNone(PresentEvents(h, n, ids), p);
    FilterAll(AbsentEvents(h, n, gone), p);
  }

  const ARRIVES := (e: Event) => e.status == FirstObserved || e.status == ObservedAgain
  const CHANGES := (e: Event) => e.status == Changed
  const STAYS := (e: Event) => e.status == Unchanged
  const LEAVES := (e: Event) => e.status == NotObserved

  /** The comparison's additions are the arrivals of the step, in order. */
  lemma AddedAreArrivals(h: History, n: nat)
    requires 0 < n < |h|
    ensures var arrivals := Filter(EventsAt(h, n), ARRIVES); var added := Compare(h[n - 1], h[n]).added;
            |arrivals| == |added| && forall i :: 0 <= i < |added| ==> arrivals[i].current == Some(added[i])
  {
    hide ChangedFields;
    var S := AddedIds(h[n - 1], h[n]);
    forall id ensures id in S <==> id in h[n] && ARRIVES(PresentEvent(h, n, id)) {
      if id in h[n] { StatusMeans(h, n, id); }
    }
    EventsOfKind(h, n, ARRIVES, S);
  }

  /** The comparison's omissions are the departures of the step, with their last records. */
  lemma OmittedAreDepartures(h: History, n: nat)
    requires 0 < n < |h|
    ensures var departures := Filter(EventsAt(h, n), LEAVES); var omitted := Compare(h[n - 1], h[n]).notObserved;
            |departures| == |omitted| &&
            forall i :: 0 <= i < |omitted| ==> departures[i].previousObservation == Some(Sighting(n, omitted[i]))
  {
    DepartureEvents(h, n);
    assert h[n - 1] == Previous(h, n);
    hide EventsAt, Filter, AbsentEvents, Departed, SortedSet, Prior;
    var gone := SortedSet(Departed(h, n));
    assert Compare(h[n - 1], h[n]).notObserved == Pick(h[n - 1], gone) by { OmittedIds(h, n); }
    forall i | 0 <= i < |gone| ensures gone[i] in h[n - 1] && Prior(h, n, gone[i]) == Some(Sighting(n, h[n - 1][gone[i]])) {
      SortedSetMember(Departed(h, n), i);
      DepartedPrior(h, n, gone[i]);
    }
    assert Filter(EventsAt(h, n), LEAVES) == AbsentEvents(h, n, gone);
  }

  lemma OmittedIds(h: History, n: nat)
    requires 0 < n < |h|
    ensures forall id :: id in SortedSet(Departed(h, n)) ==> id in h[n - 1]
    ensures Compare(h[n - 1], h[n]).notObserved == Pick(h[n - 1], SortedSet(Departed(h, n)))
  {
  }

  lemma DepartedPrior(h: History, n: nat, id: string)
    requires n < |h| && id in Departed(h, n)
    ensures n > 0 && id in h[n - 1] && Prior(h, n, id) == Some(Sighting(n, h[n - 1][id]))
  {
  }

  lemma SortedSetMember(s: set<string>, i: nat)
    requires i < |SortedSet(s)|
    ensures SortedSet(s)[i] in s
  {
    assert SortedSet(s)[i] in SortedSet(s);
  }

  lemma ChangedEvent(h: History, n: nat, id: string)
    requires 0 < n < |h| && id in DifferingIds(h[n - 1], h[n])
    ensures PresentEvent(h, n, id) == Event(id, Changed, Some(h[n][id]), Some(Sighting(n, h[n - 1][id])),
                                            ChangedFields(h[n - 1][id].claims, h[n][id].claims))
  {
    hide ChangedFields;
  }

  /** The comparison's changes are the changed events, with the same field lists and records. */
  lemma ChangesAreChangedEvents(h: History, n: nat)
    requires 0 < n < |h|
    ensures var changed := Filter(EventsAt(h, n), CHANGES); var changes := Compare(h[n - 1], h[n]).changes;
            |changed| == |changes| &&
            forall i :: 0 <= i < |changes| ==>
              changed[i] == Event(changes[i].assetId, Changed, Some(changes[i].current),
                                  Some(Sighting(n, changes[i].previous)), changes[i].changedFields)
  {
    hide ChangedFields;
    var S := DifferingIds(h[n - 1], h[n]);
    forall id ensures id in S <==> id in h[n] && CHANGES(PresentEvent(h, n, id)) {
    }
    EventsOfKind(h, n, CHANGES, S);
    hide PresentEvent, SortedSet;
    var ids := SortedSet(S);
    forall i | 0 <= i < |ids|
      ensures ids[i] in S
      ensures PresentEvent(h, n, ids[i]) == Event(ids[i], Changed, Some(h[n][ids[i]]), Some(Sighting(n, h[n - 1][ids[i]])),
                                                  ChangedFields(h[n - 1][ids[i]].claims, h[n][ids[i]].claims))
    {
      SortedSetMember(S, i);
      ChangedEvent(h, n, ids[i]);
    }
  }

  /** The comparison's unchanged identities are those of the unchanged events. */
  lemma UnchangedAreUnchangedEvents(h: History, n: nat)
    requires 0 < n < |h|
    ensures var stays := Filter(EventsAt(h, n), STAYS); var ids := Compare(h[n - 1], h[n]).unchangedAssetIds;
            |stays| == |ids| && forall i :: 0 <= i < |ids| ==> stays[i].assetId == ids[i]
  {
    hide ChangedFields;
    var S := AgreeingIds(h[n - 1], h[n]);
    forall id ensures id in S <==> id in h[n] && STAYS(PresentEvent(h, n, id)) {
    }
    EventsOfKind(h, n, STAYS, S);
  }

  /** Neighbouring batches of an accepted sequence can always be compared, on the same records. */
  lemma NeighboursComparable(batches: seq<Batch>, n: nat)
    requires AcceptedSequence(batches) && 0 < n < |batches|
    ensures Comparable(batches[n - 1].value, batches[n].value)
    ensures Compare(RecordsOf(batches[n - 1].value), RecordsOf(batches[n].value)) ==
            Compare(HistoryOf(batches)[n - 1], HistoryOf(batches)[n])
  {
    assert Follows(batches[n - 1], batches[n]) && GoodBatch(batches[n - 1]) && GoodBatch(batches[n]);
    hide Compare, RecordsOf, Recordable;
  }
}
