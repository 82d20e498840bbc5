/** What every run of store calls keeps, and what a reader finds afterwards. */
module EvidenceProperties {
  import opened Ordering
  import opened Texts
  import opened Models
  import opened AssetGraph
  import opened Ownership
  import opened Remediation
  import opened EvidenceStore

  // ---- the invariant of the database -------------------------------------------------------

  /** Every reference is valid, every uniqueness constraint holds, and stored copies agree. */
  ghost predicate Sound(t: Tables) {
    && SoundAssets(t.assets) && SoundObservations(t.assets, t.observations) && SoundFindings(t.assets, t.findings)
    && SoundDecisions(t.assets, t.decisions) && SoundPlans(t.findings, t.plans)
  }

  ghost predicate SoundAssets(assets: map<string, AssetRow>) {
    forall a :: a in assets ==> NonBlank(a) && assets[a].createdAt <= assets[a].updatedAt
  }

  ghost predicate SoundObservations(assets: map<string, AssetRow>, observations: map<string, ObservationRow>) {
    && (forall o :: o in observations ==> observations[o].assetId in assets && FaithfulObservation(observations[o]))
    && (forall o, p :: o in observations && p in observations && SameRow(observations[o], observations[p]) ==> o == p)
  }

  ghost predicate SoundFindings(assets: map<string, AssetRow>, findings: map<string, FindingRow>) {
    forall f :: f in findings ==> findings[f].assetId in assets && FaithfulFinding(findings[f]) && GoodEvidence(findings[f].columns)
  }

  ghost predicate SoundDecisions(assets: map<string, AssetRow>, decisions: map<string, DecisionRow>) {
    forall d :: d in decisions ==> decisions[d].assetId in assets && GoodDecision(decisions[d])
  }

  ghost predicate SoundPlans(findings: map<string, FindingRow>, plans: map<string, PlanRow>) {
    && (forall p :: p in plans ==> plans[p].findingId in findings && GoodPlan(plans[p]))
    && (forall p, q :: p in plans && q in plans && SameVersion(plans[p], plans[q]) ==> p == q)
  }

  predicate SameRow(x: ObservationRow, y: ObservationRow) {
    x.source == y.source && x.recordId == y.recordId
  }

  predicate SameVersion(x: PlanRow, y: PlanRow) {
    x.findingId == y.findingId && x.version == y.version
  }

  ghost predicate Keeps<V>(m: map<string, V>, n: map<string, V>) {
    forall k :: k in m ==> k in n && n[k] == m[k]
  }

  /** Evidence rows are only added; assets stay, with their creation time. */
  ghost predicate Grows(t: Tables, u: Tables) {
    && Keeps(t.observations, u.observations) && Keeps(t.findings, u.findings)
    && Keeps(t.decisions, u.decisions) && Keeps(t.plans, u.plans)
    && forall a :: a in t.assets ==> a in u.assets && u.assets[a].createdAt == t.assets[a].createdAt
  }

  lemma GrowsTransitive(t: Tables, u: Tables, v: Tables)
    requires Grows(t, u) && Grows(u, v)
    ensures Grows(t, v)
  {
  }

  // ---- single statements ---------------------------------------------------------------------

  lemma MoreAssets(t: Tables, assets: map<string, AssetRow>)
    requires Sound(t) && t.assets.Keys <= assets.Keys
    ensures SoundObservations(assets, t.observations) && SoundFindings(assets, t.findings) && SoundDecisions(assets, t.decisions)
  {
    hide GoodEvidence, GoodDecision, FaithfulObservation, FaithfulFinding, SameRow, SoundAssets, SoundPlans;
  }

  lemma AssetRowKeeps(t: Tables, id: string, row: AssetRow)
    requires Sound(t) && NonBlank(id) && row.createdAt <= row.updatedAt
    requires id in t.assets ==> row.createdAt == t.assets[id].createdAt
    ensures Sound(t.(assets := t.assets[id := row])) && Grows(t, t.(assets := t.assets[id := row]))
  {
    MoreAssets(t, t.assets[id := row]);
    assert SoundAssets(t.assets[id := row]) by { hide NonBlank; }
    hide SoundAssets, SoundObservations, SoundFindings, SoundDecisions, SoundPlans;
  }

  lemma UpdateAssetKeeps(t: Tables, id: string, row: AssetRow)
    requires Sound(t) && id in t.assets && row.createdAt == t.assets[id].createdAt <= row.updatedAt
    ensures Sound(t.(assets := t.assets[id := row])) && Grows(t, t.(assets := t.assets[id := row]))
  {
    assert NonBlank(id) by { hide NonBlank, SoundObservations, SoundFindings, SoundDecisions, SoundPlans; }
    hide *;
    AssetRowKeeps(t, id, row);
  }

  lemma UpsertKeeps(t: Tables, id: string, kinds: seq<string>, hostname: Option<string>, at: int)
    requires Sound(t)
    ensures var e := UpsertAsset(t, id, kinds, hostname, at); e.Some? ==> Sound(e.value) && Grows(t, e.value)
  {
    if id !in t.assets {
      InsertAssetKeeps(t, id, AssetRow(kinds, hostname, at, at));
    } else if at >= t.assets[id].createdAt {
      UpdateAssetKeeps(t, id, AssetRow(kinds, hostname, t.assets[id].createdAt, at));
    }
    hide Sound, Grows, InsertAsset;
  }

  lemma InsertAssetKeeps(t: Tables, id: string, row: AssetRow)
    requires Sound(t)
    ensures var e := InsertAsset(t, id, row); e.Some? ==> Sound(e.value) && Grows(t, e.value)
  {
    hide NonBlank, Sound, Grows;
    if InsertAsset(t, id, row).Some? { AssetRowKeeps(t, id, row); }
  }

  lemma ObservationKeeps(t: Tables, id: string, row: ObservationRow)
    requires Sound(t) && FaithfulObservation(row)
    ensures var e := InsertObservation(t, id, row); e.Some? ==> Sound(e.value) && Grows(t, e.value)
  {
    hide NonBlank, FaithfulObservation, SoundAssets, SoundFindings, SoundDecisions, SoundPlans;
  }

  lemma FindingKeeps(t: Tables, id: string, row: FindingRow)
    requires Sound(t) && FaithfulFinding(row)
    ensures var e := InsertFinding(t, id, row); e.Some? ==> Sound(e.value) && Grows(t, e.value)
  {
    hide NonBlank, GoodEvidence, GoodPlan, FaithfulFinding, SameVersion, SoundAssets, SoundObservations, SoundDecisions;
  }

  lemma DecisionKeeps(t: Tables, id: string, row: DecisionRow)
    requires Sound(t)
    ensures var e := InsertDecision(t, id, row); e.Some? ==> Sound(e.value) && Grows(t, e.value)
  {
    hide NonBlank, GoodDecision, SoundAssets, SoundObservations, SoundFindings, SoundPlans;
  }

  lemma PlanKeeps(t: Tables, id: string, row: PlanRow)
    requires Sound(t)
    ensures var e := InsertPlan(t, id, row); e.Some? ==> Sound(e.value) && Grows(t, e.value)
  {
    hide NonBlank, GoodPlan, SoundAssets, SoundObservations, SoundFindings, SoundDecisions;
  }

  // ---- whole calls -----------------------------------------------------------------------------

  lemma {:induction false} ObservationsKeep(digest: Digest, t: Tables, a: Asset, scope: Scope, at: int, n: nat)
    requires Sound(t) && n <= |a.observations|
    ensures var e := AddObservations(digest, t, a, scope, at, n); e.Some? ==> Sound(e.value) && Grows(t, e.value)
  {
    hide Sound, Grows, InsertObservation;
    if n == 0 {
      GrowsSelf(t);
    } else {
      ObservationsKeep(digest, t, a, scope, at, n - 1);
      var before := AddObservations(digest, t, a, scope, at, n - 1);
      var e := AddObservations(digest, t, a, scope, at, n);
      if e.Some? {
        var o := a.observations[n - 1];
        ObservationKeeps(before.value, ObservationId(digest, a.assetId, o.source, o.sourceRecordId), ObservationOf(a.assetId, o, scope, at));
        GrowsTransitive(t, before.value, e.value);
      }
    }
  }

  lemma GrowsSelf(t: Tables)
    ensures Grows(t, t)
  {
  }

  lemma {:induction false} InventoryKeeps(digest: Digest, t: Tables, batch: seq<Asset>, scope: Scope, at: int, n: nat)
    requires Sound(t) && n <= |batch|
    ensures var e := AddInventory(digest, t, batch, scope, at, n); e.Some? ==> Sound(e.value) && Grows(t, e.value)
  {
    hide Sound, Grows, InsertAsset, AddObservations, Strip;
    if n == 0 {
      GrowsSelf(t);
    } else {
      InventoryKeeps(digest, t, batch, scope, at, n - 1);
      var before := AddInventory(digest, t, batch, scope, at, n - 1);
      var e := AddInventory(digest, t, batch, scope, at, n);
      if e.Some? {
        var a := batch[n - 1];
        InsertAssetKeeps(before.value, Strip(a.assetId), AssetRow(a.kinds, FirstHostname(a), at, at));
        var withAsset := StoreAsset(before.value, a, at).value;
        ObservationsKeep(digest, withAsset, a, scope, at, |a.observations|);
        GrowsTransitive(before.value, withAsset, e.value);
        GrowsTransitive(t, before.value, e.value);
      }
    }
  }

  lemma DecisionsKeep(t: Tables, b: Bundle, findingTime: int)
    requires Sound(t)
    ensures var e := AddDecisions(t, b, findingTime); e.Some? ==> Sound(e.value) && Grows(t, e.value)
  {
    hide Sound, Grows, InsertFinding, InsertDecision, InsertPlan;
    var e := AddDecisions(t, b, findingTime);
    if e.Some? {
      FindingKeeps(t, b.findingId, FindingOf(b, findingTime));
      var t1 := InsertFinding(t, b.findingId, FindingOf(b, findingTime)).value;
      DecisionKeeps(t1, b.decisionId, DecisionOf(b));
      var t2 := InsertDecision(t1, b.decisionId, DecisionOf(b)).value;
      PlanKeeps(t2, b.planId, PlanRowOf(b));
      GrowsTransitive(t, t1, t2);
      GrowsTransitive(t, t2, e.value);
    }
  }

  lemma BundleKeeps(digest: Digest, t: Tables, b: Bundle)
    requires Sound(t)
    ensures var e := AddBundle(digest, t, b); e.Some? ==> Sound(e.value) && Grows(t, e.value)
  {
    hide Sound, Grows, UpsertAsset, AddObservations, AddDecisions, ValidBundle;
    var e := AddBundle(digest, t, b);
    if e.Some? {
      UpsertKeeps(t, b.asset.assetId, b.asset.kinds, FirstHostname(b.asset), b.createdAt);
      var t1 := UpsertAsset(t, b.asset.assetId, b.asset.kinds, FirstHostname(b.asset), b.createdAt).value;
      ObservationsKeep(digest, t1, b.asset, b.scope, b.observedAt, |b.asset.observations|);
      var t2 := AddObservations(digest, t1, b.asset, b.scope, b.observedAt, |b.asset.observations|).value;
      DecisionsKeep(t2, b, b.observedAt);
      GrowsTransitive(t, t1, t2);
      GrowsTransitive(t, t2, e.value);
    }
  }

  lemma {:induction false} AssessmentsKeep(t: Tables, bundles: seq<Bundle>, n: nat)
    requires Sound(t) && n <= |bundles|
    ensures var e := AddAssessments(t, bundles, n);
            e.Some? ==> Sound(e.value) && Grows(t, e.value) && e.value.assets == t.assets && e.value.observations == t.observations
  {
    hide Sound, Grows, AddDecisions, MatchesDiscovery;
    if n == 0 {
      GrowsSelf(t);
    } else {
      AssessmentsKeep(t, bundles, n - 1);
      var before := AddAssessments(t, bundles, n - 1);
      var e := AddAssessments(t, bundles, n);
      if e.Some? {
        var b := bundles[n - 1];
        DecisionsKeep(before.value, b, b.decidedAt);
        DecisionRows(before.value, b, b.decidedAt);
        GrowsTransitive(t, before.value, e.value);
      }
    }
  }

  /** What `_store_decisions` adds: one finding, one decision and one plan, and nothing else. */
  lemma DecisionRows(t: Tables, b: Bundle, findingTime: int)
    ensures var e := AddDecisions(t, b, findingTime);
            e.Some? ==>
              && e.value == Tables(t.assets, t.observations, t.findings[b.findingId := FindingOf(b, findingTime)],
                                   t.decisions[b.decisionId := DecisionOf(b)], t.plans[b.planId := PlanRowOf(b)])
              && b.findingId !in t.findings && b.decisionId !in t.decisions && b.planId !in t.plans
  {
  }

  // ---- runs -------------------------------------------------------------------------------------

  /** The database after a run of calls, each of which may raise. */
  function RunAll(digest: Digest, t: Tables, commands: seq<Command>): Tables {
    if commands == [] then t else After(digest, RunAll(digest, t, commands[..|commands| - 1]), commands[|commands| - 1])
  }

  /** One call keeps the database sound, only adds evidence, and, if it stores assessments, leaves
      discovery as it was. */
  lemma CallKeeps(digest: Digest, t: Tables, c: Command)
    requires Sound(t)
    ensures Sound(After(digest, t, c)) && Grows(t, After(digest, t, c))
    ensures c.StoreAssessments? ==>
              After(digest, t, c).assets == t.assets && After(digest, t, c).observations == t.observations
  {
    hide Sound, Grows, AddInventory, AddBundle, AddAssessments, ValidBundle;
    GrowsSelf(t);
    match c {
      case StoreInventory(batch, scope, at) => InventoryKeeps(digest, t, batch, scope, at, |batch|);
      case StoreBundle(b) => BundleKeeps(digest, t, b);
      case StoreAssessments(bundles) => AssessmentsKeep(t, bundles, |bundles|);
    }
  }

  /** Over any run from a sound database: references stay valid, evidence only grows, and creation
      times never change, between any two points of the run. */
  lemma {:induction false} RunKeeps(digest: Digest, t: Tables, commands: seq<Command>, n: nat)
    requires Sound(t) && n <= |commands|
    ensures Sound(RunAll(digest, t, commands))
    ensures Grows(RunAll(digest, t, commands[..n]), RunAll(digest, t, commands))
    decreases |commands|
  {
    hide Sound, Grows, After;
    if n == |commands| {
      assert commands[..n] == commands;
      GrowsSelf(RunAll(digest, t, commands));
      if commands != [] {
        RunKeeps(digest, t, commands[..n - 1], n - 1);
        CallKeeps(digest, RunAll(digest, t, commands[..n - 1]), commands[n - 1]);
      }
    } else {
      var m := |commands| - 1;
      RunKeeps(digest, t, commands[..m], n);
      assert commands[..m][..n] == commands[..n];
      CallKeeps(digest, RunAll(digest, t, commands[..m]), commands[m]);
      GrowsTransitive(RunAll(digest, t, commands[..n]), RunAll(digest, t, commands[..m]), RunAll(digest, t, commands));
    }
  }

  lemma EmptyIsSound()
    ensures Sound(EMPTY)
  {
  }

  // ---- what a committed bundle contains ---------------------------------------------------------

  function IdOfObservation(digest: Digest, a: Asset, i: nat): string
    requires i < |a.observations|
  {
    ObservationId(digest, a.assetId, a.observations[i].source, a.observations[i].sourceRecordId)
  }

  ghost predicate HasObservation(digest: Digest, m: map<string, ObservationRow>, a: Asset, scope: Scope, at: int, i: nat)
    requires i < |a.observations|
  {
    IdOfObservation(digest, a, i) in m && m[IdOfObservation(digest, a, i)] == ObservationOf(a.assetId, a.observations[i], scope, at)
  }

  ghost predicate NamesOneOf(digest: Digest, a: Asset, n: nat, id: string)
    requires n <= |a.observations|
  {
    exists i :: 0 <= i < n && id == IdOfObservation(digest, a, i)
  }

  /** `u` adds exactly the first `n` observations of the asset to `t`. */
  ghost predicate AddsObservations(digest: Digest, t: Tables, u: Tables, a: Asset, scope: Scope, at: int, n: nat)
    requires n <= |a.observations|
  {
    && u == t.(observations := u.observations)
    && Keeps(t.observations, u.observations)
    && |u.observations| == |t.observations| + n
    && (forall i :: 0 <= i < n ==> HasObservation(digest, u.observations, a, scope, at, i))
    && (forall o :: o in u.observations && o !in t.observations ==> NamesOneOf(digest, a, n, o))
  }

  lemma UpdateFacts(m: map<string, ObservationRow>, id: string, row: ObservationRow)
    requires id !in m
    ensures Keeps(m, m[id := row]) && |m[id := row]| == |m| + 1
  {
    assert m[id := row].Keys == m.Keys + {id};
  }

  lemma KeepsTransitive(a: map<string, ObservationRow>, b: map<string, ObservationRow>, c: map<string, ObservationRow>)
    requires Keeps(a, b) && Keeps(b, c)
    ensures Keeps(a, c)
  {
  }

  lemma ObservationKept(digest: Digest, m: map<string, ObservationRow>, more: map<string, ObservationRow>, a: Asset,
                        scope: Scope, at: int, i: nat)
    requires i < |a.observations| && Keeps(m, more) && HasObservation(digest, m, a, scope, at, i)
    ensures HasObservation(digest, more, a, scope, at, i)
  {
  }

  lemma NameKept(digest: Digest, a: Asset, n: nat, id: string)
    requires n < |a.observations|
    ensures NamesOneOf(digest, a, n + 1, id) <==> NamesOneOf(digest, a, n, id) || id == IdOfObservation(digest, a, n)
  {
    hide IdOfObservation;
  }

  lemma AddsOneMore(digest: Digest, t: Tables, u: Tables, a: Asset, scope: Scope, at: int, n: nat)
    requires n < |a.observations| && AddsObservations(digest, t, u, a, scope, at, n)
    ensures var e := InsertObservation(u, IdOfObservation(digest, a, n), ObservationOf(a.assetId, a.observations[n], scope, at));
            e.Some? ==> AddsObservations(digest, t, e.value, a, scope, at, n + 1)
  {
    var id, row := IdOfObservation(digest, a, n), ObservationOf(a.assetId, a.observations[n], scope, at);
    if InsertObservation(u, id, row).Some? {
      InsertedRow(u, id, row);
      AddsRow(digest, t, u, a, scope, at, n, id, row);
    }
  }

  lemma InsertedRow(u: Tables, id: string, row: ObservationRow)
    requires InsertObservation(u, id, row).Some?
    ensures id !in u.observations && InsertObservation(u, id, row).value == u.(observations := u.observations[id := row])
  {
    hide NonBlank, RowTaken;
  }

  lemma AddsRow(digest: Digest, t: Tables, u: Tables, a: Asset, scope: Scope, at: int, n: nat, id: string, row: ObservationRow)
    requires n < |a.observations| && AddsObservations(digest, t, u, a, scope, at, n)
    requires id == IdOfObservation(digest, a, n) && row == ObservationOf(a.assetId, a.observations[n], scope, at)
    requires id !in u.observations
    ensures AddsObservations(digest, t, u.(observations := u.observations[id := row]), a, scope, at, n + 1)
  {
    var m, more := u.observations, u.observations[id := row];
    UpdateFacts(m, id, row);
    assert HasObservation(digest, more, a, scope, at, n);
    hide HasObservation, NamesOneOf, IdOfObservation, ObservationOf, Keeps;
    KeepsTransitive(t.observations, m, more);
    ObservationsKept(digest, m, more, a, scope, at, n);
    NamesKept(digest, a, n, t.observations, m, id, row);
  }

  lemma ObservationsKept(digest: Digest, m: map<string, ObservationRow>, more: map<string, ObservationRow>, a: Asset,
                         scope: Scope, at: int, n: nat)
    requires n < |a.observations| && Keeps(m, more) && HasObservation(digest, more, a, scope, at, n)
    requires forall i :: 0 <= i < n ==> HasObservation(digest, m, a, scope, at, i)
    ensures forall i :: 0 <= i < n + 1 ==> HasObservation(digest, more, a, scope, at, i)
  {
    hide HasObservation, Keeps;
    forall i | 0 <= i < n ensures HasObservation(digest, more, a, scope, at, i) {
      ObservationKept(digest, m, more, a, scope, at, i);
    }
  }

  lemma NamesKept(digest: Digest, a: Asset, n: nat, before: map<string, ObservationRow>, m: map<string, ObservationRow>,
                  id: string, row: ObservationRow)
    requires n < |a.observations| && id == IdOfObservation(digest, a, n)
    requires forall o :: o in m && o !in before ==> NamesOneOf(digest, a, n, o)
    ensures forall o :: o in m[id := row] && o !in before ==> NamesOneOf(digest, a, n + 1, o)
  {
    hide NamesOneOf, IdOfObservation;
    forall o | o in m[id := row] && o !in before ensures NamesOneOf(digest, a, n + 1, o) {
      NameKept(digest, a, n, o);
    }
  }

  lemma {:induction false} ObservationsAdded(digest: Digest, t: Tables, a: Asset, scope: Scope, at: int, n: nat)
    requires n <= |a.observations|
    ensures var e := AddObservations(digest, t, a, scope, at, n);
            e.Some? ==> AddsObservations(digest, t, e.value, a, scope, at, n)
  {
    hide AddsObservations, InsertObservation;
    if n == 0 {
      AddsNothing(digest, t, a, scope, at);
    } else {
      ObservationsAdded(digest, t, a, scope, at, n - 1);
      var before := AddObservations(digest, t, a, scope, at, n - 1);
      if before.Some? {
        AddsOneMore(digest, t, before.value, a, scope, at, n - 1);
      }
    }
  }

  lemma AddsNothing(digest: Digest, t: Tables, a: Asset, scope: Scope, at: int)
    ensures AddsObservations(digest, t, t, a, scope, at, 0)
  {
  }

  /** A committed bundle adds each of its observations once, its finding, its decision and its plan,
      and rewrites only its own asset row. */
  ghost predicate CommitsBundle(digest: Digest, t: Tables, u: Tables, b: Bundle) {
    && (exists v :: AddsObservations(digest, t, v, b.asset, b.scope, b.observedAt, |b.asset.observations|)
          && u.observations == v.observations)
    && u.findings == t.findings[b.findingId := FindingOf(b, b.observedAt)] && b.findingId !in t.findings
    && u.decisions == t.decisions[b.decisionId := DecisionOf(b)] && b.decisionId !in t.decisions
    && u.plans == t.plans[b.planId := PlanRowOf(b)] && b.planId !in t.plans
    && b.asset.assetId in u.assets
    && u.assets == t.assets[b.asset.assetId := u.assets[b.asset.assetId]]
    && u.assets[b.asset.assetId].kinds == b.asset.kinds && u.assets[b.asset.assetId].hostname == FirstHostname(b.asset)
    && u.assets[b.asset.assetId].updatedAt == b.createdAt
  }

  lemma BundleCommitsAll(digest: Digest, t: Tables, b: Bundle)
    requires AddBundle(digest, t, b).Some?
    ensures CommitsBundle(digest, t, AddBundle(digest, t, b).value, b)
  {
    hide AddObservations, AddDecisions, ValidBundle, NonBlank, AddsObservations;
    var t1 := UpsertAsset(t, b.asset.assetId, b.asset.kinds, FirstHostname(b.asset), b.createdAt).value;
    ObservationsAdded(digest, t1, b.asset, b.scope, b.observedAt, |b.asset.observations|);
    var t2 := AddObservations(digest, t1, b.asset, b.scope, b.observedAt, |b.asset.observations|).value;
    AddsElsewhere(digest, t1, t2, t, b.asset, b.scope, b.observedAt, |b.asset.observations|);
    AddsShape(digest, t1, t2, b.asset, b.scope, b.observedAt, |b.asset.observations|);
    DecisionRows(t2, b, b.observedAt);
  }

  lemma AddsShape(digest: Digest, t: Tables, u: Tables, a: Asset, scope: Scope, at: int, n: nat)
    requires n <= |a.observations| && AddsObservations(digest, t, u, a, scope, at, n)
    ensures u == t.(observations := u.observations)
  {
  }

  lemma AddsElsewhere(digest: Digest, t: Tables, u: Tables, s: Tables, a: Asset, scope: Scope, at: int, n: nat)
    requires n <= |a.observations| && AddsObservations(digest, t, u, a, scope, at, n) && s.observations == t.observations
    ensures AddsObservations(digest, s, s.(observations := u.observations), a, scope, at, n)
  {
  }

  // ---- reading back ---------------------------------------------------------------------------------

  /** A snapshot of an asset lists exactly the rows linked to it. */
  ghost predicate ListsLinkedRows(t: Tables, id: string, s: Snapshot) {
    && id in t.assets && s.asset == t.assets[id]
    && (forall o :: o in s.observations <==> o in t.observations && t.observations[o].assetId == id)
    && (forall f :: f in s.findings <==> f in t.findings && t.findings[f].assetId == id)
    && (forall d :: d in s.decisions <==> d in t.decisions && t.decisions[d].assetId == id)
    && (forall p :: p in s.plans <==> p in t.plans && t.plans[p].findingId in s.findings)
    && NoDup(s.observations) && NoDup(s.findings) && NoDup(s.decisions) && NoDup(s.plans)
  }

  lemma ArrangeNoDup(ids: set<string>, le: (string, string) -> bool)
    ensures NoDup(Arrange(ids, le))
  {
    SortPermutes(SortedSet(ids), le);
    NoDupPermutation(SortedSet(ids), Sort(SortedSet(ids), le));
  }

  /** Whatever a read returns lists the rows linked to the stripped id, each once. */
  lemma ReadListsLinkedRows(t: Tables, id: string, requireDecisions: bool)
    ensures var r := Read(t, id, requireDecisions); r.Ok? ==> ListsLinkedRows(t, Strip(id), r.value)
  {
    hide Strip, ReadStripped, ListsLinkedRows;
    StrippedReadLists(t, Strip(id), requireDecisions);
  }

  lemma StrippedReadLists(t: Tables, id: string, requireDecisions: bool)
    ensures var r := ReadStripped(t, id, requireDecisions); r.Ok? ==> ListsLinkedRows(t, id, r.value)
  {
    OrdersList(t, id);
    hide *;
    ReadMeans(t, id, requireDecisions);
    var r := ReadStripped(t, id, requireDecisions);
    if r.Ok? { ListsMeans(t, id, r.value); }
  }

  lemma OrdersList(t: Tables, id: string)
    ensures forall o :: o in ObservationOrder(t, id) <==> o in t.observations && t.observations[o].assetId == id
    ensures forall f :: f in FindingOrder(t, id) <==> f in t.findings && t.findings[f].assetId == id
    ensures forall d :: d in DecisionOrder(t, id) <==> d in t.decisions && t.decisions[d].assetId == id
    ensures forall p :: p in PlanOrder(t, id) <==> p in t.plans && t.plans[p].findingId in FindingOrder(t, id)
    ensures NoDup(ObservationOrder(t, id)) && NoDup(FindingOrder(t, id)) && NoDup(DecisionOrder(t, id)) && NoDup(PlanOrder(t, id))
  {
    hide Arrange, KeyLe, PlanLe, NoDup;
    ArrangeNoDup(ObservationIds(t, id), KeyLe((o: string) => if o in t.observations then t.observations[o].observedAt else 0));
    ArrangeNoDup(FindingIds(t, id), KeyLe((f: string) => if f in t.findings then t.findings[f].observedAt else 0));
    ArrangeNoDup(DecisionIds(t, id), KeyLe((d: string) => if d in t.decisions then t.decisions[d].decidedAt else 0));
    ArrangeNoDup(PlanIds(t, id), PlanLe(t));
  }

  lemma ReadMeans(t: Tables, id: string, requireDecisions: bool)
    ensures var r := ReadStripped(t, id, requireDecisions);
            r.Ok? ==> (id in t.assets && r.value ==
              Snapshot(t.assets[id], ObservationOrder(t, id), FindingOrder(t, id), DecisionOrder(t, id), PlanOrder(t, id)))
  {
    hide ObservationOrder, FindingOrder, DecisionOrder, PlanOrder, NonBlank, FaithfulRows;
  }

  lemma ListsMeans(t: Tables, id: string, s: Snapshot)
    ensures ListsLinkedRows(t, id, s) <==>
              && id in t.assets && s.asset == t.assets[id]
              && (forall o :: o in s.observations <==> o in t.observations && t.observations[o].assetId == id)
              && (forall f :: f in s.findings <==> f in t.findings && t.findings[f].assetId == id)
              && (forall d :: d in s.decisions <==> d in t.decisions && t.decisions[d].assetId == id)
              && (forall p :: p in s.plans <==> p in t.plans && t.plans[p].findingId in s.findings)
              && NoDup(s.observations) && NoDup(s.findings) && NoDup(s.decisions) && NoDup(s.plans)
  {
  }

  /** In a sound database a read fails only for a missing asset or a missing section. */
  lemma SoundReads(t: Tables, id: string, requireDecisions: bool)
    requires Sound(t)
    ensures Read(t, id, requireDecisions).Ok? <==>
              && Strip(id) in t.assets && ObservationOrder(t, Strip(id)) != []
              && (requireDecisions ==>
                    FindingOrder(t, Strip(id)) != [] && DecisionOrder(t, Strip(id)) != [] && PlanOrder(t, Strip(id)) != [])
  {
    hide Strip, ReadStripped, Sound, ObservationOrder, FindingOrder, DecisionOrder, PlanOrder;
    StrippedReads(t, Strip(id), requireDecisions);
  }

  lemma StrippedReads(t: Tables, id: string, requireDecisions: bool)
    requires Sound(t)
    ensures ReadStripped(t, id, requireDecisions).Ok? <==>
              && id in t.assets && ObservationOrder(t, id) != []
              && (requireDecisions ==> FindingOrder(t, id) != [] && DecisionOrder(t, id) != [] && PlanOrder(t, id) != [])
  {
    SoundIdsNonBlank(t);
    SoundRowsFaithful(t, ObservationOrder(t, id), FindingOrder(t, id));
    hide Sound, FaithfulRows, ObservationOrder, FindingOrder, DecisionOrder, PlanOrder;
  }

  lemma SoundIdsNonBlank(t: Tables)
    requires Sound(t)
    ensures "" !in t.assets
  {
    assert !NonBlank("");
  }

  lemma SoundRowsFaithful(t: Tables, observed: seq<string>, found: seq<string>)
    requires Sound(t)
    requires forall i :: 0 <= i < |observed| ==> observed[i] in t.observations
    requires forall i :: 0 <= i < |found| ==> found[i] in t.findings
    ensures FaithfulRows(t, observed, found)
  {
    hide NonBlank, GoodEvidence, GoodDecision, GoodPlan, FaithfulObservation, FaithfulFinding, SameRow, SameVersion;
  }

  // ---- reading a bundle back ---------------------------------------------------------------------------

  /** The rows of a committed bundle are stored and linked to its asset id as supplied. */
  ghost predicate HoldsBundle(digest: Digest, t: Tables, b: Bundle) {
    && b.asset.assetId in t.assets && b.asset.observations != []
    && b.findingId in t.findings && t.findings[b.findingId].assetId == b.asset.assetId
    && b.decisionId in t.decisions && t.decisions[b.decisionId].assetId == b.asset.assetId
    && b.planId in t.plans && t.plans[b.planId].findingId == b.findingId
    && forall i :: 0 <= i < |b.asset.observations| ==> HoldsObservation(digest, t, b.asset, i)
  }

  ghost predicate HoldsObservation(digest: Digest, t: Tables, a: Asset, i: nat)
    requires i < |a.observations|
  {
    IdOfObservation(digest, a, i) in t.observations && t.observations[IdOfObservation(digest, a, i)].assetId == a.assetId
  }

  /** Reading the asset id as supplied returns the rows linked to it, the bundle's own among them. */
  ghost predicate ReadsBack(digest: Digest, t: Tables, b: Bundle) {
    var r := Read(t, b.asset.assetId, true);
    && r.Ok? && ListsLinkedRows(t, b.asset.assetId, r.value)
    && b.findingId in r.value.findings && b.decisionId in r.value.decisions && b.planId in r.value.plans
    && forall i :: 0 <= i < |b.asset.observations| ==> IdOfObservation(digest, b.asset, i) in r.value.observations
  }

  lemma HeldSectionsFilled(digest: Digest, t: Tables, b: Bundle)
    requires HoldsBundle(digest, t, b)
    ensures var id := b.asset.assetId;
            ObservationOrder(t, id) != [] && FindingOrder(t, id) != [] && DecisionOrder(t, id) != [] && PlanOrder(t, id) != []
  {
    var id := b.asset.assetId;
    assert HoldsObservation(digest, t, b.asset, 0);
    assert IdOfObservation(digest, b.asset, 0) in ObservationIds(t, id);
    assert b.findingId in FindingIds(t, id) && b.decisionId in DecisionIds(t, id) && b.planId in PlanIds(t, id);
    hide ObservationIds, FindingIds, DecisionIds, PlanIds, HoldsBundle, HoldsObservation, IdOfObservation, KeyLe, PlanLe;
    assert b.findingId in FindingOrder(t, id) && b.decisionId in DecisionOrder(t, id) && b.planId in PlanOrder(t, id);
    assert IdOfObservation(digest, b.asset, 0) in ObservationOrder(t, id);
  }

  lemma HeldRowsListed(digest: Digest, t: Tables, b: Bundle, s: Snapshot)
    requires HoldsBundle(digest, t, b) && ListsLinkedRows(t, b.asset.assetId, s)
    ensures b.findingId in s.findings && b.decisionId in s.decisions && b.planId in s.plans
    ensures forall i :: 0 <= i < |b.asset.observations| ==> IdOfObservation(digest, b.asset, i) in s.observations
  {
    hide IdOfObservation, NoDup;
    forall i | 0 <= i < |b.asset.observations| ensures IdOfObservation(digest, b.asset, i) in s.observations {
      assert HoldsObservation(digest, t, b.asset, i);
    }
  }

  /** In a sound database a held bundle reads back exactly when its asset id has no white space at
      its ends: the reader strips the id it is given, the writer does not. */
  lemma HeldBundleReads(digest: Digest, t: Tables, b: Bundle)
    requires Sound(t) && HoldsBundle(digest, t, b)
    ensures ReadsBack(digest, t, b) <==> Stripped(b.asset.assetId)
    ensures Strip(b.asset.assetId) !in t.assets ==> Read(t, b.asset.assetId, true).Rejected?
  {
    var id := b.asset.assetId;
    StripMeans(id);
    SoundReads(t, id, true);
    ReadListsLinkedRows(t, id, true);
    HeldSectionsFilled(digest, t, b);
    var r := Read(t, id, true);
    if Stripped(id) {
      HeldRowsListed(digest, t, b, r.value);
    } else if r.Ok? {
      OneAssetPerFinding(t, id, Strip(id), b.findingId, r.value);
    }
    hide Sound, HoldsBundle, ListsLinkedRows, Read, Strip, Stripped, ObservationOrder, FindingOrder, DecisionOrder, PlanOrder, IdOfObservation;
  }

  lemma OneAssetPerFinding(t: Tables, id: string, other: string, findingId: string, s: Snapshot)
    requires id != other && findingId in t.findings && t.findings[findingId].assetId == id && ListsLinkedRows(t, other, s)
    ensures findingId !in s.findings
  {
  }

  lemma CommittedBundleHeld(digest: Digest, t: Tables, b: Bundle)
    requires AddBundle(digest, t, b).Some?
    ensures HoldsBundle(digest, AddBundle(digest, t, b).value, b)
  {
    BundleCommitsAll(digest, t, b);
    CommittedRows(digest, t, AddBundle(digest, t, b).value, b);
    ValidFacts(digest, t, b);
    hide AddBundle, CommitsBundle, IdOfObservation;
  }

  /** After a successful `store_bundle` the asset reads back, with every row linked to it and the
      bundle's own among them, exactly when its id has no white space at its ends. */
  lemma StoredBundleReads(digest: Digest, t: Tables, b: Bundle)
    requires Sound(t) && AddBundle(digest, t, b).Some?
    ensures var u := AddBundle(digest, t, b).value;
            && (ReadsBack(digest, u, b) <==> Stripped(b.asset.assetId))
            && (Strip(b.asset.assetId) !in u.assets ==> Read(u, b.asset.assetId, true).Rejected?)
  {
    hide *;
    BundleKeeps(digest, t, b);
    CommittedBundleHeld(digest, t, b);
    HeldBundleReads(digest, AddBundle(digest, t, b).value, b);
  }

  const SPACED_ROW := Observation("s", "r", "server", None, [], None, None, None, map[])
  const SPACED_RISK := RiskAssessment("f", " a", 0, Low)
  const SPACED_BUNDLE := Bundle(
    Asset(" a", [], [], [], [], [], [SPACED_ROW]), "f", " a",
    Evidence("s", "d", "low", "internal", "none", "effective", "low"),
    Resolution(Unmatched, None, [], []), "e",
    PlanOf(SPACED_RISK, None, 0, 0, None), Owned, 0, "d", 0, "p", 1, 0)

  lemma FirstCharGiven(text: string)
    requires text != "" && !IsSpace(text[0]) && text[0] != '\0'
    ensures Given(text) && NonBlank(text)
  {
    StripLeftEnds(text);
    StripMeans(text);
    assert StripLeft(text) == text;
    if Strip(text) == "" { SpaceOnly(text); }
  }

  lemma {:induction false} SpaceOnly(text: string)
    requires StripRight(text) == "" && text != ""
    ensures IsSpace(text[0])
  {
    hide IsSpace;
    if |text| > 1 { SpaceOnly(text[..|text| - 1]); }
  }

  lemma SpacedStrip()
    ensures Strip(" a") == "a" && Given(" a") && NonBlank(" a")
  {
    assert " a"[1..] == "a";
    assert StripLeft(" a") == StripLeft("a") == "a";
    assert " a"[0] == ' ' && " a"[1] == 'a';
  }

  lemma SpacedObservationStored(digest: Digest, t: Tables)
    requires " a" in t.assets && t.observations == map[]
    ensures var e := AddObservations(digest, t, SPACED_BUNDLE.asset, Owned, 0, 1);
            e.Some? && e.value == t.(observations := e.value.observations)
  {
    FirstCharGiven("s");
    FirstCharGiven("r");
    var id := ObservationId(digest, " a", "s", "r");
    assert id[0] == 'o';
    FirstCharGiven(id);
    hide ObservationId, NonBlank, Given;
    assert AddObservations(digest, t, SPACED_BUNDLE.asset, Owned, 0, 0) == Some(t);
  }

  lemma SpacedRowsGood()
    ensures GoodEvidence(SPACED_BUNDLE.evidence) && GoodDecision(DecisionOf(SPACED_BUNDLE)) && GoodPlan(PlanRowOf(SPACED_BUNDLE))
    ensures NonBlank("f") && NonBlank("d") && NonBlank("p")
  {
    FirstCharGiven("s");
    FirstCharGiven("d");
    FirstCharGiven("e");
    FirstCharGiven("f");
    FirstCharGiven("p");
    hide NonBlank, Given;
  }

  lemma SpacedDecisionsStored(t: Tables)
    requires " a" in t.assets && t.findings == map[] && t.decisions == map[] && t.plans == map[]
    ensures AddDecisions(t, SPACED_BUNDLE, 0).Some?
  {
    SpacedRowsGood();
    hide NonBlank, Given, GoodEvidence, GoodDecision, GoodPlan, PlanOf;
  }

  lemma SpacedBundleValid()
    ensures ValidBundle(SPACED_BUNDLE)
  {
    SpacedStrip();
    FirstCharGiven("f");
    FirstCharGiven("d");
    FirstCharGiven("p");
    hide NonBlank, Given;
  }

  lemma SpacedBundleCommits(digest: Digest)
    ensures AddBundle(digest, EMPTY, SPACED_BUNDLE).Some?
  {
    SpacedStrip();
    SpacedBundleValid();
    hide NonBlank, Given, AddObservations, AddDecisions, ValidBundle, PlanOf;
    var b := SPACED_BUNDLE;
    var t := UpsertAsset(EMPTY, " a", [], None, 0).value;
    SpacedObservationStored(digest, t);
    SpacedDecisionsStored(AddObservations(digest, t, b.asset, Owned, 0, 1).value);
  }

  lemma OnlyItsAsset(digest: Digest, t: Tables, b: Bundle, id: string)
    requires AddBundle(digest, t, b).Some? && id != b.asset.assetId && id !in t.assets
    ensures id !in AddBundle(digest, t, b).value.assets
  {
    BundleCommitsAll(digest, t, b);
    hide AddBundle, AddsObservations;
  }

  /** A bundle whose asset id starts with a space commits and cannot be read back. */
  lemma SpacedBundleLost(digest: Digest)
    ensures AddBundle(digest, EMPTY, SPACED_BUNDLE).Some?
    ensures Read(AddBundle(digest, EMPTY, SPACED_BUNDLE).value, " a", true).Rejected?
  {
    SpacedBundleCommits(digest);
    SpacedStrip();
    EmptyIsSound();
    assert SPACED_BUNDLE.asset.assetId == " a" && "a" !in EMPTY.assets;
    hide *;
    OnlyItsAsset(digest, EMPTY, SPACED_BUNDLE, "a");
    StoredBundleReads(digest, EMPTY, SPACED_BUNDLE);
  }

  lemma HeldBundleKept(digest: Digest, t: Tables, u: Tables, b: Bundle)
    requires HoldsBundle(digest, t, b) && Grows(t, u)
    ensures HoldsBundle(digest, u, b)
  {
    hide IdOfObservation;
    forall i | 0 <= i < |b.asset.observations| ensures HoldsObservation(digest, u, b.asset, i) {
      assert HoldsObservation(digest, t, b.asset, i);
    }
  }

  lemma {:induction false} RunFrom(digest: Digest, t: Tables, before: seq<Command>, after: seq<Command>)
    ensures RunAll(digest, t, before + after) == RunAll(digest, RunAll(digest, t, before), after)
  {
    hide After;
    if after == [] {
      assert before + after == before;
    } else {
      var m := |after| - 1;
      RunFrom(digest, t, before, after[..m]);
      assert (before + after)[..|before| + m] == before + after[..m];
    }
  }

  /** In any run from the empty database a committed bundle reads back after every later call,
      exactly when its asset id has no white space at its ends. */
  lemma BundleStaysReadable(digest: Digest, before: seq<Command>, b: Bundle, after: seq<Command>)
    requires AddBundle(digest, RunAll(digest, EMPTY, before), b).Some?
    ensures var t := RunAll(digest, EMPTY, before + [StoreBundle(b)] + after);
            Sound(t) && (ReadsBack(digest, t, b) <==> Stripped(b.asset.assetId))
  {
    hide *;
    EmptyIsSound();
    var s := RunAll(digest, EMPTY, before);
    var u := AddBundle(digest, s, b).value;
    RunOneMore(digest, EMPTY, before, b);
    RunKeeps(digest, EMPTY, before, 0);
    BundleKeeps(digest, s, b);
    CommittedBundleHeld(digest, s, b);
    RunFrom(digest, EMPTY, before + [StoreBundle(b)], after);
    RunKeeps(digest, u, after, 0);
    var t := RunAll(digest, u, after);
    assert Grows(u, t) by { RunOfNone(digest, u, after); }
    HeldBundleKept(digest, u, t, b);
    HeldBundleReads(digest, t, b);
  }

  lemma RunOneMore(digest: Digest, t: Tables, before: seq<Command>, b: Bundle)
    requires AddBundle(digest, RunAll(digest, t, before), b).Some?
    ensures RunAll(digest, t, before + [StoreBundle(b)]) == AddBundle(digest, RunAll(digest, t, before), b).value
  {
    hide AddBundle;
    assert (before + [StoreBundle(b)])[..|before|] == before;
  }

  lemma RunOfNone(digest: Digest, t: Tables, commands: seq<Command>)
    ensures RunAll(digest, t, commands[..0]) == t
  {
  }

  lemma ValidFacts(digest: Digest, t: Tables, b: Bundle)
    requires AddBundle(digest, t, b).Some?
    ensures b.findingAsset == b.asset.assetId && b.asset.observations != []
  {
    hide NonBlank;
  }

  lemma CommittedRows(digest: Digest, t: Tables, u: Tables, b: Bundle)
    requires CommitsBundle(digest, t, u, b)
    ensures b.asset.assetId in u.assets
    ensures b.findingId in u.findings && u.findings[b.findingId].assetId == b.findingAsset
    ensures b.decisionId in u.decisions && u.decisions[b.decisionId].assetId == b.asset.assetId
    ensures b.planId in u.plans && u.plans[b.planId].findingId == b.findingId
    ensures forall i :: 0 <= i < |b.asset.observations| ==>
              IdOfObservation(digest, b.asset, i) in u.observations
              && u.observations[IdOfObservation(digest, b.asset, i)].assetId == b.asset.assetId
  {
    hide IdOfObservation;
    var v :| AddsObservations(digest, t, v, b.asset, b.scope, b.observedAt, |b.asset.observations|) && u.observations == v.observations;
    forall i | 0 <= i < |b.asset.observations|
      ensures IdOfObservation(digest, b.asset, i) in u.observations
      ensures u.observations[IdOfObservation(digest, b.asset, i)].assetId == b.asset.assetId
    {
      assert HasObservation(digest, v.observations, b.asset, b.scope, b.observedAt, i);
    }
  }
}
