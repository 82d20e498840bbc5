/** The evidence database: its tables and constraints, the transactional writers of
    `EvidenceRepository`, and the linked snapshot that `EvidenceReader` reconstructs.
 */
module EvidenceStore {
  import opened Ordering
  import opened Texts
  import opened Models
  import opened AssetGraph
  import opened Ownership
  import opened Remediation

  datatype Scope = Synthetic | Owned | Authorized

  datatype AssetRow = AssetRow(kinds: seq<string>, hostname: Option<string>, createdAt: int, updatedAt: int)

  /** `payload` is the stored JSON object. */
  datatype ObservationRow = ObservationRow(
    assetId: string, source: string, recordId: string, scope: Scope, observedAt: int, payload: Observation)

  /** The scoring inputs of a finding. */
  datatype Evidence = Evidence(
    source: string, description: string, severity: string, exposure: string,
    exploitEvidence: string, controlState: string, identityConfidence: string)

  /** The columns of a finding and the same fields stored once more as JSON. */
  datatype FindingRow = FindingRow(assetId: string, columns: Evidence, json: Evidence, observedAt: int)

  datatype DecisionRow = DecisionRow(assetId: string, resolution: Resolution, explanation: string, decidedAt: int)

  datatype PlanRow = PlanRow(findingId: string, version: int, plan: Plan, createdAt: int)

  datatype Tables = Tables(
    assets: map<string, AssetRow>,
    observations: map<string, ObservationRow>,
    findings: map<string, FindingRow>,
    decisions: map<string, DecisionRow>,
    plans: map<string, PlanRow>)

  const EMPTY := Tables(map[], map[], map[], map[], map[])

  /** `length(trim(value)) > 0`: `trim` removes spaces, and `length` stops at the first NUL. */
  predicate NonBlank(value: string) {
    exists i :: 0 <= i < |value| && value[i] != ' ' && value[i] != '\0' && forall j :: 0 <= j < i ==> value[j] == ' '
  }

  /** `_text` raises for anything else. */
  predicate Given(value: string) {
    Strip(value) != ""
  }

  // ---- single statements under the schema's constraints ---------------------------------------

  function InsertAsset(t: Tables, id: string, row: AssetRow): Option<Tables> {
    if id in t.assets || !NonBlank(id) || row.updatedAt < row.createdAt then None
    else Some(t.(assets := t.assets[id := row]))
  }

  /** `INSERT ... ON CONFLICT(asset_id) DO UPDATE`, which keeps the creation time. */
  function UpsertAsset(t: Tables, id: string, kinds: seq<string>, hostname: Option<string>, at: int): Option<Tables> {
    if id !in t.assets then InsertAsset(t, id, AssetRow(kinds, hostname, at, at))
    else if at < t.assets[id].createdAt then None
    else Some(t.(assets := t.assets[id := AssetRow(kinds, hostname, t.assets[id].createdAt, at)]))
  }

  predicate RowTaken(t: Tables, source: string, recordId: string) {
    exists o :: o in t.observations && t.observations[o].source == source && t.observations[o].recordId == recordId
  }

  function InsertObservation(t: Tables, id: string, row: ObservationRow): Option<Tables> {
    if id in t.observations || row.assetId !in t.assets || RowTaken(t, row.source, row.recordId)
       || !NonBlank(id) || !NonBlank(row.source) || !NonBlank(row.recordId) then None
    else Some(t.(observations := t.observations[id := row]))
  }

  /** The CHECK constraints on the scoring columns. */
  predicate GoodEvidence(e: Evidence) {
    && e.severity in {"low", "medium", "high", "critical"}
    && e.exposure in {"internal", "limited", "internet"}
    && e.exploitEvidence in {"none", "proof-of-concept", "observed"}
    && e.controlState in {"effective", "unknown", "missing"}
    && e.identityConfidence in {"low", "medium", "high"}
    && NonBlank(e.source) && NonBlank(e.description)
  }

  function InsertFinding(t: Tables, id: string, row: FindingRow): Option<Tables> {
    if id in t.findings || row.assetId !in t.assets || !NonBlank(id) || !GoodEvidence(row.columns) then None
    else Some(t.(findings := t.findings[id := row]))
  }

  predicate GoodDecision(row: DecisionRow) {
    && NonBlank(row.explanation)
    && if row.resolution.status == Resolved then row.resolution.teamId.Some? && NonBlank(row.resolution.teamId.value)
       else row.resolution.teamId.None?
  }

  function InsertDecision(t: Tables, id: string, row: DecisionRow): Option<Tables> {
    if id in t.decisions || row.assetId !in t.assets || !NonBlank(id) || !GoodDecision(row) then None
    else Some(t.(decisions := t.decisions[id := row]))
  }

  predicate GoodPlan(row: PlanRow) {
    row.version >= 1 && row.plan.priority <= 3 && row.plan.openedOn <= row.plan.dueDate && row.plan.risk.score <= 100
  }

  predicate VersionTaken(t: Tables, findingId: string, version: int) {
    exists p :: p in t.plans && t.plans[p].findingId == findingId && t.plans[p].version == version
  }

  function InsertPlan(t: Tables, id: string, row: PlanRow): Option<Tables> {
    if id in t.plans || row.findingId !in t.findings || VersionTaken(t, row.findingId, row.version)
       || !NonBlank(id) || !GoodPlan(row) then None
    else Some(t.(plans := t.plans[id := row]))
  }

  // ---- what a store call writes ------------------------------------------------------------------

  datatype Bundle = Bundle(
    asset: Asset,
    findingId: string,
    findingAsset: string,
    evidence: Evidence,
    ownership: Resolution,
    explanation: string,
    plan: Plan,
    scope: Scope,
    observedAt: int,
    decisionId: string,
    decidedAt: int,
    planId: string,
    planVersion: int,
    createdAt: int)

  /** `EvidenceBundle.validate` */
  predicate ValidBundle(b: Bundle) {
    && Given(b.asset.assetId) && Given(b.findingId) && Given(b.decisionId) && Given(b.planId)
    && b.planVersion >= 1
    && b.asset.observations != []
    && b.findingAsset == b.asset.assetId && b.plan.assetId == b.asset.assetId && b.plan.findingId == b.findingId
    && b.plan.risk.assetId == b.asset.assetId && b.plan.risk.findingId == b.findingId
    && if b.ownership.status == Resolved then b.ownership.teamId.Some? && b.plan.owner == b.ownership.teamId
       else b.plan.owner.None?
  }

  type Digest = string -> string

  /** `_observation_id`: a digest of asset, source and record id, joined by NUL. */
  function ObservationId(digest: Digest, assetId: string, source: string, recordId: string): string {
    "observation-" + digest(assetId + "\0" + source + "\0" + recordId)
  }

  function ObservationOf(assetId: string, o: Observation, scope: Scope, at: int): ObservationRow {
    ObservationRow(assetId, o.source, o.sourceRecordId, scope, at, o)
  }

  function FirstHostname(a: Asset): Option<string> {
    if a.hostnames == [] then None else Some(a.hostnames[0])
  }

  /** The first `n` observations of an asset. */
  function AddObservations(digest: Digest, t: Tables, a: Asset, scope: Scope, at: int, n: nat): Option<Tables>
    requires n <= |a.observations|
  {
    if n == 0 then Some(t)
    else
      var before := AddObservations(digest, t, a, scope, at, n - 1);
      var o := a.observations[n - 1];
      if before.None? then None
      else InsertObservation(before.value, ObservationId(digest, a.assetId, o.source, o.sourceRecordId), ObservationOf(a.assetId, o, scope, at))
  }

  /** The asset row of a discovery batch goes in under the stripped id. */
  function StoreAsset(t: Tables, a: Asset, at: int): Option<Tables> {
    if !Given(a.assetId) then None
    else InsertAsset(t, Strip(a.assetId), AssetRow(a.kinds, FirstHostname(a), at, at))
  }

  function AddInventory(digest: Digest, t: Tables, assets: seq<Asset>, scope: Scope, at: int, n: nat): Option<Tables>
    requires n <= |assets|
  {
    if n == 0 then Some(t)
    else
      var before := AddInventory(digest, t, assets, scope, at, n - 1);
      var a := assets[n - 1];
      if before.None? then None
      else
        var withAsset := StoreAsset(before.value, a, at);
        if withAsset.None? then None
        else AddObservations(digest, withAsset.value, a, scope, at, |a.observations|)
  }

  function FindingOf(b: Bundle, at: int): FindingRow { FindingRow(b.findingAsset, b.evidence, b.evidence, at) }
  function DecisionOf(b: Bundle): DecisionRow { DecisionRow(b.asset.assetId, b.ownership, b.explanation, b.decidedAt) }
  function PlanRowOf(b: Bundle): PlanRow { PlanRow(b.findingId, b.planVersion, b.plan, b.createdAt) }

  /** `_store_decisions` */
  function AddDecisions(t: Tables, b: Bundle, findingTime: int): Option<Tables> {
    var t1 := InsertFinding(t, b.findingId, FindingOf(b, findingTime));
    if t1.None? then None
    else
      var t2 := InsertDecision(t1.value, b.decisionId, DecisionOf(b));
      if t2.None? then None else InsertPlan(t2.value, b.planId, PlanRowOf(b))
  }

  function AddBundle(digest: Digest, t: Tables, b: Bundle): Option<Tables> {
    if !ValidBundle(b) then None
    else
      var t1 := UpsertAsset(t, b.asset.assetId, b.asset.kinds, FirstHostname(b.asset), b.createdAt);
      if t1.None? then None
      else
        var t2 := AddObservations(digest, t1.value, b.asset, b.scope, b.observedAt, |b.asset.observations|);
        if t2.None? then None else AddDecisions(t2.value, b, b.observedAt)
  }

  function ObservationIds(t: Tables, assetId: string): set<string> {
    set o | o in t.observations && t.observations[o].assetId == assetId
  }

  function StoredRows(t: Tables, ids: seq<string>): (r: seq<ObservationRow>)
    requires forall o :: o in ids ==> o in t.observations
    ensures |r| == |ids|
  {
    seq(|ids|, i requires 0 <= i < |ids| => t.observations[ids[i]])
  }

  function ExpectedRows(b: Bundle): (r: seq<ObservationRow>)
    ensures |r| == |b.asset.observations|
    ensures forall i :: 0 <= i < |r| ==> r[i] == ObservationOf(b.asset.assetId, b.asset.observations[i], b.scope, b.observedAt)
  {
    seq(|b.asset.observations|, i requires 0 <= i < |b.asset.observations| =>
      ObservationOf(b.asset.assetId, b.asset.observations[i], b.scope, b.observedAt))
  }

  /** The retained rows of the asset are the expected ones; both sides of the source's comparison
      are sorted, so it compares them as multisets. */
  predicate MatchesDiscovery(t: Tables, b: Bundle) {
    multiset(StoredRows(t, SortedSet(ObservationIds(t, b.asset.assetId)))) == multiset(ExpectedRows(b))
  }

  function AddAssessments(t: Tables, bundles: seq<Bundle>, n: nat): Option<Tables>
    requires n <= |bundles|
  {
    if n == 0 then Some(t)
    else
      var before := AddAssessments(t, bundles, n - 1);
      if before.None? || !MatchesDiscovery(before.value, bundles[n - 1]) then None
      else AddDecisions(before.value, bundles[n - 1], bundles[n - 1].decidedAt)
  }

  lemma InventoryNext(digest: Digest, t: Tables, assets: seq<Asset>, scope: Scope, at: int, n: nat)
    requires n < |assets| && AddInventory(digest, t, assets, scope, at, n).Some?
    ensures var before := AddInventory(digest, t, assets, scope, at, n).value; var a := assets[n];
            var withAsset := StoreAsset(before, a, at);
            AddInventory(digest, t, assets, scope, at, n + 1) ==
              if withAsset.None? then None else AddObservations(digest, withAsset.value, a, scope, at, |a.observations|)
  {
    hide StoreAsset, AddObservations;
  }

  datatype Command =
    | StoreInventory(batch: seq<Asset>, scope: Scope, at: int)
    | StoreBundle(bundle: Bundle)
    | StoreAssessments(bundles: seq<Bundle>)

  /** What a call would commit, or nothing when it raises. */
  function Effect(digest: Digest, t: Tables, c: Command): Option<Tables> {
    match c
    case StoreInventory(batch, scope, at) =>
      if batch == [] || exists i :: 0 <= i < |batch| && batch[i].observations == [] then None
      else AddInventory(digest, t, batch, scope, at, |batch|)
    case StoreBundle(b) => AddBundle(digest, t, b)
    case StoreAssessments(bundles) =>
      if exists i :: 0 <= i < |bundles| && !ValidBundle(bundles[i]) then None
      else AddAssessments(t, bundles, |bundles|)
  }

  lemma InventoryEffect(digest: Digest, t: Tables, batch: seq<Asset>, scope: Scope, at: int)
    ensures Effect(digest, t, StoreInventory(batch, scope, at)) ==
            if batch == [] || exists i :: 0 <= i < |batch| && batch[i].observations == [] then None
            else AddInventory(digest, t, batch, scope, at, |batch|)
    ensures var e := Effect(digest, t, StoreInventory(batch, scope, at));
            After(digest, t, StoreInventory(batch, scope, at)) == if e.Some? then e.value else t
    ensures AddInventory(digest, t, batch, scope, at, 0) == Some(t)
  {
  }

  /** A call commits its effect or changes nothing. */
  function After(digest: Digest, t: Tables, c: Command): Tables {
    var e := Effect(digest, t, c);
    if e.Some? then e.value else t
  }

  // ---- the repository ---------------------------------------------------------------------------------

  class Repository {
    var assets: map<string, AssetRow>
    var observations: map<string, ObservationRow>
    var findings: map<string, FindingRow>
    var decisions: map<string, DecisionRow>
    var plans: map<string, PlanRow>
    const digest: Digest

    constructor (digest: Digest)
      ensures this.digest == digest && State() == EMPTY
    {
      this.digest := digest;
      assets, observations, findings, decisions, plans := map[], map[], map[], map[], map[];
    }

    function State(): Tables
      reads this
    {
      Tables(assets, observations, findings, decisions, plans)
    }

    /** Leave the transaction: keep `next` or return to `before`. */
    method Close(before: Tables, next: Option<Tables>) returns (ok: bool)
      modifies this
      ensures ok == next.Some?
      ensures State() == if next.Some? then next.value else before
    {
      ok := next.Some?;
      var t := if ok then next.value else before;
      assets, observations, findings, decisions, plans := t.assets, t.observations, t.findings, t.decisions, t.plans;
    }

    /** Run one statement against the current rows; a violated constraint changes no row. */
    method Execute(next: Option<Tables>) returns (ok: bool)
      modifies this
      ensures ok == next.Some?
      ensures State() == if next.Some? then next.value else old(State())
    {
      ok := Close(State(), next);
    }

    method WriteAsset(a: Asset, at: int) returns (ok: bool)
      modifies this
      ensures var e := StoreAsset(old(State()), a, at); ok == e.Some? && (ok ==> State() == e.value)
    {
      hide InsertAsset, Given;
      if !Given(a.assetId) {
        return false;
      }
      ok := Execute(InsertAsset(State(), Strip(a.assetId), AssetRow(a.kinds, FirstHostname(a), at, at)));
    }

    method WriteObservations(a: Asset, scope: Scope, at: int) returns (ok: bool)
      modifies this
      ensures var e := AddObservations(digest, old(State()), a, scope, at, |a.observations|);
              ok == e.Some? && (ok ==> State() == e.value)
    {
      hide InsertObservation;
      ghost var before := State();
      for n := 0 to |a.observations|
        invariant AddObservations(digest, before, a, scope, at, n) == Some(State())
      {
        var o := a.observations[n];
        ok := Execute(InsertObservation(State(), ObservationId(digest, a.assetId, o.source, o.sourceRecordId), ObservationOf(a.assetId, o, scope, at)));
        if !ok {
          FailedObservation(digest, before, a, scope, at, n + 1, |a.observations|);
          return;
        }
      }
      ok := true;
    }

    method WriteDecisions(b: Bundle, findingTime: int) returns (ok: bool)
      modifies this
      ensures var e := AddDecisions(old(State()), b, findingTime); ok == e.Some? && (ok ==> State() == e.value)
    {
      hide InsertFinding, InsertDecision, InsertPlan;
      ok := Execute(InsertFinding(State(), b.findingId, FindingOf(b, findingTime)));
      if !ok {
        return;
      }
      ok := Execute(InsertDecision(State(), b.decisionId, DecisionOf(b)));
      if !ok {
        return;
      }
      ok := Execute(InsertPlan(State(), b.planId, PlanRowOf(b)));
    }

    method StoreInventory(batch: seq<Asset>, scope: Scope, at: int) returns (ok: bool)
      modifies this
      ensures ok == Effect(digest, old(State()), Command.StoreInventory(batch, scope, at)).Some?
      ensures State() == After(digest, old(State()), Command.StoreInventory(batch, scope, at))
    {
      var saved := State();
      InventoryEffect(digest, saved, batch, scope, at);
      hide *;
      if batch == [] || exists i :: 0 <= i < |batch| && batch[i].observations == [] {
        return false;
      }
      for n := 0 to |batch|
        invariant AddInventory(digest, saved, batch, scope, at, n) == Some(State())
      {
        var a := batch[n];
        InventoryNext(digest, saved, batch, scope, at, n);
        ok := WriteAsset(a, at);
        if ok {
          ok := WriteObservations(a, scope, at);
        }
        if !ok {
          FailedInventory(digest, saved, batch, scope, at, n + 1, |batch|);
          var _ := Close(saved, None);
          return false;
        }
      }
      ok := true;
    }

    method StoreBundle(b: Bundle) returns (ok: bool)
      modifies this
      ensures ok == Effect(digest, old(State()), Command.StoreBundle(b)).Some?
      ensures State() == After(digest, old(State()), Command.StoreBundle(b))
    {
      hide ValidBundle, UpsertAsset, AddObservations, AddDecisions;
      var saved := State();
      if !ValidBundle(b) {
        return false;
      }
      ok := Execute(UpsertAsset(State(), b.asset.assetId, b.asset.kinds, FirstHostname(b.asset), b.createdAt));
      if ok {
        ok := WriteObservations(b.asset, b.scope, b.observedAt);
      }
      if ok {
        ok := WriteDecisions(b, b.observedAt);
      }
      if !ok {
        var _ := Close(saved, None);
      }
    }

    method StoreAssessments(bundles: seq<Bundle>) returns (ok: bool)
      modifies this
      ensures ok == Effect(digest, old(State()), Command.StoreAssessments(bundles)).Some?
      ensures State() == After(digest, old(State()), Command.StoreAssessments(bundles))
    {
      hide ValidBundle, AddDecisions, MatchesDiscovery;
      var saved := State();
      for n := 0 to |bundles|
        invariant State() == saved && forall i :: 0 <= i < n ==> ValidBundle(bundles[i])
      {
        if !ValidBundle(bundles[n]) {
          return false;
        }
      }
      for n := 0 to |bundles|
        invariant AddAssessments(saved, bundles, n) == Some(State())
      {
        var b := bundles[n];
        ok := MatchesDiscovery(State(), b);
        if ok {
          ok := WriteDecisions(b, b.decidedAt);
        }
        if !ok {
          FailedAssessments(saved, bundles, n + 1, |bundles|);
          var _ := Close(saved, None);
          return false;
        }
      }
      ok := true;
    }

    // ---- the reader ------------------------------------------------------------------------------

    method ReadAsset(id: string, requireDecisions: bool) returns (result: Result<Snapshot>)
      ensures result == Read(State(), id, requireDecisions)
    {
      hide ObservationOrder, FindingOrder, DecisionOrder, PlanOrder, Strip, FaithfulObservation, FaithfulFinding;
      var key := Strip(id);
      if key == "" || key !in assets {
        return Rejected;
      }
      var t := State();
      var observed := ObservationOrder(t, key);
      for n := 0 to |observed|
        invariant forall i :: 0 <= i < n ==> FaithfulObservation(t.observations[observed[i]])
      {
        if !FaithfulObservation(t.observations[observed[n]]) {
          return Rejected;
        }
      }
      var found := FindingOrder(t, key);
      for n := 0 to |found|
        invariant forall i :: 0 <= i < n ==> FaithfulFinding(t.findings[found[i]])
      {
        if !FaithfulFinding(t.findings[found[n]]) {
          return Rejected;
        }
      }
      var decided, planned := DecisionOrder(t, key), PlanOrder(t, key);
      if observed == [] || (requireDecisions && (found == [] || decided == [] || planned == [])) {
        return Rejected;
      }
      PlansJoinFindings(t, key);
      if exists i :: 0 <= i < |planned| && t.plans[planned[i]].findingId !in found {
        assert false;
      }
      result := Ok(Snapshot(t.assets[key], observed, found, decided, planned));
    }
  }

  lemma {:induction false} FailedObservation(digest: Digest, t: Tables, a: Asset, scope: Scope, at: int, n: nat, m: nat)
    requires n <= m <= |a.observations| && AddObservations(digest, t, a, scope, at, n).None?
    ensures AddObservations(digest, t, a, scope, at, m).None?
    decreases m
  {
    hide InsertObservation, ObservationId, ObservationOf;
    if n < m { FailedObservation(digest, t, a, scope, at, n, m - 1); }
  }

  lemma {:induction false} FailedInventory(digest: Digest, t: Tables, batch: seq<Asset>, scope: Scope, at: int, n: nat, m: nat)
    requires n <= m <= |batch| && AddInventory(digest, t, batch, scope, at, n).None?
    ensures AddInventory(digest, t, batch, scope, at, m).None?
    decreases m
  {
    hide StoreAsset, AddObservations;
    if n < m { FailedInventory(digest, t, batch, scope, at, n, m - 1); }
  }

  lemma {:induction false} FailedAssessments(t: Tables, bundles: seq<Bundle>, n: nat, m: nat)
    requires n <= m <= |bundles| && AddAssessments(t, bundles, n).None?
    ensures AddAssessments(t, bundles, m).None?
    decreases m
  {
    hide AddDecisions, MatchesDiscovery;
    if n < m { FailedAssessments(t, bundles, n, m - 1); }
  }

  // ---- snapshots --------------------------------------------------------------------------------------

  /** The identifiers of the linked rows, each section in its `ORDER BY`. */
  datatype Snapshot = Snapshot(
    asset: AssetRow, observations: seq<string>, findings: seq<string>, decisions: seq<string>, plans: seq<string>)

  predicate FaithfulObservation(row: ObservationRow) {
    row.payload.source == row.source && row.payload.sourceRecordId == row.recordId
  }

  predicate FaithfulFinding(row: FindingRow) {
    row.json == row.columns
  }

  function FindingIds(t: Tables, assetId: string): set<string> {
    set f | f in t.findings && t.findings[f].assetId == assetId
  }

  function DecisionIds(t: Tables, assetId: string): set<string> {
    set d | d in t.decisions && t.decisions[d].assetId == assetId
  }

  /** Plans joined to the findings of an asset. */
  function PlanIds(t: Tables, assetId: string): set<string> {
    set p | p in t.plans && t.plans[p].findingId in FindingIds(t, assetId)
  }

  function KeyLe(time: string -> int): (string, string) -> bool {
    (a, b) => if time(a) == time(b) then StrLe(a, b) else time(a) < time(b)
  }

  function PlanLe(t: Tables): (string, string) -> bool {
    (a, b) =>
      if a in t.plans && b in t.plans && t.plans[a].findingId != t.plans[b].findingId
      then StrLe(t.plans[a].findingId, t.plans[b].findingId)
      else if a in t.plans && b in t.plans && t.plans[a].version != t.plans[b].version
      then t.plans[a].version < t.plans[b].version
      else StrLe(a, b)
  }

  /** `ids` in the given order: the same identifiers, each once. */
  function Arrange(ids: set<string>, le: (string, string) -> bool): (r: seq<string>)
    ensures forall x :: x in r <==> x in ids
    ensures |r| == |ids|
  {
    SortPermutes(SortedSet(ids), le);
    Sort(SortedSet(ids), le)
  }

  function ObservationOrder(t: Tables, id: string): (r: seq<string>)
    ensures forall x :: x in r <==> x in ObservationIds(t, id)
    ensures forall i :: 0 <= i < |r| ==> r[i] in t.observations
  {
    var r := Arrange(ObservationIds(t, id), KeyLe((o: string) => if o in t.observations then t.observations[o].observedAt else 0));
    assert forall i :: 0 <= i < |r| ==> r[i] in r;
    r
  }

  function FindingOrder(t: Tables, id: string): (r: seq<string>)
    ensures forall x :: x in r <==> x in FindingIds(t, id)
    ensures forall i :: 0 <= i < |r| ==> r[i] in t.findings
  {
    var r := Arrange(FindingIds(t, id), KeyLe((f: string) => if f in t.findings then t.findings[f].observedAt else 0));
    assert forall i :: 0 <= i < |r| ==> r[i] in r;
    r
  }

  function DecisionOrder(t: Tables, id: string): seq<string> {
    Arrange(DecisionIds(t, id), KeyLe((d: string) => if d in t.decisions then t.decisions[d].decidedAt else 0))
  }

  function PlanOrder(t: Tables, id: string): (r: seq<string>)
    ensures forall x :: x in r <==> x in PlanIds(t, id)
    ensures forall i :: 0 <= i < |r| ==> r[i] in t.plans
  {
    var r := Arrange(PlanIds(t, id), PlanLe(t));
    assert forall i :: 0 <= i < |r| ==> r[i] in r;
    r
  }

  predicate FaithfulRows(t: Tables, observed: seq<string>, found: seq<string>)
    requires forall i :: 0 <= i < |observed| ==> observed[i] in t.observations
    requires forall i :: 0 <= i < |found| ==> found[i] in t.findings
  {
    && (forall i :: 0 <= i < |observed| ==> FaithfulObservation(t.observations[observed[i]]))
    && (forall i :: 0 <= i < |found| ==> FaithfulFinding(t.findings[found[i]]))
  }

  /** What a reader returns for a requested id, which it strips first. */
  function Read(t: Tables, id: string, requireDecisions: bool): Result<Snapshot> {
    ReadStripped(t, Strip(id), requireDecisions)
  }

  /** The sections of one asset; the plan-to-finding check is implied by the join. */
  function ReadStripped(t: Tables, id: string, requireDecisions: bool): Result<Snapshot> {
    if id == "" || id !in t.assets then Rejected
    else if !FaithfulRows(t, ObservationOrder(t, id), FindingOrder(t, id)) then Rejected
    else if ObservationOrder(t, id) == [] ||
         (requireDecisions && (FindingOrder(t, id) == [] || DecisionOrder(t, id) == [] || PlanOrder(t, id) == [])) then Rejected
    else Ok(Snapshot(t.assets[id], ObservationOrder(t, id), FindingOrder(t, id), DecisionOrder(t, id), PlanOrder(t, id)))
  }

  lemma PlansJoinFindings(t: Tables, id: string)
    ensures forall i :: 0 <= i < |PlanOrder(t, id)| ==> t.plans[PlanOrder(t, id)[i]].findingId in FindingOrder(t, id)
  {
    forall i | 0 <= i < |PlanOrder(t, id)| ensures t.plans[PlanOrder(t, id)[i]].findingId in FindingOrder(t, id) {
      assert PlanOrder(t, id)[i] in PlanOrder(t, id);
    }
  }
}
