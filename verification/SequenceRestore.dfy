/** Restoring an archived sequence: a new directory, one publication per file, the completion
    record last, and removal of everything after an error.
 */
module SequenceRestore {
  import opened Ordering

  datatype Kind = Sqlite | Json

  /** `NN.sqlite`, `NN.json`, the three fixed names, and a staging name. */
  datatype FileName = BatchFile(sequence: nat, kind: Kind) | CheckpointFile | CoverageFile | RestoreRecord | StagingFile

  datatype Entry = Entry(name: FileName, data: string)
  datatype Copy = Copy(database: string, export_: string)

  function BatchEntries(copies: seq<Copy>, n: nat): seq<Entry>
    requires n <= |copies|
  {
    if n == 0 then []
    else BatchEntries(copies, n - 1) + [Entry(BatchFile(n, Sqlite), copies[n - 1].database), Entry(BatchFile(n, Json), copies[n - 1].export_)]
  }

  /** The files in publication order. */
  function Plan(copies: seq<Copy>, checkpoint: string, coverage: string, record: string): seq<Entry> {
    BatchEntries(copies, |copies|) +
    [Entry(CheckpointFile, checkpoint), Entry(CoverageFile, coverage), Entry(RestoreRecord, record)]
  }

  datatype Stage = Fresh | Staged | Linked
  datatype Phase = Start | Publishing(k: nat, stage: Stage) | Removing | Ended(ok: bool)

  type Directory = map<FileName, string>

  /** `dir` is the destination directory, if it exists. */
  datatype State = State(dir: Option<Directory>, phase: Phase)

  // ---- steps -------------------------------------------------------------------------------

  /** `mkdir` is exclusive: an existing directory ends the restore and stays as it is. */
  ghost predicate MakeDirectory(s: State, t: State) {
    s.phase == Start &&
    t == if s.dir.None? then State(Some(map[]), Publishing(0, Fresh)) else s.(phase := Ended(false))
  }

  ghost predicate CreateStaging(plan: seq<Entry>, s: State, t: State) {
    && s.phase.Publishing? && s.phase.stage == Fresh && s.phase.k < |plan| && s.dir.Some?
    && t == State(Some(s.dir.value[StagingFile := ""]), Publishing(s.phase.k, Staged))
  }

  ghost predicate WriteStaging(plan: seq<Entry>, s: State, t: State, n: nat) {
    && s.phase.Publishing? && s.phase.stage == Staged && s.phase.k < |plan| && s.dir.Some?
    && n <= |plan[s.phase.k].data|
    && t == s.(dir := Some(s.dir.value[StagingFile := plan[s.phase.k].data[..n]]))
  }

  ghost predicate LinkFile(plan: seq<Entry>, s: State, t: State) {
    && s.phase.Publishing? && s.phase.stage == Staged && s.phase.k < |plan| && s.dir.Some?
    && StagingFile in s.dir.value && s.dir.value[StagingFile] == plan[s.phase.k].data
    && plan[s.phase.k].name !in s.dir.value
    && t == State(Some(s.dir.value[plan[s.phase.k].name := s.dir.value[StagingFile]]), Publishing(s.phase.k, Linked))
  }

  ghost predicate Unstage(plan: seq<Entry>, s: State, t: State) {
    && s.phase.Publishing? && s.phase.stage == Linked && s.phase.k < |plan| && s.dir.Some?
    && t == State(Some(s.dir.value - {StagingFile}), Publishing(s.phase.k + 1, Fresh))
  }

  ghost predicate Finish(plan: seq<Entry>, s: State, t: State) {
    s.phase == Publishing(|plan|, Fresh) && t == s.(phase := Ended(true))
  }

  /** An error anywhere between `mkdir` and the end; the staging name may or may not be gone. */
  ghost predicate Error(s: State, t: State) {
    && s.phase.Publishing? && s.dir.Some?
    && (t == s.(phase := Removing) || t == State(Some(s.dir.value - {StagingFile}), Removing))
  }

  /** `rmtree`: files go one at a time in any order, the directory last. */
  ghost predicate RemoveFile(s: State, t: State, name: FileName) {
    s.phase == Removing && s.dir.Some? && name in s.dir.value && t == s.(dir := Some(s.dir.value - {name}))
  }

  ghost predicate RemoveDirectory(s: State, t: State) {
    s.phase == Removing && s.dir == Some(map[]) && t == State(None, Ended(false))
  }

  ghost predicate Next(plan: seq<Entry>, s: State, t: State) {
    || MakeDirectory(s, t) || CreateStaging(plan, s, t) || (exists n: nat :: WriteStaging(plan, s, t, n))
    || LinkFile(plan, s, t) || Unstage(plan, s, t) || Finish(plan, s, t) || Error(s, t)
    || (exists name :: RemoveFile(s, t, name)) || RemoveDirectory(s, t)
  }

  ghost predicate Execution(plan: seq<Entry>, trace: seq<State>) {
    trace != [] && trace[0].phase == Start && forall k, m :: 0 <= k < m < |trace| && m == k + 1 ==> Next(plan, trace[k], trace[m])
  }

  // ---- the plan --------------------------------------------------------------------------------

  ghost predicate DistinctNames(plan: seq<Entry>) {
    && (forall i :: 0 <= i < |plan| ==> plan[i].name != StagingFile)
    && (forall i, j :: 0 <= i < j < |plan| ==> plan[i].name != plan[j].name)
  }

  lemma {:induction false} BatchNames(copies: seq<Copy>, n: nat)
    requires n <= |copies|
    ensures DistinctNames(BatchEntries(copies, n))
    ensures forall i :: 0 <= i < |BatchEntries(copies, n)| ==>
              BatchEntries(copies, n)[i].name.BatchFile? && BatchEntries(copies, n)[i].name.sequence <= n
  {
    if n > 0 { BatchNames(copies, n - 1); }
  }

  // ---- file names as texts -------------------------------------------------------------------------

  function Digit(n: nat): char
    requires n < 10
  {
    ('0' as int + n) as char
  }

  function Decimal(n: nat): string {
    if n < 10 then [Digit(n)] else Decimal(n / 10) + [Digit(n % 10)]
  }

  /** `f'{n:02d}'` */
  function TwoDigits(n: nat): string {
    if n < 10 then "0" + Decimal(n) else Decimal(n)
  }

  /** The file name under the destination; `staging` is the name the system chose. */
  function Rendered(name: FileName, staging: string): string {
    match name
    case BatchFile(n, Sqlite) => TwoDigits(n) + ".sqlite"
    case BatchFile(n, Json) => TwoDigits(n) + ".json"
    case CheckpointFile => "checkpoint.json"
    case CoverageFile => "coverage.json"
    case RestoreRecord => "RESTORE.json"
    case StagingFile => staging
  }

  lemma {:induction false} DecimalDigits(n: nat)
    ensures Decimal(n) != "" && forall i :: 0 <= i < |Decimal(n)| ==> '0' <= Decimal(n)[i] <= '9'
    ensures n >= 10 ==> |Decimal(n)| >= 2 && Decimal(n)[0] != '0'
    ensures 0 < n < 10 ==> Decimal(n)[0] != '0'
    decreases n
  {
    if n >= 10 { DecimalDigits(n / 10); }
  }

  lemma {:induction false} DecimalInjective(n: nat, m: nat)
    requires Decimal(n) == Decimal(m)
    ensures n == m
    decreases n
  {
    DecimalDigits(n);
    DecimalDigits(m);
    if n >= 10 && m >= 10 {
      var a, b := Decimal(n / 10), Decimal(m / 10);
      assert a == Decimal(n)[..|a|] && b == Decimal(m)[..|b|];
      assert Decimal(n)[|a|] == Digit(n % 10) && Decimal(m)[|b|] == Digit(m % 10);
      DecimalInjective(n / 10, m / 10);
    }
  }

  lemma TwoDigitsInjective(n: nat, m: nat)
    requires TwoDigits(n) == TwoDigits(m)
    ensures n == m
  {
    DecimalDigits(n);
    DecimalDigits(m);
    if n < 10 && m < 10 {
      assert Decimal(n) == TwoDigits(n)[1..] && Decimal(m) == TwoDigits(m)[1..];
    }
    hide Decimal, Digit;
    if (n < 10) == (m < 10) { DecimalInjective(n, m); }
  }

  lemma TwoDigitsFirst(n: nat)
    ensures TwoDigits(n) != "" && '0' <= TwoDigits(n)[0] <= '9'
  {
    DecimalDigits(n);
    hide Decimal;
  }

  lemma BatchNamesDiffer(n: nat, x: Kind, m: nat, y: Kind, staging: string)
    requires Rendered(BatchFile(n, x), staging) == Rendered(BatchFile(m, y), staging)
    ensures n == m && x == y
  {
    var a, b := Rendered(BatchFile(n, x), staging), Rendered(BatchFile(m, y), staging);
    assert (TwoDigits(n) + ".sqlite")[|TwoDigits(n)| + 6] == 'e' && (TwoDigits(m) + ".sqlite")[|TwoDigits(m)| + 6] == 'e';
    assert (TwoDigits(n) + ".json")[|TwoDigits(n)| + 4] == 'n' && (TwoDigits(m) + ".json")[|TwoDigits(m)| + 4] == 'n';
    assert a[|a| - 1] == b[|b| - 1];
    assert x == y;
    hide TwoDigits;
    if x == Sqlite {
      assert TwoDigits(n) == a[..|a| - 7] && TwoDigits(m) == b[..|b| - 7];
    } else {
      assert TwoDigits(n) == a[..|a| - 5] && TwoDigits(m) == b[..|b| - 5];
    }
    TwoDigitsInjective(n, m);
  }

  /** The first character tells batch files, the other files and the staging name apart. */
  lemma RenderedFirst(name: FileName, staging: string)
    requires ".assessment-backup-" <= staging
    ensures Rendered(name, staging) != ""
    ensures var c := Rendered(name, staging)[0];
            match name
            case BatchFile(_, _) => '0' <= c <= '9'
            case CheckpointFile => c == 'c' && Rendered(name, staging)[1..2] == "h"
            case CoverageFile => c == 'c' && Rendered(name, staging)[1..2] == "o"
            case RestoreRecord => c == 'R'
            case StagingFile => c == '.'
  {
    if name.BatchFile? {
      TwoDigitsFirst(name.sequence);
      hide TwoDigits;
    } else {
      assert staging[0] == ".assessment-backup-"[0];
      assert "checkpoint.json"[1..2] == "h" && "coverage.json"[1..2] == "o";
    }
  }

  /** Different names are different texts; the staging name starts with a dot, so it is none of them. */
  lemma RenderedInjective(x: FileName, y: FileName, staging: string)
    requires ".assessment-backup-" <= staging && Rendered(x, staging) == Rendered(y, staging)
    ensures x == y
  {
    RenderedFirst(x, staging);
    RenderedFirst(y, staging);
    hide Rendered;
    if x.BatchFile? && y.BatchFile? {
      BatchNamesDiffer(x.sequence, x.kind, y.sequence, y.kind, staging);
    }
  }

  /** Every file of a restore has its own name, as a text too and apart from the staging name, and
      the completion record comes last. */
  lemma PlanDistinct(copies: seq<Copy>, checkpoint: string, coverage: string, record: string, staging: string)
    ensures var plan := Plan(copies, checkpoint, coverage, record);
            DistinctNames(plan) && plan != [] && plan[|plan| - 1] == Entry(RestoreRecord, record)
    ensures var plan := Plan(copies, checkpoint, coverage, record);
            ".assessment-backup-" <= staging ==>
              && (forall i :: 0 <= i < |plan| ==> Rendered(plan[i].name, staging) != staging)
              && forall i, j :: 0 <= i < j < |plan| ==> Rendered(plan[i].name, staging) != Rendered(plan[j].name, staging)
  {
    PlanNamesDistinct(copies, checkpoint, coverage, record);
    var plan := Plan(copies, checkpoint, coverage, record);
    hide Plan, Rendered;
    if ".assessment-backup-" <= staging {
      forall i | 0 <= i < |plan| ensures Rendered(plan[i].name, staging) != staging {
        StagingRendered(staging);
        if Rendered(plan[i].name, staging) == staging { RenderedInjective(plan[i].name, StagingFile, staging); }
      }
      forall i, j | 0 <= i < j < |plan| ensures Rendered(plan[i].name, staging) != Rendered(plan[j].name, staging) {
        if Rendered(plan[i].name, staging) == Rendered(plan[j].name, staging) {
          RenderedInjective(plan[i].name, plan[j].name, staging);
        }
      }
    }
  }

  lemma StagingRendered(staging: string)
    ensures Rendered(StagingFile, staging) == staging
  {
  }

  lemma PlanNamesDistinct(copies: seq<Copy>, checkpoint: string, coverage: string, record: string)
    ensures var plan := Plan(copies, checkpoint, coverage, record);
            DistinctNames(plan) && plan != [] && plan[|plan| - 1] == Entry(RestoreRecord, record)
  {
    BatchNames(copies, |copies|);
  }

  /** Exactly the first `n` files of the plan, complete. */
  function Files(plan: seq<Entry>, n: nat): Directory
    requires n <= |plan|
  {
    if n == 0 then map[] else Files(plan, n - 1)[plan[n - 1].name := plan[n - 1].data]
  }

  lemma {:induction false} FilesMeans(plan: seq<Entry>, n: nat)
    requires n <= |plan| && DistinctNames(plan)
    ensures StagingFile !in Files(plan, n)
    ensures forall i :: 0 <= i < |plan| ==> (plan[i].name in Files(plan, n) <==> i < n)
    ensures forall i :: 0 <= i < n ==> Files(plan, n)[plan[i].name] == plan[i].data
    ensures forall name :: name in Files(plan, n) ==> exists i :: 0 <= i < n && plan[i].name == name
  {
    if n > 0 { FilesMeans(plan, n - 1); }
  }

  // ---- the invariant -----------------------------------------------------------------------------

  /** How many files are in place. */
  function Placed(phase: Phase): nat
    requires phase.Publishing?
  {
    phase.k + if phase.stage == Linked then 1 else 0
  }

  ghost predicate Inv(plan: seq<Entry>, initial: Option<Directory>, s: State) {
    match s.phase
    case Start => s.dir == initial
    case Publishing(k, stage) =>
      && initial.None? && s.dir.Some? && Placed(s.phase) <= |plan|
      && s.dir.value - {StagingFile} == Files(plan, Placed(s.phase))
      && (stage == Fresh ==> StagingFile !in s.dir.value)
    case Removing => initial.None? && s.dir.Some?
    case Ended(ok) =>
      if ok then initial.None? && s.dir == Some(Files(plan, |plan|)) else s.dir == initial
  }

  lemma NextKeepsInv(plan: seq<Entry>, initial: Option<Directory>, s: State, t: State)
    requires DistinctNames(plan) && Inv(plan, initial, s) && Next(plan, s, t)
    ensures Inv(plan, initial, t)
  {
    if s.phase.Publishing? {
      FilesMeans(plan, Placed(s.phase));
      PublishingKeepsInv(plan, initial, s, t);
    }
  }

  lemma PublishingKeepsInv(plan: seq<Entry>, initial: Option<Directory>, s: State, t: State)
    requires DistinctNames(plan) && Inv(plan, initial, s) && Next(plan, s, t) && s.phase.Publishing?
    requires StagingFile !in Files(plan, Placed(s.phase))
    ensures Inv(plan, initial, t)
  {
    var d := s.dir.value;
    if CreateStaging(plan, s, t) {
      assert d[StagingFile := ""] - {StagingFile} == d - {StagingFile};
    } else if n: nat :| WriteStaging(plan, s, t, n) {
      assert d[StagingFile := plan[s.phase.k].data[..n]] - {StagingFile} == d - {StagingFile};
    } else if LinkFile(plan, s, t) {
      var e := plan[s.phase.k];
      assert d[e.name := e.data] - {StagingFile} == (d - {StagingFile})[e.name := e.data];
    } else if Unstage(plan, s, t) {
      assert d - {StagingFile} - {StagingFile} == d - {StagingFile};
    } else if Finish(plan, s, t) {
      assert d - {StagingFile} == d;
    }
  }

  lemma {:induction false} AlwaysInv(plan: seq<Entry>, trace: seq<State>, k: nat)
    requires DistinctNames(plan) && Execution(plan, trace) && k < |trace|
    ensures Inv(plan, trace[0].dir, trace[k])
  {
    if k > 0 {
      AlwaysInv(plan, trace, k - 1);
      NextKeepsInv(plan, trace[0].dir, trace[k - 1], trace[k]);
    }
  }

  // ---- the guarantees over every execution -----------------------------------------------------------

  /** Until cleanup starts every published name holds its complete file, and the completion
      record exists only if all the files do. */
  lemma CompleteUntilCleanup(copies: seq<Copy>, checkpoint: string, coverage: string, record: string, trace: seq<State>, k: nat)
    requires Execution(Plan(copies, checkpoint, coverage, record), trace) && k < |trace|
    requires trace[k].phase.Publishing? || trace[k].phase == Ended(true)
    ensures trace[k].dir.Some?
    ensures var plan := Plan(copies, checkpoint, coverage, record); var dir := trace[k].dir.value;
            && (forall i :: 0 <= i < |plan| && plan[i].name in dir ==> dir[plan[i].name] == plan[i].data)
            && (forall i, j :: 0 <= i < j < |plan| && plan[j].name in dir ==> plan[i].name in dir)
            && (RestoreRecord in dir ==> forall i :: 0 <= i < |plan| ==> plan[i].name in dir && dir[plan[i].name] == plan[i].data)
  {
    var plan := Plan(copies, checkpoint, coverage, record);
    PlanNamesDistinct(copies, checkpoint, coverage, record);
    AlwaysInv(plan, trace, k);
    var n := if trace[k].phase.Publishing? then Placed(trace[k].phase) else |plan|;
    FilesMeans(plan, n);
    hide Plan, Files, Execution;
    var dir := trace[k].dir.value;
    assert forall i :: 0 <= i < |plan| ==> (plan[i].name in dir <==> plan[i].name in Files(plan, n));
    assert forall i :: 0 <= i < n ==> dir[plan[i].name] == Files(plan, n)[plan[i].name];
    assert plan[|plan| - 1].name == RestoreRecord;
  }

  /** A run ends with every file and nothing else, or, after an error, with what was there before:
      nothing, or the directory that already existed. */
  lemma EverythingOrNothing(copies: seq<Copy>, checkpoint: string, coverage: string, record: string, trace: seq<State>, k: nat)
    requires Execution(Plan(copies, checkpoint, coverage, record), trace) && k < |trace| && trace[k].phase.Ended?
    ensures trace[k].phase.ok ==>
              var plan := Plan(copies, checkpoint, coverage, record);
              && trace[0].dir.None? && trace[k].dir.Some?
              && (forall i :: 0 <= i < |plan| ==> plan[i].name in trace[k].dir.value && trace[k].dir.value[plan[i].name] == plan[i].data)
              && (forall name :: name in trace[k].dir.value ==> exists i :: 0 <= i < |plan| && plan[i].name == name)
    ensures !trace[k].phase.ok ==> trace[k].dir == trace[0].dir
  {
    var plan := Plan(copies, checkpoint, coverage, record);
    PlanNamesDistinct(copies, checkpoint, coverage, record);
    AlwaysInv(plan, trace, k);
    FilesMeans(plan, |plan|);
  }
}
