/** The publication protocol of `_publish` — stage, write, link without replacing, unstage —
    as steps of any number of interleaved publishers that may fail or stop anywhere.

    A hard link makes two names share one file, so names map to files and files to bytes.
 */
module Publication {

  datatype Name = Destination | Staging(token: nat)

  datatype Phase =
    | Idle
    | Writing(token: nat, file: nat)
    | Linked(token: nat)
    | Failing(token: nat)
    | Done(ok: bool, linked: bool)

  datatype State = State(names: map<Name, nat>, bytes: map<nat, string>, phases: seq<Phase>)

  /** Whether publisher `i` put the destination in place, reported or not. */
  predicate HasLinked(s: State, i: nat)
    requires i < |s.phases|
  {
    s.phases[i].Linked? || (s.phases[i].Done? && s.phases[i].linked)
  }

  // ---- steps of publisher i ----------------------------------------------------------------

  /** A temporary file under an unused name in the destination's directory. */
  ghost predicate Stage(s: State, t: State, i: nat)
    requires i < |s.phases|
  {
    exists token: nat, file: nat :: StageAs(s, t, i, token, file)
  }

  ghost predicate StageAs(s: State, t: State, i: nat, token: nat, file: nat)
    requires i < |s.phases|
  {
    && s.phases[i] == Idle && Staging(token) !in s.names && file !in s.bytes
    && t == State(s.names[Staging(token) := file], s.bytes[file := ""], s.phases[i := Writing(token, file)])
  }

  /** More of the data reaches the staging file. */
  ghost predicate Write(data: seq<string>, s: State, t: State, i: nat)
    requires i < |s.phases| && i < |data|
  {
    exists n: nat :: WriteUpTo(data, s, t, i, n)
  }

  ghost predicate WriteUpTo(data: seq<string>, s: State, t: State, i: nat, n: nat)
    requires i < |s.phases| && i < |data|
  {
    && s.phases[i].Writing? && s.phases[i].file in s.bytes
    && |s.bytes[s.phases[i].file]| <= n <= |data[i]|
    && t == s.(bytes := s.bytes[s.phases[i].file := data[i][..n]])
  }

  /** `os.link`: after everything is written; an existing destination is never replaced. */
  ghost predicate Link(data: seq<string>, s: State, t: State, i: nat)
    requires i < |s.phases| && i < |data|
  {
    && s.phases[i].Writing? && s.phases[i].file in s.bytes && s.bytes[s.phases[i].file] == data[i]
    && t == if Destination in s.names
            then s.(phases := s.phases[i := Failing(s.phases[i].token)])
            else State(s.names[Destination := s.phases[i].file], s.bytes, s.phases[i := Linked(s.phases[i].token)])
  }

  /** An error before the link, including one while the staging file is created. */
  ghost predicate Fail(s: State, t: State, i: nat)
    requires i < |s.phases|
  {
    || (s.phases[i] == Idle && t == s.(phases := s.phases[i := Done(false, false)]))
    || (s.phases[i].Writing? && t == s.(phases := s.phases[i := Failing(s.phases[i].token)]))
  }

  /** The `finally` clause; removal of the staging name may itself fail. */
  ghost predicate Unstage(s: State, t: State, i: nat)
    requires i < |s.phases|
  {
    && (s.phases[i].Linked? || s.phases[i].Failing?)
    && (|| t == State(s.names - {Staging(s.phases[i].token)}, s.bytes,
                      s.phases[i := Done(s.phases[i].Linked?, s.phases[i].Linked?)])
        || t == s.(phases := s.phases[i := Done(false, s.phases[i].Linked?)]))
  }

  ghost predicate StepOf(data: seq<string>, s: State, t: State, i: nat)
    requires |s.phases| == |data| && i < |data|
  {
    Stage(s, t, i) || Write(data, s, t, i) || Link(data, s, t, i) || Fail(s, t, i) || Unstage(s, t, i)
  }

  /** One step of some publisher. */
  ghost predicate Next(data: seq<string>, s: State, t: State)
    requires |s.phases| == |data|
  {
    exists i: nat :: i < |data| && StepOf(data, s, t, i)
  }

  /** A directory before anyone publishes; the destination may already hold foreign bytes. */
  ghost predicate Initial(data: seq<string>, s: State) {
    && |s.phases| == |data| && (forall i :: 0 <= i < |data| ==> s.phases[i] == Idle)
    && (forall name :: name in s.names ==> s.names[name] in s.bytes)
  }

  ghost predicate Execution(data: seq<string>, trace: seq<State>) {
    && trace != [] && Initial(data, trace[0])
    && (forall k :: 0 <= k < |trace| ==> |trace[k].phases| == |data|)
    && (forall k, m :: 0 <= k < m < |trace| && m == k + 1 ==> Next(data, trace[k], trace[m]))
  }

  // ---- the invariant -----------------------------------------------------------------------------

  /** The staging file of publisher `i` holds a prefix of its data and is not the destination. */
  ghost predicate OwnsFile(data: seq<string>, s: State, i: nat)
    requires i < |s.phases| == |data|
  {
    s.phases[i].Writing? ==>
      && s.phases[i].file in s.bytes && s.bytes[s.phases[i].file] <= data[i]
      && (Destination in s.names ==> s.names[Destination] != s.phases[i].file)
  }

  ghost predicate SeparateFiles(s: State) {
    forall i, j :: 0 <= i < j < |s.phases| && s.phases[i].Writing? && s.phases[j].Writing? ==> s.phases[i].file != s.phases[j].file
  }

  ghost predicate OneLinked(s: State) {
    forall i, j :: 0 <= i < |s.phases| && 0 <= j < |s.phases| && HasLinked(s, i) && HasLinked(s, j) ==> i == j
  }

  /** After publisher `i` linked, the destination holds its complete bytes. */
  ghost predicate LinkedHolds(data: seq<string>, s: State, i: nat)
    requires i < |s.phases| == |data|
  {
    HasLinked(s, i) ==>
      Destination in s.names && s.names[Destination] in s.bytes && s.bytes[s.names[Destination]] == data[i]
  }

  ghost predicate Inv(data: seq<string>, s: State) {
    && |s.phases| == |data|
    && (forall name :: name in s.names ==> s.names[name] in s.bytes)
    && (forall i :: 0 <= i < |data| ==> OwnsFile(data, s, i))
    && (forall i :: 0 <= i < |data| ==> LinkedHolds(data, s, i))
    && SeparateFiles(s) && OneLinked(s)
    && (forall i :: 0 <= i < |data| && s.phases[i].Done? && s.phases[i].ok ==> s.phases[i].linked)
  }

  /** What one step does to the destination: nothing, or one publisher's complete bytes appear. */
  ghost predicate DestinationStep(data: seq<string>, s: State, t: State) {
    && (Destination in s.names ==> Present(s) && Present(t) && t.bytes[t.names[Destination]] == s.bytes[s.names[Destination]])
    && (Destination !in s.names && Destination in t.names ==>
          exists i :: 0 <= i < |data| && |t.phases| == |data| && HasLinked(t, i) && Present(t) && t.bytes[t.names[Destination]] == data[i])
    && (Destination in s.names && |s.phases| == |t.phases| == |data| ==>
          forall i :: 0 <= i < |data| && HasLinked(t, i) ==> HasLinked(s, i))
  }

  predicate Present(s: State) {
    Destination in s.names && s.names[Destination] in s.bytes
  }

  lemma StepKeepsInv(data: seq<string>, s: State, t: State, i: nat)
    requires Inv(data, s) && i < |data| && StepOf(data, s, t, i)
    ensures Inv(data, t) && DestinationStep(data, s, t)
  {
    if Stage(s, t, i) {
      var token: nat, file: nat :| StageAs(s, t, i, token, file);
      StageKeepsInv(data, s, t, i, token, file);
    } else if Write(data, s, t, i) {
      var n: nat :| WriteUpTo(data, s, t, i, n);
      WriteKeepsInv(data, s, t, i, n);
    } else if Link(data, s, t, i) {
      LinkKeepsInv(data, s, t, i);
    } else if Fail(s, t, i) {
      FailKeepsInv(data, s, t, i);
    } else {
      UnstageKeepsInv(data, s, t, i);
    }
  }

  /** A step changes one phase, and only a link over an absent destination makes one linked. */
  lemma LinkedBefore(data: seq<string>, s: State, t: State, i: nat)
    requires |s.phases| == |data| && i < |data| && StepOf(data, s, t, i)
    ensures |t.phases| == |data|
    ensures forall j :: 0 <= j < |data| && HasLinked(t, j) ==> HasLinked(s, j) || (j == i && Link(data, s, t, i) && Destination !in s.names)
  {
  }

  lemma StageKeepsInv(data: seq<string>, s: State, t: State, i: nat, token: nat, file: nat)
    requires Inv(data, s) && i < |data| && StageAs(s, t, i, token, file)
    ensures Inv(data, t) && DestinationStep(data, s, t)
  {
    forall j | 0 <= j < |data| ensures OwnsFile(data, t, j) && LinkedHolds(data, t, j) {
      assert OwnsFile(data, s, j) && LinkedHolds(data, s, j);
    }
    forall a, b | 0 <= a < b < |data| && t.phases[a].Writing? && t.phases[b].Writing? ensures t.phases[a].file != t.phases[b].file {
      assert OwnsFile(data, s, a) && OwnsFile(data, s, b);
    }
    LinkedBefore(data, s, t, i);
  }

  lemma WriteKeepsInv(data: seq<string>, s: State, t: State, i: nat, n: nat)
    requires Inv(data, s) && i < |data| && WriteUpTo(data, s, t, i, n)
    ensures Inv(data, t) && DestinationStep(data, s, t)
  {
    assert OwnsFile(data, s, i);
    forall j | 0 <= j < |data| ensures OwnsFile(data, t, j) && LinkedHolds(data, t, j) {
      assert OwnsFile(data, s, j) && LinkedHolds(data, s, j);
    }
    LinkedBefore(data, s, t, i);
  }

  lemma LinkKeepsInv(data: seq<string>, s: State, t: State, i: nat)
    requires Inv(data, s) && i < |data| && Link(data, s, t, i)
    ensures Inv(data, t) && DestinationStep(data, s, t)
  {
    assert OwnsFile(data, s, i);
    forall j | 0 <= j < |data| ensures OwnsFile(data, t, j) && LinkedHolds(data, t, j) {
      assert OwnsFile(data, s, j) && LinkedHolds(data, s, j);
    }
    LinkedBefore(data, s, t, i);
    if Destination !in s.names {
      assert HasLinked(t, i);
      forall j | 0 <= j < |data| ensures !HasLinked(s, j) { assert LinkedHolds(data, s, j); }
    }
  }

  lemma FailKeepsInv(data: seq<string>, s: State, t: State, i: nat)
    requires Inv(data, s) && i < |data| && Fail(s, t, i)
    ensures Inv(data, t) && DestinationStep(data, s, t)
  {
    forall j | 0 <= j < |data| ensures OwnsFile(data, t, j) && LinkedHolds(data, t, j) {
      assert OwnsFile(data, s, j) && LinkedHolds(data, s, j);
    }
    LinkedBefore(data, s, t, i);
  }

  lemma UnstageKeepsInv(data: seq<string>, s: State, t: State, i: nat)
    requires Inv(data, s) && i < |data| && Unstage(s, t, i)
    ensures Inv(data, t) && DestinationStep(data, s, t)
  {
    forall j | 0 <= j < |data| ensures OwnsFile(data, t, j) && LinkedHolds(data, t, j) {
      assert OwnsFile(data, s, j) && LinkedHolds(data, s, j);
    }
    LinkedBefore(data, s, t, i);
  }

  lemma {:induction false} AlwaysInv(data: seq<string>, trace: seq<State>, k: nat)
    requires Execution(data, trace) && k < |trace|
    ensures Inv(data, trace[k])
  {
    if k > 0 {
      AlwaysInv(data, trace, k - 1);
      assert Next(data, trace[k - 1], trace[k]);
      var i: nat :| i < |data| && StepOf(data, trace[k - 1], trace[k], i);
      StepKeepsInv(data, trace[k - 1], trace[k], i);
    }
  }

  lemma StepAt(data: seq<string>, trace: seq<State>, k: nat)
    requires Execution(data, trace) && k + 1 < |trace|
    ensures DestinationStep(data, trace[k], trace[k + 1])
  {
    AlwaysInv(data, trace, k);
    assert Next(data, trace[k], trace[k + 1]);
    var i: nat :| i < |data| && StepOf(data, trace[k], trace[k + 1], i);
    StepKeepsInv(data, trace[k], trace[k + 1], i);
  }

  lemma PhaseCount(data: seq<string>, trace: seq<State>, k: nat)
    requires Execution(data, trace) && k < |trace|
    ensures |trace[k].phases| == |data|
  {
    hide Next, Initial;
  }

  lemma PresentAt(data: seq<string>, trace: seq<State>, k: nat)
    requires Execution(data, trace) && k < |trace| && Destination in trace[k].names
    ensures Present(trace[k])
  {
    AlwaysInv(data, trace, k);
    hide Execution, OwnsFile, LinkedHolds, SeparateFiles, OneLinked;
  }

  lemma StepKeepsBytes(data: seq<string>, trace: seq<State>, k: nat)
    requires Execution(data, trace) && k + 1 < |trace| && Destination in trace[k].names
    ensures Present(trace[k]) && Present(trace[k + 1])
    ensures trace[k + 1].bytes[trace[k + 1].names[Destination]] == trace[k].bytes[trace[k].names[Destination]]
  {
    StepAt(data, trace, k);
    hide Execution, HasLinked;
  }

  /** The destination holds the complete bytes of publisher `i`, who linked it. */
  ghost predicate HoldsBytesOf(data: seq<string>, s: State, i: nat)
    requires i < |data|
  {
    |s.phases| == |data| && HasLinked(s, i) && Present(s) && s.bytes[s.names[Destination]] == data[i]
  }

  lemma StepPublishes(data: seq<string>, trace: seq<State>, k: nat)
    requires Execution(data, trace) && k + 1 < |trace| && Destination !in trace[k].names && Destination in trace[k + 1].names
    ensures var t := trace[k + 1]; exists i :: 0 <= i < |data| && HoldsBytesOf(data, t, i)
  {
    StepAt(data, trace, k);
    hide Execution, HasLinked;
    var t := trace[k + 1];
    var i :| 0 <= i < |data| && HasLinked(t, i) && t.bytes[t.names[Destination]] == data[i];
    assert HoldsBytesOf(data, t, i);
  }

  lemma StepKeepsHolder(data: seq<string>, trace: seq<State>, k: nat, i: nat)
    requires Execution(data, trace) && k + 1 < |trace| && i < |data| && HoldsBytesOf(data, trace[k], i)
    ensures HoldsBytesOf(data, trace[k + 1], i)
  {
    StepKeepsBytes(data, trace, k);
    LinkedForEver(data, trace, k, i);
    PhaseCount(data, trace, k + 1);
    hide Execution, HasLinked;
  }

  lemma StepLinksNobody(data: seq<string>, trace: seq<State>, k: nat, i: nat)
    requires Execution(data, trace) && k + 1 < |trace| && i < |data| && Destination in trace[k].names
    ensures |trace[k].phases| == |trace[k + 1].phases| == |data| && (HasLinked(trace[k + 1], i) ==> HasLinked(trace[k], i))
  {
    PhaseCount(data, trace, k);
    PhaseCount(data, trace, k + 1);
    StepAt(data, trace, k);
    hide Execution, HasLinked;
  }

  // ---- the guarantees over every execution -----------------------------------------------------------

  /** Once present, the destination keeps its bytes for ever. */
  lemma {:induction false} NeverReplaced(data: seq<string>, trace: seq<State>, k: nat, m: nat)
    requires Execution(data, trace) && k <= m < |trace| && Destination in trace[k].names
    ensures Present(trace[k]) && Present(trace[m])
    ensures trace[m].bytes[trace[m].names[Destination]] == trace[k].bytes[trace[k].names[Destination]]
    decreases m
  {
    hide Execution;
    PresentAt(data, trace, k);
    if k < m {
      NeverReplaced(data, trace, k, m - 1);
      StepKeepsBytes(data, trace, m - 1);
    }
  }

  /** Stopped at any step, a destination that did not exist before is absent or holds the complete
      bytes of a publisher that linked it. */
  lemma {:induction false} CompleteOrAbsent(data: seq<string>, trace: seq<State>, k: nat)
    requires Execution(data, trace) && k < |trace| && Destination !in trace[0].names
    ensures Destination in trace[k].names ==> exists i :: 0 <= i < |data| && HoldsBytesOf(data, trace[k], i)
  {
    hide *;
    if k > 0 && Destination in trace[k].names {
      if Destination in trace[k - 1].names {
        CompleteOrAbsent(data, trace, k - 1);
        var i :| 0 <= i < |data| && HoldsBytesOf(data, trace[k - 1], i);
        StepKeepsHolder(data, trace, k - 1, i);
      } else {
        StepPublishes(data, trace, k - 1);
      }
    }
  }

  lemma LinkedForEver(data: seq<string>, trace: seq<State>, k: nat, i: nat)
    requires Execution(data, trace) && k + 1 < |trace| && i < |data| && |trace[k].phases| == |data| && HasLinked(trace[k], i)
    ensures |trace[k + 1].phases| == |data| && HasLinked(trace[k + 1], i)
  {
    assert Next(data, trace[k], trace[k + 1]);
    var j: nat :| j < |data| && StepOf(data, trace[k], trace[k + 1], j);
    hide Execution;
  }

  /** At most one publisher succeeds, and then the destination holds exactly its bytes. */
  lemma OneSuccess(data: seq<string>, trace: seq<State>, k: nat, i: nat)
    requires Execution(data, trace) && k < |trace| && i < |data|
    requires trace[k].phases[i].Done? && trace[k].phases[i].ok
    ensures Present(trace[k]) && trace[k].bytes[trace[k].names[Destination]] == data[i]
    ensures forall j :: 0 <= j < |data| && trace[k].phases[j].Done? && trace[k].phases[j].ok ==> j == i
  {
    AlwaysInv(data, trace, k);
    assert LinkedHolds(data, trace[k], i) && HasLinked(trace[k], i);
    forall j | 0 <= j < |data| && trace[k].phases[j].Done? && trace[k].phases[j].ok ensures j == i {
      assert HasLinked(trace[k], j);
    }
  }

  /** Over a destination that existed before, nobody succeeds and nothing changes. */
  lemma {:induction false} ExistingDestinationWins(data: seq<string>, trace: seq<State>, k: nat, i: nat)
    requires Execution(data, trace) && k < |trace| && i < |data| && Destination in trace[0].names
    ensures |trace[k].phases| == |data| && !HasLinked(trace[k], i)
    ensures Present(trace[0]) && Present(trace[k])
    ensures trace[k].bytes[trace[k].names[Destination]] == trace[0].bytes[trace[0].names[Destination]]
  {
    NeverReplaced(data, trace, 0, k);
    PhaseCount(data, trace, k);
    if k == 0 {
      assert trace[0].phases[i] == Idle;
    } else {
      hide Execution, HasLinked;
      ExistingDestinationWins(data, trace, k - 1, i);
      assert Destination in trace[k - 1].names;
      StepLinksNobody(data, trace, k - 1, i);
    }
  }
}
