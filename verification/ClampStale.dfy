/** Runs whose candidates may be older than the state they are committed into: the control task works on a snapshot, and
    other commits may complete before its candidate is sent. */
module ClampStale {
  import opened Numeric
  import opened Calibration
  import opened TorqueClamp
  import opened ClampRun
  import opened ClampCommit
  import opened ClampSafety
  import opened ClampSelection
  import opened ClampFamilies
  import opened ClampRuns

  function StaleNext(step: Step, rt: Runtime, snapshot: State, st: State): State {
    NoteHardwareCommit(st, Candidate(step, rt, snapshot), Committed(step, rt, snapshot), step.commitUs,
                       step.zeroConfirmed, step.consistent, rt)
  }

  /** Step i of the run commits into its state what it computed from the state before step snapshots[i]. */
  predicate StaleStep(states: seq<State>, steps: seq<Step>, snapshots: seq<nat>, rt: Runtime, i: nat)
    requires i < |steps| == |snapshots| && |states| == |steps| + 1
  {
    snapshots[i] <= i && states[i + 1] == StaleNext(steps[i], rt, states[snapshots[i]], states[i])
  }

  /** The states of a run from initialisation in which every snapshot may be any earlier state. */
  ghost predicate StaleRun(states: seq<State>, steps: seq<Step>, snapshots: seq<nat>, rt: Runtime) {
    && |snapshots| == |steps| && |states| == |steps| + 1 && states[0] == INITIAL_STATE
    && forall i :: 0 <= i < |steps| ==> StaleStep(states, steps, snapshots, rt, i)
  }

  /** The state that step i was computed from. */
  function SnapshotOf(states: seq<State>, snapshots: seq<nat>, i: nat): State
    requires i < |snapshots| < |states| && snapshots[i] <= i
  {
    states[snapshots[i]]
  }

  function StaleCommit(states: seq<State>, steps: seq<Step>, snapshots: seq<nat>, rt: Runtime, i: nat): real
    requires i < |steps| == |snapshots| < |states| && snapshots[i] <= i
  {
    Committed(steps[i], rt, SnapshotOf(states, snapshots, i))
  }

  lemma ThreeStates(states: seq<State>, steps: seq<Step>, snapshots: seq<nat>, rt: Runtime)
    requires |steps| == |snapshots| == 3 && |states| == 4 && states[0] == INITIAL_STATE
    requires StaleStep(states, steps, snapshots, rt, 0) && StaleStep(states, steps, snapshots, rt, 1)
    requires StaleStep(states, steps, snapshots, rt, 2)
    ensures StaleRun(states, steps, snapshots, rt)
  {
  }

  // ---------------------------------------------------------------------------------------------
  // Fresh snapshots
  // ---------------------------------------------------------------------------------------------

  lemma FreshNext(step: Step, rt: Runtime, st: State)
    requires RuntimeValid(rt)
    ensures StaleNext(step, rt, st, st) == Next(step, rt, st)
  {
  }

  lemma RunStarts(steps: seq<Step>, rt: Runtime)
    requires RuntimeValid(rt)
    ensures StateAt(steps, rt, 0) == INITIAL_STATE
  {
    assert steps[..0] == [];
  }

  lemma FreshStep(states: seq<State>, steps: seq<Step>, snapshots: seq<nat>, rt: Runtime, i: nat)
    requires RuntimeValid(rt) && i < |steps| == |snapshots| && |states| == |steps| + 1
    requires StaleStep(states, steps, snapshots, rt, i) && snapshots[i] == i && states[i] == StateAt(steps, rt, i)
    ensures states[i + 1] == StateAt(steps, rt, i + 1)
  {
    FreshNext(steps[i], rt, states[i]);
    StateAtNext(steps, rt, i);
  }

  lemma {:induction false} FreshStates(states: seq<State>, steps: seq<Step>, snapshots: seq<nat>, rt: Runtime, i: nat)
    requires RuntimeValid(rt) && StaleRun(states, steps, snapshots, rt) && i <= |steps|
    requires forall k :: 0 <= k < |steps| ==> snapshots[k] == k
    ensures states[i] == StateAt(steps, rt, i)
  {
    if i == 0 {
      RunStarts(steps, rt);
    } else {
      FreshStates(states, steps, snapshots, rt, i - 1);
      FreshStep(states, steps, snapshots, rt, i - 1);
    }
  }

  /** With fresh snapshots these are exactly the runs of ClampRuns. */
  lemma FreshSnapshotsAgree(states: seq<State>, steps: seq<Step>, snapshots: seq<nat>, rt: Runtime)
    requires RuntimeValid(rt) && |snapshots| == |steps| && forall k :: 0 <= k < |steps| ==> snapshots[k] == k
    ensures StaleRun(states, steps, snapshots, rt) <==> states == StatesUpTo(steps, rt, |steps|)
  {
    if StaleRun(states, steps, snapshots, rt) {
      forall i | 0 <= i <= |steps| ensures states[i] == StateAt(steps, rt, i) {
        FreshStates(states, steps, snapshots, rt, i);
      }
    }
    if states == StatesUpTo(steps, rt, |steps|) {
      RunStarts(steps, rt);
      forall i | 0 <= i < |steps| ensures StaleStep(states, steps, snapshots, rt, i) {
        StateAtNext(steps, rt, i);
        FreshNext(steps[i], rt, StateAt(steps, rt, i));
      }
    }
  }

  // ---------------------------------------------------------------------------------------------
  // What survives
  // ---------------------------------------------------------------------------------------------

  lemma CommitKeepsCommandInv(step: Step, rt: Runtime, snapshot: State, st: State)
    requires QualifiedRuntime(rt) && CommandInv(snapshot)
    ensures var after := StaleNext(step, rt, snapshot, st);
            CommandInv(after) && !after.path.UnknownPath? && after.committed == Committed(step, rt, snapshot)
  {
    ZeroIsQuantum();
    SelectedIsQuantum(step.input, rt, snapshot);
    var candidate, committed, cal := Candidate(step, rt, snapshot), Committed(step, rt, snapshot), rt.calibration.value;
    var p := AdvancedBy(st, candidate, committed, step.commitUs, step.zeroConfirmed, step.consistent, cal);
    AdvancedPath(st, candidate, committed, step.commitUs, step.zeroConfirmed, step.consistent, cal);
    NoteTransition(st, candidate, committed, step.commitUs, step.zeroConfirmed, step.consistent, cal, p);
  }

  lemma InitialCommandInv()
    ensures CommandInv(INITIAL_STATE)
  {
    ZeroIsQuantum();
  }

  lemma {:induction false} StaleKeepsCommandInv(states: seq<State>, steps: seq<Step>, snapshots: seq<nat>, rt: Runtime,
                                                i: nat)
    requires QualifiedRuntime(rt) && StaleRun(states, steps, snapshots, rt) && i <= |steps|
    ensures CommandInv(states[i])
    ensures i > 0 ==> snapshots[i - 1] < i && states[i].committed == StaleCommit(states, steps, snapshots, rt, i - 1)
  {
    if i == 0 {
      InitialCommandInv();
    } else {
      assert StaleStep(states, steps, snapshots, rt, i - 1);
      StaleKeepsCommandInv(states, steps, snapshots, rt, snapshots[i - 1]);
      CommitKeepsCommandInv(steps[i - 1], rt, states[snapshots[i - 1]], states[i - 1]);
    }
  }

  /** However old its snapshot, a nonzero commit respects the caps and has its whole steady current uncertainty within
      the limits read at that commit; its transition envelope is the one of its snapshot. */
  lemma StaleCommitIsSafe(states: seq<State>, steps: seq<Step>, snapshots: seq<nat>, rt: Runtime, i: nat)
    requires QualifiedRuntime(rt) && StaleRun(states, steps, snapshots, rt) && i < |steps| && snapshots[i] <= i
    requires StaleCommit(states, steps, snapshots, rt, i) != 0.0
    ensures var step, c := steps[i], StaleCommit(states, steps, snapshots, rt, i);
            var base := SnapshotOf(states, snapshots, i);
            var out, limits := Run(step.input, rt, base).1, step.verification.limits;
            && out.selected == c && IsQuantum(c) && Previous(base) == base.committed
            && step.verification.negativeCap <= c <= step.verification.positiveCap
            && SteadyInsideLimits(c, out.microstep, step.input.point, rt.calibration.value, limits)
            && (!out.microstep && Exposes(c, base.committed, base) ==>
                  TransitionInsideLimits(ExposedMove(c, step.input, base), rt.calibration.value, limits))
  {
    StaleKeepsCommandInv(states, steps, snapshots, rt, snapshots[i]);
    SelectedIsQuantum(steps[i].input, rt, states[snapshots[i]]);
    CommittedTorqueIsSafe(steps[i].input, rt, states[snapshots[i]], steps[i].verification);
  }

  /** And it was computed for the operating point, the calibration and the capability in force at that commit. */
  lemma StaleCommitIsCurrent(states: seq<State>, steps: seq<Step>, snapshots: seq<nat>, rt: Runtime, i: nat)
    requires StaleRun(states, steps, snapshots, rt) && i < |steps| && snapshots[i] <= i
    requires StaleCommit(states, steps, snapshots, rt, i) != 0.0
    ensures InForce(steps[i].input, steps[i].verification) && steps[i].contract && !steps[i].overrun
  {
    CommittedIffInForce(steps[i].input, rt, states[snapshots[i]], steps[i].verification);
  }

  // ---------------------------------------------------------------------------------------------
  // When reversal safety survives
  // ---------------------------------------------------------------------------------------------

  /** The cells keep the signs of the request and of the torque in the snapshot. */
  ghost predicate SignsKeptFrom(step: Step, rt: Runtime, snapshot: State)
    requires RuntimeValid(rt)
  {
    BothSignsKept(rt.calibration.value, Previous(snapshot), Request(step.input))
  }

  lemma OppositionIsStale(step: Step, rt: Runtime, snapshot: State, previous: real)
    requires QualifiedRuntime(rt) && CommandInv(snapshot) && SignsKeptFrom(step, rt, snapshot)
    requires Opposite(previous, Committed(step, rt, snapshot))
    ensures snapshot.committed != previous
  {
    NonzeroCommitIsCandidate(step, rt, snapshot);
  }

  /** A commit opposes the one before it only if its snapshot does not hold that torque. */
  lemma StaleNeighboursOppose(states: seq<State>, steps: seq<Step>, snapshots: seq<nat>, rt: Runtime, i: nat)
    requires QualifiedRuntime(rt) && StaleRun(states, steps, snapshots, rt) && i + 1 < |steps|
    requires snapshots[i] <= i && snapshots[i + 1] <= i + 1
    requires SignsKeptFrom(steps[i + 1], rt, SnapshotOf(states, snapshots, i + 1))
    requires Opposite(StaleCommit(states, steps, snapshots, rt, i), StaleCommit(states, steps, snapshots, rt, i + 1))
    ensures SnapshotOf(states, snapshots, i + 1).committed != states[i + 1].committed
  {
    StaleKeepsCommandInv(states, steps, snapshots, rt, snapshots[i + 1]);
    StaleKeepsCommandInv(states, steps, snapshots, rt, i + 1);
    OppositionIsStale(steps[i + 1], rt, states[snapshots[i + 1]], states[i + 1].committed);
  }

  /** The commit that led from state k to state k + 1 lies outside the zero band. */
  predicate OutsideAt(states: seq<State>, k: nat, cal: Calibration)
    requires k + 1 < |states|
  {
    !NormalizedZero(states[k + 1].committed, states[k].normalizedZero, cal)
  }

  /** Commit j is the last one outside the zero band before state i. */
  ghost predicate StaleLastOutside(states: seq<State>, j: nat, i: nat, cal: Calibration)
    requires i < |states|
  {
    j < i && OutsideAt(states, j, cal) && forall k :: j < k < i ==> !OutsideAt(states, k, cal)
  }

  lemma StaleRemembersSign(step: Step, rt: Runtime, snapshot: State, st: State)
    requires RuntimeValid(rt)
    ensures var after := StaleNext(step, rt, snapshot, st);
            RemembersSign(st, after.committed, after, rt.calibration.value)
  {
  }

  lemma StaleSignStep(states: seq<State>, steps: seq<Step>, snapshots: seq<nat>, rt: Runtime, k: nat)
    requires RuntimeValid(rt) && StaleRun(states, steps, snapshots, rt) && k < |steps|
    ensures RemembersSign(states[k], states[k + 1].committed, states[k + 1], rt.calibration.value)
  {
    assert StaleStep(states, steps, snapshots, rt, k);
    StaleRemembersSign(steps[k], rt, states[snapshots[k]], states[k]);
  }

  /** The remembered sign is still that of the last commit outside the zero band. */
  lemma StaleSignIsRemembered(states: seq<State>, steps: seq<Step>, snapshots: seq<nat>, rt: Runtime, j: nat, i: nat)
    requires RuntimeValid(rt) && StaleRun(states, steps, snapshots, rt) && i <= |steps|
    requires StaleLastOutside(states, j, i, rt.calibration.value)
    ensures states[i].lastNonzeroSign == SignOf(states[j + 1].committed)
  {
    var cal := rt.calibration.value;
    var commits := seq(i, k requires 0 <= k < i => states[k + 1].committed);
    forall k | j <= k < i ensures RemembersSign(states[k], commits[k], states[k + 1], cal) {
      StaleSignStep(states, steps, snapshots, rt, k);
    }
    forall k | j < k < i ensures NormalizedZero(commits[k], states[k].normalizedZero, cal) {
      assert !OutsideAt(states, k, cal);
    }
    SignMemory(states[..i + 1], commits, cal, j);
  }

  lemma ReversalIsStale(step: Step, rt: Runtime, snapshot: State, sign: Sign)
    requires QualifiedRuntime(rt) && CommandInv(snapshot) && SignsKeptFrom(step, rt, snapshot)
    requires Committed(step, rt, snapshot) != 0.0
    requires !sign.NoSign? && sign != SignOf(Committed(step, rt, snapshot))
    ensures (step.input.physicalZeroConfirmed && step.verification.physicalZeroConfirmed)
            || snapshot.lastNonzeroSign != sign
  {
    NonzeroCommitIsCandidate(step, rt, snapshot);
  }

  /** A nonzero commit that opposes the last one outside the zero band had physical zero confirmed when it was computed
      and when it was committed, or its snapshot remembers another sign than the state it is committed into. */
  lemma StaleReversal(states: seq<State>, steps: seq<Step>, snapshots: seq<nat>, rt: Runtime, j: nat, i: nat)
    requires QualifiedRuntime(rt) && StaleRun(states, steps, snapshots, rt) && i < |steps| && snapshots[i] <= i
    requires SignsKeptFrom(steps[i], rt, SnapshotOf(states, snapshots, i))
    requires StaleLastOutside(states, j, i, rt.calibration.value)
    requires Opposite(states[j + 1].committed, StaleCommit(states, steps, snapshots, rt, i))
    ensures (steps[i].input.physicalZeroConfirmed && steps[i].verification.physicalZeroConfirmed)
            || SnapshotOf(states, snapshots, i).lastNonzeroSign != states[i].lastNonzeroSign
  {
    StaleKeepsCommandInv(states, steps, snapshots, rt, snapshots[i]);
    StaleSignIsRemembered(states, steps, snapshots, rt, j, i);
    ReversalIsStale(steps[i], rt, states[snapshots[i]], states[i].lastNonzeroSign);
  }
}
