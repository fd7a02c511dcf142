/** Whole runs of control steps: compute a candidate, re-verify it, commit it, starting from the initial state. */
module ClampRuns {
  import opened Numeric
  import opened Calibration
  import opened SteadyModel
  import opened TransitionModel
  import opened TorqueClamp
  import opened ClampRun
  import opened ClampCommit
  import opened ClampCells
  import opened ClampSafety
  import opened ClampSelection
  import opened ClampFamilies

  /** One control step whose frame reached the bus. Without a contract (a missing or unusable candidate, or a latched
      residual fault) the commit carries zero; a deadline overrun replaces the candidate by the static zero. */
  datatype Step = Step(
    input: ClampInput, overrun: bool, contract: bool, verification: Verification,
    commitUs: Word32, zeroConfirmed: bool, consistent: bool)

  function Candidate(step: Step, rt: Runtime, st: State): Option<Output> {
    var (usable, out) := Run(step.input, rt, st);
    if !step.contract || !usable then None
    else if step.overrun then Some(ForceStaticZero(step.input, rt, st, DeadlineOverrun, out))
    else Some(out)
  }

  function Committed(step: Step, rt: Runtime, st: State): real {
    match Candidate(step, rt, st)
    case None => 0.0
    case Some(candidate) => Reverify(candidate, step.verification).torque
  }

  function Next(step: Step, rt: Runtime, st: State): State
    requires RuntimeValid(rt)
  {
    NoteHardwareCommit(st, Candidate(step, rt, st), Committed(step, rt, st), step.commitUs, step.zeroConfirmed,
                       step.consistent, rt)
  }

  function StateAfter(steps: seq<Step>, rt: Runtime): State
    requires RuntimeValid(rt)
  {
    if steps == [] then INITIAL_STATE else Next(steps[|steps| - 1], rt, StateAfter(steps[..|steps| - 1], rt))
  }

  /** The state in which step i computes its candidate, and the torque it commits. */
  function StateAt(steps: seq<Step>, rt: Runtime, i: nat): State
    requires RuntimeValid(rt) && i <= |steps|
  {
    StateAfter(steps[..i], rt)
  }

  function CommitAt(steps: seq<Step>, rt: Runtime, i: nat): real
    requires RuntimeValid(rt) && i < |steps|
  {
    Committed(steps[i], rt, StateAt(steps, rt, i))
  }

  lemma StateAtNext(steps: seq<Step>, rt: Runtime, i: nat)
    requires RuntimeValid(rt) && i < |steps|
    ensures StateAt(steps, rt, i + 1) == Next(steps[i], rt, StateAt(steps, rt, i))
    ensures StateAt(steps, rt, i + 1).committed == CommitAt(steps, rt, i)
  {
    assert steps[..i + 1][..i] == steps[..i];
  }

  lemma NextNotes(step: Step, rt: Runtime, st: State, out: Output, committed: real)
    requires RuntimeValid(rt) && Candidate(step, rt, st) == Some(out) && Committed(step, rt, st) == committed
    ensures Next(step, rt, st) == NoteCommit(st, Some(out), committed, step.commitUs, step.zeroConfirmed,
                                             step.consistent, rt.calibration.value)
  {
  }

  lemma FirstTwoSteps(steps: seq<Step>, rt: Runtime)
    requires RuntimeValid(rt) && |steps| >= 2
    ensures CommitAt(steps, rt, 0) == Committed(steps[0], rt, INITIAL_STATE) && StateAt(steps, rt, 0) == INITIAL_STATE
    ensures StateAt(steps, rt, 1) == Next(steps[0], rt, INITIAL_STATE)
    ensures CommitAt(steps, rt, 1) == Committed(steps[1], rt, Next(steps[0], rt, INITIAL_STATE))
  {
    assert steps[..0] == [];
    StateAtNext(steps, rt, 0);
  }

  // ---------------------------------------------------------------------------------------------
  // Every selected torque is a whole number of command steps
  // ---------------------------------------------------------------------------------------------

  lemma {:induction false} PrefixUpQuantum(path: Interval, request: real, input: ClampInput, rt: Runtime, index: nat,
                                           acc: Prefix)
    requires RuntimeValid(rt) && index <= |rt.calibration.value.steadyCells| && IsQuantum(acc.best)
    ensures IsQuantum(PrefixUp(path, request, input, rt, index, acc).best)
    decreases |rt.calibration.value.steadyCells| - index
  {
    var cal := rt.calibration.value;
    if index < |cal.steadyCells| {
      var cell := cal.steadyCells[index];
      QuantizeTowardZero(PositiveCandidate(cell, cal, Min(request, cell.torque.hi)));
      PrefixUpQuantum(path, request, input, rt, index + 1, acc);
      PrefixUpQuantum(path, request, input, rt, index + 1,
                      Prefix(UpwardBest(cal, cell, request), CellSteady(index, input, rt).current, true,
                             CountCell(acc.tally)));
    }
  }

  lemma {:induction false} PrefixDownQuantum(path: Interval, request: real, input: ClampInput, rt: Runtime,
                                             reverse: nat, acc: Prefix)
    requires RuntimeValid(rt) && reverse <= |rt.calibration.value.steadyCells| && IsQuantum(acc.best)
    ensures IsQuantum(PrefixDown(path, request, input, rt, reverse, acc).best)
  {
    var cal := rt.calibration.value;
    if reverse > 0 {
      var cell := cal.steadyCells[reverse - 1];
      QuantizeTowardZero(NegativeCandidate(cell, cal, Max(request, cell.torque.lo)));
      PrefixDownQuantum(path, request, input, rt, reverse - 1, acc);
      PrefixDownQuantum(path, request, input, rt, reverse - 1,
                        Prefix(DownwardBest(cal, cell, request), CellSteady(reverse - 1, input, rt).current, true,
                               CountCell(acc.tally)));
    }
  }

  lemma ReduceQuantum(request: real, input: ClampInput, rt: Runtime, tally: Tally)
    requires RuntimeValid(rt)
    ensures var r := ReduceTowardZero(request, input, rt, tally); r.found.Some? ==> IsQuantum(r.found.value.0)
  {
    var cal := rt.calibration.value;
    if ReduceTowardZero(request, input, rt, tally).found.Some? {
      if request > 0.0 {
        var found := ReducePositiveFound(request, input, rt, |cal.steadyCells|, tally);
        QuantizeTowardZero(PositiveCandidate(cal.steadyCells[found], cal, request));
      } else {
        var found := ReduceNegativeFound(request, input, rt, 0, tally);
        QuantizeTowardZero(NegativeCandidate(cal.steadyCells[found], cal, request));
      }
    }
  }

  lemma ChoiceQuantum(previous: real, request: real, input: ClampInput, rt: Runtime, st: State)
    requires RuntimeValid(rt) && IsQuantum(previous) && IsQuantum(request)
    ensures var choice := Choose(previous, request, Hold(previous, input, rt, st), input, rt, st);
            choice.Pick? ==> IsQuantum(choice.torque)
  {
    var held := Hold(previous, input, rt, st);
    var start := Prefix(previous, NO_CURRENT, false, held.tally);
    PrefixUpQuantum(PathOf(previous, request), request, input, rt, 0, start);
    PrefixDownQuantum(PathOf(previous, request), request, input, rt, |rt.calibration.value.steadyCells|, start);
    ReduceQuantum(previous, input, rt, held.tally);
    var microstep := TracksMicrostep(previous, request, input, st, rt.calibration.value);
    ReduceQuantum(request, input, rt, CountSteady(held.tally, ExactSteady(request, microstep, input, rt)));
  }

  /** The command sent on the wire loses nothing: what a run selects is a whole number of 0.1 Nm steps. */
  lemma SelectedIsQuantum(input: ClampInput, rt: Runtime, st: State)
    requires IsQuantum(st.committed)
    ensures IsQuantum(Run(input, rt, st).1.selected)
  {
    ZeroIsQuantum();
    if Run(input, rt, st).1.selected != 0.0 {
      NonzeroCandidate(input, rt, st);
      var previous, request, pick := Previous(st), Request(input), ChoiceOf(input, rt, st);
      QuantizeTowardZero(ClampCapability(input.requested, input));
      ChoiceQuantum(previous, request, input, rt, st);
      JudgeBounded(pick, MicrostepOf(input, rt, st), previous, request, HeldOf(input, rt, st), input, rt, st,
                   NoSign, Max(Abs(previous), Abs(pick.torque)));
    }
  }

  // ---------------------------------------------------------------------------------------------
  // The invariant of all reachable states
  // ---------------------------------------------------------------------------------------------

  predicate InBracket(x: real, t: ActiveTransition) {
    t.minimum <= x <= t.maximum
  }

  predicate TransitionInv(t: ActiveTransition, committed: real, cal: Calibration) {
    if t.active then InBracket(t.anchor, t) && InBracket(committed, t)
    else Abs(committed - t.anchor) <= t.cumulativeDrift <= cal.maximumCumulativeDrift
  }

  /** The command history by itself. */
  ghost predicate CommandInv(st: State) {
    IsQuantum(st.committed) && (st.path.UnknownPath? ==> st.committed == 0.0 && st.lastNonzeroSign.NoSign?)
  }

  ghost predicate Inv(st: State, cal: Calibration) {
    && CommandInv(st)
    && TransitionInv(st.transition, st.committed, cal)
  }

  /** What commit bookkeeping relies on: the candidate describes its own move from the committed torque. */
  ghost predicate DescribesItsMove(out: Output, st: State, cal: Calibration) {
    out.outputValid ==>
      && IsQuantum(out.selected)
      && (out.materialChange <==> !out.microstep && out.selected != st.committed)
      && (out.microstep ==>
            !st.transition.active
            && st.transition.cumulativeDrift + Abs(out.selected - st.committed) <= cal.maximumCumulativeDrift)
  }

  /** A zero output reports a material change exactly when it replaces a nonzero torque, and is never a microstep. */
  predicate DescribesZero(out: Output, st: State) {
    out.outputValid ==> !out.microstep && (out.materialChange <==> st.committed != 0.0)
  }

  lemma FinishDescribesZero(input: ClampInput, rt: Runtime, st: State, reversal: bool, exhausted: bool, reason: Reason,
                            tally: Tally)
    requires RuntimeValid(rt)
    ensures DescribesZero(FinishZero(input, rt, st, reversal, exhausted, reason, tally), st)
  {
  }

  lemma ConcludeDescribesZero(j: Judged, microstep: bool, input: ClampInput, rt: Runtime, st: State)
    requires RuntimeValid(rt) && j.Judged? && Previous(st) == st.committed
    requires microstep ==> j.torque != 0.0
    requires Conclude(j, microstep, Previous(st), Request(input), input, rt, st).selected == 0.0
    ensures DescribesZero(Conclude(j, microstep, Previous(st), Request(input), input, rt, st), st)
  {
    var checked := CountSteady(j.tally, ExactSteady(j.torque, microstep, input, rt));
    FinishDescribesZero(input, rt, st, false, true, CurrentLimit, checked);
  }

  lemma AdmittedDescribesZero(input: ClampInput, rt: Runtime, st: State)
    requires RuntimeValid(rt) && Previous(st) == st.committed && RunAdmitted(input, rt, st).selected == 0.0
    requires Request(input) != 0.0
    ensures DescribesZero(RunAdmitted(input, rt, st), st)
  {
    var held, choice := HeldOf(input, rt, st), ChoiceOf(input, rt, st);
    FinishDescribesZero(input, rt, st, true, false, ReversalWait, held.tally);
    FinishDescribesZero(input, rt, st, false, true, choice.reason, choice.tally);
    if choice.Pick? {
      var j, microstep := JudgedOf(input, rt, st), MicrostepOf(input, rt, st);
      FinishDescribesZero(input, rt, st, false, true, TransitionLimit, j.tally);
      if SameSign(Previous(st), Request(input)) && j.Judged? {
        assert microstep ==> j.torque == Request(input);
        ConcludeDescribesZero(j, microstep, input, rt, st);
      }
    }
  }

  lemma RunDescribesZero(input: ClampInput, rt: Runtime, st: State)
    requires QualifiedRuntime(rt) && Previous(st) == st.committed && Run(input, rt, st).1.selected == 0.0
    ensures DescribesZero(Run(input, rt, st).1, st)
  {
    if input.positiveCap >= 0.0 && input.negativeCap <= 0.0 {
      match Admit(input, rt.calibration.value, st)
      case Refused(reversal, reason) => FinishDescribesZero(input, rt, st, reversal, false, reason, NO_CALLS);
      case Admitted =>
        AdmittedRequest(input, rt, st);
        AdmittedDescribesZero(input, rt, st);
    }
  }

  lemma CandidateDescribesItsMove(step: Step, rt: Runtime, st: State)
    requires QualifiedRuntime(rt) && Inv(st, rt.calibration.value)
    ensures Candidate(step, rt, st).Some? ==> DescribesItsMove(Candidate(step, rt, st).value, st, rt.calibration.value)
  {
    ZeroIsQuantum();
    var out := Run(step.input, rt, st).1;
    SelectedIsQuantum(step.input, rt, st);
    if out.selected == 0.0 {
      RunDescribesZero(step.input, rt, st);
    } else {
      NonzeroCandidate(step.input, rt, st);
      assert out.microstep ==> out.selected == Request(step.input);
    }
  }

  lemma MoveIsConsistent(st: State, candidate: Option<Output>, committed: real, cal: Calibration)
    requires candidate.Some? ==> DescribesItsMove(candidate.value, st, cal)
    requires committed == 0.0 || (candidate.Some? && candidate.value.outputValid
                                  && committed == candidate.value.selected)
    ensures Matches(candidate, committed) ==> committed == candidate.value.selected
    ensures var m := MoveOf(candidate, st.committed, committed, cal);
            && (m.material <==> !m.microstep && committed != st.committed)
            && (m.microstep ==>
                  !st.transition.active
                  && st.transition.cumulativeDrift + Abs(committed - st.committed) <= cal.maximumCumulativeDrift)
  {
    if Matches(candidate, committed) && candidate.value.selected != 0.0 {
      NonzeroQuantum(candidate.value.selected);
    }
  }

  /** The bracket of a command, given the transition record and the torque it leaves. */
  function BracketOf(t: ActiveTransition, previous: real, committed: real): Interval {
    if t.active then Interval(Min(t.minimum, committed), Max(t.maximum, committed))
    else Interval(Min(t.anchor, Min(previous, committed)), Max(t.anchor, Max(previous, committed)))
  }

  predicate RecordsBracket(after: ActiveTransition, t: ActiveTransition, previous: real, committed: real) {
    after.active ==> Interval(after.minimum, after.maximum) == BracketOf(t, previous, committed)
  }

  lemma SettlingKeepsInv(p: Progress, previous: real, committed: real, nowUs: Word32, consistent: bool,
                         cal: Calibration)
    requires p.transition.active && InBracket(p.transition.anchor, p.transition) && InBracket(committed, p.transition)
    requires cal.maximumCumulativeDrift >= 0.0
    ensures var after := AfterSettling(p, previous, committed, nowUs, consistent, cal).transition;
            TransitionInv(after, committed, cal) && RecordsBracket(after, p.transition, previous, committed)
  {
  }

  lemma AdvanceKeepsInv(p: Progress, previous: real, committed: real, m: Move, nowZero: bool, nowUs: Word32,
                        consistent: bool, cal: Calibration)
    requires TransitionInv(p.transition, previous, cal) && cal.maximumCumulativeDrift >= 0.0
    requires m.material <==> !m.microstep && committed != previous
    requires m.microstep ==>
               !p.transition.active
               && p.transition.cumulativeDrift + Abs(committed - previous) <= cal.maximumCumulativeDrift
    ensures var after := Advance(p, previous, committed, m, nowZero, nowUs, consistent, cal).transition;
            TransitionInv(after, committed, cal) && RecordsBracket(after, p.transition, previous, committed)
  {
    var t := p.transition;
    if t.active && !RestartsSettling(m, t, committed, nowZero) {
      SettlingKeepsInv(p, previous, committed, nowUs, consistent, cal);
    }
  }

  /** The drift that a material or settling commit adds only ever accompanies an active transition. */
  lemma NoteTransition(st: State, candidate: Option<Output>, committed: real, nowUs: Word32, zeroConfirmed: bool,
                       consistent: bool, cal: Calibration, p: Progress)
    requires p == AdvancedBy(st, candidate, committed, nowUs, zeroConfirmed, consistent, cal)
    ensures var after := NoteCommit(st, candidate, committed, nowUs, zeroConfirmed, consistent, cal);
            && after.path == p.path && after.committed == committed
            && (if p.transition.active then
                  && after.transition.active && after.transition.anchor == p.transition.anchor
                  && after.transition.minimum == p.transition.minimum
                  && after.transition.maximum == p.transition.maximum
                  && after.transition.cumulativeDrift >= p.transition.cumulativeDrift
                else after.transition == p.transition.(lastCommitUs := nowUs))
  {
  }

  function AdvancedBy(st: State, candidate: Option<Output>, committed: real, nowUs: Word32, zeroConfirmed: bool,
                      consistent: bool, cal: Calibration): Progress {
    var nowZero := NormalizedZero(committed, st.normalizedZero, cal);
    Advance(Progress(CommitPath(st, candidate, committed, nowZero, zeroConfirmed), st.phase,
                     st.transition.(previousCommitted := st.committed)),
            st.committed, committed, MoveOf(candidate, st.committed, committed, cal), nowZero, nowUs, consistent, cal)
  }

  lemma AdvancedKeepsInv(st: State, candidate: Option<Output>, committed: real, nowUs: Word32, zeroConfirmed: bool,
                         consistent: bool, cal: Calibration)
    requires Qualified(cal) && Inv(st, cal)
    requires candidate.Some? ==> DescribesItsMove(candidate.value, st, cal)
    requires committed == 0.0 || (candidate.Some? && candidate.value.outputValid
                                  && committed == candidate.value.selected)
    ensures var after := AdvancedBy(st, candidate, committed, nowUs, zeroConfirmed, consistent, cal).transition;
            TransitionInv(after, committed, cal) && RecordsBracket(after, st.transition, st.committed, committed)
  {
    MoveIsConsistent(st, candidate, committed, cal);
    var nowZero := NormalizedZero(committed, st.normalizedZero, cal);
    AdvanceKeepsInv(Progress(CommitPath(st, candidate, committed, nowZero, zeroConfirmed), st.phase,
                             st.transition.(previousCommitted := st.committed)),
                    st.committed, committed, MoveOf(candidate, st.committed, committed, cal), nowZero, nowUs,
                    consistent, cal);
  }

  lemma AdvancedPath(st: State, candidate: Option<Output>, committed: real, nowUs: Word32, zeroConfirmed: bool,
                     consistent: bool, cal: Calibration)
    ensures !AdvancedBy(st, candidate, committed, nowUs, zeroConfirmed, consistent, cal).path.UnknownPath?
  {
  }

  /** Bookkeeping keeps the invariant, and a commit that leaves a transition active records exactly the bracket on which
      the transition model is evaluated for that command. */
  lemma CommitKeepsInv(st: State, candidate: Option<Output>, committed: real, nowUs: Word32, zeroConfirmed: bool,
                       consistent: bool, cal: Calibration)
    requires Qualified(cal) && Inv(st, cal) && IsQuantum(committed)
    requires candidate.Some? ==> DescribesItsMove(candidate.value, st, cal)
    requires committed == 0.0 || (candidate.Some? && candidate.value.outputValid
                                  && committed == candidate.value.selected)
    ensures var after := NoteCommit(st, candidate, committed, nowUs, zeroConfirmed, consistent, cal);
            && Inv(after, cal) && !after.path.UnknownPath? && after.committed == committed
            && (after.transition.active ==>
                  Interval(after.transition.minimum, after.transition.maximum) == Bracket(st, committed))
  {
    AdvancedKeepsInv(st, candidate, committed, nowUs, zeroConfirmed, consistent, cal);
    AdvancedPath(st, candidate, committed, nowUs, zeroConfirmed, consistent, cal);
    NoteTransition(st, candidate, committed, nowUs, zeroConfirmed, consistent, cal,
                   AdvancedBy(st, candidate, committed, nowUs, zeroConfirmed, consistent, cal));
  }

  lemma StepKeepsInv(step: Step, rt: Runtime, st: State)
    requires QualifiedRuntime(rt) && Inv(st, rt.calibration.value)
    ensures var after := Next(step, rt, st);
            && Inv(after, rt.calibration.value) && after.committed == Committed(step, rt, st)
            && (after.transition.active ==>
                  Interval(after.transition.minimum, after.transition.maximum) == Bracket(st, Committed(step, rt, st)))
  {
    ZeroIsQuantum();
    CandidateDescribesItsMove(step, rt, st);
    CommitKeepsInv(st, Candidate(step, rt, st), Committed(step, rt, st), step.commitUs, step.zeroConfirmed,
                   step.consistent, rt.calibration.value);
  }

  lemma {:induction false} RunKeepsInv(steps: seq<Step>, rt: Runtime, i: nat)
    requires QualifiedRuntime(rt) && i <= |steps|
    ensures Inv(StateAt(steps, rt, i), rt.calibration.value)
  {
    if i == 0 {
      ZeroIsQuantum();
    } else {
      RunKeepsInv(steps, rt, i - 1);
      StateAtNext(steps, rt, i - 1);
      StepKeepsInv(steps[i - 1], rt, StateAt(steps, rt, i - 1));
    }
  }

  // ---------------------------------------------------------------------------------------------
  // Theorems over whole runs
  // ---------------------------------------------------------------------------------------------

  /** In every reachable state an active transition's bracket contains the settled anchor and the committed torque, and
      it is the bracket that the transition model was given for the last command. */
  lemma BracketAgreement(steps: seq<Step>, rt: Runtime, i: nat)
    requires QualifiedRuntime(rt) && i < |steps|
    requires StateAt(steps, rt, i + 1).transition.active
    ensures var before, after := StateAt(steps, rt, i), StateAt(steps, rt, i + 1);
            var c := CommitAt(steps, rt, i);
            && InBracket(after.transition.anchor, after.transition) && InBracket(after.committed, after.transition)
            && after.committed == c
            && forall p, d :: var request := TransitionRequest(c, p, d, steps[i].input, before);
                              request.minimum == after.transition.minimum && request.maximum == after.transition.maximum
  {
    RunKeepsInv(steps, rt, i);
    RunKeepsInv(steps, rt, i + 1);
    StateAtNext(steps, rt, i);
    StepKeepsInv(steps[i], rt, StateAt(steps, rt, i));
  }

  /** With no transition active the committed torque has drifted from the settled anchor by at most the recorded
      cumulative drift, which never exceeds the certified maximum. */
  lemma BoundedMicrostepDrift(steps: seq<Step>, rt: Runtime, i: nat)
    requires QualifiedRuntime(rt) && i <= |steps|
    requires !StateAt(steps, rt, i).transition.active
    ensures var st := StateAt(steps, rt, i);
            Abs(st.committed - st.transition.anchor) <= st.transition.cumulativeDrift
            <= rt.calibration.value.maximumCumulativeDrift
  {
    RunKeepsInv(steps, rt, i);
  }

  /** Every nonzero torque that a run commits is safe against the limits read at its own commit. */
  lemma EveryCommitIsSafe(steps: seq<Step>, rt: Runtime, i: nat)
    requires QualifiedRuntime(rt) && i < |steps| && CommitAt(steps, rt, i) != 0.0
    ensures var st, step, c := StateAt(steps, rt, i), steps[i], CommitAt(steps, rt, i);
            var out := Run(step.input, rt, st).1;
            && out.selected == c && Previous(st) == st.committed
            && step.verification.negativeCap <= c <= step.verification.positiveCap
            && SteadyInsideLimits(c, out.microstep, step.input.point, rt.calibration.value, step.verification.limits)
            && (!out.microstep && Exposes(c, st.committed, st) ==>
                  TransitionInsideLimits(ExposedMove(c, step.input, st), rt.calibration.value,
                                         step.verification.limits))
  {
    RunKeepsInv(steps, rt, i);
    CommittedTorqueIsSafe(steps[i].input, rt, StateAt(steps, rt, i), steps[i].verification);
  }

  /** Every nonzero torque that a run commits was computed for the operating point, the calibration and the
      capability in force at its commit, at most ten milliseconds before. */
  lemma EveryCommitIsCurrent(steps: seq<Step>, rt: Runtime, i: nat)
    requires RuntimeValid(rt) && i < |steps| && CommitAt(steps, rt, i) != 0.0
    ensures InForce(steps[i].input, steps[i].verification) && steps[i].contract && !steps[i].overrun
  {
    CommittedIffInForce(steps[i].input, rt, StateAt(steps, rt, i), steps[i].verification);
  }

  /** The commit lies outside the hysteretic zero band that the state keeps. */
  predicate OutsideZeroBand(steps: seq<Step>, rt: Runtime, i: nat)
    requires RuntimeValid(rt) && i < |steps|
  {
    !NormalizedZero(CommitAt(steps, rt, i), StateAt(steps, rt, i).normalizedZero, rt.calibration.value)
  }

  /** Commit j is the last one outside the zero band before step i. */
  ghost predicate LastOutside(steps: seq<Step>, rt: Runtime, j: nat, i: nat)
    requires RuntimeValid(rt) && i <= |steps|
  {
    && j < i && OutsideZeroBand(steps, rt, j)
    && forall k :: j < k < i ==> !OutsideZeroBand(steps, rt, k)
  }

  lemma NextSign(step: Step, rt: Runtime, st: State)
    requires RuntimeValid(rt)
    ensures Next(step, rt, st).lastNonzeroSign ==
            if NormalizedZero(Committed(step, rt, st), st.normalizedZero, rt.calibration.value) then st.lastNonzeroSign
            else SignOf(Committed(step, rt, st))
  {
  }

  /** How one commit updates the remembered sign. */
  predicate RemembersSign(before: State, commit: real, after: State, cal: Calibration) {
    after.lastNonzeroSign ==
    if NormalizedZero(commit, before.normalizedZero, cal) then before.lastNonzeroSign else SignOf(commit)
  }

  lemma {:induction false} SignMemory(states: seq<State>, commits: seq<real>, cal: Calibration, j: nat)
    requires j < |commits| && |states| == |commits| + 1
    requires forall k :: j <= k < |commits| ==> RemembersSign(states[k], commits[k], states[k + 1], cal)
    requires !NormalizedZero(commits[j], states[j].normalizedZero, cal)
    requires forall k :: j < k < |commits| ==> NormalizedZero(commits[k], states[k].normalizedZero, cal)
    ensures states[|commits|].lastNonzeroSign == SignOf(commits[j])
  {
    var n := |commits| - 1;
    assert RemembersSign(states[n], commits[n], states[n + 1], cal);
    if j < n {
      SignMemory(states[..n + 1], commits[..n], cal, j);
    }
  }

  function StatesUpTo(steps: seq<Step>, rt: Runtime, i: nat): (states: seq<State>)
    requires RuntimeValid(rt) && i <= |steps|
    ensures |states| == i + 1 && forall k :: 0 <= k <= i ==> states[k] == StateAt(steps, rt, k)
  {
    seq(i + 1, k requires 0 <= k <= i => StateAt(steps, rt, k))
  }

  function CommitsUpTo(steps: seq<Step>, rt: Runtime, i: nat): (commits: seq<real>)
    requires RuntimeValid(rt) && i <= |steps|
    ensures |commits| == i && forall k :: 0 <= k < i ==> commits[k] == CommitAt(steps, rt, k)
  {
    seq(i, k requires 0 <= k < i => CommitAt(steps, rt, k))
  }

  lemma SignAfter(steps: seq<Step>, rt: Runtime, i: nat)
    requires RuntimeValid(rt) && i < |steps|
    ensures RemembersSign(StateAt(steps, rt, i), CommitAt(steps, rt, i), StateAt(steps, rt, i + 1),
                          rt.calibration.value)
  {
    StateAtNext(steps, rt, i);
    NextSign(steps[i], rt, StateAt(steps, rt, i));
  }

  lemma LastSignIsRemembered(steps: seq<Step>, rt: Runtime, j: nat, i: nat)
    requires RuntimeValid(rt) && i <= |steps| && LastOutside(steps, rt, j, i)
    ensures StateAt(steps, rt, i).lastNonzeroSign == SignOf(CommitAt(steps, rt, j))
  {
    var states, commits := StatesUpTo(steps, rt, i), CommitsUpTo(steps, rt, i);
    forall k | j <= k < i ensures RemembersSign(states[k], commits[k], states[k + 1], rt.calibration.value) {
      SignAfter(steps, rt, k);
    }
    forall k | j < k < i ensures NormalizedZero(commits[k], states[k].normalizedZero, rt.calibration.value) {
      assert !OutsideZeroBand(steps, rt, k);
    }
    SignMemory(states, commits, rt.calibration.value, j);
  }

  predicate Opposite(a: real, b: real) {
    (a > 0.0 && b < 0.0) || (a < 0.0 && b > 0.0)
  }

  /** The cells keep the signs of the request and of the previous torque of this step. One-sided cells always do. */
  ghost predicate SignsKeptAt(steps: seq<Step>, rt: Runtime, i: nat)
    requires RuntimeValid(rt) && i < |steps|
  {
    BothSignsKept(rt.calibration.value, Previous(StateAt(steps, rt, i)), Request(steps[i].input))
  }

  lemma OneSidedRunsKeepSigns(steps: seq<Step>, rt: Runtime, i: nat)
    requires QualifiedRuntime(rt) && NoCellStraddlesZero(rt.calibration.value) && i < |steps|
    ensures SignsKeptAt(steps, rt, i)
  {
    var cal := rt.calibration.value;
    forall c | 0 <= c < |cal.steadyCells| ensures cal.steadyCells[c].torque.lo < cal.steadyCells[c].torque.hi {
      CellNonempty(cal, c);
    }
    OneSidedCellsKeepSigns(cal, Previous(StateAt(steps, rt, i)));
    OneSidedCellsKeepSigns(cal, Request(steps[i].input));
  }

  lemma NonzeroCommitIsCandidate(step: Step, rt: Runtime, st: State)
    requires QualifiedRuntime(rt) && CommandInv(st)
    requires BothSignsKept(rt.calibration.value, Previous(st), Request(step.input))
    requires Committed(step, rt, st) != 0.0
    ensures var out := Run(step.input, rt, st).1;
            && Committed(step, rt, st) == out.selected
            && SignOf(out.selected) == SignOf(Request(step.input))
            && SameSign(st.committed, Request(step.input))
            && (ReversalRequest(st, Request(step.input)) ==>
                  step.input.physicalZeroConfirmed && step.verification.physicalZeroConfirmed)
  {
    NonzeroCandidate(step.input, rt, st);
    NoAmplification(step.input, rt, st);
  }

  /** Reversal safety, first half: where the cells keep the signs, a commit never opposes the one before it. */
  lemma NeighboursNeverOppose(steps: seq<Step>, rt: Runtime, i: nat)
    requires QualifiedRuntime(rt) && i + 1 < |steps| && SignsKeptAt(steps, rt, i + 1)
    ensures !Opposite(CommitAt(steps, rt, i), CommitAt(steps, rt, i + 1))
  {
    RunKeepsInv(steps, rt, i + 1);
    StateAtNext(steps, rt, i);
    if CommitAt(steps, rt, i + 1) != 0.0 {
      NonzeroCommitIsCandidate(steps[i + 1], rt, StateAt(steps, rt, i + 1));
    }
  }

  /** Reversal safety, second half: a nonzero commit that opposes the last commit outside the zero band had physical
      zero confirmed both when it was computed and when it was committed. */
  lemma ReversalNeedsConfirmedZero(steps: seq<Step>, rt: Runtime, j: nat, i: nat)
    requires QualifiedRuntime(rt) && i < |steps| && SignsKeptAt(steps, rt, i)
    requires LastOutside(steps, rt, j, i)
    requires Opposite(CommitAt(steps, rt, j), CommitAt(steps, rt, i))
    ensures steps[i].input.physicalZeroConfirmed && steps[i].verification.physicalZeroConfirmed
  {
    RunKeepsInv(steps, rt, i);
    LastSignIsRemembered(steps, rt, j, i);
    NonzeroCommitIsCandidate(steps[i], rt, StateAt(steps, rt, i));
  }

  /** Opposite neighbours betray a cell that does not keep a sign. */
  lemma OppositesNeedLostSign(steps: seq<Step>, rt: Runtime, i: nat)
    requires QualifiedRuntime(rt) && i + 1 < |steps| && Opposite(CommitAt(steps, rt, i), CommitAt(steps, rt, i + 1))
    ensures !SignsKeptAt(steps, rt, i + 1)
  {
    if SignsKeptAt(steps, rt, i + 1) {
      NeighboursNeverOppose(steps, rt, i);
    }
  }

  lemma JustOutside(steps: seq<Step>, rt: Runtime, i: nat)
    requires QualifiedRuntime(rt) && i < |steps| && Abs(CommitAt(steps, rt, i)) > rt.calibration.value.zeroExit
    ensures LastOutside(steps, rt, i, i + 1)
  {
    assert OutsideZeroBand(steps, rt, i);
  }

  // ---------------------------------------------------------------------------------------------
  // Zero off the torque axis
  // ---------------------------------------------------------------------------------------------

  /** With zero off the axis no walk from rest finds an authorised cell. */
  lemma OffAxisStaysAtRest(input: ClampInput, rt: Runtime, st: State)
    requires QualifiedRuntime(rt) && !TorqueOnAxis(0.0, rt.calibration.value) && Previous(st) == 0.0
    ensures Run(input, rt, st).1.selected == 0.0
  {
    if Run(input, rt, st).1.selected != 0.0 {
      NonzeroCandidate(input, rt, st);
      AdmittedRequest(input, rt, st);
      var request, held := Request(input), HeldOf(input, rt, st);
      assert ChoiceOf(input, rt, st) == ChooseIncrease(0.0, request, held, input, rt);
      if IncreasePrefix(0.0, request, input, rt, held.tally).accepted {
        var c := PrefixEndsInCell(0.0, request, input, rt, held.tally);
        OffAxisCellsFail(c, input, rt);
      }
    }
  }

  /** Boot validation accepts artifacts under which torque can never be commanded: where zero, widened by the torque
      uncertainty, leaves the axis, every commit of every run is zero. */
  lemma {:induction false} OffAxisNeverCommands(steps: seq<Step>, rt: Runtime, i: nat)
    requires QualifiedRuntime(rt) && !TorqueOnAxis(0.0, rt.calibration.value) && i <= |steps|
    ensures StateAt(steps, rt, i).committed == 0.0
    ensures i < |steps| ==> CommitAt(steps, rt, i) == 0.0
  {
    if i > 0 {
      OffAxisNeverCommands(steps, rt, i - 1);
      StateAtNext(steps, rt, i - 1);
    }
    if i < |steps| {
      OffAxisStaysAtRest(steps[i].input, rt, StateAt(steps, rt, i));
    }
  }
}
