/** What the bookkeeping keeps from commit to commit: sign, zero band, path, anchor and travel. */
module ClampRecords {
  import opened Numeric
  import opened Calibration
  import opened SteadyModel
  import opened TransitionModel
  import opened OperatingTruth
  import opened TorqueClamp
  import opened ClampRun
  import opened ClampCommit
  import opened ClampSafety
  import opened ClampFamilies
  import opened ClampConditions
  import opened ClampRuns
  import opened ClampSettling

  // ---------------------------------------------------------------------------------------------
  // The path of the command
  // ---------------------------------------------------------------------------------------------

  predicate OpposesSign(torque: real, sign: Sign) {
    (sign.PositiveSign? && torque < 0.0) || (sign.NegativeSign? && torque > 0.0)
  }

  /** Where the command stands after a commit, apart from settling. */
  function PathOf(step: Step, rt: Runtime, st: State): Path
    requires RuntimeValid(rt)
  {
    var c := Committed(step, rt, st);
    if InZeroBand(c, st.normalizedZero, rt.calibration.value) then
      if step.zeroConfirmed then ConfirmedZero else WaitingForZero
    else if OpposesSign(c, st.lastNonzeroSign) && (st.path.UnknownPath? || OpposesLast(step.input, st)) then
      ReversalLegTwo
    else if Run(step.input, rt, st).1.direction.SameSignDecrease? then RampingToZero
    else SameSignTracking
  }

  lemma ZeroIsInBand(wasZero: bool, cal: Calibration)
    requires Qualified(cal)
    ensures InZeroBand(0.0, wasZero, cal)
    ensures forall x :: NormalizedZero(x, wasZero, cal) <==> InZeroBand(x, wasZero, cal)
  {
  }

  lemma NonzeroFacts(step: Step, rt: Runtime, st: State)
    requires RuntimeValid(rt) && Committed(step, rt, st) != 0.0
    ensures var out := Run(step.input, rt, st).1;
            && Candidate(step, rt, st) == Some(out) && Matches(Some(out), Committed(step, rt, st))
            && out.zeroConfirmationRequired == (st.path.UnknownPath? || OpposesLast(step.input, st))
  {
    NonzeroCandidate(step.input, rt, st);
    NeedsZeroIff(step.input, st);
  }

  lemma PathIs(step: Step, rt: Runtime, st: State)
    requires QualifiedRuntime(rt) && Inv(st, rt.calibration.value)
    ensures var c := Committed(step, rt, st);
            CommitPath(st, Candidate(step, rt, st), c, NormalizedZero(c, st.normalizedZero, rt.calibration.value),
                       step.zeroConfirmed) == PathOf(step, rt, st)
  {
    ZeroIsInBand(st.normalizedZero, rt.calibration.value);
    if Committed(step, rt, st) != 0.0 {
      NonzeroFacts(step, rt, st);
    }
  }

  // ---------------------------------------------------------------------------------------------
  // The anchor and the travel since
  // ---------------------------------------------------------------------------------------------

  /** The commit is the first one ever, leaves the command where it was, and finds it at rest. */
  predicate FirstAnchor(step: Step, rt: Runtime, st: State)
    requires RuntimeValid(rt)
  {
    && !st.transition.active && st.transition.lastCommitUs == 0 && st.transition.anchor == 0.0
    && Committed(step, rt, st) == st.committed
    && (PathOf(step, rt, st).ConfirmedZero? || PathOf(step, rt, st).SameSignTracking?)
  }

  /** The commit settles an unfinished transition, or is the first anchor. */
  predicate SetsAnchor(step: Step, rt: Runtime, st: State)
    requires RuntimeValid(rt)
  {
    (st.transition.active && !Next(step, rt, st).transition.active) || FirstAnchor(step, rt, st)
  }

  /** One commit of the record: a new anchor, or further travel from the old one. */
  lemma AdvanceTravels(p: Progress, previous: real, committed: real, m: Move, nowZero: bool, nowUs: Word32,
                       consistent: bool, cal: Calibration)
    requires m.material <==> !m.microstep && committed != previous
    requires m.microstep ==> !p.transition.active
    ensures var next := Advance(p, previous, committed, m, nowZero, nowUs, consistent, cal);
            var travel := if !m.microstep && next.transition.active then Abs(committed - previous) else 0.0;
            var anchored := || (p.transition.active && !next.transition.active)
                            || (!p.transition.active && !m.microstep && committed == previous
                                && (p.path.ConfirmedZero? || p.path.SameSignTracking?) && p.transition.anchor == 0.0
                                && p.transition.lastCommitUs == 0);
            if anchored then
              && next.transition.anchor == committed && next.transition.cumulativeDrift == 0.0
              && next.path == if committed == 0.0 then ConfirmedZero else SameSignTracking
            else
              && next.transition.anchor == p.transition.anchor && next.path == p.path
              && next.transition.cumulativeDrift + travel == p.transition.cumulativeDrift + Abs(committed - previous)
  {
  }

  /** The record after a commit that sets the anchor, or that adds to the travel. */
  predicate Travels(t: ActiveTransition, path: Path, after: State, previous: real, committed: real, anchored: bool) {
    if anchored then
      && after.path == (if committed == 0.0 then ConfirmedZero else SameSignTracking)
      && after.transition.anchor == committed && after.transition.cumulativeDrift == 0.0
    else
      && after.path == path && after.transition.anchor == t.anchor
      && after.transition.cumulativeDrift == t.cumulativeDrift + Abs(committed - previous)
  }

  lemma NoteTravels(st: State, candidate: Option<Output>, committed: real, nowUs: Word32, zeroConfirmed: bool,
                    consistent: bool, cal: Calibration, path: Path)
    requires path == CommitPath(st, candidate, committed, NormalizedZero(committed, st.normalizedZero, cal),
                                zeroConfirmed)
    requires var m := MoveOf(candidate, st.committed, committed, cal);
             && (m.material <==> !m.microstep && committed != st.committed)
             && (m.microstep ==> !st.transition.active && committed != st.committed)
    ensures var after := NoteCommit(st, candidate, committed, nowUs, zeroConfirmed, consistent, cal);
            var t := st.transition;
            var anchored := || (t.active && !after.transition.active)
                            || (!t.active && committed == st.committed
                                && (path.ConfirmedZero? || path.SameSignTracking?) && t.anchor == 0.0
                                && t.lastCommitUs == 0);
            && Travels(t, path, after, st.committed, committed, anchored)
            && after.committed == committed && after.physicalZeroConfirmed == zeroConfirmed
            && after.normalizedZero == NormalizedZero(committed, st.normalizedZero, cal)
            && after.transition.lastCommitUs == nowUs
  {
    AdvanceTravels(Progress(path, st.phase, st.transition.(previousCommitted := st.committed)), st.committed, committed,
                   MoveOf(candidate, st.committed, committed, cal), NormalizedZero(committed, st.normalizedZero, cal),
                   nowUs, consistent, cal);
  }

  lemma MicrostepMoves(step: Step, rt: Runtime, st: State)
    requires QualifiedRuntime(rt) && Inv(st, rt.calibration.value) && IsMicrostep(step, rt, st)
    ensures Committed(step, rt, st) != st.committed
  {
    if Run(step.input, rt, st).1.selected == 0.0 {
      RunDescribesZero(step.input, rt, st);
    } else {
      MicrostepIff(step.input, rt, st);
    }
  }

  /** What one commit leaves behind. */
  ghost predicate Kept(step: Step, rt: Runtime, st: State, after: State)
    requires RuntimeValid(rt)
  {
    var c := Committed(step, rt, st);
    && after.committed == c && after.physicalZeroConfirmed == step.zeroConfirmed
    && (after.normalizedZero <==> InZeroBand(c, st.normalizedZero, rt.calibration.value))
    && after.transition.lastCommitUs == step.commitUs
    && Travels(st.transition, PathOf(step, rt, st), after, st.committed, c, SetsAnchor(step, rt, st))
  }

  /** The move that bookkeeping reads, and the path it starts from. */
  lemma MoveFacts(step: Step, rt: Runtime, st: State)
    requires QualifiedRuntime(rt) && Inv(st, rt.calibration.value)
    ensures var c, cal := Committed(step, rt, st), rt.calibration.value;
            var m := MoveOf(Candidate(step, rt, st), st.committed, c, cal);
            && (m.material <==> !m.microstep && c != st.committed)
            && (m.microstep ==> !st.transition.active && c != st.committed)
            && PathOf(step, rt, st) == CommitPath(st, Candidate(step, rt, st), c,
                                                  NormalizedZero(c, st.normalizedZero, cal), step.zeroConfirmed)
  {
    PathIs(step, rt, st);
    MoveIsRead(step, rt, st);
    if IsMicrostep(step, rt, st) {
      MicrostepMoves(step, rt, st);
    }
    CandidateDescribesItsMove(step, rt, st);
    MoveIsConsistent(st, Candidate(step, rt, st), Committed(step, rt, st), rt.calibration.value);
  }

  lemma StepKeeps(step: Step, rt: Runtime, st: State)
    requires QualifiedRuntime(rt) && Inv(st, rt.calibration.value)
    ensures Kept(step, rt, st, Next(step, rt, st))
  {
    ZeroIsInBand(st.normalizedZero, rt.calibration.value);
    MoveFacts(step, rt, st);
    NoteTravels(st, Candidate(step, rt, st), Committed(step, rt, st), step.commitUs, step.zeroConfirmed,
                step.consistent, rt.calibration.value, PathOf(step, rt, st));
  }

  /** Every commit of every run: the zero band is hysteretic, the path follows the command, the anchor moves only
      when it is set, and the recorded drift is the travel of the command since. */
  lemma EachCommitKeeps(steps: seq<Step>, rt: Runtime, i: nat)
    requires QualifiedRuntime(rt) && i < |steps|
    ensures Kept(steps[i], rt, StateAt(steps, rt, i), StateAt(steps, rt, i + 1))
  {
    RunKeepsInv(steps, rt, i);
    StateAtNext(steps, rt, i);
    StepKeeps(steps[i], rt, StateAt(steps, rt, i));
  }

  // ---------------------------------------------------------------------------------------------
  // The phase that the bookkeeping reports
  // ---------------------------------------------------------------------------------------------

  function PhaseOf(step: Step, rt: Runtime, st: State): Phase
    requires RuntimeValid(rt)
  {
    if SetsAnchor(step, rt, st) || IsMicrostep(step, rt, st) then SteadyPhase
    else if IsMaterial(step, rt, st) then
      if FamilyOf(step, rt, st).0 in {SlewLimited, Composed} then SlewTracking else StepTransition
    else if st.transition.active then Settling
    else st.phase
  }

  lemma AdvancePhase(p: Progress, previous: real, committed: real, m: Move, nowZero: bool, nowUs: Word32,
                     consistent: bool, cal: Calibration)
    requires m.material <==> !m.microstep && committed != previous
    requires m.microstep ==> !p.transition.active && committed != previous
    ensures var next := Advance(p, previous, committed, m, nowZero, nowUs, consistent, cal);
            var anchored := || (p.transition.active && !next.transition.active)
                            || (!p.transition.active && committed == previous
                                && (p.path.ConfirmedZero? || p.path.SameSignTracking?) && p.transition.anchor == 0.0
                                && p.transition.lastCommitUs == 0);
            next.phase ==
            if anchored || m.microstep then SteadyPhase
            else if RestartsSettling(m, p.transition, committed, nowZero) then
              if m.profile in {SlewLimited, Composed} then SlewTracking else StepTransition
            else if p.transition.active then Settling
            else p.phase
  {
  }

  lemma NotePhase(st: State, candidate: Option<Output>, committed: real, nowUs: Word32, zeroConfirmed: bool,
                  consistent: bool, cal: Calibration, path: Path)
    requires path == CommitPath(st, candidate, committed, NormalizedZero(committed, st.normalizedZero, cal),
                                zeroConfirmed)
    requires var m := MoveOf(candidate, st.committed, committed, cal);
             && (m.material <==> !m.microstep && committed != st.committed)
             && (m.microstep ==> !st.transition.active && committed != st.committed)
    ensures var after := NoteCommit(st, candidate, committed, nowUs, zeroConfirmed, consistent, cal);
            var m, t := MoveOf(candidate, st.committed, committed, cal), st.transition;
            var anchored := || (t.active && !after.transition.active)
                            || (!t.active && committed == st.committed
                                && (path.ConfirmedZero? || path.SameSignTracking?) && t.anchor == 0.0
                                && t.lastCommitUs == 0);
            after.phase ==
            if anchored || m.microstep then SteadyPhase
            else if RestartsSettling(m, t, committed, NormalizedZero(committed, st.normalizedZero, cal)) then
              if m.profile in {SlewLimited, Composed} then SlewTracking else StepTransition
            else if t.active then Settling
            else st.phase
  {
    AdvancePhase(Progress(path, st.phase, st.transition.(previousCommitted := st.committed)), st.committed, committed,
                 MoveOf(candidate, st.committed, committed, cal), NormalizedZero(committed, st.normalizedZero, cal),
                 nowUs, consistent, cal);
  }

  lemma StepPhase(step: Step, rt: Runtime, st: State)
    requires QualifiedRuntime(rt) && Inv(st, rt.calibration.value)
    ensures Next(step, rt, st).phase == PhaseOf(step, rt, st)
  {
    MoveFacts(step, rt, st);
    MoveIsRead(step, rt, st);
    MaterialRestarts(step, rt, st);
    NotePhase(st, Candidate(step, rt, st), Committed(step, rt, st), step.commitUs, step.zeroConfirmed, step.consistent,
              rt.calibration.value, PathOf(step, rt, st));
  }

  /** The reported phase after each commit of each run. */
  lemma EachCommitReportsPhase(steps: seq<Step>, rt: Runtime, i: nat)
    requires QualifiedRuntime(rt) && i < |steps|
    ensures StateAt(steps, rt, i + 1).phase == PhaseOf(steps[i], rt, StateAt(steps, rt, i))
  {
    RunKeepsInv(steps, rt, i);
    StateAtNext(steps, rt, i);
    StepPhase(steps[i], rt, StateAt(steps, rt, i));
  }

  // ---------------------------------------------------------------------------------------------
  // The settling time of a move
  // ---------------------------------------------------------------------------------------------

  /** The settling time that a material move to torque brings into the record is at least that of each certified region
      that may describe the move, in the family it was judged against. */
  lemma SettlingIsCertified(steps: seq<Step>, rt: Runtime, k: nat, c: nat, r: nat)
    requires QualifiedRuntime(rt) && k < |steps| && CommitAt(steps, rt, k) != 0.0 && MaterialAt(steps, rt, k)
    requires var st := StateAt(steps, rt, k);
             var family := FamilyOf(steps[k], rt, st);
             var move := MoveTo(CommitAt(steps, rt, k), family.0, family.1, steps[k].input, st);
             MayMoveIn(move, rt.calibration.value, c, r)
    ensures rt.calibration.value.transitionCells[c].regions[r].settlingUs <= SettlingAt(steps, rt, k)
  {
    var st, step := StateAt(steps, rt, k), steps[k];
    RunKeepsInv(steps, rt, k);
    EveryCommitIsSafe(steps, rt, k);
    EveryMoveIsEvaluated(step.input, rt, st);
  }
}
