/** Commands given to a clamp that holds a sampled artifact: from confirmed zero the first one reaches the bus. */
module ClampExample {
  import opened Numeric
  import opened Calibration
  import opened SteadyModel
  import opened TransitionModel
  import opened TorqueClamp
  import opened ClampRun
  import opened ClampCommit
  import opened ClampSafety
  import opened ClampGrant
  import opened ClampRuns
  import opened SampleArtifact

  /** One torque cell from 0 to 100 Nm. */
  const PLAIN := Sketch([0.0, 100.0], [Interval(1.0, 50.0)], 0.0, 0.0, 0.5, 1.0, 100.0)

  function Allowance(dcl: real): Limits {
    Limits(dcl, 100.0, true, true)
  }

  /** A request at standstill under a discharge limit; zero confirms that the motor gives no torque. */
  function Ask(torque: real, dcl: real, zero: bool, at: Word32): ClampInput {
    ClampInput(torque, STANDING_STILL, 100.0, -100.0, Allowance(dcl), at, Generations(1, 1, 1, 1), 1, true, true, zero)
  }

  function Recheck(dcl: real, zero: bool, at: Word32): Verification {
    Verification(Allowance(dcl), 100.0, -100.0, Generations(1, 1, 1, 1), 1, at, true, true, true, zero)
  }

  /** A step whose authority and zero confirmation are the same at compute and at commit, one millisecond later. */
  function Command(torque: real, dcl: real, zero: bool, at: Word32): Step {
    var commit := Add32(at, 1000);
    Step(Ask(torque, dcl, zero, at), false, true, Recheck(dcl, zero, commit), commit, zero, true)
  }

  lemma FreshContract(at: Word32)
    ensures Sub32(Add32(at, 1000), at) == 1000
  {
  }

  // ---------------------------------------------------------------------------------------------
  // The first command
  // ---------------------------------------------------------------------------------------------

  /** A positive request that the prefix walk from zero answers with this torque, steady at this
      draw, within the limit. */
  ghost predicate FirstAnswer(s: Sketch, request: real, answer: real, draw: Interval, dcl: real, at: Word32)
    requires WellFormed(s)
  {
    var cal, rt := Artifact(s), Handle(s);
    && s.span < FLT_MAX && Max(Abs(s.axis[0]), Abs(s.axis[|s.axis| - 1])) == 100.0
    && s.zeroExit < request <= 100.0 && IsQuantum(request) && answer != 0.0 && -100.0 <= answer <= 100.0
    && MeetsFewCells(s, answer) && draw.hi <= dcl && draw.lo >= 0.0 && draw.hi >= draw.lo && MOVING_DRAW.hi <= dcl
    && (forall c :: 0 <= c < |s.draws| ==>
          Overlap(TorqueInterval(answer, cal), Interval(s.axis[c], s.axis[c + 1])) ==> s.draws[c] == draw)
    && var p := IncreasePrefix(0.0, request, Ask(request, dcl, true, at), rt, NO_CALLS);
       p.accepted && p.best == answer
  }

  lemma FirstGate(s: Sketch, request: real, dcl: real, at: Word32)
    requires WellFormed(s) && s.zeroExit < request <= 100.0 && IsQuantum(request)
    ensures var input := Ask(request, dcl, true, at);
            && Request(input) == request && Previous(INITIAL_STATE) == 0.0
            && Admit(input, Artifact(s), INITIAL_STATE).Admitted?
            && HeldOf(input, Handle(s), INITIAL_STATE) == Held(true, NO_CURRENT, true, NO_CURRENT, 0, NO_CALLS)
  {
  }

  /** The walk of the first command is feasible: the transition from rest and the steady draw are within the limits. */
  lemma FirstWalk(s: Sketch, request: real, answer: real, draw: Interval, dcl: real, at: Word32)
    requires WellFormed(s) && FirstAnswer(s, request, answer, draw, dcl, at)
    ensures var input, rt := Ask(request, dcl, true, at), Handle(s);
            && WalkFeasible(input, rt, INITIAL_STATE) && !WalkMicrostep(input, rt, INITIAL_STATE)
            && WalkOf(input, rt, INITIAL_STATE).best == answer
            && Movement(INITIAL_STATE, 0.0, answer, false) == (SlewLimited, FromZero)
            && TransitionFor(answer, SlewLimited, FromZero, input, rt, INITIAL_STATE).current == MOVING_DRAW
  {
    var input, rt := Ask(request, dcl, true, at), Handle(s);
    FirstGate(s, request, dcl, at);
    assert REQUIRED_FAMILIES[0] == (SlewLimited, FromZero);
    MovingAt(s, TransitionRequest(answer, SlewLimited, FromZero, input, INITIAL_STATE), 0);
    SteadyAt(s, answer, draw);
  }

  /** From confirmed zero, the answer of the walk is selected with its transition, accepted again and committed. */
  lemma FirstCommand(s: Sketch, request: real, answer: real, draw: Interval, dcl: real, at: Word32)
    requires WellFormed(s) && FirstAnswer(s, request, answer, draw, dcl, at)
    ensures var step, rt := Command(request, dcl, true, at), Handle(s);
            var out := Run(step.input, rt, INITIAL_STATE).1;
            && QualifiedRuntime(rt) && Request(step.input) == request && Run(step.input, rt, INITIAL_STATE).0
            && out.selected == answer && out.transitionValid && out.transition == MOVING_DRAW && !out.microstep
            && out.profile.SlewLimited? && out.direction.FromZero? && out.outputValid
            && Reverify(out, step.verification).accepted
            && Committed(step, rt, INITIAL_STATE) == answer && CommitAt([step], rt, 0) == answer
  {
    var step, rt := Command(request, dcl, true, at), Handle(s);
    ArtifactQualifies(s);
    FirstGate(s, request, dcl, at);
    FirstWalk(s, request, answer, draw, dcl, at);
    WalkIsGranted(step.input, rt, INITIAL_STATE);
    CandidateTransition(step.input, rt, INITIAL_STATE);
    SteadyAt(s, answer, draw);
    FreshContract(at);
    CandidateStamp(step.input, rt, INITIAL_STATE);
    assert StateAt([step], rt, 0) == INITIAL_STATE;
  }

  // ---------------------------------------------------------------------------------------------
  // The state after it
  // ---------------------------------------------------------------------------------------------

  /** Torque is committed and its transition from rest is still unfinished. */
  predicate Opened(st: State, torque: real) {
    && st.path.SameSignTracking? && st.lastNonzeroSign == SignOf(torque) && st.committed == torque && !st.normalizedZero
    && st.transition.active && st.transition.anchor == 0.0
    && st.transition.minimum == Min(0.0, torque) && st.transition.maximum == Max(0.0, torque)
    && st.transition.profile.SlewLimited? && st.transition.direction.FromZero?
  }

  lemma FirstCommitOpens(s: Sketch, request: real, answer: real, draw: Interval, dcl: real, at: Word32)
    requires WellFormed(s) && FirstAnswer(s, request, answer, draw, dcl, at) && Abs(answer) > s.zeroEnter
    ensures Opened(Next(Command(request, dcl, true, at), Handle(s), INITIAL_STATE), answer)
  {
    var step, rt := Command(request, dcl, true, at), Handle(s);
    FirstCommand(s, request, answer, draw, dcl, at);
    NonzeroCandidate(step.input, rt, INITIAL_STATE);
    var out := Run(step.input, rt, INITIAL_STATE).1;
    assert Candidate(step, rt, INITIAL_STATE) == Some(out);
    assert MoveOf(Some(out), 0.0, answer, Artifact(s)) == Move(true, false, SlewLimited, FromZero, out.settlingUs);
  }

  // ---------------------------------------------------------------------------------------------
  // Fifty newton metres
  // ---------------------------------------------------------------------------------------------

  lemma FiftyIsQuantum()
    ensures IsQuantum(50.0)
  {
    assert Truncate(500.0) == 500;
  }

  lemma PlainAnswer(at: Word32)
    ensures WellFormed(PLAIN) && FirstAnswer(PLAIN, 50.0, 50.0, PLAIN.draws[0], 100.0, at)
  {
    FiftyIsQuantum();
    SmallSketch(PLAIN, 50.0);
    CellAt(PLAIN, 0);
    var cal, rt, input := Artifact(PLAIN), Handle(PLAIN), Ask(50.0, 100.0, true, at);
    var path, start := PathOf(0.0, 50.0), Prefix(0.0, NO_CURRENT, false, NO_CALLS);
    var cell := cal.steadyCells[0];
    assert UpwardBest(cal, cell, 50.0) == 50.0;
    var taken := Prefix(50.0, PLAIN.draws[0], true, CountCell(NO_CALLS));
    assert PrefixUp(path, 50.0, input, rt, 1, taken) == taken;
    assert PrefixUp(path, 50.0, input, rt, 0, start) == taken;
  }

  /** The first request after a confirmed zero is selected as asked, re-verified and committed. */
  lemma FirstCommandReachesTheBus()
    ensures WellFormed(PLAIN) && QualifiedRuntime(Handle(PLAIN))
    ensures var step := Command(50.0, 100.0, true, 1000);
            && Run(step.input, Handle(PLAIN), INITIAL_STATE).0
            && Run(step.input, Handle(PLAIN), INITIAL_STATE).1.selected == Request(step.input) == 50.0
            && Reverify(Run(step.input, Handle(PLAIN), INITIAL_STATE).1, step.verification).accepted
            && CommitAt([step], Handle(PLAIN), 0) == 50.0
            && Opened(Next(step, Handle(PLAIN), INITIAL_STATE), 50.0)
  {
    PlainAnswer(1000);
    FirstCommand(PLAIN, 50.0, 50.0, PLAIN.draws[0], 100.0, 1000);
    FirstCommitOpens(PLAIN, 50.0, 50.0, PLAIN.draws[0], 100.0, 1000);
  }
}
