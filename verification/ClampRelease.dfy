/** Letting go of torque: an authorised reduction is granted in full and waits for nothing. */
module ClampRelease {
  import opened Numeric
  import opened Calibration
  import opened SteadyModel
  import opened TransitionModel
  import opened TorqueClamp
  import opened ClampRun
  import opened ClampCommit
  import opened ClampSafety
  import opened ClampSelection
  import opened ClampCost

  /** A same-sign request of smaller magnitude that passes the gates. */
  predicate AsksReduction(input: ClampInput, rt: Runtime, st: State)
    requires RuntimeValid(rt)
  {
    && input.negativeCap <= 0.0 <= input.positiveCap && Admit(input, rt.calibration.value, st).Admitted?
    && SameSign(Previous(st), Request(input)) && Abs(Request(input)) < Abs(Previous(st))
  }

  function ReductionMicrostep(input: ClampInput, rt: Runtime, st: State): bool
    requires RuntimeValid(rt)
  {
    TracksMicrostep(Previous(st), Request(input), input, st, rt.calibration.value)
  }

  /** The request passes the exact check, and its decay envelope can be evaluated unless it is a microstep. */
  predicate ReductionFeasible(input: ClampInput, rt: Runtime, st: State)
    requires RuntimeValid(rt)
  {
    var request, microstep := Request(input), ReductionMicrostep(input, rt, st);
    var movement := Movement(st, Previous(st), request, false);
    && SteadyAuthorized(ExactSteady(request, microstep, input, rt), input)
    && (microstep || TransitionFor(request, movement.0, movement.1, input, rt, st).status == ModelOk)
  }

  lemma ReductionChosen(input: ClampInput, rt: Runtime, st: State)
    requires QualifiedRuntime(rt) && AsksReduction(input, rt, st) && ReductionFeasible(input, rt, st)
    ensures var exact := ExactSteady(Request(input), ReductionMicrostep(input, rt, st), input, rt);
            ChoiceOf(input, rt, st) == Pick(Request(input), exact.current, NoReason,
                                            CountSteady(HeldOf(input, rt, st).tally, exact))
    ensures MicrostepOf(input, rt, st) == ReductionMicrostep(input, rt, st)
  {
    assert HeldOf(input, rt, st) == Hold(Previous(st), input, rt, st);
  }

  lemma ReductionJudged(input: ClampInput, rt: Runtime, st: State)
    requires QualifiedRuntime(rt) && AsksReduction(input, rt, st) && ReductionFeasible(input, rt, st)
    ensures ChoiceOf(input, rt, st).Pick?
    ensures var j := JudgedOf(input, rt, st);
            && j.Judged? && j.torque == Request(input) && !j.required && j.reason.NoReason? && Request(input) != 0.0
            && CostsAtMost(NO_CALLS, j.tally, 2, 2, 0)
  {
    ReductionChosen(input, rt, st);
    AdmittedRequest(input, rt, st);
    var previous, request := Previous(st), Request(input);
    var pick, held, microstep := ChoiceOf(input, rt, st), HeldOf(input, rt, st), MicrostepOf(input, rt, st);
    HoldCost(previous, input, rt, st);
    ExactSteadyCells(request, microstep, input, rt);
    assert CostsAtMost(NO_CALLS, pick.tally, 2, 1, 0);
    if !microstep {
      assert JudgedOf(input, rt, st) == JudgeMovement(pick, Movement(st, previous, request, false), previous, request,
                                                      held, input, rt, st);
    }
  }

  lemma Delivered(j: Judged, microstep: bool, previous: real, request: real, input: ClampInput, rt: Runtime, st: State)
    requires RuntimeValid(rt) && j.Judged? && j.torque == request != 0.0 && j.reason.NoReason?
    requires CostsAtMost(NO_CALLS, j.tally, 2, 2, 0)
        && SteadyAuthorized(ExactSteady(request, microstep, input, rt), input)
    ensures var out := Conclude(j, microstep, previous, request, input, rt, st);
            out.outputValid && out.selected == request && out.transitionRequired == j.required && out.reason.NoReason?
  {
    var exact := ExactSteady(request, microstep, input, rt);
    ExactSteadyCells(request, microstep, input, rt);
    var filled := Filled(j, exact.current, ZeroFallback(input, rt, st, false),
                         CountTransition(CountSteady(j.tally, exact)), microstep, previous, request, input,
                         rt.calibration.value, st);
    assert WithinContract(filled.tally);
    assert Deliver(filled, request, input, rt, st) == Snapshot(input, Published(filled, request));
  }

  /** A feasible reduction is selected exactly as requested, with no reason to report, and re-verification will not ask
      for transition authority. */
  lemma ReductionIsGranted(input: ClampInput, rt: Runtime, st: State)
    requires QualifiedRuntime(rt) && AsksReduction(input, rt, st) && ReductionFeasible(input, rt, st)
    ensures var out := Run(input, rt, st).1;
            out.outputValid && out.selected == Request(input) && !out.transitionRequired && out.reason.NoReason?
  {
    ReductionChosen(input, rt, st);
    ReductionJudged(input, rt, st);
    Delivered(JudgedOf(input, rt, st), MicrostepOf(input, rt, st), Previous(st), Request(input), input, rt, st);
  }

  lemma ConclusionAnswers(j: Judged, microstep: bool, input: ClampInput, rt: Runtime, st: State)
    requires RuntimeValid(rt) && j.Judged?
    ensures Conclude(j, microstep, Previous(st), Request(input), input, rt, st).outputValid
  {
  }

  lemma AdmittedAnswers(input: ClampInput, rt: Runtime, st: State)
    requires RuntimeValid(rt)
    ensures RunAdmitted(input, rt, st).outputValid
  {
    if ChoiceOf(input, rt, st).Pick? {
      var j := JudgedOf(input, rt, st);
      if j.Judged? {
        ConclusionAnswers(j, MicrostepOf(input, rt, st), input, rt, st);
      }
    }
  }

  /** Every step with usable caps ends in a valid output: there is always something to send. */
  lemma EveryStepAnswers(input: ClampInput, rt: Runtime, st: State)
    ensures Run(input, rt, st).0 <==> input.negativeCap <= 0.0 <= input.positiveCap
    ensures Run(input, rt, st).0 ==> Run(input, rt, st).1.outputValid
  {
    if RuntimeValid(rt) {
      AdmittedAnswers(input, rt, st);
    }
  }

  /** Zero is always commandable: a step with usable caps that selects no torque is accepted under
      every verification, and so is the static zero that replaces its candidate after an overrun. */
  lemma ZeroIsAlwaysCommandable(input: ClampInput, rt: Runtime, st: State, v: Verification)
    requires input.negativeCap <= 0.0 <= input.positiveCap
    ensures var out := Run(input, rt, st).1;
            && (out.selected == 0.0 ==> Reverify(out, v) == Verdict(true, 0.0, out.reason))
            && Reverify(ForceStaticZero(input, rt, st, DeadlineOverrun, out), v) == Verdict(true, 0.0, DeadlineOverrun)
  {
    EveryStepAnswers(input, rt, st);
  }
}
