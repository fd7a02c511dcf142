/** Which certified transition family a move is judged against. */
module ClampFamilies {
  import opened Numeric
  import opened Calibration
  import opened SteadyModel
  import opened TransitionModel
  import opened OperatingTruth
  import opened TorqueClamp
  import opened ClampRun
  import opened ClampCommit
  import opened ClampSafety
  import opened ClampSelection

  /** The family of a move from one torque towards another: composed while a transition is unfinished, and otherwise
      slewed; from zero, or away from zero, or towards it. */
  predicate MoveFamily(profile: Profile, direction: Direction, from: real, aim: real, st: State) {
    && profile == (if st.transition.active then Composed else SlewLimited)
    && direction == if from == 0.0 then FromZero
                    else if Abs(aim) > Abs(from) then SameSignIncrease else SameSignDecrease
  }

  /** Holding keeps the family of an unfinished transition; without one there is nothing to judge. */
  predicate HoldFamily(out: Output, st: State) {
    if st.transition.active then out.profile == st.transition.profile && out.direction == st.transition.direction
    else
      && !out.transitionRequired && !out.transitionValid
      && (|| (out.profile.SlewLimited? && out.direction.SameSignDecrease?)
          || (out.profile.HoldProfile? && out.direction.HoldDirection? && out.reason.TransitionLimit?))
  }

  lemma RefinedFamily(pick: Choice, movement: (Profile, Direction), required: bool, tally: Tally, input: ClampInput,
                      rt: Runtime, st: State)
    requires pick.Pick?
    ensures var previous, held := Previous(st), HeldOf(input, rt, st);
            var j := JudgeRefined(pick, movement, required, tally, previous, held, input, rt, st);
            j.Judged? ==>
              if j.torque != previous then (j.profile, j.direction) == movement
              else if st.transition.active then
                (j.profile, j.direction) == (st.transition.profile, st.transition.direction)
              else (j.profile, j.direction) == (HoldProfile, HoldDirection) && !j.valid && !j.required
                   && j.reason.TransitionLimit?
  {
  }

  /** Every nonzero selection that is no microstep: held torque keeps its family; a move is judged against the
      family from the held torque towards the torque that the steady selection aimed at. */
  lemma SelectedFamily(input: ClampInput, rt: Runtime, st: State)
    requires Run(input, rt, st).1.selected != 0.0 && !Run(input, rt, st).1.microstep
    ensures RuntimeValid(rt) && ChoiceOf(input, rt, st).Pick?
    ensures var out := Run(input, rt, st).1;
            if out.selected == Previous(st) then HoldFamily(out, st)
            else MoveFamily(out.profile, out.direction, Previous(st), ChoiceOf(input, rt, st).torque, st)
  {
    NonzeroCandidate(input, rt, st);
    var previous, request := Previous(st), Request(input);
    var pick, held := ChoiceOf(input, rt, st), HeldOf(input, rt, st);
    var movement := Movement(st, previous, pick.torque, false);
    var required := Abs(pick.torque) > Abs(previous) || (pick.torque == previous && st.transition.active);
    RefinedFamily(pick, movement, required, CountTransition(pick.tally), input, rt, st);
    PublishedReason(input, rt, st);
  }

  /** A selection that names a reason keeps it. */
  lemma PublishedReason(input: ClampInput, rt: Runtime, st: State)
    requires Run(input, rt, st).1.selected != 0.0
    ensures RuntimeValid(rt) && ChoiceOf(input, rt, st).Pick? && JudgedOf(input, rt, st).Judged?
    ensures var j := JudgedOf(input, rt, st); !j.reason.NoReason? ==> Run(input, rt, st).1.reason == j.reason
  {
    NonzeroCandidate(input, rt, st);
    AdmittedRun(input, rt, st);
  }

  /** The torque that the selection aimed at, and the selected one between it and the held torque. */
  lemma SelectedTowardsAim(input: ClampInput, rt: Runtime, st: State)
    requires QualifiedRuntime(rt) && IsQuantum(st.committed) && Run(input, rt, st).1.selected != 0.0
    ensures ChoiceOf(input, rt, st).Pick?
    ensures Between(Run(input, rt, st).1.selected, Previous(st), ChoiceOf(input, rt, st).torque)
    ensures BothSignsKept(rt.calibration.value, Previous(st), Request(input)) ==>
              OnSide(ChoiceOf(input, rt, st).torque, SignOf(Request(input)))
    ensures OnSide(Previous(st), SignOf(Request(input)))
  {
    ZeroIsQuantum();
    NonzeroCandidate(input, rt, st);
    AdmittedRequest(input, rt, st);
    ChoiceAims(Previous(st), Request(input), input, rt, st);
    JudgedBetween(ChoiceOf(input, rt, st), MicrostepOf(input, rt, st), Previous(st), Request(input),
                  HeldOf(input, rt, st), input, rt, st);
  }

  /** A growing torque is judged against the family that leads to itself. So is a falling one where the cells keep
      the signs of the request and of the held torque, or nothing was refined. */
  lemma FamilyOfSelected(input: ClampInput, rt: Runtime, st: State)
    requires QualifiedRuntime(rt) && IsQuantum(st.committed)
    requires Run(input, rt, st).1.selected != 0.0 && !Run(input, rt, st).1.microstep
    requires Run(input, rt, st).1.selected != Previous(st)
    requires || Abs(Run(input, rt, st).1.selected) > Abs(Previous(st))
             || BothSignsKept(rt.calibration.value, Previous(st), Request(input))
             || !Increasing(Previous(st), Request(input))
    ensures var out := Run(input, rt, st).1; MoveFamily(out.profile, out.direction, Previous(st), out.selected, st)
  {
    SelectedFamily(input, rt, st);
    SelectedTowardsAim(input, rt, st);
    NonzeroCandidate(input, rt, st);
  }

  /** Exactly when: the family leads to the selected torque if and only if it is as far from zero, against the held
      torque, as the torque that the selection aimed at. */
  lemma FamilyOfSelectedIff(input: ClampInput, rt: Runtime, st: State)
    requires Run(input, rt, st).1.selected != 0.0 && !Run(input, rt, st).1.microstep
    requires Run(input, rt, st).1.selected != Previous(st)
    ensures RuntimeValid(rt) && ChoiceOf(input, rt, st).Pick?
    ensures var out, aim := Run(input, rt, st).1, ChoiceOf(input, rt, st).torque;
            MoveFamily(out.profile, out.direction, Previous(st), out.selected, st) <==>
            || Previous(st) == 0.0
            || (Abs(out.selected) > Abs(Previous(st)) <==> Abs(aim) > Abs(Previous(st)))
  {
    SelectedFamily(input, rt, st);
  }

  // ---------------------------------------------------------------------------------------------
  // The envelope of an exposing command
  // ---------------------------------------------------------------------------------------------

  /** A move to a torque: an unfinished transition is widened to it, a finished one starts from its anchor. */
  function MoveTo(torque: real, profile: Profile, direction: Direction, input: ClampInput, st: State): TransitionInput {
    var t := st.transition;
    TransitionInput(
      t.anchor,
      if t.active then Min(t.minimum, torque) else Min(t.anchor, Min(st.committed, torque)),
      if t.active then Max(t.maximum, torque) else Max(t.anchor, Max(st.committed, torque)),
      torque, input.point, profile, direction)
  }

  lemma JudgedMoveIsValid(input: ClampInput, rt: Runtime, st: State)
    requires RuntimeValid(rt) && ChoiceOf(input, rt, st).Pick? && JudgedOf(input, rt, st).Judged?
    requires !MicrostepOf(input, rt, st) && JudgedOf(input, rt, st).torque != 0.0
    requires || JudgedOf(input, rt, st).torque != Previous(st)
             || (st.transition.active && !Increasing(Previous(st), Request(input)))
    ensures JudgedOf(input, rt, st).valid
  {
  }

  /** Nothing moves without an envelope: a selected torque that is neither held nor a microstep carries the envelope
      and the settling time of its own move, and so does a torque that a standing or falling request holds within an
      unfinished transition. */
  lemma EveryMoveIsEvaluated(input: ClampInput, rt: Runtime, st: State)
    requires QualifiedRuntime(rt) && Run(input, rt, st).1.selected != 0.0 && !Run(input, rt, st).1.microstep
    requires || Run(input, rt, st).1.selected != Previous(st)
             || (st.transition.active && !Increasing(Previous(st), Request(input)))
    ensures var out := Run(input, rt, st).1;
            && out.transitionValid
            && IsTrueEnvelope(MoveTo(out.selected, out.profile, out.direction, input, st), rt.calibration.value,
                              out.transition, out.settlingUs)
  {
    var out := Run(input, rt, st).1;
    NonzeroCandidate(input, rt, st);
    JudgedMoveIsValid(input, rt, st);
    CandidateTransition(input, rt, st);
    var t := MoveTo(out.selected, out.profile, out.direction, input, st);
    assert t == TransitionRequest(out.selected, out.profile, out.direction, input, st);
    SuccessMeans(t, rt);
    TransitionIsTrueEnvelope(t, rt);
  }

  /** The move that an exposing command is judged for: held torque keeps the recorded family. */
  function ExposedMove(torque: real, input: ClampInput, st: State): TransitionInput {
    var t, held := st.transition, torque == Previous(st);
    MoveTo(torque, if held then t.profile else if t.active then Composed else SlewLimited,
           if held then t.direction else if Previous(st) == 0.0 then FromZero else SameSignIncrease, input, st)
  }

  lemma ExposedFamily(input: ClampInput, rt: Runtime, st: State)
    requires QualifiedRuntime(rt) && IsQuantum(st.committed)
    requires var out := Run(input, rt, st).1;
             out.selected != 0.0 && !out.microstep && Exposes(out.selected, Previous(st), st)
    ensures var out := Run(input, rt, st).1;
            TransitionRequest(out.selected, out.profile, out.direction, input, st) ==
            ExposedMove(out.selected, input, st)
  {
    SelectedFamily(input, rt, st);
    if Run(input, rt, st).1.selected != Previous(st) {
      FamilyOfSelected(input, rt, st);
    }
  }

  /** Whatever torque other than zero is committed: the inverter caps of that moment hold, every true torque and
      operating point behind the measurement is within the limits read at commit, and for an exposing command that
      is not a microstep so is every region that may describe its move, in the family and for the bracket of that
      move. */
  lemma CommittedTorqueIsSafe(input: ClampInput, rt: Runtime, st: State, v: Verification)
    requires QualifiedRuntime(rt) && IsQuantum(st.committed)
    requires Reverify(Run(input, rt, st).1, v).torque != 0.0
    ensures var c, cal := Run(input, rt, st).1, rt.calibration.value;
            && Reverify(c, v).torque == c.selected && InForce(input, v)
            && v.negativeCap <= c.selected <= v.positiveCap
            && SteadyInsideLimits(c.selected, c.microstep, input.point, cal, v.limits)
            && (!c.microstep && Exposes(c.selected, Previous(st), st) ==>
                  TransitionInsideLimits(ExposedMove(c.selected, input, st), cal, v.limits))
  {
    var c := Run(input, rt, st).1;
    AcceptedTorqueIsSafe(input, rt, st, v);
    CommittedIffInForce(input, rt, st, v);
    if !c.microstep && Exposes(c.selected, Previous(st), st) {
      ExposedFamily(input, rt, st);
    }
  }
}
