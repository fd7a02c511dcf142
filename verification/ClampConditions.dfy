/** The decisions of one run as conditions on its inputs: the request, the gates, microsteps, reasons and margins. */
module ClampConditions {
  import opened Numeric
  import opened Calibration
  import opened SteadyModel
  import opened TransitionModel
  import opened OperatingTruth
  import opened TorqueClamp
  import opened ClampRun
  import opened ClampCommit
  import opened ClampSafety
  import opened ClampFamilies

  // ---------------------------------------------------------------------------------------------
  // The request
  // ---------------------------------------------------------------------------------------------

  /** The command is the nearest whole tenth of a newton metre on the way to zero. */
  lemma NearestTenth(torque: real) returns (tenths: int)
    ensures Quantize(torque) * 10.0 == tenths as real
    ensures torque >= 0.0 ==> 0.0 <= Quantize(torque) <= torque < Quantize(torque) + 0.1
    ensures torque <= 0.0 ==> Quantize(torque) - 0.1 < torque <= Quantize(torque) <= 0.0
  {
    tenths := Truncate(torque * QUANTA_PER_NM);
    assert Quantize(torque) * 10.0 == tenths as real;
    assert torque >= 0.0 ==> 0.0 <= tenths as real <= torque * 10.0 < tenths as real + 1.0;
    assert torque <= 0.0 ==> tenths as real - 1.0 < torque * 10.0 <= tenths as real <= 0.0;
  }

  /** The requested torque between the inverter caps. */
  function Capped(input: ClampInput): real {
    Max(input.negativeCap, Min(input.positiveCap, input.requested))
  }

  lemma RequestMeans(input: ClampInput) returns (tenths: int)
    requires input.negativeCap <= 0.0 <= input.positiveCap
    ensures Request(input) * 10.0 == tenths as real
    ensures Capped(input) >= 0.0 ==> 0.0 <= Request(input) <= Capped(input) < Request(input) + 0.1
    ensures Capped(input) <= 0.0 ==> Request(input) - 0.1 < Capped(input) <= Request(input) <= 0.0
  {
    tenths := NearestTenth(ClampCapability(input.requested, input));
  }

  // ---------------------------------------------------------------------------------------------
  // The gates
  // ---------------------------------------------------------------------------------------------

  /** Zero, with the hysteresis of the certified band. */
  predicate InZeroBand(x: real, wasZero: bool, cal: Calibration) {
    if wasZero then -cal.zeroExit <= x <= cal.zeroExit else -cal.zeroEnter <= x <= cal.zeroEnter
  }

  /** The request opposes the last torque sent, or is zero. */
  predicate OpposesLast(input: ClampInput, st: State) {
    || (st.lastNonzeroSign.PositiveSign? && Request(input) <= 0.0)
    || (st.lastNonzeroSign.NegativeSign? && Request(input) >= 0.0)
  }

  /** Why no torque is considered; the first reason that applies. */
  function GateReason(input: ClampInput, cal: Calibration, st: State): Option<Reason> {
    if !input.operatingPointValid then Some(InputInvalid)
    else if !input.authorityValid then Some(AuthorityInvalid)
    else if st.path.UnknownPath? && !input.physicalZeroConfirmed then Some(ReversalWait)
    else if InZeroBand(Request(input), st.path.UnknownPath? || st.normalizedZero, cal) then Some(ZeroRequest)
    else if OpposesLast(input, st) && !input.physicalZeroConfirmed then Some(ReversalWait)
    else None
  }

  lemma AdmitIff(input: ClampInput, cal: Calibration, st: State)
    ensures match Admit(input, cal, st)
            case Admitted => GateReason(input, cal, st).None?
            case Refused(reversal, reason) =>
              && GateReason(input, cal, st) == Some(reason)
              && (reversal <==>
                    && reason.ReversalWait? && OpposesLast(input, st) && !st.path.UnknownPath?
                    && !InZeroBand(Request(input), st.normalizedZero, cal))
  {
  }

  /** A refused run sends zero and says why; a nonzero torque met no refusal. */
  lemma GatesDecide(input: ClampInput, rt: Runtime, st: State)
    requires RuntimeValid(rt) && input.negativeCap <= 0.0 <= input.positiveCap
    ensures var out, reason := Run(input, rt, st).1, GateReason(input, rt.calibration.value, st);
            && (reason.Some? ==> out.selected == 0.0 && out.reason == reason.value && out.outputValid)
            && (out.selected != 0.0 ==> reason.None?)
  {
    AdmitIff(input, rt.calibration.value, st);
    if Run(input, rt, st).1.selected != 0.0 {
      NonzeroCandidate(input, rt, st);
    }
  }

  // ---------------------------------------------------------------------------------------------
  // Microsteps
  // ---------------------------------------------------------------------------------------------

  /** The command changes by this much, no faster than the settled rate since the last commit. */
  predicate SlowEnough(delta: real, lastUs: Word32, nowUs: Word32, cal: Calibration) {
    var elapsedUs := (nowUs - lastUs) % 0x1_0000_0000;
    && lastUs != 0 && elapsedUs != 0
    && delta * 1000000.0 <= cal.maximumSettledRate * elapsedUs as real
    && -delta * 1000000.0 <= cal.maximumSettledRate * elapsedUs as real
  }

  /** The move is small, close to the anchor, and within the drift that is left. */
  predicate NearAnchor(from: real, to: real, t: ActiveTransition, cal: Calibration) {
    && from != to
    && -cal.maximumMicrostep <= to - from <= cal.maximumMicrostep && -cal.trackingBand <= to - from <= cal.trackingBand
    && -cal.maximumAnchorDeviation <= to - t.anchor <= cal.maximumAnchorDeviation
    && t.cumulativeDrift + to - from <= cal.maximumCumulativeDrift
    && t.cumulativeDrift + from - to <= cal.maximumCumulativeDrift
  }

  /** The request moves the settled command so little, so slowly and so close to the anchor that it counts as
      tracking. */
  predicate SmallStep(input: ClampInput, cal: Calibration, st: State) {
    var t, from, to := st.transition, Previous(st), Request(input);
    && !t.active && st.path.SameSignTracking?
    && ((from > 0.0 && to > 0.0) || (from < 0.0 && to < 0.0))
    && !InZeroBand(from, st.normalizedZero, cal) && !InZeroBand(to, st.normalizedZero, cal)
    && NearAnchor(from, to, t, cal) && SlowEnough(to - from, t.lastCommitUs, input.nowUs, cal)
  }

  lemma RateIff(delta: real, input: ClampInput, st: State, cal: Calibration)
    ensures RateAllowsMicrostep(delta, input, st, cal) <==>
            SlowEnough(delta, st.transition.lastCommitUs, input.nowUs, cal)
  {
    var elapsedUs := Sub32(input.nowUs, st.transition.lastCommitUs);
    if elapsedUs != 0 {
      RateBound(Abs(delta), elapsedUs as real, cal.maximumSettledRate);
    }
  }

  /** Everything but the rate. */
  lemma NearIff(from: real, to: real, input: ClampInput, st: State, cal: Calibration)
    requires RateAllowsMicrostep(to - from, input, st, cal)
    ensures MicrostepEligible(from, to, input, st, cal) <==>
            && !st.transition.active && st.path.SameSignTracking?
            && ((from > 0.0 && to > 0.0) || (from < 0.0 && to < 0.0))
            && !InZeroBand(from, st.normalizedZero, cal) && !InZeroBand(to, st.normalizedZero, cal)
            && NearAnchor(from, to, st.transition, cal)
  {
  }

  lemma EligibleIff(input: ClampInput, st: State, cal: Calibration)
    ensures MicrostepEligible(Previous(st), Request(input), input, st, cal) <==> SmallStep(input, cal, st)
  {
    var from, to := Previous(st), Request(input);
    RateIff(to - from, input, st, cal);
    if RateAllowsMicrostep(to - from, input, st, cal) {
      NearIff(from, to, input, st, cal);
    }
  }

  /** A torque is a microstep exactly when the steady selection takes the request and the request is a small step. */
  lemma MicrostepIff(input: ClampInput, rt: Runtime, st: State)
    requires Run(input, rt, st).1.selected != 0.0
    ensures RuntimeValid(rt) && ChoiceOf(input, rt, st).Pick?
    ensures var out := Run(input, rt, st).1;
            && (out.microstep <==>
                  SmallStep(input, rt.calibration.value, st) && ChoiceOf(input, rt, st).torque == Request(input))
            && (out.microstep ==> out.selected == Request(input) && !out.transitionRequired && out.profile.Microstep?)
  {
    NonzeroCandidate(input, rt, st);
    EligibleIff(input, st, rt.calibration.value);
  }

  // ---------------------------------------------------------------------------------------------
  // What a torque reports
  // ---------------------------------------------------------------------------------------------

  lemma DeliveredReason(input: ClampInput, rt: Runtime, st: State)
    requires Run(input, rt, st).1.selected != 0.0
    ensures RuntimeValid(rt) && ChoiceOf(input, rt, st).Pick? && JudgedOf(input, rt, st).Judged?
    ensures var out, j := Run(input, rt, st).1, JudgedOf(input, rt, st);
            out.selected == j.torque
            && out.reason == if j.reason.NoReason? && j.torque != Request(input) then CurrentLimit else j.reason
  {
    NonzeroCandidate(input, rt, st);
    AdmittedRun(input, rt, st);
  }

  lemma ChoiceReason(input: ClampInput, rt: Runtime, st: State)
    requires RuntimeValid(rt) && ChoiceOf(input, rt, st).Pick?
    ensures var pick := ChoiceOf(input, rt, st);
            || pick.reason.NoReason?
            || (pick.reason.CurrentLimit? && pick.torque == Previous(st) && Increasing(Previous(st), Request(input)))
  {
  }

  /** A chosen reason goes with the held torque, which is not the request. */
  lemma JudgedReason(input: ClampInput, rt: Runtime, st: State)
    requires RuntimeValid(rt) && ChoiceOf(input, rt, st).Pick? && JudgedOf(input, rt, st).Judged?
    ensures var j := JudgedOf(input, rt, st);
            || j.reason.NoReason?
            || (j.torque == Previous(st) != Request(input) && (j.reason.CurrentLimit? || j.reason.TransitionLimit?))
  {
    ChoiceReason(input, rt, st);
  }

  /** A torque has no reason to report exactly when it is what was asked for; otherwise the current limit or the
      transition limit has held it back. */
  lemma ReasonTells(input: ClampInput, rt: Runtime, st: State)
    requires Run(input, rt, st).1.selected != 0.0
    ensures var out := Run(input, rt, st).1;
            if out.selected == Request(input) then out.reason.NoReason?
            else out.reason.CurrentLimit? || out.reason.TransitionLimit?
  {
    DeliveredReason(input, rt, st);
    JudgedReason(input, rt, st);
  }

  /** The battery has little to give: the prediction takes the certified fraction of a limit or leaves less than the
      certified headroom, or the torque is negligible. */
  predicate LittleMargin(torque: real, steady: Interval, limits: Limits, cal: Calibration) {
    || cal.lowMarginFraction <= 0.0
    || (steady.hi > 0.0 && limits.dcl > 0.0 && steady.hi >= cal.lowMarginFraction * limits.dcl)
    || (steady.lo < 0.0 && limits.ccl > 0.0 && -steady.lo >= cal.lowMarginFraction * limits.ccl)
    || (steady.hi > 0.0 && limits.dcl - steady.hi < cal.minimumDischargeHeadroom)
    || (steady.lo < 0.0 && limits.ccl + steady.lo < cal.minimumChargeHeadroom)
    || -cal.nonzeroTorqueThreshold < torque < cal.nonzeroTorqueThreshold
  }

  lemma FractionOf(part: real, whole: real, fraction: real)
    requires whole > 0.0
    ensures part / whole >= fraction <==> part >= fraction * whole
  {
    assert part / whole * whole == part;
  }

  lemma ConsumptionIff(steady: Interval, limits: Limits, fraction: real)
    ensures Consumption(steady, limits) >= fraction <==>
            || fraction <= 0.0
            || (steady.hi > 0.0 && limits.dcl > 0.0 && steady.hi >= fraction * limits.dcl)
            || (steady.lo < 0.0 && limits.ccl > 0.0 && -steady.lo >= fraction * limits.ccl)
  {
    if limits.dcl > 0.0 {
      FractionOf(steady.hi, limits.dcl, fraction);
    }
    if limits.ccl > 0.0 {
      FractionOf(-steady.lo, limits.ccl, fraction);
    }
  }

  lemma ClassifiedIff(torque: real, steady: Interval, input: ClampInput, cal: Calibration)
    requires torque != 0.0
    ensures ClassifyBattery(torque, steady, input, cal, false) ==
            if LittleMargin(torque, steady, input.limits, cal) then LowAuthority else NormalAuthority
  {
    ConsumptionIff(steady, input.limits, cal.lowMarginFraction);
  }

  lemma FilledBattery(input: ClampInput, rt: Runtime, st: State)
    requires Run(input, rt, st).1.selected != 0.0
    ensures RuntimeValid(rt)
    ensures var out := Run(input, rt, st).1;
            out.battery == ClassifyBattery(out.selected, out.steady, input, rt.calibration.value, false)
  {
    NonzeroCandidate(input, rt, st);
    AdmittedRun(input, rt, st);
  }

  /** The battery report of a torque. */
  lemma MarginIsReported(input: ClampInput, rt: Runtime, st: State)
    requires Run(input, rt, st).1.selected != 0.0
    ensures RuntimeValid(rt)
    ensures var out := Run(input, rt, st).1;
            var little := LittleMargin(out.selected, out.steady, input.limits, rt.calibration.value);
            out.battery == if little then LowAuthority else NormalAuthority
  {
    FilledBattery(input, rt, st);
    var out := Run(input, rt, st).1;
    ClassifiedIff(out.selected, out.steady, input, rt.calibration.value);
  }

  // ---------------------------------------------------------------------------------------------
  // Zero and its fallback
  // ---------------------------------------------------------------------------------------------

  /** The output carries a certified way to zero: a valid envelope within the static late-zero one, settled no later. */
  predicate FallbackCertified(out: Output, cal: Calibration) {
    && out.zeroFallbackValid && cal.lateZero.lo <= out.zeroFallback.lo && out.zeroFallback.hi <= cal.lateZero.hi
    && out.zeroFallbackSettlingUs <= cal.lateZeroSettlingUs
  }

  lemma FallbackIsCertified(input: ClampInput, rt: Runtime, st: State, reversal: bool)
    requires QualifiedRuntime(rt)
    ensures var fallback, cal := ZeroFallback(input, rt, st, reversal), rt.calibration.value;
            fallback.valid && Within(fallback.current, cal.lateZero) && fallback.settlingUs <= cal.lateZeroSettlingUs
  {
    var movement := ZeroMovement(input, st, reversal);
    var t := TransitionRequest(0.0, movement.0, movement.1, input, st);
    if EvaluateTransition(t, rt).status == ModelOk {
      LateZeroDominatesEvaluation(t, rt);
    }
  }

  lemma FinishIsCertified(input: ClampInput, rt: Runtime, st: State, reversal: bool, exhausted: bool, reason: Reason,
                          tally: Tally)
    requires QualifiedRuntime(rt)
    ensures FallbackCertified(FinishZero(input, rt, st, reversal, exhausted, reason, tally), rt.calibration.value)
  {
    FallbackIsCertified(input, rt, st, reversal);
  }

  lemma ConclusionIsCertified(j: Judged, microstep: bool, previous: real, request: real, input: ClampInput, rt: Runtime,
                              st: State)
    requires QualifiedRuntime(rt) && j.Judged?
    ensures FallbackCertified(Conclude(j, microstep, previous, request, input, rt, st), rt.calibration.value)
  {
    FinishIsCertified(input, rt, st, false, true, CurrentLimit,
                      CountSteady(j.tally, ExactSteady(j.torque, microstep, input, rt)));
    FallbackIsCertified(input, rt, st, false);
  }

  lemma AdmittedIsCertified(input: ClampInput, rt: Runtime, st: State)
    requires QualifiedRuntime(rt)
    ensures FallbackCertified(RunAdmitted(input, rt, st), rt.calibration.value)
  {
    var held, choice := HeldOf(input, rt, st), ChoiceOf(input, rt, st);
    FinishIsCertified(input, rt, st, true, false, ReversalWait, held.tally);
    FinishIsCertified(input, rt, st, false, true, choice.reason, choice.tally);
    if choice.Pick? {
      var j := JudgedOf(input, rt, st);
      FinishIsCertified(input, rt, st, false, true, TransitionLimit, j.tally);
      if j.Judged? {
        ConclusionIsCertified(j, MicrostepOf(input, rt, st), Previous(st), Request(input), input, rt, st);
      }
    }
  }

  /** Whatever a run selects, it carries a certified way to zero. */
  lemma EveryOutputHasFallback(input: ClampInput, rt: Runtime, st: State)
    requires QualifiedRuntime(rt) && input.negativeCap <= 0.0 <= input.positiveCap
    ensures FallbackCertified(Run(input, rt, st).1, rt.calibration.value)
  {
    match Admit(input, rt.calibration.value, st)
    case Admitted => AdmittedIsCertified(input, rt, st);
    case Refused(reversal, reason) => FinishIsCertified(input, rt, st, reversal, false, reason, NO_CALLS);
  }

  /** The run gives up torque of the opposite sign first. */
  predicate FirstLeg(input: ClampInput, cal: Calibration, st: State) {
    match GateReason(input, cal, st)
    case None => (Previous(st) > 0.0 && Request(input) < 0.0) || (Previous(st) < 0.0 && Request(input) > 0.0)
    case Some(reason) =>
      reason.ReversalWait? && !st.path.UnknownPath? && !InZeroBand(Request(input), st.normalizedZero, cal)
      && OpposesLast(input, st)
  }

  /** The certified family of a zero command. */
  function ZeroFamilyOf(input: ClampInput, cal: Calibration, st: State): (Profile, Direction) {
    if FirstLeg(input, cal, st) then (ReversalToZero, ReversalFirstLeg)
    else if st.path.UnknownPath? && !input.physicalZeroConfirmed then (UnknownToZero, ToZero)
    else (ZeroAssert, ToZero)
  }

  lemma ZeroMovementIs(input: ClampInput, st: State, reversal: bool)
    ensures ZeroMovement(input, st, reversal) ==
            if reversal then (ReversalToZero, ReversalFirstLeg)
            else if st.path.UnknownPath? && !input.physicalZeroConfirmed then (UnknownToZero, ToZero)
            else (ZeroAssert, ToZero)
  {
  }

  /** The zero output carries the envelope of its own family, or the static one where that cannot be evaluated. */
  ghost predicate ZeroDescribed(out: Output, family: (Profile, Direction), input: ClampInput, rt: Runtime, st: State)
    requires RuntimeValid(rt)
  {
    var t, cal := MoveTo(0.0, family.0, family.1, input, st), rt.calibration.value;
    && out.selected == 0.0 && (out.profile, out.direction) == family
    && out.transitionValid && out.transition == out.zeroFallback && out.settlingUs == out.zeroFallbackSettlingUs
    && if EvaluateTransition(t, rt).status == ModelOk then IsTrueEnvelope(t, cal, out.transition, out.settlingUs)
       else out.transition == cal.lateZero && out.settlingUs == cal.lateZeroSettlingUs
  }

  lemma FinishDescribed(input: ClampInput, rt: Runtime, st: State, reversal: bool, exhausted: bool, reason: Reason,
                        tally: Tally)
    requires QualifiedRuntime(rt)
    ensures ZeroDescribed(FinishZero(input, rt, st, reversal, exhausted, reason, tally),
                          ZeroMovement(input, st, reversal), input, rt, st)
  {
    FallbackIsCertified(input, rt, st, reversal);
    var movement := ZeroMovement(input, st, reversal);
    var t := MoveTo(0.0, movement.0, movement.1, input, st);
    assert t == TransitionRequest(0.0, movement.0, movement.1, input, st);
    if EvaluateTransition(t, rt).status == ModelOk {
      SuccessMeans(t, rt);
      TransitionIsTrueEnvelope(t, rt);
    }
  }

  /** A run that is refused at a gate, or that must give up torque of the opposite sign first, sends zero under the
      family of that very move to zero. */
  lemma RefusalIsZero(input: ClampInput, rt: Runtime, st: State)
    requires QualifiedRuntime(rt) && input.negativeCap <= 0.0 <= input.positiveCap
    requires GateReason(input, rt.calibration.value, st).Some? || FirstLeg(input, rt.calibration.value, st)
    ensures ZeroDescribed(Run(input, rt, st).1, ZeroFamilyOf(input, rt.calibration.value, st), input, rt, st)
  {
    var cal, held := rt.calibration.value, HeldOf(input, rt, st);
    AdmitIff(input, cal, st);
    match Admit(input, cal, st)
    case Admitted =>
      ZeroMovementIs(input, st, true);
      FinishDescribed(input, rt, st, true, false, ReversalWait, held.tally);
    case Refused(reversal, reason) =>
      ZeroMovementIs(input, st, reversal);
      FinishDescribed(input, rt, st, reversal, false, reason, NO_CALLS);
  }

  /** What a zero output reports: the prediction at zero torque, or its fallback where that fails, and whether even the
      auxiliary load is too much, or torque was considered and none was found. */
  predicate ZeroReported(out: Output, exhausted: bool, input: ClampInput, rt: Runtime) {
    var zero := EvaluateSteady(SteadyInput(0.0, input.point, false), rt);
    if zero.status != ModelOk then out.steady == out.zeroFallback && out.battery.TorqueExhausted?
    else
      && out.steady == zero.current
      && out.battery ==
         if zero.current.hi > input.limits.dcl || zero.current.lo < -input.limits.ccl then ZeroSteadyAuxInfeasible
         else if exhausted then TorqueExhausted
         else NormalAuthority
  }

  lemma FinishReports(input: ClampInput, rt: Runtime, st: State, reversal: bool, exhausted: bool, reason: Reason,
                      tally: Tally)
    requires QualifiedRuntime(rt)
    ensures var out := FinishZero(input, rt, st, reversal, exhausted, reason, tally);
            ZeroReported(out, exhausted, input, rt) && out.reason == reason
  {
    FallbackIsCertified(input, rt, st, reversal);
    OkIsOrdered(SteadyInput(0.0, input.point, false), rt);
  }

  lemma OkIsOrdered(input: SteadyInput, rt: Runtime)
    requires QualifiedRuntime(rt)
    ensures var out := EvaluateSteady(input, rt); out.status == ModelOk ==> Ordered(out.current)
  {
    SteadyIsTrueHull(input, rt);
    if EvaluateSteady(input, rt).status == ModelOk {
      StoppedFails(CellsAt(rt.calibration.value, TorqueInterval(input.torque, rt.calibration.value)), 0,
                   OperatingBox(input.point, rt.calibration.value), rt.calibration.value, Scan(None, 0));
    }
  }

  /** A run that is refused at a gate reports nothing exhausted; one that found no torque reports exhaustion. */
  lemma ZeroReports(input: ClampInput, rt: Runtime, st: State)
    requires QualifiedRuntime(rt) && input.negativeCap <= 0.0 <= input.positiveCap
    ensures var out, cal := Run(input, rt, st).1, rt.calibration.value;
            && (GateReason(input, cal, st).Some? || FirstLeg(input, cal, st) ==> ZeroReported(out, false, input, rt))
            && (GateReason(input, cal, st).None? && !FirstLeg(input, cal, st) && ChoiceOf(input, rt, st).GiveUp? ==>
                  ZeroReported(out, true, input, rt) && out.reason == ChoiceOf(input, rt, st).reason)
  {
    var cal, held, choice := rt.calibration.value, HeldOf(input, rt, st), ChoiceOf(input, rt, st);
    AdmitIff(input, cal, st);
    match Admit(input, cal, st)
    case Admitted =>
      FinishReports(input, rt, st, true, false, ReversalWait, held.tally);
      FinishReports(input, rt, st, false, true, choice.reason, choice.tally);
    case Refused(reversal, reason) =>
      FinishReports(input, rt, st, reversal, false, reason, NO_CALLS);
  }

  // ---------------------------------------------------------------------------------------------
  // Without a calibration, or without time
  // ---------------------------------------------------------------------------------------------

  /** Without a valid calibration handle a run sends zero, claims no envelope, and says so. */
  lemma UncalibratedAnswer(input: ClampInput, rt: Runtime, st: State)
    requires !RuntimeValid(rt) && input.negativeCap <= 0.0 <= input.positiveCap
    ensures var out := Run(input, rt, st).1;
            && out.selected == 0.0 && out.reason.CalibrationInvalid? && out.battery.TorqueExhausted? && out.outputValid
            && !out.transitionValid && !out.zeroFallbackValid && out.tally == Tally(0, 0, 0, 0)
  {
  }

  /** The static zero stands for the certified late-zero envelope throughout, settles as late as certified, keeps
      the counters of a finished output, and counts as a material change if it takes torque away. */
  lemma StaticZeroAnswer(input: ClampInput, rt: Runtime, st: State, reason: Reason, prior: Output)
    requires QualifiedRuntime(rt)
    ensures var out, cal := ForceStaticZero(input, rt, st, reason, prior), rt.calibration.value;
            && out.selected == 0.0 && out.reason == reason && out.outputValid && FallbackCertified(out, cal)
            && out.steady == out.transition == out.zeroFallback == cal.lateZero
            && out.settlingUs == out.zeroFallbackSettlingUs == cal.lateZeroSettlingUs
            && (out.profile, out.direction) == (ZeroAssert, ToZero)
            && (out.materialChange <==> st.committed != 0.0)
            && out.tally == (if prior.outputValid then prior.tally else Tally(0, 0, 0, 0))
  {
  }

  // ---------------------------------------------------------------------------------------------
  // Why a commit is refused
  // ---------------------------------------------------------------------------------------------

  /** The first thing that has changed since the candidate of this input was computed. */
  function CommitReason(out: Output, input: ClampInput, st: State, v: Verification): Option<Reason> {
    if !v.calibrationValid then Some(CalibrationInvalid)
    else if !v.authorityValid then Some(AuthorityInvalid)
    else if !v.safetyGateValid then Some(InputInvalid)
    else if NeedsConfirmedZero(input, st) && !v.physicalZeroConfirmed then Some(ReversalWait)
    else if input.generations != v.generations then Some(OperatingPointChanged)
    else if (v.timestampUs - input.nowUs) % 0x1_0000_0000 > 10000 then Some(DeadlineOverrun)
    else if || input.capabilityGeneration != v.capabilityGeneration
            || out.selected > v.positiveCap || out.selected < v.negativeCap then Some(CapabilityChanged)
    else if !IntervalsFit(out, v.limits) then Some(LateAuthorityTightening)
    else None
  }

  lemma NeedsZeroIff(input: ClampInput, st: State)
    ensures st.path.UnknownPath? || ReversalRequest(st, Request(input)) <==> NeedsConfirmedZero(input, st)
  {
  }

  lemma VerdictOf(out: Output, input: ClampInput, st: State, v: Verification)
    requires out.outputValid && out.selected != 0.0 && StampedBy(out, input)
    requires out.zeroConfirmationRequired == NeedsConfirmedZero(input, st)
    ensures Reverify(out, v) ==
            match CommitReason(out, input, st, v)
            case None => Verdict(true, out.selected, out.reason)
            case Some(reason) => Verdict(false, 0.0, reason)
  {
    FittingIntervals(out, v.limits);
  }

  /** A selected torque is accepted exactly when nothing has changed; otherwise zero is sent and the first change
      named. */
  lemma VerdictTells(input: ClampInput, rt: Runtime, st: State, v: Verification)
    requires Run(input, rt, st).1.selected != 0.0
    ensures var out := Run(input, rt, st).1;
            Reverify(out, v) ==
            match CommitReason(out, input, st, v)
            case None => Verdict(true, out.selected, out.reason)
            case Some(reason) => Verdict(false, 0.0, reason)
  {
    NonzeroCandidate(input, rt, st);
    CandidateStamp(input, rt, st);
    NeedsZeroIff(input, st);
    VerdictOf(Run(input, rt, st).1, input, st, v);
  }
}
