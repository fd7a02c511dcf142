/** Commit-time re-verification and the committed command history. */
module ClampCommit {
  import opened Numeric
  import opened Calibration
  import opened TorqueClamp

  /** The newest authority, capability and operating-point identity, read inside the protected commit. */
  datatype Verification = Verification(
    limits: Limits, positiveCap: real, negativeCap: real,
    generations: Generations, capabilityGeneration: Word32, timestampUs: Word32,
    authorityValid: bool, calibrationValid: bool, safetyGateValid: bool, physicalZeroConfirmed: bool)

  datatype Verdict = Verdict(accepted: bool, torque: real, reason: Reason)

  function Refuse(reason: Reason): Verdict {
    Verdict(false, 0.0, reason)
  }

  /** Compares cached intervals only; zero is always commandable. */
  function Reverify(candidate: Output, v: Verification): Verdict {
    if !candidate.outputValid then Refuse(InputInvalid)
    else if candidate.selected == 0.0 then Verdict(true, 0.0, candidate.reason)
    else if !v.calibrationValid then Refuse(CalibrationInvalid)
    else if !v.authorityValid then Refuse(AuthorityInvalid)
    else if !v.safetyGateValid then Refuse(InputInvalid)
    else if candidate.zeroConfirmationRequired && !v.physicalZeroConfirmed then Refuse(ReversalWait)
    else if candidate.generations != v.generations then Refuse(OperatingPointChanged)
    else if Sub32(v.timestampUs, candidate.timestampUs) > MAX_CONTRACT_AGE_US then Refuse(DeadlineOverrun)
    else if || candidate.capabilityGeneration != v.capabilityGeneration
            || candidate.selected > v.positiveCap || candidate.selected < v.negativeCap then Refuse(CapabilityChanged)
    else if || !IntervalAuthorized(candidate.steady, v.limits)
            || (candidate.transitionRequired && (!candidate.transitionValid
                                                 || !IntervalAuthorized(candidate.transition, v.limits))) then
      Refuse(LateAuthorityTightening)
    else Verdict(true, candidate.selected, candidate.reason)
  }

  // ---------------------------------------------------------------------------------------------
  // The transition record after a commit
  // ---------------------------------------------------------------------------------------------

  predicate Matches(candidate: Option<Output>, committed: real) {
    candidate.Some? && candidate.value.outputValid
        && Abs(candidate.value.selected - committed) < COMMIT_MATCH_TOLERANCE_NM
  }

  /** How the commit moved the command. */
  datatype Move = Move(material: bool, microstep: bool, profile: Profile, direction: Direction, settlingUs: nat)

  function MoveOf(candidate: Option<Output>, previous: real, committed: real, cal: Calibration): Move {
    if Matches(candidate, committed) then
      var c := candidate.value;
      Move(c.materialChange, c.microstep, c.profile, c.direction, c.settlingUs)
    else if committed == 0.0 then Move(previous != 0.0, false, ZeroAssert, ToZero, cal.lateZeroSettlingUs)
    else Move(committed != previous, false, HoldProfile, HoldDirection, 0)
  }

  /** A command already contained in the certified active span does not restart the settling clock. */
  predicate RestartsSettling(m: Move, t: ActiveTransition, committed: real, nowZero: bool) {
    && m.material
    && (|| !t.active || nowZero
        || committed < t.minimum || committed > t.maximum
        || m.profile != t.profile || m.direction != t.direction)
  }

  function SettledAt(t: ActiveTransition, committed: real): ActiveTransition {
    t.(active := false, anchor := committed, minimum := committed, maximum := committed, latestTarget := committed,
       cumulativeDrift := 0.0, maximumSettlingUs := 0, confirmationRequired := 0, confirmationObserved := 0,
       profile := HoldProfile, direction := HoldDirection)
  }

  function SettledPath(committed: real): Path {
    if committed == 0.0 then ConfirmedZero else SameSignTracking
  }

  function Widen(t: ActiveTransition, previous: real, committed: real, m: Move, nowUs: Word32,
                 cal: Calibration): ActiveTransition {
    var lo := if t.active then Min(t.minimum, committed) else Min(t.anchor, Min(previous, committed));
    var hi := if t.active then Max(t.maximum, committed) else Max(t.anchor, Max(previous, committed));
    t.(active := true, minimum := lo, maximum := hi, startedUs := if t.active then t.startedUs else nowUs,
       latestTarget := committed, lastMaterialUs := nowUs,
       maximumSettlingUs := if m.settlingUs > t.maximumSettlingUs then m.settlingUs else t.maximumSettlingUs,
       confirmationRequired := cal.steadyConfirmationSamples, confirmationObserved := 0,
       profile := m.profile, direction := m.direction)
  }

  predicate TrackingStable(t: ActiveTransition, previous: real, committed: real, nowUs: Word32, cal: Calibration) {
    var elapsed := if t.lastCommitUs == 0 then 0 else Sub32(nowUs, t.lastCommitUs);
    && Abs(committed - t.latestTarget) <= cal.trackingBand
    && elapsed != 0 && Abs(committed - previous) * 1000000.0 / elapsed as real <= cal.maximumSettledRate
  }

  predicate SettlingTimePassed(t: ActiveTransition, nowUs: Word32, cal: Calibration) {
    Sub32(nowUs, t.lastMaterialUs) >= if t.maximumSettlingUs > cal.settledTrackingTimeUs then t.maximumSettlingUs
        else cal.settledTrackingTimeUs
  }

  const MAX_CONFIRMATIONS: nat := 0xFFFF

  function CommitPath(st: State, candidate: Option<Output>, committed: real, nowZero: bool, zeroConfirmed: bool): Path {
    if !nowZero then
      if && Matches(candidate, committed) && candidate.value.zeroConfirmationRequired
         && !st.lastNonzeroSign.NoSign? && SignOf(committed) != st.lastNonzeroSign then ReversalLegTwo
      else if Matches(candidate, committed) && candidate.value.direction.SameSignDecrease? then RampingToZero
      else SameSignTracking
    else if zeroConfirmed then ConfirmedZero
    else WaitingForZero
  }

  /** Phase, path and transition after the commit has been classified. */
  datatype Progress = Progress(path: Path, phase: Phase, transition: ActiveTransition)

  function AfterMaterial(p: Progress, previous: real, committed: real, m: Move, nowUs: Word32,
                         cal: Calibration): Progress {
    Progress(p.path, if m.profile.SlewLimited? || m.profile.Composed? then SlewTracking else StepTransition,
             Widen(p.transition, previous, committed, m, nowUs, cal))
  }

  function AfterSettling(p: Progress, previous: real, committed: real, nowUs: Word32, consistent: bool,
                         cal: Calibration): Progress {
    var t := p.transition;
    var tracked := t.(latestTarget := committed);
    if SettlingTimePassed(t, nowUs, cal) && TrackingStable(t, previous, committed, nowUs, cal) && consistent then
      var observed :=
        if t.confirmationObserved < MAX_CONFIRMATIONS then t.confirmationObserved + 1 else t.confirmationObserved;
      if observed >= t.confirmationRequired then
        Progress(SettledPath(committed), SteadyPhase, SettledAt(tracked, committed))
      else Progress(p.path, Settling, tracked.(confirmationObserved := observed))
    else Progress(p.path, Settling, tracked.(confirmationObserved := 0))
  }

  function Advance(p: Progress, previous: real, committed: real, m: Move, nowZero: bool, nowUs: Word32,
                   consistent: bool, cal: Calibration): Progress {
    var t := p.transition;
    if m.microstep && !t.active then
      Progress(p.path, SteadyPhase, t.(cumulativeDrift := t.cumulativeDrift + Abs(committed - previous)))
    else if RestartsSettling(m, t, committed, nowZero) then AfterMaterial(p, previous, committed, m, nowUs, cal)
    else if t.active then AfterSettling(p, previous, committed, nowUs, consistent, cal)
    else if (p.path.ConfirmedZero? || p.path.SameSignTracking?) && t.anchor == 0.0 && t.lastCommitUs == 0 then
      Progress(SettledPath(committed), SteadyPhase, SettledAt(t, committed))
    else p
  }

  /** The committed state after a frame carrying this torque has reached the bus, under a valid calibration handle. */
  function NoteCommit(st: State, candidate: Option<Output>, committed: real, nowUs: Word32,
                      zeroConfirmed: bool, consistent: bool, cal: Calibration): State {
    var previous := st.committed;
    var nowZero := NormalizedZero(committed, st.normalizedZero, cal);
    var m := MoveOf(candidate, previous, committed, cal);
    var start := Progress(CommitPath(st, candidate, committed, nowZero, zeroConfirmed), st.phase,
                          st.transition.(previousCommitted := previous));
    var p := Advance(start, previous, committed, m, nowZero, nowUs, consistent, cal);
    var drift := if !m.microstep && p.transition.active then Abs(committed - previous) else 0.0;
    State(p.path, if nowZero then st.lastNonzeroSign else SignOf(committed), committed, nowZero, zeroConfirmed, p.phase,
          p.transition.(cumulativeDrift := p.transition.cumulativeDrift + drift, lastCommitUs := nowUs))
  }

  /** A commit that finds the calibration handle no longer valid. */
  function NoteUncalibratedCommit(st: State, committed: real, nowUs: Word32, zeroConfirmed: bool): State {
    var previous := st.committed;
    var t := st.transition.(previousCommitted := previous, lastCommitUs := nowUs);
    var noted := st.(committed := committed, normalizedZero := committed == 0.0,
                     physicalZeroConfirmed := zeroConfirmed, transition := t);
    if committed != 0.0 then
      noted.(lastNonzeroSign := SignOf(committed), path := UnknownPath, phase := StepTransition)
    else if zeroConfirmed then
      noted.(path := ConfirmedZero, phase := SteadyPhase,
             transition := t.(active := false, anchor := 0.0, minimum := 0.0, maximum := 0.0, latestTarget := 0.0,
                              cumulativeDrift := 0.0))
    else if previous != 0.0 then
      noted.(path := WaitingForZero, phase := StepTransition,
             transition := t.(active := true, minimum := Min(previous, 0.0), maximum := Max(previous, 0.0),
                              latestTarget := 0.0, startedUs := nowUs, lastMaterialUs := nowUs, profile := ZeroAssert,
                              direction := ToZero))
    else noted.(path := WaitingForZero)
  }

  function NoteHardwareCommit(st: State, candidate: Option<Output>, committed: real, nowUs: Word32,
                              zeroConfirmed: bool, consistent: bool, rt: Runtime): State {
    if RuntimeValid(rt) then NoteCommit(st, candidate, committed, nowUs, zeroConfirmed, consistent,
                                        rt.calibration.value)
    else NoteUncalibratedCommit(st, committed, nowUs, zeroConfirmed)
  }

  // ---------------------------------------------------------------------------------------------
  // The in-place form
  // ---------------------------------------------------------------------------------------------

  /** The clamp state that the CAN task owns and updates after each completed frame. */
  class ClampState {
    var path: Path
    var lastNonzeroSign: Sign
    var committed: real
    var normalizedZero: bool
    var physicalZeroConfirmed: bool
    var phase: Phase
    var transition: ActiveTransition

    ghost function View(): State
      reads this
    {
      State(path, lastNonzeroSign, committed, normalizedZero, physicalZeroConfirmed, phase, transition)
    }

    constructor ()
      ensures View() == INITIAL_STATE
    {
      path, lastNonzeroSign, committed := UnknownPath, NoSign, 0.0;
      normalizedZero, physicalZeroConfirmed, phase := false, false, StepTransition;
      transition := INITIAL_STATE.transition;
    }

    method ResetSettledAnchor(torque: real)
      modifies this
      ensures View() == old(View()).(path := SettledPath(torque), phase := SteadyPhase,
                                     transition := SettledAt(old(transition), torque))
    {
      transition := transition.(active := false, anchor := torque, minimum := torque, maximum := torque,
                                latestTarget := torque);
      transition := transition.(cumulativeDrift := 0.0, maximumSettlingUs := 0);
      transition := transition.(confirmationRequired := 0, confirmationObserved := 0);
      transition := transition.(profile := HoldProfile, direction := HoldDirection);
      phase := SteadyPhase;
      path := if torque == 0.0 then ConfirmedZero else SameSignTracking;
    }

    method NoteUncalibrated(torque: real, nowUs: Word32, zeroConfirmed: bool)
      modifies this
      ensures View() == NoteUncalibratedCommit(old(View()), torque, nowUs, zeroConfirmed)
    {
      var previous := committed;
      transition := transition.(previousCommitted := previous);
      committed := torque;
      physicalZeroConfirmed := zeroConfirmed;
      normalizedZero := torque == 0.0;
      transition := transition.(lastCommitUs := nowUs);
      if torque != 0.0 {
        lastNonzeroSign := SignOf(torque);
        path := UnknownPath;
        phase := StepTransition;
        return;
      }
      path := if zeroConfirmed then ConfirmedZero else WaitingForZero;
      if zeroConfirmed {
        transition := transition.(active := false, anchor := 0.0, minimum := 0.0, maximum := 0.0, latestTarget := 0.0,
                                  cumulativeDrift := 0.0);
        phase := SteadyPhase;
      } else if !SignOf(previous).NoSign? {
        transition := transition.(active := true, minimum := Min(previous, 0.0), maximum := Max(previous, 0.0),
                                  latestTarget := 0.0);
        transition := transition.(startedUs := nowUs, lastMaterialUs := nowUs, profile := ZeroAssert,
                                  direction := ToZero);
        phase := StepTransition;
      }
    }

    ghost function Record(): Progress
      reads this
    {
      Progress(path, phase, transition)
    }

    /** Sign and path bookkeeping of a commit. */
    method Classify(candidate: Option<Output>, torque: real, zeroConfirmed: bool, nowZero: bool)
      modifies this
      ensures View() == old(View()).(
        path := CommitPath(old(View()), candidate, torque, nowZero, zeroConfirmed),
        lastNonzeroSign := if nowZero then old(lastNonzeroSign) else SignOf(torque),
        committed := torque, normalizedZero := nowZero, physicalZeroConfirmed := zeroConfirmed,
        transition := old(transition).(previousCommitted := old(committed)))
    {
      var matches := Matches(candidate, torque);
      var priorSign, newSign := lastNonzeroSign, SignOf(torque);
      physicalZeroConfirmed := zeroConfirmed;
      normalizedZero := nowZero;
      transition := transition.(previousCommitted := committed);
      committed := torque;
      if !nowZero {
        var reversalLegTwo := matches && candidate.value.zeroConfirmationRequired && !priorSign.NoSign?
            && newSign != priorSign;
        var reducing := matches && candidate.value.direction.SameSignDecrease?;
        lastNonzeroSign := newSign;
        path := if reversalLegTwo then ReversalLegTwo else if reducing then RampingToZero else SameSignTracking;
      } else if zeroConfirmed {
        path := ConfirmedZero;
      } else {
        path := WaitingForZero;
      }
    }

    /** A material change opens the active transition or widens its bracket. */
    method OpenOrWiden(previous: real, torque: real, m: Move, nowUs: Word32, cal: Calibration)
      modifies `transition, `phase
      ensures Record() == AfterMaterial(old(Record()), previous, torque, m, nowUs, cal)
    {
      if !transition.active {
        var anchor := transition.anchor;
        transition := transition.(active := true, startedUs := nowUs,
                                  minimum := Min(anchor, Min(previous, torque)),
                                  maximum := Max(anchor, Max(previous, torque)));
      } else {
        transition := transition.(minimum := Min(transition.minimum, torque),
                                  maximum := Max(transition.maximum, torque));
      }
      transition := transition.(latestTarget := torque, lastMaterialUs := nowUs);
      if m.settlingUs > transition.maximumSettlingUs {
        transition := transition.(maximumSettlingUs := m.settlingUs);
      }
      transition := transition.(confirmationRequired := cal.steadyConfirmationSamples, confirmationObserved := 0);
      transition := transition.(profile := m.profile, direction := m.direction);
      phase := if m.profile.SlewLimited? || m.profile.Composed? then SlewTracking else StepTransition;
    }

    /** Settling confirmation: the anchor moves only after the required consecutive stable samples. */
    method ConfirmSettling(previous: real, torque: real, nowUs: Word32, consistent: bool, cal: Calibration)
      modifies this
      ensures Record() == AfterSettling(old(Record()), previous, torque, nowUs, consistent, cal)
      ensures View() == old(View()).(path := path, phase := phase, transition := transition)
    {
      var stable := TrackingStable(transition, previous, torque, nowUs, cal);
      var settled := SettlingTimePassed(transition, nowUs, cal);
      transition := transition.(latestTarget := torque);
      phase := Settling;
      if settled && stable && consistent {
        if transition.confirmationObserved < MAX_CONFIRMATIONS {
          transition := transition.(confirmationObserved := transition.confirmationObserved + 1);
        }
        if transition.confirmationObserved >= transition.confirmationRequired {
          ResetSettledAnchor(torque);
        }
      } else {
        transition := transition.(confirmationObserved := 0);
      }
    }

    /** One of: microstep drift, material change, settling, or the very first anchor. */
    method AdvanceTransition(previous: real, torque: real, m: Move, nowZero: bool, nowUs: Word32, consistent: bool,
                             cal: Calibration)
      modifies this
      ensures Record() == Advance(old(Record()), previous, torque, m, nowZero, nowUs, consistent, cal)
      ensures View() == old(View()).(path := path, phase := phase, transition := transition)
    {
      var material := m.material;
      var extendsSpan := transition.active && (torque < transition.minimum || torque > transition.maximum);
      var profileChanged := transition.active && (m.profile != transition.profile
                                                  || m.direction != transition.direction);
      if transition.active && material && !extendsSpan && !profileChanged && !nowZero {
        material := false;
      }
      if m.microstep && !transition.active {
        transition := transition.(cumulativeDrift := transition.cumulativeDrift + Abs(torque - previous));
        phase := SteadyPhase;
      } else if material {
        OpenOrWiden(previous, torque, m, nowUs, cal);
      } else if transition.active {
        ConfirmSettling(previous, torque, nowUs, consistent, cal);
      } else if (path.ConfirmedZero? || path.SameSignTracking?) && transition.anchor == 0.0
          && transition.lastCommitUs == 0 {
        ResetSettledAnchor(torque);
      }
    }

    /** The change a commit makes, read from the candidate if the committed torque is the candidate's. */
    method ReadMove(candidate: Option<Output>, previous: real, torque: real, cal: Calibration) returns (m: Move)
      ensures m == MoveOf(candidate, previous, torque, cal)
    {
      m := Move(torque != previous, false, HoldProfile, HoldDirection, 0);
      if Matches(candidate, torque) {
        var c := candidate.value;
        m := Move(c.materialChange, c.microstep, c.profile, c.direction, c.settlingUs);
      } else if torque == 0.0 {
        m := Move(previous != 0.0, false, ZeroAssert, ToZero, cal.lateZeroSettlingUs);
      }
    }

    /** The commit under a valid handle: classification first, then the transition record. */
    method NoteCalibrated(candidate: Option<Output>, torque: real, nowUs: Word32, zeroConfirmed: bool,
                          consistent: bool, cal: Calibration)
      modifies this
      ensures View() == NoteCommit(old(View()), candidate, torque, nowUs, zeroConfirmed, consistent, cal)
    {
      var previous := committed;
      var nowZero := NormalizedZero(torque, normalizedZero, cal);
      Classify(candidate, torque, zeroConfirmed, nowZero);
      var m := ReadMove(candidate, previous, torque, cal);
      label classified:
      AdvanceTransition(previous, torque, m, nowZero, nowUs, consistent, cal);
      ghost var p := Advance(old@classified(Record()), previous, torque, m, nowZero, nowUs, consistent, cal);
      assert Record() == p;
      var drift := if !m.microstep && transition.active then Abs(torque - previous) else 0.0;
      transition := transition.(cumulativeDrift := transition.cumulativeDrift + drift, lastCommitUs := nowUs);
      assert Record() == Progress(p.path, p.phase,
                                  p.transition.(cumulativeDrift := p.transition.cumulativeDrift + drift,
                                                lastCommitUs := nowUs));
    }

    method NoteCommitted(candidate: Option<Output>, torque: real, nowUs: Word32, zeroConfirmed: bool, consistent: bool,
                         rt: Runtime)
      modifies this
      ensures View() == NoteHardwareCommit(old(View()), candidate, torque, nowUs, zeroConfirmed, consistent, rt)
    {
      if !RuntimeValid(rt) {
        NoteUncalibrated(torque, nowUs, zeroConfirmed);
      } else {
        NoteCalibrated(candidate, torque, nowUs, zeroConfirmed, consistent, rt.calibration.value);
      }
    }
  }
}
