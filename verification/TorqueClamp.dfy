/** The vocabulary of the torque clamp: inputs, committed state, candidate output and the pure decisions. */
module TorqueClamp {
  import opened Numeric
  import opened Calibration
  import opened SteadyModel
  import opened TransitionModel

  const QUANTA_PER_NM: real := 10.0
  const MAX_REFINE_ITERATIONS: nat := 4
  const MAX_STEADY_CALLS: nat := 32
  const MAX_TRANSITION_CALLS: nat := 8
  const MAX_CELL_EVALUATIONS: nat := 64
  const MAX_CONTRACT_AGE_US: nat := 10000
  const COMMIT_MATCH_TOLERANCE_NM: real := 0.0001

  datatype Sign = NoSign | PositiveSign | NegativeSign

  datatype Path = UnknownPath | ConfirmedZero | SameSignTracking | RampingToZero | WaitingForZero | ReversalLegTwo

  datatype Phase = StepTransition | SlewTracking | Settling | SteadyPhase

  datatype Battery = NormalAuthority | LowAuthority | TorqueExhausted | ZeroSteadyAuxInfeasible

  datatype Reason =
    | NoReason | ZeroRequest | InputInvalid | CalibrationInvalid | AuthorityInvalid | CurrentLimit
    | ReversalWait | SearchExhausted | LateAuthorityTightening | TransitionLimit
    | OperatingPointChanged | CapabilityChanged | ExecutionBound | DeadlineOverrun

  /** What the accumulator allows: discharge and charge limits and the direction permissions. */
  datatype Limits = Limits(dcl: real, ccl: real, discharge: bool, charge: bool)

  datatype Generations = Generations(speed: Word32, vdc: Word32, temperature: Word32, calibration: Word32)

  datatype ClampInput = ClampInput(
    requested: real, point: OperatingPoint, positiveCap: real, negativeCap: real, limits: Limits, nowUs: Word32,
    generations: Generations, capabilityGeneration: Word32,
    authorityValid: bool, operatingPointValid: bool, physicalZeroConfirmed: bool)

  datatype ActiveTransition = ActiveTransition(
    active: bool, anchor: real, minimum: real, maximum: real, latestTarget: real,
    cumulativeDrift: real, previousCommitted: real,
    startedUs: Word32, lastMaterialUs: Word32, lastCommitUs: Word32,
    maximumSettlingUs: nat, confirmationRequired: nat, confirmationObserved: nat,
    profile: Profile, direction: Direction)

  datatype State = State(
    path: Path, lastNonzeroSign: Sign, committed: real, normalizedZero: bool, physicalZeroConfirmed: bool,
    phase: Phase, transition: ActiveTransition)

  const INITIAL_STATE := State(
    UnknownPath, NoSign, 0.0, false, false, StepTransition,
    ActiveTransition(false, 0.0, 0.0, 0.0, 0.0, 0.0, 0.0, 0, 0, 0, 0, 0, 0, InvalidProfile, InvalidDirection))

  /** Model calls made by one run. */
  datatype Tally = Tally(steady: nat, transition: nat, cells: nat, refinements: nat)

  const NO_CALLS := Tally(0, 0, 0, 0)

  datatype Output = Output(
    selected: real, steady: Interval, transition: Interval, zeroFallback: Interval,
    reason: Reason, battery: Battery, profile: Profile, direction: Direction,
    settlingUs: nat, zeroFallbackSettlingUs: nat,
    timestampUs: Word32, generations: Generations, capabilityGeneration: Word32,
    tally: Tally,
    selectedNonzero: bool, transitionValid: bool, transitionRequired: bool, microstep: bool, materialChange: bool,
    zeroConfirmationRequired: bool, zeroFallbackValid: bool, outputValid: bool)

  const NO_CURRENT := Interval(0.0, 0.0)

  const EMPTY_OUTPUT := Output(
    0.0, NO_CURRENT, NO_CURRENT, NO_CURRENT, NoReason, NormalAuthority, InvalidProfile, InvalidDirection,
    0, 0, 0, Generations(0, 0, 0, 0), 0, NO_CALLS, false, false, false, false, false, false, false, false)

  function Snapshot(input: ClampInput, out: Output): Output {
    out.(generations := input.generations, capabilityGeneration := input.capabilityGeneration,
         timestampUs := input.nowUs)
  }

  // ---------------------------------------------------------------------------------------------
  // Command quantisation
  // ---------------------------------------------------------------------------------------------

  /** truncf: towards zero. */
  function Truncate(x: real): int {
    if x >= 0.0 then x.Floor else -((-x).Floor)
  }

  /** The command resolution of the inverter is 0.1 Nm. */
  function Quantize(torque: real): real {
    Truncate(torque * QUANTA_PER_NM) as real / QUANTA_PER_NM
  }

  ghost predicate IsQuantum(torque: real) {
    Quantize(torque) == torque
  }

  lemma TruncateProperties(x: real)
    ensures x >= 0.0 ==> 0.0 <= Truncate(x) as real <= x
    ensures x <= 0.0 ==> x <= Truncate(x) as real <= 0.0
    ensures Truncate(Truncate(x) as real) == Truncate(x)
  {
  }

  /** Quantising keeps the sign, never grows the magnitude and is idempotent. */
  lemma QuantizeTowardZero(torque: real)
    ensures torque >= 0.0 ==> 0.0 <= Quantize(torque) <= torque
    ensures torque <= 0.0 ==> torque <= Quantize(torque) <= 0.0
    ensures IsQuantum(Quantize(torque))
  {
    TruncateProperties(torque * QUANTA_PER_NM);
    assert Quantize(torque) * QUANTA_PER_NM == Truncate(torque * QUANTA_PER_NM) as real;
  }

  /** A nonzero quantum is at least one command step, so it is never mistaken for zero at commit. */
  lemma NonzeroQuantum(torque: real)
    requires IsQuantum(torque) && torque != 0.0
    ensures Abs(torque) >= 0.1
  {
    var n := Truncate(torque * QUANTA_PER_NM);
    assert torque == n as real / QUANTA_PER_NM;
    assert n != 0;
    assert n >= 1 || n <= -1;
  }

  lemma ZeroIsQuantum()
    ensures IsQuantum(0.0)
  {
  }

  // ---------------------------------------------------------------------------------------------
  // Pure decisions
  // ---------------------------------------------------------------------------------------------

  function SignOf(torque: real): Sign {
    if torque > 0.0 then PositiveSign else if torque < 0.0 then NegativeSign else NoSign
  }

  predicate IntervalAuthorized(i: Interval, limits: Limits) {
    && Ordered(i) && limits.dcl >= 0.0 && limits.ccl >= 0.0
    && i.hi <= limits.dcl && i.lo >= -limits.ccl
    && (i.hi > 0.0 ==> limits.discharge)
    && (i.lo < 0.0 ==> limits.charge)
  }

  function ClampCapability(request: real, input: ClampInput): real {
    if request > input.positiveCap then input.positiveCap
    else if request < input.negativeCap then input.negativeCap
    else request
  }

  predicate NormalizedZero(raw: real, wasZero: bool, cal: Calibration) {
    Abs(raw) <= if wasZero then cal.zeroExit else cal.zeroEnter
  }

  function ExactSteady(torque: real, microstep: bool, input: ClampInput, rt: Runtime): SteadyOutput {
    EvaluateSteady(SteadyInput(torque, input.point, microstep), rt)
  }

  function CountSteady(t: Tally, out: SteadyOutput): Tally {
    t.(steady := t.steady + 1, cells := t.cells + if out.status == ModelOk then out.cells else 0)
  }

  predicate SteadyAuthorized(out: SteadyOutput, input: ClampInput) {
    out.status == ModelOk && IntervalAuthorized(out.current, input.limits)
  }

  /** Whole-cell check: the operating box is built at torque zero. */
  function CellSteady(cell: nat, input: ClampInput, rt: Runtime): SteadyOutput {
    EvaluateSteadyCell(cell, SteadyInput(0.0, input.point, false), rt)
  }

  predicate CellAuthorized(cell: nat, input: ClampInput, rt: Runtime) {
    SteadyAuthorized(CellSteady(cell, input, rt), input)
  }

  function CountCell(t: Tally): Tally {
    t.(steady := t.steady + 1, cells := t.cells + 1)
  }

  /** The path crosses a positive length of the cell. */
  predicate CellPathOverlap(path: Interval, cell: Interval) {
    Min(path.hi, cell.hi) > Max(path.lo, cell.lo)
  }

  function PositiveCandidate(cell: SteadyCell, cal: Calibration, maximum: real): real {
    var guard := Max(cal.torquePositive, 1.0 / QUANTA_PER_NM);
    var candidate := Min(maximum, cell.torque.hi - guard);
    if candidate < cell.torque.lo + cal.torqueNegative then 0.5 * (cell.torque.lo + cell.torque.hi) else candidate
  }

  function NegativeCandidate(cell: SteadyCell, cal: Calibration, minimum: real): real {
    var guard := Max(cal.torqueNegative, 1.0 / QUANTA_PER_NM);
    var candidate := Max(minimum, cell.torque.lo + guard);
    if candidate > cell.torque.hi - cal.torquePositive then 0.5 * (cell.torque.lo + cell.torque.hi) else candidate
  }

  /** The span over which the transition model is evaluated for a candidate. */
  function Bracket(st: State, candidate: real): Interval {
    var t := st.transition;
    if t.active then Interval(Min(t.minimum, candidate), Max(t.maximum, candidate))
    else Interval(Min(t.anchor, Min(st.committed, candidate)), Max(t.anchor, Max(st.committed, candidate)))
  }

  function TransitionRequest(candidate: real, profile: Profile, direction: Direction, input: ClampInput,
                             st: State): TransitionInput {
    var b := Bracket(st, candidate);
    TransitionInput(st.transition.anchor, b.lo, b.hi, candidate, input.point, profile, direction)
  }

  function TransitionFor(candidate: real, profile: Profile, direction: Direction, input: ClampInput, rt: Runtime,
                         st: State): TransitionOutput {
    EvaluateTransition(TransitionRequest(candidate, profile, direction, input, st), rt)
  }

  function CountTransition(t: Tally): Tally {
    t.(transition := t.transition + 1)
  }

  predicate TransitionAuthorized(out: TransitionOutput, input: ClampInput) {
    out.status == ModelOk && IntervalAuthorized(out.current, input.limits)
  }

  function Movement(st: State, previous: real, candidate: real, reversalFirstLeg: bool): (Profile, Direction) {
    if candidate == 0.0 then
      (if reversalFirstLeg then (ReversalToZero, ReversalFirstLeg) else (ZeroAssert, ToZero))
    else if st.transition.active && candidate == previous then (st.transition.profile, st.transition.direction)
    else
      (if st.transition.active then Composed else SlewLimited,
       if previous == 0.0 then FromZero else if Abs(candidate) > Abs(previous) then SameSignIncrease
       else SameSignDecrease)
  }

  function ZeroMovement(input: ClampInput, st: State, reversalFirstLeg: bool): (Profile, Direction) {
    if reversalFirstLeg then (ReversalToZero, ReversalFirstLeg)
    else if st.path.UnknownPath? && !input.physicalZeroConfirmed then (UnknownToZero, ToZero)
    else (ZeroAssert, ToZero)
  }

  predicate RateAllowsMicrostep(delta: real, input: ClampInput, st: State, cal: Calibration) {
    && st.transition.lastCommitUs != 0
    && var elapsed := Sub32(input.nowUs, st.transition.lastCommitUs);
       elapsed != 0 && Abs(delta) * 1000000.0 / elapsed as real <= cal.maximumSettledRate
  }

  predicate MicrostepEligible(previous: real, request: real, input: ClampInput, st: State, cal: Calibration) {
    var delta := request - previous;
    && !st.transition.active
    && st.path.SameSignTracking?
    && !SignOf(previous).NoSign? && SignOf(previous) == SignOf(request)
    && !NormalizedZero(previous, st.normalizedZero, cal)
    && !NormalizedZero(request, st.normalizedZero, cal)
    && 0.0 < Abs(delta) <= cal.maximumMicrostep
    && Abs(delta) <= cal.trackingBand
    && RateAllowsMicrostep(delta, input, st, cal)
    && Abs(request - st.transition.anchor) <= cal.maximumAnchorDeviation
    && st.transition.cumulativeDrift + Abs(delta) <= cal.maximumCumulativeDrift
  }

  function Consumption(steady: Interval, limits: Limits): real {
    var discharge := if steady.hi > 0.0 && limits.dcl > 0.0 then Max(0.0, steady.hi / limits.dcl) else 0.0;
    if steady.lo < 0.0 && limits.ccl > 0.0 then Max(discharge, -steady.lo / limits.ccl) else discharge
  }

  function ClassifyBattery(selected: real, steady: Interval, input: ClampInput, cal: Calibration,
                           exhausted: bool): Battery {
    if selected == 0.0 then
      if Ordered(steady) && (steady.hi > input.limits.dcl || steady.lo < -input.limits.ccl) then ZeroSteadyAuxInfeasible
      else if exhausted then TorqueExhausted else NormalAuthority
    else if || Consumption(steady, input.limits) >= cal.lowMarginFraction
            || (steady.hi > 0.0 && input.limits.dcl - steady.hi < cal.minimumDischargeHeadroom)
            || (steady.lo < 0.0 && input.limits.ccl + steady.lo < cal.minimumChargeHeadroom)
            || Abs(selected) < cal.nonzeroTorqueThreshold then LowAuthority
    else NormalAuthority
  }

  predicate WithinContract(t: Tally) {
    && t.steady <= MAX_STEADY_CALLS && t.transition <= MAX_TRANSITION_CALLS
    && t.cells <= MAX_CELL_EVALUATIONS && t.refinements <= MAX_REFINE_ITERATIONS
  }
}
