/** The pack-current calibration artifact and its boot-time qualification. */
module Calibration {
  import opened Numeric
  import opened GridCoverage

  const SCHEMA_VERSION: nat := 3
  const MAGIC: nat := 0x4550434D
  const MAX_TORQUE_AXIS_POINTS: nat := 21
  const MAX_TORQUE_CELLS: nat := MAX_TORQUE_AXIS_POINTS - 1
  const MAX_REGIONS_PER_CELL: nat := MAX_REGIONS
  const MAX_TRANSITION_CELLS: nat := 64

  datatype Profile =
    | InvalidProfile | HoldProfile | Microstep | SlewLimited | ImmediateStep
    | ZeroAssert | ReversalToZero | UnknownToZero | Composed

  datatype Direction =
    | InvalidDirection | HoldDirection | SameSignIncrease | SameSignDecrease
    | ToZero | FromZero | ReversalFirstLeg

  datatype SteadyRegion = SteadyRegion(domain: Domain, current: Interval)

  /** The regions array and its count are one sequence. */
  datatype SteadyCell = SteadyCell(torque: Interval, regions: seq<SteadyRegion>)

  datatype TransitionRegion = TransitionRegion(domain: Domain, current: Interval, settlingUs: nat)

  datatype TransitionCell = TransitionCell(profile: Profile, direction: Direction, spanMax: real,
                                           regions: seq<TransitionRegion>)

  /** imageCrc32 stands for the CRC-32 that the firmware computes over the bytes of the structure. */
  datatype Calibration = Calibration(
    magic: nat, schemaVersion: nat,
    torqueAxis: seq<real>, steadyCells: seq<SteadyCell>, transitionCells: seq<TransitionCell>,
    certified: Domain,
    aux: Interval,
    numericNegative: real, numericPositive: real,
    torqueNegative: real, torquePositive: real,
    speedNegative: real, speedPositive: real,
    maximumAcceleration: real, maximumDeceleration: real,
    vdcNegative: real, vdcPositive: real,
    inverterTempNegative: real, inverterTempPositive: real,
    motorTempNegative: real, motorTempPositive: real,
    maximumSpeedAgeUs: nat, maximumVdcAgeUs: nat, maximumInverterTempAgeUs: nat, maximumMotorTempAgeUs: nat,
    zeroEnter: real, zeroExit: real,
    trackingBand: real, maximumMicrostep: real, maximumSettledRate: real,
    maximumAnchorDeviation: real, maximumCumulativeDrift: real,
    settledTrackingTimeUs: nat, steadyConfirmationSamples: nat,
    microstepNegative: real, microstepPositive: real,
    lateZero: Interval, lateZeroSettlingUs: nat,
    lowMarginFraction: real, minimumDischargeHeadroom: real, minimumChargeHeadroom: real,
    nonzeroTorqueThreshold: real,
    evidenceValid: bool, crc32: nat, imageCrc32: nat)

  /** The handle that runtime control holds on a calibration. */
  datatype Runtime = Runtime(calibration: Option<Calibration>, qualifiedCrc32: nat, generation: nat, qualified: bool)

  // ---------------------------------------------------------------------------------------------
  // What a qualified artifact satisfies
  // ---------------------------------------------------------------------------------------------

  predicate ScalarsValid(cal: Calibration) {
    && cal.magic == MAGIC && cal.schemaVersion == SCHEMA_VERSION && cal.evidenceValid
    && cal.crc32 != 0 && cal.crc32 == cal.imageCrc32
    && 2 <= |cal.torqueAxis| <= MAX_TORQUE_AXIS_POINTS
    && |cal.steadyCells| == |cal.torqueAxis| - 1
    && 0 < |cal.transitionCells| <= MAX_TRANSITION_CELLS
    && DomainValid(cal.certified)
    && Ordered(cal.aux)
    && cal.numericNegative >= 0.0 && cal.numericPositive >= 0.0
    && cal.torqueNegative >= 0.0 && cal.torquePositive >= 0.0
    && cal.speedNegative >= 0.0 && cal.speedPositive >= 0.0
    && cal.maximumAcceleration >= 0.0 && cal.maximumDeceleration >= 0.0
    && cal.vdcNegative >= 0.0 && cal.vdcPositive >= 0.0
    && cal.inverterTempNegative >= 0.0 && cal.inverterTempPositive >= 0.0
    && cal.motorTempNegative >= 0.0 && cal.motorTempPositive >= 0.0
    && cal.maximumSpeedAgeUs != 0 && cal.maximumVdcAgeUs != 0
    && cal.maximumInverterTempAgeUs != 0 && cal.maximumMotorTempAgeUs != 0
    && cal.zeroEnter >= 0.0 && cal.zeroExit >= 0.0 && cal.zeroExit > cal.zeroEnter
    && cal.trackingBand >= 0.0 && cal.maximumMicrostep >= 0.0 && cal.maximumSettledRate >= 0.0
    && cal.maximumAnchorDeviation >= 0.0 && cal.maximumCumulativeDrift >= 0.0
    && cal.settledTrackingTimeUs != 0 && cal.steadyConfirmationSamples != 0
    && cal.microstepNegative >= 0.0 && cal.microstepPositive >= 0.0
    && Ordered(cal.lateZero) && cal.lateZeroSettlingUs != 0
    && 0.0 <= cal.lowMarginFraction <= 1.0
    && cal.minimumDischargeHeadroom >= 0.0 && cal.minimumChargeHeadroom >= 0.0
    && cal.nonzeroTorqueThreshold >= 0.0
  }

  function SteadyDomains(regions: seq<SteadyRegion>): seq<Domain> {
    seq(|regions|, i requires 0 <= i < |regions| => regions[i].domain)
  }

  function TransitionDomains(regions: seq<TransitionRegion>): seq<Domain> {
    seq(|regions|, i requires 0 <= i < |regions| => regions[i].domain)
  }

  predicate SteadyRegionValid(r: SteadyRegion) {
    DomainValid(r.domain) && Ordered(r.current)
  }

  predicate TransitionRegionValid(r: TransitionRegion) {
    DomainValid(r.domain) && Ordered(r.current) && r.settlingUs > 0
  }

  /** Cell i spans one step of the torque axis and its regions cover the certified domain. */
  ghost predicate SteadyCellValid(cal: Calibration, i: nat)
    requires i < |cal.steadyCells| && i + 1 < |cal.torqueAxis|
  {
    var cell := cal.steadyCells[i];
    && cell.torque == Interval(cal.torqueAxis[i], cal.torqueAxis[i + 1])
    && 0 < |cell.regions| <= MAX_REGIONS_PER_CELL
    && (forall r :: 0 <= r < |cell.regions| ==> SteadyRegionValid(cell.regions[r]))
    && Covers(SteadyDomains(cell.regions), cal.certified)
  }

  ghost predicate TransitionCellValid(cal: Calibration, cell: TransitionCell) {
    && !cell.profile.InvalidProfile? && !cell.direction.InvalidDirection?
    && cell.spanMax > 0.0
    && 0 < |cell.regions| <= MAX_REGIONS_PER_CELL
    && (forall r :: 0 <= r < |cell.regions| ==> TransitionRegionValid(cell.regions[r]))
    && Covers(TransitionDomains(cell.regions), cal.certified)
  }

  const REQUIRED_FAMILIES: seq<(Profile, Direction)> := [
    (SlewLimited, FromZero), (SlewLimited, SameSignIncrease), (SlewLimited, SameSignDecrease),
    (Composed, FromZero), (Composed, SameSignIncrease), (Composed, SameSignDecrease),
    (ZeroAssert, ToZero), (ReversalToZero, ReversalFirstLeg), (UnknownToZero, ToZero)]

  function RequiredSpan(cal: Calibration): real
    requires |cal.torqueAxis| >= 1
  {
    Max(Abs(cal.torqueAxis[0]), Abs(cal.torqueAxis[|cal.torqueAxis| - 1]))
  }

  predicate FamilyCoversSpan(cal: Calibration, family: (Profile, Direction), span: real) {
    exists i :: 0 <= i < |cal.transitionCells| && CellCoversSpan(cal.transitionCells[i], family, span)
  }

  predicate CellCoversSpan(cell: TransitionCell, family: (Profile, Direction), span: real) {
    cell.profile == family.0 && cell.direction == family.1 && cell.spanMax >= span
  }

  predicate ZeroFamily(profile: Profile) {
    profile.ZeroAssert? || profile.ReversalToZero? || profile.UnknownToZero?
  }

  /** The static late-zero envelope contains this region's envelope after numerical widening. */
  predicate LateZeroDominates(cal: Calibration, r: TransitionRegion) {
    && cal.lateZero.lo <= r.current.lo - cal.numericNegative
    && cal.lateZero.hi >= r.current.hi + cal.numericPositive
    && cal.lateZeroSettlingUs >= r.settlingUs
  }

  predicate LateZeroDominatesCell(cal: Calibration, cell: TransitionCell) {
    ZeroFamily(cell.profile) ==> forall r :: 0 <= r < |cell.regions| ==> LateZeroDominates(cal, cell.regions[r])
  }

  predicate Dominates(large: TransitionRegion, small: TransitionRegion) {
    Within(small.current, large.current) && large.settlingUs >= small.settlingUs
  }

  /** The first region with the same domain dominates. */
  predicate DominatedAmong(small: TransitionRegion, regions: seq<TransitionRegion>) {
    exists j :: 0 <= j < |regions| && FirstMatch(small, regions, j) && Dominates(regions[j], small)
  }

  predicate FirstMatch(small: TransitionRegion, regions: seq<TransitionRegion>, j: int) {
    && 0 <= j < |regions|
    && regions[j].domain == small.domain
    && forall k :: 0 <= k < j ==> regions[k].domain != small.domain
  }

  predicate LargerInFamily(small: TransitionCell, large: TransitionCell) {
    large.profile == small.profile && large.direction == small.direction && large.spanMax > small.spanMax
  }

  predicate SpanPairMonotone(small: TransitionCell, large: TransitionCell) {
    LargerInFamily(small, large) ==>
      forall r :: 0 <= r < |small.regions| ==> DominatedAmong(small.regions[r], large.regions)
  }

  predicate AxisIncreasing(axis: seq<real>) {
    forall i :: 0 < i < |axis| ==> axis[i] > axis[i - 1]
  }

  /** The declarative meaning of a qualified artifact. */
  ghost predicate Qualified(cal: Calibration) {
    && ScalarsValid(cal)
    && AxisIncreasing(cal.torqueAxis)
    && (forall i :: 0 <= i < |cal.steadyCells| ==> SteadyCellValid(cal, i))
    && (forall i :: 0 <= i < |cal.transitionCells| ==> TransitionCellValid(cal, cal.transitionCells[i]))
    && (forall f :: 0 <= f < |REQUIRED_FAMILIES| ==> FamilyCoversSpan(cal, REQUIRED_FAMILIES[f], RequiredSpan(cal)))
    && (forall i :: 0 <= i < |cal.transitionCells| ==> LateZeroDominatesCell(cal, cal.transitionCells[i]))
    && (forall s, l :: 0 <= s < |cal.transitionCells| && 0 <= l < |cal.transitionCells| ==>
          SpanPairMonotone(cal.transitionCells[s], cal.transitionCells[l]))
  }

  /** What a qualified artifact is, in numbers: schema 3 under its magic number, with evidence and its own nonzero image
      checksum; at most 21 axis points, 64 transition cells and four regions in each cell. */
  lemma QualifiedIdentity(cal: Calibration)
    requires Qualified(cal)
    ensures cal.magic == 0x4550434D && cal.schemaVersion == 3 && cal.evidenceValid
    ensures cal.crc32 == cal.imageCrc32 != 0
    ensures 2 <= |cal.torqueAxis| <= 21 && |cal.steadyCells| == |cal.torqueAxis| - 1 && 0 < |cal.transitionCells| <= 64
    ensures forall cell :: cell in cal.steadyCells ==> 0 < |cell.regions| <= 4
    ensures forall cell :: cell in cal.transitionCells ==> 0 < |cell.regions| <= 4
  {
    forall i | 0 <= i < |cal.steadyCells| ensures 0 < |cal.steadyCells[i].regions| <= 4 {
      assert SteadyCellValid(cal, i);
    }
  }

  // ---------------------------------------------------------------------------------------------
  // The checking loops
  // ---------------------------------------------------------------------------------------------

  method CheckAxis(cal: Calibration) returns (ok: bool)
    ensures ok <==> AxisIncreasing(cal.torqueAxis)
  {
    var i := 1;
    while i < |cal.torqueAxis|
      invariant 1 <= i
      invariant forall j :: 0 < j < i && j < |cal.torqueAxis| ==> cal.torqueAxis[j] > cal.torqueAxis[j - 1]
    {
      if cal.torqueAxis[i] <= cal.torqueAxis[i - 1] {
        return false;
      }
      i := i + 1;
    }
    return true;
  }

  method CheckSteadyCells(cal: Calibration) returns (ok: bool)
    requires |cal.steadyCells| == |cal.torqueAxis| - 1 && DomainValid(cal.certified)
    ensures ok <==> forall i :: 0 <= i < |cal.steadyCells| ==> SteadyCellValid(cal, i)
  {
    var i := 0;
    while i < |cal.steadyCells|
      invariant 0 <= i <= |cal.steadyCells|
      invariant forall j :: 0 <= j < i ==> SteadyCellValid(cal, j)
    {
      var cell := cal.steadyCells[i];
      if cell.torque != Interval(cal.torqueAxis[i], cal.torqueAxis[i + 1]) || |cell.regions| == 0
          || |cell.regions| > MAX_REGIONS_PER_CELL {
        assert !SteadyCellValid(cal, i);
        return false;
      }
      var domains: seq<Domain> := [];
      var region := 0;
      while region < |cell.regions|
        invariant 0 <= region <= |cell.regions|
        invariant domains == SteadyDomains(cell.regions)[..region]
        invariant forall r :: 0 <= r < region ==> SteadyRegionValid(cell.regions[r])
      {
        if !SteadyRegionValid(cell.regions[region]) {
          assert !SteadyCellValid(cal, i);
          return false;
        }
        domains := domains + [cell.regions[region].domain];
        region := region + 1;
      }
      assert domains == SteadyDomains(cell.regions);
      var covered := RegionsCoverDomain(domains, cal.certified);
      if !covered {
        assert !SteadyCellValid(cal, i);
        return false;
      }
      i := i + 1;
    }
    return true;
  }

  method CheckTransitionCells(cal: Calibration) returns (ok: bool)
    requires DomainValid(cal.certified)
    ensures ok <==> forall i :: 0 <= i < |cal.transitionCells| ==> TransitionCellValid(cal, cal.transitionCells[i])
  {
    var i := 0;
    while i < |cal.transitionCells|
      invariant 0 <= i <= |cal.transitionCells|
      invariant forall j :: 0 <= j < i ==> TransitionCellValid(cal, cal.transitionCells[j])
    {
      var cell := cal.transitionCells[i];
      if cell.profile.InvalidProfile? || cell.direction.InvalidDirection? || cell.spanMax <= 0.0
         || |cell.regions| == 0 || |cell.regions| > MAX_REGIONS_PER_CELL {
        assert !TransitionCellValid(cal, cell);
        return false;
      }
      var domains: seq<Domain> := [];
      var region := 0;
      while region < |cell.regions|
        invariant 0 <= region <= |cell.regions|
        invariant domains == TransitionDomains(cell.regions)[..region]
        invariant forall r :: 0 <= r < region ==> TransitionRegionValid(cell.regions[r])
      {
        if !TransitionRegionValid(cell.regions[region]) {
          assert !TransitionCellValid(cal, cell);
          return false;
        }
        domains := domains + [cell.regions[region].domain];
        region := region + 1;
      }
      assert domains == TransitionDomains(cell.regions);
      var covered := RegionsCoverDomain(domains, cal.certified);
      if !covered {
        assert !TransitionCellValid(cal, cell);
        return false;
      }
      i := i + 1;
    }
    return true;
  }

  method TransitionFamilyCoversSpan(cal: Calibration, family: (Profile, Direction), span: real) returns (covers: bool)
    ensures covers <==> FamilyCoversSpan(cal, family, span)
  {
    var i := 0;
    while i < |cal.transitionCells|
      invariant 0 <= i <= |cal.transitionCells|
      invariant forall j :: 0 <= j < i ==> !CellCoversSpan(cal.transitionCells[j], family, span)
    {
      if CellCoversSpan(cal.transitionCells[i], family, span) {
        return true;
      }
      i := i + 1;
    }
    return false;
  }

  method CheckFamilies(cal: Calibration) returns (ok: bool)
    requires |cal.torqueAxis| >= 1
    ensures ok <==> forall f :: 0 <= f < |REQUIRED_FAMILIES| ==>
        FamilyCoversSpan(cal, REQUIRED_FAMILIES[f], RequiredSpan(cal))
  {
    var i := 0;
    while i < |REQUIRED_FAMILIES|
      invariant 0 <= i <= |REQUIRED_FAMILIES|
      invariant forall f :: 0 <= f < i ==> FamilyCoversSpan(cal, REQUIRED_FAMILIES[f], RequiredSpan(cal))
    {
      var covers := TransitionFamilyCoversSpan(cal, REQUIRED_FAMILIES[i], RequiredSpan(cal));
      if !covers {
        return false;
      }
      i := i + 1;
    }
    return true;
  }

  method CheckLateZero(cal: Calibration) returns (ok: bool)
    ensures ok <==> forall i :: 0 <= i < |cal.transitionCells| ==> LateZeroDominatesCell(cal, cal.transitionCells[i])
  {
    var i := 0;
    while i < |cal.transitionCells|
      invariant 0 <= i <= |cal.transitionCells|
      invariant forall j :: 0 <= j < i ==> LateZeroDominatesCell(cal, cal.transitionCells[j])
    {
      var cell := cal.transitionCells[i];
      if ZeroFamily(cell.profile) {
        var region := 0;
        while region < |cell.regions|
          invariant 0 <= region <= |cell.regions|
          invariant forall r :: 0 <= r < region ==> LateZeroDominates(cal, cell.regions[r])
        {
          if !LateZeroDominates(cal, cell.regions[region]) {
            assert !LateZeroDominatesCell(cal, cell);
            return false;
          }
          region := region + 1;
        }
      }
      i := i + 1;
    }
    return true;
  }

  /** Scans for the first region with the same domain and compares only that one. */
  method CheckDominated(small: TransitionRegion, regions: seq<TransitionRegion>) returns (ok: bool)
    ensures ok <==> DominatedAmong(small, regions)
  {
    var j := 0;
    while j < |regions|
      invariant 0 <= j <= |regions|
      invariant forall k :: 0 <= k < j ==> regions[k].domain != small.domain
    {
      if regions[j].domain == small.domain {
        assert FirstMatch(small, regions, j);
        assert forall k :: FirstMatch(small, regions, k) ==> k == j;
        return Dominates(regions[j], small);
      }
      j := j + 1;
    }
    return false;
  }

  method CheckSpanMonotone(cal: Calibration) returns (ok: bool)
    ensures ok <==> forall s, l :: 0 <= s < |cal.transitionCells| && 0 <= l < |cal.transitionCells| ==>
                      SpanPairMonotone(cal.transitionCells[s], cal.transitionCells[l])
  {
    var s := 0;
    while s < |cal.transitionCells|
      invariant 0 <= s <= |cal.transitionCells|
      invariant forall a, l :: 0 <= a < s && 0 <= l < |cal.transitionCells| ==>
          SpanPairMonotone(cal.transitionCells[a], cal.transitionCells[l])
    {
      var small := cal.transitionCells[s];
      var l := 0;
      while l < |cal.transitionCells|
        invariant 0 <= l <= |cal.transitionCells|
        invariant forall b :: 0 <= b < l ==> SpanPairMonotone(small, cal.transitionCells[b])
      {
        var large := cal.transitionCells[l];
        if LargerInFamily(small, large) {
          var r := 0;
          while r < |small.regions|
            invariant 0 <= r <= |small.regions|
            invariant forall k :: 0 <= k < r ==> DominatedAmong(small.regions[k], large.regions)
          {
            var dominated := CheckDominated(small.regions[r], large.regions);
            if !dominated {
              assert !SpanPairMonotone(small, large);
              return false;
            }
            r := r + 1;
          }
        }
        l := l + 1;
      }
      s := s + 1;
    }
    return true;
  }

  /** Full boot validation decides exactly the declarative predicate. */
  method ValidateFull(cal: Calibration) returns (ok: bool)
    ensures ok <==> Qualified(cal)
  {
    if !ScalarsValid(cal) {
      return false;
    }
    ok := CheckAxis(cal);
    if ok {
      ok := CheckSteadyCells(cal);
    }
    if ok {
      ok := CheckTransitionCells(cal);
    }
    if ok {
      ok := CheckFamilies(cal);
    }
    if ok {
      ok := CheckLateZero(cal);
    }
    if ok {
      ok := CheckSpanMonotone(cal);
    }
  }

  const UNQUALIFIED := Runtime(None, 0, 0, false)

  /** Hands out a runtime handle for qualified artifacts only. */
  method Qualify(cal: Calibration, generation: nat) returns (runtime: Runtime, ok: bool)
    ensures ok <==> Qualified(cal)
    ensures runtime == if ok then Runtime(Some(cal), cal.crc32, generation, true) else UNQUALIFIED
    ensures ok ==> RuntimeValid(runtime)
  {
    ok := ValidateFull(cal);
    runtime := if ok then Runtime(Some(cal), cal.crc32, generation, true) else UNQUALIFIED;
  }

  /** The bounded handle check of the control path. */
  predicate RuntimeValid(rt: Runtime) {
    && rt.qualified && rt.calibration.Some?
    && var cal := rt.calibration.value;
       && rt.qualifiedCrc32 != 0 && rt.qualifiedCrc32 == cal.crc32
       && cal.magic == MAGIC && cal.schemaVersion == SCHEMA_VERSION && cal.evidenceValid
       && 2 <= |cal.torqueAxis| <= MAX_TORQUE_AXIS_POINTS
       && |cal.steadyCells| == |cal.torqueAxis| - 1
       && 0 < |cal.transitionCells| <= MAX_TRANSITION_CELLS
  }

  /** A handle that boot qualification produced. */
  ghost predicate QualifiedRuntime(rt: Runtime) {
    RuntimeValid(rt) && Qualified(rt.calibration.value)
  }

  // ---------------------------------------------------------------------------------------------
  // Consequences used by the evaluators
  // ---------------------------------------------------------------------------------------------

  lemma {:induction false} AxisOrdered(axis: seq<real>, i: nat, j: nat)
    requires AxisIncreasing(axis) && i < j < |axis|
    ensures axis[i] < axis[j]
    decreases j
  {
    if i + 1 < j {
      AxisOrdered(axis, i, j - 1);
    }
  }

  /** The cells tile the torque axis: a later cell starts where, or after, an earlier one ends. */
  lemma CellsInOrder(cal: Calibration, i: nat, j: nat)
    requires Qualified(cal) && i < j < |cal.steadyCells|
    ensures cal.steadyCells[i].torque.hi <= cal.steadyCells[j].torque.lo
  {
    assert SteadyCellValid(cal, i) && SteadyCellValid(cal, j);
    if i + 1 < j {
      AxisOrdered(cal.torqueAxis, i + 1, j);
    }
  }

  lemma CellNonempty(cal: Calibration, i: nat)
    requires Qualified(cal) && i < |cal.steadyCells|
    ensures cal.steadyCells[i].torque.lo < cal.steadyCells[i].torque.hi
  {
    assert SteadyCellValid(cal, i);
    AxisOrdered(cal.torqueAxis, i, i + 1);
  }
}
