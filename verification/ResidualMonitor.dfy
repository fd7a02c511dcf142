/** The pack-current residual monitor: persistence is counted in distinct samples, never in calls. */
module ResidualMonitor {
  import opened Numeric
  import TorqueClamp

  const MAX_COUNT: nat := 0xFFFF

  type Word16 = x: nat | x <= 0xFFFF

  type Phase = TorqueClamp.Phase

  datatype Config = Config(
    tripSamples: Word16, clearSamples: Word16, settlingSamples: Word16, maximumAgeUs: Word32,
    maximumAlignmentUs: Word32, uncertaintyNegativeA: real, uncertaintyPositiveA: real, latchUntilReset: bool)

  datatype Input = Input(
    measuredA: real, predicted: Interval, phase: Phase, measuredUs: Word32, commandUs: Word32, nowUs: Word32,
    epoch: Word32, sequence: Word32, measurementValid: bool, predictionValid: bool)

  datatype Monitor = Monitor(
    phase: Phase, epoch: Word32, violations: Word16, recoveries: Word16, settling: Word16, lastSequence: Word32,
    epochSeen: bool, sequenceSeen: bool, sampleValid: bool, sampleWithin: bool, fault: bool)

  const INITIAL_MONITOR := Monitor(TorqueClamp.StepTransition, 0, 0, 0, 0, 0, false, false, false, false, false)

  predicate ConfigUsable(c: Config) {
    c.tripSamples != 0 && c.clearSamples != 0 && c.uncertaintyNegativeA >= 0.0 && c.uncertaintyPositiveA >= 0.0
  }

  predicate NewEpoch(m: Monitor, i: Input) {
    !m.epochSeen || m.epoch != i.epoch
  }

  predicate Fresh(i: Input, c: Config) {
    i.measurementValid && Sub32(i.nowUs, i.measuredUs) <= c.maximumAgeUs
  }

  predicate Repeats(m: Monitor, i: Input) {
    m.sequenceSeen && m.lastSequence == i.sequence
  }

  predicate Comparable(i: Input, c: Config) {
    i.predictionValid && Ordered(i.predicted) && Distance32(i.measuredUs, i.commandUs) <= c.maximumAlignmentUs
  }

  predicate Violates(i: Input, c: Config) {
    || !Comparable(i, c)
    || i.measuredA < i.predicted.lo - c.uncertaintyNegativeA
    || i.measuredA > i.predicted.hi + c.uncertaintyPositiveA
  }

  function Increment(count: Word16): Word16 {
    if count < MAX_COUNT then count + 1 else count
  }

  /** One settled, distinct sample. */
  function Sample(m: Monitor, i: Input, c: Config): Monitor {
    var violation := Violates(i, c);
    var noted := m.(
      sequenceSeen := true, lastSequence := i.sequence, phase := i.phase,
      sampleValid := Comparable(i, c), sampleWithin := Comparable(i, c) && !violation);
    if violation then
      var count := Increment(m.violations);
      noted.(recoveries := 0, violations := count, fault := m.fault || count >= c.tripSamples)
    else
      var count := Increment(m.recoveries);
      noted.(violations := 0, recoveries := count, fault := m.fault && (c.latchUntilReset || count < c.clearSamples))
  }

  function Settle(m: Monitor, i: Input): Monitor
    requires m.settling > 0
  {
    m.(sequenceSeen := true, lastSequence := i.sequence, phase := i.phase, settling := m.settling - 1,
       violations := 0, recoveries := 0, sampleValid := false, sampleWithin := false)
  }

  function StartEpoch(m: Monitor, i: Input, c: Config): Monitor {
    Monitor(TorqueClamp.Settling, i.epoch, 0, 0, c.settlingSamples, 0, true, false, false, false, m.fault)
  }

  /** One call of the monitor under a usable configuration. */
  function Update(m: Monitor, i: Input, c: Config): Monitor {
    if NewEpoch(m, i) then StartEpoch(m, i, c)
    else if !Fresh(i, c) then m.(sampleValid := false, sampleWithin := false, recoveries := 0, fault := true)
    else if Repeats(m, i) then m
    else if m.settling > 0 then Settle(m, i)
    else Sample(m, i, c)
  }

  /** The monitor object owned by the CAN task. */
  class CurrentResidualMonitor {
    var phase: Phase
    var epoch: Word32
    var violationCount: Word16
    var recoveryCount: Word16
    var settlingCount: Word16
    var lastSequence: Word32
    var epochSeen: bool
    var sequenceSeen: bool
    var latestValid: bool
    var latestWithin: bool
    var faultLatched: bool

    ghost function View(): Monitor
      reads this
    {
      Monitor(phase, epoch, violationCount, recoveryCount, settlingCount, lastSequence,
              epochSeen, sequenceSeen, latestValid, latestWithin, faultLatched)
    }

    constructor ()
      ensures View() == INITIAL_MONITOR
    {
      phase, epoch, violationCount, recoveryCount, settlingCount, lastSequence :=
          TorqueClamp.StepTransition, 0, 0, 0, 0, 0;
      epochSeen, sequenceSeen, latestValid, latestWithin, faultLatched := false, false, false, false, false;
    }

    /** An unusable configuration reports a fault and leaves the monitor alone. */
    method UpdateMonitor(i: Input, c: Config) returns (fault: bool)
      modifies this
      ensures ConfigUsable(c) ==> View() == Update(old(View()), i, c) && fault == faultLatched
      ensures !ConfigUsable(c) ==> View() == old(View()) && fault
    {
      if c.tripSamples == 0 || c.clearSamples == 0 || c.uncertaintyNegativeA < 0.0 || c.uncertaintyPositiveA < 0.0 {
        return true;
      }
      if !epochSeen || epoch != i.epoch {
        BeginEpoch(i, c);
        return faultLatched;
      }
      if !i.measurementValid || Sub32(i.nowUs, i.measuredUs) > c.maximumAgeUs {
        latestValid, latestWithin, recoveryCount, faultLatched := false, false, 0, true;
        return true;
      }
      if sequenceSeen && lastSequence == i.sequence {
        return faultLatched;
      }
      sequenceSeen, lastSequence, phase := true, i.sequence, i.phase;
      if settlingCount > 0 {
        settlingCount := settlingCount - 1;
        violationCount, recoveryCount, latestValid, latestWithin := 0, 0, false, false;
        return faultLatched;
      }
      CountSample(i, c);
      return faultLatched;
    }

    method BeginEpoch(i: Input, c: Config)
      modifies this
      ensures View() == StartEpoch(old(View()), i, c)
    {
      epoch, epochSeen, sequenceSeen, lastSequence := i.epoch, true, false, 0;
      violationCount, recoveryCount, settlingCount := 0, 0, c.settlingSamples;
      phase, latestValid, latestWithin := TorqueClamp.Settling, false, false;
    }

    method CountSample(i: Input, c: Config)
      modifies this`latestValid, this`latestWithin, this`recoveryCount, this`violationCount, this`faultLatched
      ensures View().(sequenceSeen := true, lastSequence := i.sequence, phase := i.phase) == Sample(old(View()), i, c)
    {
      var violation := Violates(i, c);
      latestValid := Comparable(i, c);
      latestWithin := latestValid && !violation;
      if violation {
        recoveryCount := 0;
        if violationCount < MAX_COUNT {
          violationCount := violationCount + 1;
        }
        if violationCount >= c.tripSamples {
          faultLatched := true;
        }
      } else {
        violationCount := 0;
        if recoveryCount < MAX_COUNT {
          recoveryCount := recoveryCount + 1;
        }
        if !c.latchUntilReset && recoveryCount >= c.clearSamples {
          faultLatched := false;
        }
      }
    }
  }

  // ---------------------------------------------------------------------------------------------
  // One epoch
  // ---------------------------------------------------------------------------------------------

  function After(m: Monitor, inputs: seq<Input>, c: Config): Monitor {
    if inputs == [] then m else Update(After(m, inputs[..|inputs| - 1], c), inputs[|inputs| - 1], c)
  }

  /** A valid measurement, no older than the certified age. */
  predicate Recent(i: Input, c: Config) {
    i.measurementValid && (i.nowUs - i.measuredUs) % 0x1_0000_0000 <= c.maximumAgeUs
  }

  /** There is a usable prediction, and it is for the moment of the measurement, earlier or later by at most the
      certified alignment. */
  predicate Predicted(i: Input, c: Config) {
    && i.predictionValid && i.predicted.lo <= i.predicted.hi
    && (|| (i.measuredUs - i.commandUs) % 0x1_0000_0000 <= c.maximumAlignmentUs
        || (i.commandUs - i.measuredUs) % 0x1_0000_0000 <= c.maximumAlignmentUs)
  }

  /** The measured current bears out such a prediction: it lies in the predicted interval, widened by the measurement
      uncertainty on each side. */
  predicate BearsOut(i: Input, c: Config) {
    && Predicted(i, c)
    && i.predicted.lo - c.uncertaintyNegativeA <= i.measuredA <= i.predicted.hi + c.uncertaintyPositiveA
  }

  lemma ViolatesIff(i: Input, c: Config)
    ensures Violates(i, c) <==> !BearsOut(i, c)
    ensures Fresh(i, c) <==> Recent(i, c)
  {
  }

  /** A recent sample that is judged counts against the model exactly when it does not bear out the prediction. */
  lemma JudgedByMeasurement(m: Monitor, i: Input, c: Config)
    requires !NewEpoch(m, i) && Recent(i, c) && !Repeats(m, i) && m.settling == 0
    ensures var after := Update(m, i, c);
            && after.sampleValid == Predicted(i, c) && after.sampleWithin == BearsOut(i, c)
            && (if BearsOut(i, c) then after.violations == 0 && after.recoveries > 0
                else after.recoveries == 0 && after.violations > 0)
  {
    ViolatesIff(i, c);
  }

  /** Recent measurements of the current source. */
  ghost predicate OneEpoch(m: Monitor, inputs: seq<Input>, c: Config) {
    m.epochSeen && forall k :: 0 <= k < |inputs| ==> inputs[k].epoch == m.epoch && Recent(inputs[k], c)
  }

  /** The calls that bring a sample number other than the one before. */
  function Distinct(inputs: seq<Input>): seq<Input> {
    if inputs == [] then []
    else
      var n := |inputs| - 1;
      if n > 0 && inputs[n].sequence == inputs[n - 1].sequence then Distinct(inputs[..n])
      else Distinct(inputs[..n]) + [inputs[n]]
  }

  lemma {:induction false} EpochStays(m: Monitor, inputs: seq<Input>, c: Config)
    requires OneEpoch(m, inputs, c)
    ensures var after := After(m, inputs, c);
            && after.epochSeen && after.epoch == m.epoch
            && (inputs != [] ==> after.sequenceSeen && after.lastSequence == inputs[|inputs| - 1].sequence)
  {
    if inputs != [] {
      EpochStays(m, inputs[..|inputs| - 1], c);
    }
  }

  lemma {:induction false} DistinctKeepsLast(inputs: seq<Input>)
    requires inputs != []
    ensures Distinct(inputs) != [] && Distinct(inputs)[|Distinct(inputs)| - 1].sequence == inputs[|inputs| - 1].sequence
    ensures forall i :: i in Distinct(inputs) ==> i in inputs
  {
    var n := |inputs| - 1;
    if n > 0 {
      DistinctKeepsLast(inputs[..n]);
    }
  }

  /** Dropping every call that repeats the previous sample number changes nothing. */
  lemma {:induction false} RepeatsDoNotCount(m: Monitor, inputs: seq<Input>, c: Config)
    requires OneEpoch(m, inputs, c)
    ensures After(m, inputs, c) == After(m, Distinct(inputs), c)
  {
    if inputs != [] {
      var n := |inputs| - 1;
      RepeatsDoNotCount(m, inputs[..n], c);
      EpochStays(m, inputs[..n], c);
      if n > 0 && inputs[n].sequence == inputs[n - 1].sequence {
        assert Repeats(After(m, inputs[..n], c), inputs[n]);
      } else {
        var rest := Distinct(inputs[..n]);
        assert (rest + [inputs[n]])[..|rest|] == rest;
      }
    }
  }

  /** The samples that are judged: distinct, and past the settling samples of the epoch. */
  function Judged(inputs: seq<Input>, c: Config): seq<Input> {
    var distinct := Distinct(inputs);
    if |distinct| <= c.settlingSamples then [] else distinct[c.settlingSamples..]
  }

  /** The length of the trailing run of samples with this verdict. */
  function TrailingRun(samples: seq<Input>, violating: bool, c: Config): nat {
    if samples == [] || BearsOut(samples[|samples| - 1], c) == violating then 0
    else TrailingRun(samples[..|samples| - 1], violating, c) + 1
  }

  function Saturated(n: nat): Word16 {
    if n < MAX_COUNT then n else MAX_COUNT
  }

  predicate Counts(m: Monitor, inputs: seq<Input>, c: Config) {
    && m.violations == Saturated(TrailingRun(Judged(inputs, c), true, c))
    && m.recoveries == Saturated(TrailingRun(Judged(inputs, c), false, c))
    && m.settling == if |Distinct(inputs)| < c.settlingSamples then c.settlingSamples - |Distinct(inputs)| else 0
  }

  /** A new sample extends the judged samples unless it still settles. */
  lemma JudgedGrows(inputs: seq<Input>, c: Config)
    requires inputs != []
    ensures var n := |inputs| - 1;
            Judged(inputs, c) ==
              if Distinct(inputs) == Distinct(inputs[..n]) || |Distinct(inputs[..n])| < c.settlingSamples then
                  Judged(inputs[..n], c)
              else Judged(inputs[..n], c) + [inputs[n]]
  {
    var before := Distinct(inputs[..|inputs| - 1]);
    if Distinct(inputs) != before {
      DropSuffix(before, inputs[|inputs| - 1], c.settlingSamples);
    }
  }

  lemma DropSuffix<T>(s: seq<T>, x: T, k: nat)
    ensures k <= |s| ==> (s + [x])[k..] == s[k..] + [x]
  {
  }

  lemma RunGrows(samples: seq<Input>, i: Input, violating: bool, c: Config)
    ensures TrailingRun(samples + [i], violating, c) == if BearsOut(i, c) != violating then
        TrailingRun(samples, violating, c) + 1 else 0
  {
    assert (samples + [i])[..|samples|] == samples;
  }

  /** The monitor recognises a repeated sample exactly when the list of distinct samples does not grow. */
  predicate SeesRepeats(m: Monitor, inputs: seq<Input>) {
    && m.sequenceSeen == (inputs != [])
    && (inputs != [] ==> m.lastSequence == inputs[|inputs| - 1].sequence)
  }

  lemma DistinctGrows(m: Monitor, inputs: seq<Input>, i: Input)
    requires SeesRepeats(m, inputs)
    ensures Distinct(inputs + [i]) == if Repeats(m, i) then Distinct(inputs) else Distinct(inputs) + [i]
  {
    assert (inputs + [i])[..|inputs|] == inputs;
  }

  /** A sample that is judged now extends the judged samples by itself. */
  lemma JudgedExtends(m: Monitor, inputs: seq<Input>, i: Input, c: Config)
    requires SeesRepeats(m, inputs) && !Repeats(m, i) && |Distinct(inputs)| >= c.settlingSamples
    ensures Judged(inputs + [i], c) == Judged(inputs, c) + [i] && |Distinct(inputs + [i])| > c.settlingSamples
  {
    assert (inputs + [i])[..|inputs|] == inputs;
    DistinctGrows(m, inputs, i);
    JudgedGrows(inputs + [i], c);
  }

  lemma JudgedStep(m: Monitor, inputs: seq<Input>, i: Input, c: Config)
    requires Counts(m, inputs, c) && SeesRepeats(m, inputs) && !Repeats(m, i) && |Distinct(inputs)| >= c.settlingSamples
    ensures Counts(Sample(m, i, c), inputs + [i], c)
  {
    JudgedExtends(m, inputs, i, c);
    RunGrows(Judged(inputs, c), i, true, c);
    RunGrows(Judged(inputs, c), i, false, c);
  }

  /** A sample that is repeated or still settles. */
  lemma UnjudgedStep(m: Monitor, inputs: seq<Input>, i: Input, c: Config)
    requires Counts(m, inputs, c) && SeesRepeats(m, inputs) && (Repeats(m, i) || |Distinct(inputs)| < c.settlingSamples)
    ensures Counts(if Repeats(m, i) then m else Settle(m, i), inputs + [i], c)
  {
    assert (inputs + [i])[..|inputs|] == inputs;
    DistinctGrows(m, inputs, i);
    JudgedGrows(inputs + [i], c);
  }

  lemma CountStep(m: Monitor, inputs: seq<Input>, i: Input, c: Config)
    requires Counts(m, inputs, c) && SeesRepeats(m, inputs) && !NewEpoch(m, i) && Recent(i, c)
    ensures Counts(Update(m, i, c), inputs + [i], c)
  {
    if Repeats(m, i) || |Distinct(inputs)| < c.settlingSamples {
      UnjudgedStep(m, inputs, i, c);
    } else {
      JudgedStep(m, inputs, i, c);
    }
  }

  /** After an epoch change, the counters are the saturated trailing runs of judged violations and recoveries. */
  lemma {:induction false} CountersAreRuns(m: Monitor, first: Input, inputs: seq<Input>, c: Config)
    requires NewEpoch(m, first) && OneEpoch(StartEpoch(m, first, c), inputs, c)
    ensures Counts(After(StartEpoch(m, first, c), inputs, c), inputs, c)
    ensures SeesRepeats(After(StartEpoch(m, first, c), inputs, c), inputs)
  {
    var start := StartEpoch(m, first, c);
    EpochStays(start, inputs, c);
    if inputs != [] {
      var n := |inputs| - 1;
      CountersAreRuns(m, first, inputs[..n], c);
      EpochStays(start, inputs[..n], c);
      CountStep(After(start, inputs[..n], c), inputs[..n], inputs[n], c);
      assert inputs == inputs[..n] + [inputs[n]];
    }
  }

  /** The trip point is reached by samples only: as long as the fault was clear, the next call latches it exactly when
      the trailing run of judged violations has reached the trip count. */
  lemma FaultLatchesAtTrip(m: Monitor, first: Input, inputs: seq<Input>, c: Config)
    requires ConfigUsable(c) && inputs != []
    requires NewEpoch(m, first) && OneEpoch(StartEpoch(m, first, c), inputs, c)
    requires !After(StartEpoch(m, first, c), inputs[..|inputs| - 1], c).fault
    ensures After(StartEpoch(m, first, c), inputs, c).fault <==>
        TrailingRun(Judged(inputs, c), true, c) >= c.tripSamples
  {
    var start := StartEpoch(m, first, c);
    var before := inputs[..|inputs| - 1];
    CountersAreRuns(m, first, inputs, c);
    CountersAreRuns(m, first, before, c);
    EpochStays(start, before, c);
    JudgedGrows(inputs, c);
    ViolatesIff(inputs[|inputs| - 1], c);
    RunBelowTrip(m, first, before, c);
  }

  /** While the fault is clear the run is below the trip count. */
  lemma {:induction false} RunBelowTrip(m: Monitor, first: Input, inputs: seq<Input>, c: Config)
    requires ConfigUsable(c) && NewEpoch(m, first) && OneEpoch(StartEpoch(m, first, c), inputs, c)
    requires !After(StartEpoch(m, first, c), inputs, c).fault
    ensures TrailingRun(Judged(inputs, c), true, c) < c.tripSamples
  {
    if inputs != [] {
      var n := |inputs| - 1;
      var start, before := StartEpoch(m, first, c), inputs[..n];
      CountersAreRuns(m, first, inputs, c);
      CountersAreRuns(m, first, before, c);
      EpochStays(start, before, c);
      JudgedGrows(inputs, c);
      RunGrows(Judged(before, c), inputs[n], true, c);
      if Judged(inputs, c) == Judged(before, c) && !After(start, before, c).fault {
        RunBelowTrip(m, first, before, c);
      }
    }
  }

  /** A latched fault survives every fresh sample when it must be reset, and otherwise falls exactly
      when the trailing run of judged recoveries reaches the clear count. */
  lemma FaultClearsAfterRecovery(m: Monitor, first: Input, inputs: seq<Input>, c: Config)
    requires ConfigUsable(c) && inputs != []
    requires NewEpoch(m, first) && OneEpoch(StartEpoch(m, first, c), inputs, c)
    requires After(StartEpoch(m, first, c), inputs[..|inputs| - 1], c).fault
    requires Judged(inputs, c) != Judged(inputs[..|inputs| - 1], c)
    ensures !After(StartEpoch(m, first, c), inputs, c).fault <==>
            !c.latchUntilReset && TrailingRun(Judged(inputs, c), false, c) >= c.clearSamples
  {
    var start := StartEpoch(m, first, c);
    var before := inputs[..|inputs| - 1];
    CountersAreRuns(m, first, inputs, c);
    CountersAreRuns(m, first, before, c);
    EpochStays(start, before, c);
    JudgedGrows(inputs, c);
    RunGrows(Judged(before, c), inputs[|inputs| - 1], false, c);
  }

  /** A stream that stops or turns invalid trips at once, without counting anything. */
  lemma StaleMeasurementTrips(m: Monitor, i: Input, c: Config)
    requires !NewEpoch(m, i) && !Recent(i, c)
    ensures Update(m, i, c).fault && Update(m, i, c).violations == m.violations
    ensures Update(Update(m, i, c), i, c) == Update(m, i, c)
  {
  }
}
