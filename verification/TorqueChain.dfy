/** The whole chain: from the CAN frames that arrive at the AMS device to the torque that is committed. */
module TorqueChain {
  import opened Numeric
  import opened Calibration
  import opened SteadyModel
  import opened TorqueClamp
  import opened ClampRun
  import opened ClampCommit
  import opened ClampSafety
  import opened ClampRuns
  import Gate = AmsGate
  import Isolation = AmsIsolation
  import Power = PowerConsumer
  import History = PowerHistory
  import Wire = PowerBytes

  /** The limits that the protected commit reads from the consumer; without authority they are all zero. */
  function LimitsOf(authority: Option<Power.Immediate>): Limits {
    match authority
    case None => Limits(0.0, 0.0, false, false)
    case Some(a) => Limits(a.discharge.currentA, a.charge.currentA, a.discharge.authorized, a.charge.authorized)
  }

  /** A commit at nowMs that reads its authority from a device with this bus history. */
  predicate ReadsAuthority(v: Verification, bus: seq<Gate.Event>, nowMs: Word32) {
    var authority := Power.ImmediateAuthority(Gate.Run(bus).power.core, nowMs);
    v.authorityValid == authority.Some? && v.limits == LimitsOf(authority) && v.timestampUs == (nowMs * 1000) % TWO_32
  }

  /** The bundle whose last frame is signal i backs these limits. */
  ghost predicate BacksLimits(events: seq<Power.Event>, nowMs: Word32, limits: Limits,
                              h: nat, i: nat, positions: seq<nat>, first: nat, payloads: Power.Payloads) {
    var signals := History.Signals(events);
    && History.LastTwo(History.Marks(signals, |events|), h, i)
    && i < |signals| && History.Evidence(signals, i, positions, first, payloads)
    && Sub32(nowMs, signals[i].nowMs) <= 250
    && limits == LimitsOf(Some(Power.DecodeImmediate(payloads, signals[i].counter, signals[i].nowMs)))
  }

  /** Both directions of the limits on the wire: in byte 1 the flags valid and authority without inhibition and
      fallback, in bytes 2 and 3 a big-endian count of tenths of an ampere, which is no limit at all without the
      flags. */
  lemma LimitsAreOnTheWire(payloads: Power.Payloads, counter: bv8, receivedMs: Word32)
    ensures var limits := LimitsOf(Some(Power.DecodeImmediate(payloads, counter, receivedMs)));
            var dcl, ccl := payloads[0], payloads[1];
            && (limits.discharge <==> dcl[1] & 0xC3 == 0x03) && (limits.charge <==> ccl[1] & 0xC3 == 0x03)
            && limits.dcl * 10.0 ==
               (if limits.discharge then (256 * (dcl[2] as int) + dcl[3] as int) as real else 0.0)
            && limits.ccl * 10.0 ==
               (if limits.charge then (256 * (ccl[2] as int) + ccl[3] as int) as real else 0.0)
  {
    Wire.DirectionOnWire(payloads[0]);
    Wire.DirectionOnWire(payloads[1]);
  }

  lemma CommitNeedsAuthority(candidate: Output, v: Verification)
    requires Reverify(candidate, v).torque != 0.0
    ensures v.authorityValid
  {
  }

  lemma LimitsAreBacked(v: Verification, bus: seq<Gate.Event>, nowMs: Word32)
      returns (h: nat, i: nat, positions: seq<nat>, first: nat, payloads: Power.Payloads)
    requires v.authorityValid && ReadsAuthority(v, bus, nowMs)
    ensures BacksLimits(Isolation.PowerEvents(bus), nowMs, v.limits, h, i, positions, first, payloads)
    ensures Isolation.FramesArrived(bus, payloads, History.Signals(Isolation.PowerEvents(bus))[i].counter)
  {
    Isolation.DevicePower(bus);
    h, i, positions, first, payloads := History.AuthorityIsJustified(Isolation.PowerEvents(bus), nowMs);
    Isolation.EvidenceArrived(bus, i, positions, first, payloads);
  }

  /** In every run, a nonzero torque is committed only on the evidence of two consecutive complete bundles among the CAN
      frames that arrived at the device, the later at most 250 ms old at the commit. Its four frames arrived with right
      checksums, and the whole uncertainty of the battery current lies within the limits decoded from them. */
  lemma CommittedTorqueIsBackedByTheBus(steps: seq<Step>, rt: Runtime, k: nat, bus: seq<Gate.Event>, nowMs: Word32)
      returns (h: nat, i: nat, positions: seq<nat>, first: nat, payloads: Power.Payloads)
    requires QualifiedRuntime(rt) && k < |steps| && CommitAt(steps, rt, k) != 0.0
    requires ReadsAuthority(steps[k].verification, bus, nowMs)
    ensures var limits := steps[k].verification.limits;
            BacksLimits(Isolation.PowerEvents(bus), nowMs, limits, h, i, positions, first, payloads)
    ensures Isolation.FramesArrived(bus, payloads, History.Signals(Isolation.PowerEvents(bus))[i].counter)
    ensures var out := Run(steps[k].input, rt, StateAt(steps, rt, k)).1;
            SteadyInsideLimits(CommitAt(steps, rt, k), out.microstep, steps[k].input.point, rt.calibration.value,
                               steps[k].verification.limits)
  {
    EveryCommitIsSafe(steps, rt, k);
    var v := steps[k].verification;
    CommitNeedsAuthority(Candidate(steps[k], rt, StateAt(steps, rt, k)).value, v);
    h, i, positions, first, payloads := LimitsAreBacked(v, bus, nowMs);
  }
}
