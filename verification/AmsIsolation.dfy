/** Observation-only traffic never reaches the torque permission, and the permission rests on fresh, justified data. */
module AmsIsolation {
  import opened Numeric
  import opened PowerCrc
  import opened PowerConsumer
  import opened PowerBytes
  import opened PowerHistory
  import Gate = AmsGate

  // ---------------------------------------------------------------------------------------------
  // Noninterference
  // ---------------------------------------------------------------------------------------------

  /** Identifiers that are decoded for observation or planning only. */
  predicate IsObservationId(id: nat) {
    || id in {Gate.TELEMETRY_ID, Gate.ESTIMATOR_ID, Gate.HEALTH_ID, Gate.CURRENT_DIAG_ID}
    || Gate.IsLoggerId(id) || id == STRATEGY_ID || id == BINDINGS_ID
  }

  predicate IsObservation(e: Gate.Event) {
    match e
    case Arrives(f, _) => IsObservationId(f.id)
    case Withdrawn(id) => IsObservationId(id)
    case Ages(_) => false
  }

  function WithoutObservations(events: seq<Gate.Event>): seq<Gate.Event> {
    if events == [] then []
    else
      var rest, e := WithoutObservations(events[..|events| - 1]), events[|events| - 1];
      if IsObservation(e) then rest else rest + [e]
  }

  /** The stale summary follows its flags as long as a status frame is in force. */
  predicate Inv(g: Gate.Gate) {
    g.status.valid ==> g.stale == Gate.CompactStale(g.status, g.electrical, g.thermal)
  }

  /** Two states that the permission and the power authority cannot tell apart. */
  predicate Agree(a: Gate.Gate, b: Gate.Gate) {
    && a.status == b.status && a.electrical == b.electrical && a.thermal == b.thermal
    && a.thermalFlags == b.thermalFlags
    && a.power.core == b.power.core && a.authority == b.authority
    && (a.status.valid ==> a.stale == b.stale)
  }

  lemma StepKeepsInv(g: Gate.Gate, e: Gate.Event)
    requires Inv(g)
    ensures Inv(Gate.Step(g, e))
  {
  }

  lemma AdvisoryLeavesCore(s: Consumer, f: Frame, nowMs: Word32, id: CanId)
    requires IsAdvisoryId(f.id) && IsAdvisoryId(id)
    ensures Ingest(s, f, nowMs).core == s.core && InvalidateId(s, id).core == s.core
  {
  }

  lemma AdvisoryNote(g: Gate.Gate, consumer: Consumer, id: CanId, accepted: bool, nowMs: Word32)
    requires IsAdvisoryId(id) && consumer.core == g.power.core
    ensures Agree(Gate.NotePower(g, consumer, id, accepted, nowMs), g)
  {
  }

  lemma ObservationFrame(g: Gate.Gate, id: nat, data: Payload, nowMs: Word32)
    requires Inv(g) && IsObservationId(id)
    ensures Agree(Gate.ReceiveWellFormed(g, id, data, nowMs), g)
  {
    if id == STRATEGY_ID || id == BINDINGS_ID {
      var f := Frame(id, false, false, 8, data);
      AdvisoryLeavesCore(g.power, f, nowMs, id);
      AdvisoryNote(g, Ingest(g.power, f, nowMs), id, Accepted(g.power, f, nowMs), nowMs);
    }
  }

  lemma ObservationWithdrawn(g: Gate.Gate, id: nat)
    requires Inv(g) && IsObservationId(id)
    ensures Agree(Gate.InvalidateFrame(g, id), g)
  {
    if id == STRATEGY_ID || id == BINDINGS_ID {
      AdvisoryLeavesCore(g.power, Frame(id, false, false, 8, ZERO_PAYLOAD), 0, id);
    }
  }

  lemma ObservationChangesNothing(g: Gate.Gate, e: Gate.Event)
    requires Inv(g) && IsObservation(e)
    ensures Agree(Gate.Step(g, e), g)
  {
    match e
    case Arrives(f, nowMs) =>
      ObservationFrame(g, f.id, f.data, nowMs);
      ObservationWithdrawn(g, f.id);
    case Withdrawn(id) => ObservationWithdrawn(g, id);
  }

  lemma NotePowerAgrees(a: Gate.Gate, b: Gate.Gate, nextA: Consumer, nextB: Consumer, id: nat, acceptedA: bool,
                        acceptedB: bool, nowMs: Word32)
    requires Agree(a, b) && nextA.core == nextB.core
    ensures Agree(Gate.NotePower(a, nextA, id, acceptedA, nowMs), Gate.NotePower(b, nextB, id, acceptedB, nowMs))
  {
  }

  lemma IngestAgrees(a: Consumer, b: Consumer, f: Frame, nowMs: Word32)
    requires a.core == b.core
    ensures Ingest(a, f, nowMs).core == Ingest(b, f, nowMs).core
  {
  }

  lemma PowerAgrees(a: Gate.Gate, b: Gate.Gate, id: nat, data: Payload, nowMs: Word32)
    requires Agree(a, b) && Gate.IsPowerId(id)
    ensures Agree(Gate.ReceivePower(a, id, data, nowMs), Gate.ReceivePower(b, id, data, nowMs))
  {
    var f := Frame(id, false, false, 8, data);
    IngestAgrees(a.power, b.power, f, nowMs);
    NotePowerAgrees(a, b, Ingest(a.power, f, nowMs), Ingest(b.power, f, nowMs), id,
                    Accepted(a.power, f, nowMs), Accepted(b.power, f, nowMs), nowMs);
  }

  lemma CompactAgrees(a: Gate.Gate, b: Gate.Gate, status: Gate.StatusBlock, sane: bool, flags: bv8, nowMs: Word32)
    requires Agree(a, b)
    ensures Agree(Gate.TakeStatus(a, status, nowMs), Gate.TakeStatus(b, status, nowMs))
    ensures Agree(Gate.TakeElectrical(a, sane, nowMs), Gate.TakeElectrical(b, sane, nowMs))
    ensures Agree(Gate.TakeThermal(a, sane, flags, nowMs), Gate.TakeThermal(b, sane, flags, nowMs))
  {
  }

  /** A frame that the permission reads. */
  lemma FrameAgrees(a: Gate.Gate, b: Gate.Gate, id: nat, data: Payload, nowMs: Word32)
    requires Agree(a, b) && !IsObservationId(id)
    ensures Agree(Gate.ReceiveWellFormed(a, id, data, nowMs), Gate.ReceiveWellFormed(b, id, data, nowMs))
  {
    if Gate.IsPowerId(id) {
      PowerAgrees(a, b, id, data, nowMs);
    } else if id == Gate.STATUS_ID {
      CompactAgrees(a, b, Gate.DecodeStatus(a.status, data, nowMs), true, 0, nowMs);
    } else if id == Gate.ELECTRICAL_ID {
      CompactAgrees(a, b, a.status, Gate.ElectricalSane(data), 0, nowMs);
    } else if id == Gate.THERMAL_ID {
      CompactAgrees(a, b, a.status, Gate.ThermalSane(data), data[7], nowMs);
    }
  }

  lemma RefreshAgrees(a: Gate.Gate, b: Gate.Gate)
    requires a.status == b.status && a.electrical == b.electrical && a.thermal == b.thermal
        && a.thermalFlags == b.thermalFlags
    requires a.power.core == b.power.core && a.authority == b.authority
    ensures Agree(Gate.RefreshStale(a), Gate.RefreshStale(b))
  {
  }

  lemma WithdrawnPowerAgrees(a: Consumer, b: Consumer, id: CanId)
    requires a.core == b.core
    ensures InvalidateId(a, id).core == InvalidateId(b, id).core
  {
  }

  lemma WithdrawalAgrees(a: Gate.Gate, b: Gate.Gate, id: nat)
    requires Agree(a, b)
    ensures Agree(Gate.InvalidateFrame(a, id), Gate.InvalidateFrame(b, id))
  {
    if Gate.IsPowerId(id) {
      WithdrawnPowerAgrees(a.power, b.power, id);
    }
    RefreshAgrees(Gate.Withdraw(a, id), Gate.Withdraw(b, id));
  }

  lemma StepAgrees(a: Gate.Gate, b: Gate.Gate, e: Gate.Event)
    requires Agree(a, b) && !IsObservation(e)
    ensures Agree(Gate.Step(a, e), Gate.Step(b, e))
  {
    match e
    case Arrives(f, nowMs) =>
      WithdrawalAgrees(a, b, f.id);
      FrameAgrees(a, b, f.id, f.data, nowMs);
    case Withdrawn(id) => WithdrawalAgrees(a, b, id);
    case Ages(_) =>
  }

  lemma {:induction false} RunAgrees(events: seq<Gate.Event>)
    ensures Agree(Gate.Run(events), Gate.Run(WithoutObservations(events)))
    ensures Inv(Gate.Run(events)) && Inv(Gate.Run(WithoutObservations(events)))
  {
    if events != [] {
      var n := |events| - 1;
      var rest, e := WithoutObservations(events[..n]), events[n];
      RunAgrees(events[..n]);
      StepKeepsInv(Gate.Run(events[..n]), e);
      if IsObservation(e) {
        ObservationChangesNothing(Gate.Run(events[..n]), e);
      } else {
        assert (rest + [e])[..|rest|] == rest;
        StepAgrees(Gate.Run(events[..n]), Gate.Run(rest), e);
        StepKeepsInv(Gate.Run(rest), e);
      }
    }
  }

  /** Deleting every observation frame, well formed or not, changes neither the permission nor the authority. */
  lemma Noninterference(events: seq<Gate.Event>, nowMs: Word32)
    ensures var all, kept := Gate.Run(events), Gate.Run(WithoutObservations(events));
            && (Gate.AllowsTorque(all) <==> Gate.AllowsTorque(kept))
            && all.authority == kept.authority
            && ImmediateAuthority(all.power.core, nowMs) == ImmediateAuthority(kept.power.core, nowMs)
            && StateOfHealth(all.power.core, nowMs) == StateOfHealth(kept.power.core, nowMs)
  {
    RunAgrees(events);
  }

  // ---------------------------------------------------------------------------------------------
  // What permission means
  // ---------------------------------------------------------------------------------------------

  /** The power events that the driver derives from the bus traffic. */
  function PowerEvents(events: seq<Gate.Event>): seq<Event> {
    if events == [] then []
    else
      var rest := PowerEvents(events[..|events| - 1]);
      match events[|events| - 1]
      case Arrives(f, nowMs) =>
        if !Gate.IsPowerId(f.id) then rest
        else if !f.standard || f.dlc != 8 then rest + [Malformed(f.id)]
        else rest + [Receive(Frame(f.id, false, false, 8, f.data), nowMs)]
      case Withdrawn(id) => if Gate.IsPowerId(id) then rest + [Malformed(id)] else rest
      case Ages(_) => rest
  }

  /** Bus event e brought this power frame to the device. */
  predicate BroughtBy(events: seq<Gate.Event>, e: nat, frame: Frame, nowMs: Word32) {
    e < |events| && events[e] == Gate.Arrives(Gate.CanFrame(frame.id, true, 8, frame.payload), nowMs)
  }

  /** Every power frame that the consumer received was a data frame on the bus, and the order is that of the bus. */
  lemma {:induction false} PowerFrameOrigin(events: seq<Gate.Event>, p: nat) returns (e: nat)
    requires p < |PowerEvents(events)| && PowerEvents(events)[p].Receive?
    ensures BroughtBy(events, e, PowerEvents(events)[p].frame, PowerEvents(events)[p].nowMs)
    ensures PowerEvents(events[..e]) == PowerEvents(events)[..p]
  {
    var n := |events| - 1;
    var rest := PowerEvents(events[..n]);
    if p < |rest| {
      e := PowerFrameOrigin(events[..n], p);
      assert events[..n][..e] == events[..e];
    } else {
      e := n;
    }
  }

  /** The data frame of slot k, with this payload, arrived at the device as bus event e: eight bytes under its
      identifier, protocol version 2 and this counter in the first of them, the right checksum in the last, and good
      content. */
  predicate FrameArrived(events: seq<Gate.Event>, e: nat, k: Slot, payload: Payload, counter: bv8) {
    && e < |events| && events[e].Arrives? && events[e].frame == Gate.CanFrame(0x684 + k, true, 8, payload)
    && payload[0] as int == 32 + counter as int && counter as int < 16
    && payload[7] == Crc8(0x684 + k, payload) && CoreOnWire(0x684 + k, payload)
  }

  lemma CleanSignalFrame(e: Event)
    requires SignalOf(e).Clean?
    ensures var s := SignalOf(e);
            && e.Receive? && GoodFrame(e.frame) && e.frame.id == 0x684 + s.slot && e.frame.payload == s.payload
            && s.payload[0] as int == 32 + s.counter as int && s.counter as int < 16
  {
    SignalIff(e);
  }

  lemma EvidenceSlot(signals: seq<Signal>, i: nat, positions: seq<nat>, first: nat, payloads: Payloads, k: Slot)
    requires i < |signals| && Evidence(signals, i, positions, first, payloads)
    ensures |positions| == 4 && positions[k] < |signals|
    ensures var s := signals[positions[k]];
            s.Clean? && s.slot == k && s.payload == payloads[k] && s.counter == signals[i].counter
  {
    var stage := Stage(true, signals[i].counter, signals[first].nowMs, ALL_SLOTS, payloads);
    assert k in stage.mask && Brought(signals, positions[k], k, stage);
  }

  /** Every frame of an evidenced bundle arrived on the bus. */
  lemma SlotArrived(events: seq<Gate.Event>, i: nat, positions: seq<nat>, first: nat, payloads: Payloads, k: Slot)
    returns (e: nat)
    requires var signals := Signals(PowerEvents(events));
             i < |signals| && Evidence(signals, i, positions, first, payloads)
    ensures FrameArrived(events, e, k, payloads[k], Signals(PowerEvents(events))[i].counter)
  {
    EvidenceSlot(Signals(PowerEvents(events)), i, positions, first, payloads, k);
    CleanSignalFrame(PowerEvents(events)[positions[k]]);
    e := PowerFrameOrigin(events, positions[k]);
  }

  ghost predicate HasArrived(events: seq<Gate.Event>, k: Slot, payload: Payload, counter: bv8) {
    exists e: nat :: FrameArrived(events, e, k, payload, counter)
  }

  /** The four frames of a bundle arrived, all with its counter. */
  ghost predicate FramesArrived(events: seq<Gate.Event>, payloads: Payloads, counter: bv8) {
    && HasArrived(events, 0, payloads[0], counter) && HasArrived(events, 1, payloads[1], counter)
    && HasArrived(events, 2, payloads[2], counter) && HasArrived(events, 3, payloads[3], counter)
  }

  lemma SlotHasArrived(events: seq<Gate.Event>, i: nat, positions: seq<nat>, first: nat, payloads: Payloads, k: Slot)
    requires var signals := Signals(PowerEvents(events));
             i < |signals| && Evidence(signals, i, positions, first, payloads)
    ensures HasArrived(events, k, payloads[k], Signals(PowerEvents(events))[i].counter)
  {
    var e := SlotArrived(events, i, positions, first, payloads, k);
  }

  lemma EvidenceArrived(events: seq<Gate.Event>, i: nat, positions: seq<nat>, first: nat, payloads: Payloads)
    requires var signals := Signals(PowerEvents(events));
             i < |signals| && Evidence(signals, i, positions, first, payloads)
    ensures FramesArrived(events, payloads, Signals(PowerEvents(events))[i].counter)
  {
    SlotHasArrived(events, i, positions, first, payloads, 0);
    SlotHasArrived(events, i, positions, first, payloads, 1);
    SlotHasArrived(events, i, positions, first, payloads, 2);
    SlotHasArrived(events, i, positions, first, payloads, 3);
  }

  lemma StepPower(g: Gate.Gate, e: Gate.Event)
    ensures var next := Gate.Step(g, e).power;
            match e
            case Arrives(f, nowMs) =>
              next == if !Gate.IsPowerId(f.id) then g.power
                      else if !f.standard || f.dlc != 8 then InvalidateId(g.power, f.id)
                      else Ingest(g.power, Frame(f.id, false, false, 8, f.data), nowMs)
            case Withdrawn(id) => next == if Gate.IsPowerId(id) then InvalidateId(g.power, id) else g.power
            case Ages(_) => next == g.power
  {
  }

  lemma {:induction false} AfterLast(s: Consumer, events: seq<Event>, e: Event, n: nat)
    requires n <= |events|
    ensures After(s, events + [e], n) == After(s, events, n)
  {
    if n > 0 {
      AfterLast(s, events, e, n - 1);
    }
  }

  /** The consumer inside the device has seen exactly those events. */
  lemma {:induction false} DevicePower(events: seq<Gate.Event>)
    ensures Gate.Run(events).power == After(INITIAL_CONSUMER, PowerEvents(events), |PowerEvents(events)|)
  {
    if events != [] {
      var n := |events| - 1;
      var rest := PowerEvents(events[..n]);
      DevicePower(events[..n]);
      StepPower(Gate.Run(events[..n]), events[n]);
      if PowerEvents(events) != rest {
        AfterLast(INITIAL_CONSUMER, rest, PowerEvents(events)[|rest|], |rest|);
      }
    }
  }

  /** When the aged state allows torque, all three compact frames are at most 500 ms old and the cached authority is
      the one the consumer vouches for at this very time, with a usable direction. */
  lemma PermissionIsFresh(g: Gate.Gate, nowMs: Word32)
    requires Gate.AllowsTorque(Gate.UpdateStale(g, nowMs))
    ensures g.status.valid && Sub32(nowMs, g.status.lastMs) <= Gate.STALE_TIMEOUT_MS
    ensures g.electrical.valid && g.electrical.sane && Sub32(nowMs, g.electrical.lastMs) <= Gate.STALE_TIMEOUT_MS
    ensures g.thermal.valid && g.thermal.sane && Sub32(nowMs, g.thermal.lastMs) <= Gate.STALE_TIMEOUT_MS
    ensures var authority := ImmediateAuthority(g.power.core, nowMs);
            authority.Some? && (Gate.DirectionUsable(authority.value.discharge)
                                || Gate.DirectionUsable(authority.value.charge))
  {
  }

  /** End to end: after any bus history, torque is allowed only on the evidence of two consecutive complete bundles,
      the later one at most 250 ms old. */
  lemma PermissionIsJustified(events: seq<Gate.Event>, nowMs: Word32)
      returns (h: nat, i: nat, positions: seq<nat>, first: nat, payloads: Payloads)
    requires Gate.AllowsTorque(Gate.UpdateStale(Gate.Run(events), nowMs))
    ensures var signals := Signals(PowerEvents(events));
            && LastTwo(Marks(signals, |signals|), h, i)
            && i < |signals| && Evidence(signals, i, positions, first, payloads)
            && Sub32(nowMs, signals[i].nowMs) <= 250
            && var shown := DecodeImmediate(payloads, signals[i].counter, signals[i].nowMs);
               Gate.DirectionUsable(shown.discharge) || Gate.DirectionUsable(shown.charge)
    ensures FramesArrived(events, payloads, Signals(PowerEvents(events))[i].counter)
  {
    PermissionIsFresh(Gate.Run(events), nowMs);
    DevicePower(events);
    h, i, positions, first, payloads := AuthorityIsJustified(PowerEvents(events), nowMs);
    EvidenceArrived(events, i, positions, first, payloads);
  }
}
