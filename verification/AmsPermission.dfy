/** The torque permission in terms of the bytes on the bus: exactly which latest frames grant it. */
module AmsPermission {
  import opened Numeric
  import opened PowerCrc
  import Consumer = PowerConsumer
  import opened AmsGate

  // ---------------------------------------------------------------------------------------------
  // The latest frame of an identifier
  // ---------------------------------------------------------------------------------------------

  /** The event carries a well-formed standard data frame of eight bytes. */
  predicate Carries(e: Event, id: nat) {
    e.Arrives? && e.frame.id == id && e.frame.standard && e.frame.dlc == 8
  }

  /** The event concerns the identifier: a frame, well formed or not, or a withdrawal. */
  predicate Concerns(e: Event, id: nat) {
    match e
    case Arrives(f, _) => f.id == id
    case Withdrawn(withdrawn) => withdrawn == id
    case Ages(_) => false
  }

  /** The last event that concerns the identifier, if it carries a well-formed frame. */
  function Held(events: seq<Event>, id: nat): (held: Option<nat>)
    ensures held.Some? ==> held.value < |events| && Carries(events[held.value], id)
    ensures held.Some? ==> forall k :: held.value < k < |events| ==> !Concerns(events[k], id)
  {
    if events == [] then None
    else
      var n := |events| - 1;
      if Carries(events[n], id) then Some(n)
      else if Concerns(events[n], id) then None
      else Held(events[..n], id)
  }

  // ---------------------------------------------------------------------------------------------
  // The bytes
  // ---------------------------------------------------------------------------------------------

  /** The unsigned and the signed big-endian word at a byte position. */
  function Word(p: Payload, at: nat): int
    requires at < 7
  {
    256 * (p[at] as int) + p[at + 1] as int
  }

  function SignedWord(p: Payload, at: nat): int
    requires at < 7
  {
    if Word(p, at) < 32768 then Word(p, at) else Word(p, at) - 65536
  }

  /** Protocol version 1, the one permissive flag byte, and no fault besides the reserved bit 3. */
  predicate StatusGrants(p: Payload) {
    p[0] == 1 && p[3] == 0x71 && p[4] & 0xF7 == 0
  }

  /** The least and the greatest of the 75 cell voltages are plausible, and the pack voltage (in steps of a hundred)
      fits between 75 times each of them, give or take 200; the current stays below 10000 either way. */
  predicate ElectricalGrants(p: Payload) {
    && 500 <= Word(p, 4) <= Word(p, 6) <= 5000 && Word(p, 0) <= 10000
    && 75 * Word(p, 4) - 200 <= 100 * Word(p, 0) <= 75 * Word(p, 6) + 200
    && -10000 <= SignedWord(p, 2) <= 10000
  }

  /** Temperatures in order and between -40.0 and 150.0 degrees, and a percentage. */
  predicate ThermalPlausible(p: Payload) {
    -400 <= SignedWord(p, 2) <= SignedWord(p, 4) <= SignedWord(p, 0) <= 1500 && p[6] as int <= 100
  }

  /** A plausible thermal frame without a blocking flag. */
  predicate ThermalGrants(p: Payload) {
    ThermalPlausible(p) && p[7] & 0xB0 == 0
  }

  /** The sequence byte follows that of the status frame before it, if that one was still in force. */
  predicate SequenceFollows(events: seq<Event>, s: nat)
    requires s < |events| && Carries(events[s], 0x680)
  {
    var before := Held(events[..s], 0x680);
    before.Some? ==>
      events[s].frame.data[1] as int == (events[before.value].frame.data[1] as int + 1) % 256
  }

  predicate AtMost500MsOld(e: Event, nowMs: Word32)
    requires e.Arrives?
  {
    (nowMs - e.nowMs) % 0x1_0000_0000 <= 500
  }

  /** A direction is authorised with a positive current and a positive power. */
  predicate SomeDirection(authority: Option<Consumer.Immediate>) {
    && authority.Some?
    && var discharge, charge := authority.value.discharge, authority.value.charge;
       || (discharge.authorized && discharge.currentA > 0.0 && discharge.powerW > 0.0)
       || (charge.authorized && charge.currentA > 0.0 && charge.powerW > 0.0)
  }

  /** The latest status, electrical and thermal frames each grant torque at this time. */
  predicate StatusSaysYes(events: seq<Event>, nowMs: Word32) {
    var k := Held(events, 0x680);
    && k.Some? && AtMost500MsOld(events[k.value], nowMs)
    && StatusGrants(events[k.value].frame.data) && SequenceFollows(events, k.value)
  }

  predicate ElectricalSaysYes(events: seq<Event>, nowMs: Word32) {
    var k := Held(events, 0x681);
    k.Some? && AtMost500MsOld(events[k.value], nowMs) && ElectricalGrants(events[k.value].frame.data)
  }

  predicate ThermalSaysYes(events: seq<Event>, nowMs: Word32) {
    var k := Held(events, 0x682);
    k.Some? && AtMost500MsOld(events[k.value], nowMs) && ThermalGrants(events[k.value].frame.data)
  }

  // ---------------------------------------------------------------------------------------------
  // The blocks hold the latest frames
  // ---------------------------------------------------------------------------------------------

  predicate StatusHeld(events: seq<Event>, status: StatusBlock) {
    match Held(events, STATUS_ID)
    case None => !status.valid
    case Some(s) =>
      var p := events[s].frame.data;
      && status.valid && status.lastMs == events[s].nowMs
      && status.protocolValid == (p[0] == 1) && status.sequence == p[1] && status.flags == p[3] && status.faults == p[4]
      && status.sequenceFault == !SequenceFollows(events, s)
  }

  predicate ElectricalHeld(events: seq<Event>, electrical: Block) {
    match Held(events, ELECTRICAL_ID)
    case None => !electrical.valid
    case Some(k) =>
      && electrical.valid && electrical.lastMs == events[k].nowMs
      && electrical.sane == ElectricalSane(events[k].frame.data)
  }

  predicate ThermalHeld(events: seq<Event>, thermal: Block, flags: bv8) {
    match Held(events, THERMAL_ID)
    case None => !thermal.valid
    case Some(k) =>
      var p := events[k].frame.data;
      thermal.valid && thermal.lastMs == events[k].nowMs && thermal.sane == ThermalSane(p) && flags == p[7]
  }

  /** The stored content of a block, apart from its age flag. */
  predicate SameStatus(a: StatusBlock, b: StatusBlock) {
    a.(stale := b.stale) == b
  }

  predicate SameBlock(a: Block, b: Block) {
    a.(stale := b.stale) == b
  }

  /** A frame or a withdrawal under another identifier leaves the content alone. */
  predicate Leaves(g: Gate, next: Gate, id: nat) {
    && (id != STATUS_ID ==> SameStatus(next.status, g.status))
    && (id != ELECTRICAL_ID ==> SameBlock(next.electrical, g.electrical))
    && (id != THERMAL_ID ==> SameBlock(next.thermal, g.thermal) && next.thermalFlags == g.thermalFlags)
  }

  lemma PowerLeaves(g: Gate, consumer: Consumer.Consumer, id: nat, accepted: bool, nowMs: Word32)
    requires IsPowerId(id)
    ensures Leaves(g, NotePower(g, consumer, id, accepted, nowMs), id)
  {
  }

  lemma PowerFrameLeaves(g: Gate, id: nat, p: Payload, nowMs: Word32)
    requires IsPowerId(id)
    ensures Leaves(g, ReceivePower(g, id, p, nowMs), id)
  {
    var f := Consumer.Frame(id, false, false, 8, p);
    PowerLeaves(g, Consumer.Ingest(g.power, f, nowMs), id, Consumer.Accepted(g.power, f, nowMs), nowMs);
  }

  lemma TelemetryLeaves(g: Gate, p: Payload, nowMs: Word32)
    ensures Leaves(g, ReceiveTelemetry(g, p, nowMs), TELEMETRY_ID)
  {
  }

  lemma CompactLeaves(g: Gate, id: nat, p: Payload, nowMs: Word32)
    requires id in {STATUS_ID, ELECTRICAL_ID, THERMAL_ID}
    ensures Leaves(g, ReceiveWellFormed(g, id, p, nowMs), id)
  {
  }

  lemma WellFormedLeaves(g: Gate, id: nat, p: Payload, nowMs: Word32)
    ensures Leaves(g, ReceiveWellFormed(g, id, p, nowMs), id)
  {
    if id == TELEMETRY_ID {
      TelemetryLeaves(g, p, nowMs);
    } else if id in {STATUS_ID, ELECTRICAL_ID, THERMAL_ID} {
      CompactLeaves(g, id, p, nowMs);
    } else if IsPowerId(id) {
      PowerFrameLeaves(g, id, p, nowMs);
    }
  }

  lemma WithdrawLeaves(g: Gate, id: nat)
    ensures Leaves(g, Withdraw(g, id), id)
  {
  }

  lemma WithdrawalLeaves(g: Gate, id: nat)
    ensures Leaves(g, InvalidateFrame(g, id), id)
  {
    WithdrawLeaves(g, id);
  }

  /** An event that does not concern the three compact identifiers leaves their content alone. */
  lemma OthersLeave(g: Gate, e: Event)
    ensures !Concerns(e, STATUS_ID) ==> SameStatus(Step(g, e).status, g.status)
    ensures !Concerns(e, ELECTRICAL_ID) ==> SameBlock(Step(g, e).electrical, g.electrical)
    ensures !Concerns(e, THERMAL_ID) ==>
              SameBlock(Step(g, e).thermal, g.thermal) && Step(g, e).thermalFlags == g.thermalFlags
  {
    match e
    case Arrives(f, nowMs) =>
      WellFormedLeaves(g, f.id, f.data, nowMs);
      WithdrawalLeaves(g, f.id);
    case Withdrawn(id) => WithdrawalLeaves(g, id);
    case Ages(_) =>
  }

  /** A malformed frame or a withdrawal takes the content away. */
  lemma MalformedTakesAway(g: Gate, e: Event)
    ensures Concerns(e, STATUS_ID) && !Carries(e, STATUS_ID) ==> !Step(g, e).status.valid
    ensures Concerns(e, ELECTRICAL_ID) && !Carries(e, ELECTRICAL_ID) ==> !Step(g, e).electrical.valid
    ensures Concerns(e, THERMAL_ID) && !Carries(e, THERMAL_ID) ==> !Step(g, e).thermal.valid
  {
  }

  lemma WordsAgree(p: Payload, at: nat)
    requires at < 7
    ensures Consumer.BigEndian16(p, at) == Word(p, at) && Signed16(p, at) == SignedWord(p, at)
  {
  }

  lemma ElectricalBytes(p: Payload)
    ensures ElectricalSane(p) <==> ElectricalGrants(p)
  {
  }

  lemma ThermalBytes(p: Payload)
    ensures ThermalSane(p) <==> ThermalPlausible(p)
  {
    WordsAgree(p, 0);
    WordsAgree(p, 2);
    WordsAgree(p, 4);
  }

  lemma WrapsAt256(n: int)
    requires 0 <= n < 256
    ensures (n + 1) % 256 == if n == 255 then 0 else n + 1
  {
  }

  lemma NextByte(a: bv8, b: bv8)
    ensures a == b + 1 <==> a as int == (b as int + 1) % 256
  {
    Consumer.Successor(b);
    WrapsAt256(b as int);
    if a as int == (b + 1) as int {
      Consumer.SameByte(a, b + 1);
    }
  }

  predicate StatusStored(was: StatusBlock, status: StatusBlock, p: Payload, nowMs: Word32) {
    && status.valid && status.lastMs == nowMs
    && status.protocolValid == (p[0] == 1) && status.sequence == p[1] && status.flags == p[3] && status.faults == p[4]
    && status.sequenceFault == (was.valid && p[1] as int != (was.sequence as int + 1) % 256)
  }

  lemma StatusIsStored(g: Gate, e: Event)
    requires Carries(e, STATUS_ID)
    ensures StatusStored(g.status, Step(g, e).status, e.frame.data, e.nowMs)
  {
    NextByte(e.frame.data[1], g.status.sequence);
  }

  lemma MeasurementsAreStored(g: Gate, e: Event)
    ensures Carries(e, ELECTRICAL_ID) ==>
              Step(g, e).electrical == Block(true, ElectricalSane(e.frame.data), false, e.nowMs)
    ensures Carries(e, THERMAL_ID) ==>
              && Step(g, e).thermal == Block(true, ThermalSane(e.frame.data), false, e.nowMs)
              && Step(g, e).thermalFlags == e.frame.data[7]
  {
  }

  lemma HeldBefore(events: seq<Event>)
    requires events != [] && !Concerns(events[|events| - 1], STATUS_ID)
    ensures var before, held := events[..|events| - 1], Held(events, STATUS_ID);
            && Held(before, STATUS_ID) == held
            && (held.Some? ==> (SequenceFollows(events, held.value) <==> SequenceFollows(before, held.value)))
  {
    if Held(events, STATUS_ID).Some? {
      assert events[..|events| - 1][..Held(events, STATUS_ID).value] == events[..Held(events, STATUS_ID).value];
    }
  }

  lemma StatusStaysHeld(events: seq<Event>, was: StatusBlock, status: StatusBlock)
    requires events != [] && StatusHeld(events[..|events| - 1], was)
    requires var e := events[|events| - 1];
             if Carries(e, STATUS_ID) then StatusStored(was, status, e.frame.data, e.nowMs)
             else if Concerns(e, STATUS_ID) then !status.valid
             else SameStatus(status, was)
    ensures StatusHeld(events, status)
  {
    if !Concerns(events[|events| - 1], STATUS_ID) {
      HeldBefore(events);
    }
  }

  lemma {:induction false} StatusIsHeld(events: seq<Event>)
    ensures StatusHeld(events, Run(events).status)
  {
    if events != [] {
      var n := |events| - 1;
      var g, e := Run(events[..n]), events[n];
      StatusIsHeld(events[..n]);
      OthersLeave(g, e);
      MalformedTakesAway(g, e);
      if Carries(e, STATUS_ID) {
        StatusIsStored(g, e);
      }
      StatusStaysHeld(events, g.status, Step(g, e).status);
    }
  }

  lemma {:induction false} MeasurementsAreHeld(events: seq<Event>)
    ensures ElectricalHeld(events, Run(events).electrical)
    ensures ThermalHeld(events, Run(events).thermal, Run(events).thermalFlags)
  {
    if events != [] {
      var n := |events| - 1;
      var g, e := Run(events[..n]), events[n];
      MeasurementsAreHeld(events[..n]);
      OthersLeave(g, e);
      MalformedTakesAway(g, e);
      MeasurementsAreStored(g, e);
    }
  }

  predicate StatusPermits(status: StatusBlock, nowMs: Word32) {
    && status.valid && Sub32(nowMs, status.lastMs) <= 500
    && StatusClear(status.flags, status.faults) && status.protocolValid && !status.sequenceFault
  }

  predicate BlockPermits(b: Block, nowMs: Word32) {
    b.valid && b.sane && Sub32(nowMs, b.lastMs) <= 500
  }

  /** The permission of an aged state, block by block. */
  lemma PermissionAged(g: Gate, nowMs: Word32)
    ensures AllowsTorque(UpdateStale(g, nowMs)) <==>
            && StatusPermits(g.status, nowMs) && BlockPermits(g.electrical, nowMs)
            && BlockPermits(g.thermal, nowMs) && g.thermalFlags & 0xB0 == 0
            && SomeDirection(Consumer.ImmediateAuthority(g.power.core, nowMs))
  {
  }

  lemma StatusIff(events: seq<Event>, status: StatusBlock, nowMs: Word32)
    requires StatusHeld(events, status)
    ensures StatusPermits(status, nowMs) <==> StatusSaysYes(events, nowMs)
  {
    OneStatusPattern(status.flags, status.faults);
  }

  lemma ElectricalIff(events: seq<Event>, electrical: Block, nowMs: Word32)
    requires ElectricalHeld(events, electrical)
    ensures BlockPermits(electrical, nowMs) <==> ElectricalSaysYes(events, nowMs)
  {
    if Held(events, ELECTRICAL_ID).Some? {
      ElectricalBytes(events[Held(events, ELECTRICAL_ID).value].frame.data);
    }
  }

  lemma ThermalIff(events: seq<Event>, thermal: Block, flags: bv8, nowMs: Word32)
    requires ThermalHeld(events, thermal, flags)
    ensures BlockPermits(thermal, nowMs) && flags & 0xB0 == 0 <==> ThermalSaysYes(events, nowMs)
  {
    if Held(events, THERMAL_ID).Some? {
      ThermalBytes(events[Held(events, THERMAL_ID).value].frame.data);
    }
  }

  /** After any bus history, aged to this time, torque is allowed exactly when the latest status, electrical and thermal
      frames say so byte for byte and the power authority shown at this time has a usable direction. */
  lemma PermissionIff(events: seq<Event>, nowMs: Word32)
    ensures AllowsTorque(UpdateStale(Run(events), nowMs)) <==>
            && StatusSaysYes(events, nowMs) && ElectricalSaysYes(events, nowMs) && ThermalSaysYes(events, nowMs)
            && SomeDirection(Consumer.ImmediateAuthority(Run(events).power.core, nowMs))
  {
    var g := Run(events);
    StatusIsHeld(events);
    MeasurementsAreHeld(events);
    PermissionAged(g, nowMs);
    StatusIff(events, g.status, nowMs);
    ElectricalIff(events, g.electrical, nowMs);
    ThermalIff(events, g.thermal, g.thermalFlags, nowMs);
  }

  // ---------------------------------------------------------------------------------------------
  // The cached authority
  // ---------------------------------------------------------------------------------------------

  lemma NotePowerRefreshes(g: Gate, consumer: Consumer.Consumer, id: nat, accepted: bool, nowMs: Word32)
    ensures NotePower(g, consumer, id, accepted, nowMs).authority ==
            if 0x684 <= id <= 0x687 then Consumer.ImmediateAuthority(consumer.core, nowMs) else g.authority
  {
  }

  lemma WellFormedRefreshes(g: Gate, id: nat, p: Payload, nowMs: Word32)
    ensures ReceiveWellFormed(g, id, p, nowMs).authority ==
            if 0x684 <= id <= 0x687 then
              Consumer.ImmediateAuthority(Consumer.Ingest(g.power, Consumer.Frame(id, false, false, 8, p), nowMs).core,
                                          nowMs)
            else g.authority
  {
    if IsPowerId(id) {
      var f := Consumer.Frame(id, false, false, 8, p);
      NotePowerRefreshes(g, Consumer.Ingest(g.power, f, nowMs), id, Consumer.Accepted(g.power, f, nowMs), nowMs);
    }
  }

  lemma WithdrawalRefreshes(g: Gate, id: nat)
    ensures InvalidateFrame(g, id).authority == if 0x684 <= id <= 0x687 then None else g.authority
  {
  }

  /** Between two ageings the permission rests on a cached authority. A core power frame refreshes it at once from the
      consumer, a malformed or withdrawn one drops it, ageing refreshes it, and nothing else touches it. */
  lemma AuthorityIsCached(g: Gate, e: Event)
    ensures var next := Step(g, e).authority;
            match e
            case Arrives(f, nowMs) =>
              next == if !(0x684 <= f.id <= 0x687) then g.authority
                      else if f.standard && f.dlc == 8 then
                        var frame := Consumer.Frame(f.id, false, false, 8, f.data);
                        Consumer.ImmediateAuthority(Consumer.Ingest(g.power, frame, nowMs).core, nowMs)
                      else None
            case Withdrawn(id) => next == if 0x684 <= id <= 0x687 then None else g.authority
            case Ages(nowMs) => next == Consumer.ImmediateAuthority(g.power.core, nowMs)
  {
    match e
    case Arrives(f, nowMs) =>
      WellFormedRefreshes(g, f.id, f.data, nowMs);
      WithdrawalRefreshes(g, f.id);
    case Withdrawn(id) => WithdrawalRefreshes(g, id);
    case Ages(_) =>
  }
}
