/** The AMS receive dispatch and the torque permission that it feeds. */
module AmsGate {
  import opened Numeric
  import opened PowerCrc
  import opened PowerConsumer

  const TELEMETRY_ID: nat := 0x6B1
  const ESTIMATOR_ID: nat := 0x6B2
  const STATUS_ID: nat := 0x680
  const ELECTRICAL_ID: nat := 0x681
  const THERMAL_ID: nat := 0x682
  const HEALTH_ID: nat := 0x683
  const CURRENT_DIAG_ID: nat := 0x68B
  const LOGGER_FIRST_ID: nat := 0x690
  const LOGGER_LAST_ID: nat := 0x6C0
  const PACKET_COUNT: nat := 72
  const COMPACT_PROTOCOL_VERSION: bv8 := 1
  const STALE_TIMEOUT_MS: nat := 500
  const THERMAL_BLOCK_MASK: bv8 := 0xB0
  const TOTAL_CELLS: int := 75
  const TOTAL_TEMPS: int := 120
  const SEGMENTS: int := 5
  const CELLS_PER_SEGMENT: int := 15
  const TEMPS_PER_SEGMENT: int := 24

  /** A frame from the receive interrupt. */
  datatype CanFrame = CanFrame(id: nat, standard: bool, dlc: nat, data: Payload)

  predicate IsLoggerId(id: nat) {
    LOGGER_FIRST_ID <= id <= LOGGER_LAST_ID
  }

  predicate IsPowerId(id: nat) {
    DCL_ID <= id <= ENVELOPE_ID || id == STRATEGY_ID || id == BINDINGS_ID
  }

  predicate IsKnownId(id: nat) {
    || id in {TELEMETRY_ID, ESTIMATOR_ID, STATUS_ID, ELECTRICAL_ID, THERMAL_ID, HEALTH_ID, CURRENT_DIAG_ID}
    || IsLoggerId(id) || IsPowerId(id)
  }

  // ---------------------------------------------------------------------------------------------
  // The state
  // ---------------------------------------------------------------------------------------------

  datatype StatusBlock = StatusBlock(
    valid: bool, protocolValid: bool, sequence: bv8, sequenceFault: bool, flags: bv8, faults: bv8, lastMs: Word32,
    stale: bool)

  datatype Block = Block(valid: bool, sane: bool, stale: bool, lastMs: Word32)

  /** Everything that is decoded for observation only. The logger and telemetry decoders keep the latest payload per
      identifier or packet header. */
  datatype Passive = Passive(
    health: Block, diagValid: bool, diagSane: bool, estimator: Option<Payload>,
    lastHeader: nat, packets: map<nat, Payload>, loggerLastId: nat, loggerFrames: map<nat, Payload>)

  datatype Gate = Gate(
    status: StatusBlock, electrical: Block, thermal: Block, thermalFlags: bv8,
    power: Consumer, authority: Option<Immediate>,
    stale: bool, lastRxMs: Word32, rxCount: Word32, passive: Passive)

  const NO_BLOCK := Block(false, false, false, 0)
  const NO_STATUS := StatusBlock(false, false, 0, false, 0, 0, 0, false)
  const NO_PASSIVE := Passive(NO_BLOCK, false, false, None, 0, map[], 0, map[])
  const INITIAL_GATE := Gate(NO_STATUS, NO_BLOCK, NO_BLOCK, 0, INITIAL_CONSUMER, None, false, 0, 0, NO_PASSIVE)

  predicate CompactStale(status: StatusBlock, electrical: Block, thermal: Block) {
    !status.valid || status.stale || !electrical.valid || electrical.stale || !thermal.valid || thermal.stale
  }

  function RefreshStale(g: Gate): Gate {
    g.(stale := CompactStale(g.status, g.electrical, g.thermal))
  }

  function RefreshAuthority(g: Gate, nowMs: Word32): Gate {
    g.(authority := ImmediateAuthority(g.power.core, nowMs))
  }

  function MarkRx(g: Gate, nowMs: Word32): Gate {
    g.(lastRxMs := nowMs, rxCount := Add32(g.rxCount, 1))
  }

  // ---------------------------------------------------------------------------------------------
  // Frame decoding
  // ---------------------------------------------------------------------------------------------

  function Signed16(p: Payload, at: nat): int
    requires at < 7
  {
    var word := BigEndian16(p, at);
    if word >= 0x8000 then word - 0x1_0000 else word
  }

  function Byte(p: Payload, at: nat): int
    requires at < 8
  {
    p[at] as int
  }

  predicate ElectricalSane(p: Payload) {
    var pack, minimum, maximum := BigEndian16(p, 0), BigEndian16(p, 4), BigEndian16(p, 6);
    && 500 <= minimum <= maximum <= 5000 && pack <= 10000
    && pack * 100 + 200 >= minimum * TOTAL_CELLS && pack * 100 <= maximum * TOTAL_CELLS + 200
    && -10000 <= Signed16(p, 2) <= 10000
  }

  predicate ThermalSane(p: Payload) {
    -400 <= Signed16(p, 2) <= Signed16(p, 4) <= Signed16(p, 0) <= 1500 && Byte(p, 6) <= 100
  }

  predicate HealthSane(p: Payload) {
    && Byte(p, 0) < SEGMENTS && Byte(p, 2) < SEGMENTS && Byte(p, 4) < SEGMENTS
    && Byte(p, 1) < CELLS_PER_SEGMENT && Byte(p, 3) < CELLS_PER_SEGMENT && Byte(p, 5) < TEMPS_PER_SEGMENT
    && Byte(p, 6) <= TOTAL_CELLS && Byte(p, 7) <= TOTAL_TEMPS
  }

  predicate CurrentDiagSane(p: Payload) {
    && p[0] <= 2 && p[1] <= 6 && p[2] <= 1 && BigEndian16(p, 6) <= STALE_TIMEOUT_MS
    && (|| (p[0] == 0 && p[1] == 0 && p[2] == 0)
        || (p[0] != 0 && (p[1] == 2 || p[1] == 3) && p[2] == 1))
  }

  function DecodeStatus(was: StatusBlock, p: Payload, nowMs: Word32): StatusBlock {
    StatusBlock(true, p[0] == COMPACT_PROTOCOL_VERSION, p[1], was.valid && p[1] != was.sequence + 1, p[3], p[4], nowMs,
                false)
  }

  function ReceiveTelemetry(g: Gate, p: Payload, nowMs: Word32): Gate {
    var header := BigEndian16(p, 0);
    if header >= PACKET_COUNT then g
    else
      var noted := MarkRx(g.(passive := g.passive.(lastHeader := header, packets := g.passive.packets[header := p])),
                          nowMs);
      if g.status.valid then noted else noted.(stale := false)
  }

  function ReceiveLogger(passive: Passive, id: nat, p: Payload): Passive {
    passive.(loggerLastId := id, loggerFrames := passive.loggerFrames[id := p])
  }

  /** A core frame refreshes the cached authority at once; an accepted frame counts as received. */
  function NotePower(g: Gate, consumer: Consumer, id: nat, accepted: bool, nowMs: Word32): Gate {
    var ingested := g.(power := consumer);
    var cached := if DCL_ID <= id <= ENVELOPE_ID then RefreshAuthority(ingested, nowMs) else ingested;
    if accepted then MarkRx(cached, nowMs) else cached
  }

  function ReceivePower(g: Gate, id: nat, p: Payload, nowMs: Word32): Gate
    requires IsPowerId(id)
  {
    var f := Frame(id, false, false, 8, p);
    NotePower(g, Ingest(g.power, f, nowMs), id, Accepted(g.power, f, nowMs), nowMs)
  }

  function TakeStatus(g: Gate, status: StatusBlock, nowMs: Word32): Gate {
    RefreshStale(MarkRx(g.(status := status), nowMs))
  }

  function TakeElectrical(g: Gate, sane: bool, nowMs: Word32): Gate {
    RefreshStale(MarkRx(g.(electrical := Block(true, sane, false, nowMs)), nowMs))
  }

  function TakeThermal(g: Gate, sane: bool, flags: bv8, nowMs: Word32): Gate {
    RefreshStale(MarkRx(g.(thermal := Block(true, sane, false, nowMs), thermalFlags := flags), nowMs))
  }

  /** A well-formed standard frame of eight bytes. */
  function ReceiveWellFormed(g: Gate, id: nat, p: Payload, nowMs: Word32): Gate {
    if id == TELEMETRY_ID then ReceiveTelemetry(g, p, nowMs)
    else if id == ESTIMATOR_ID then g.(passive := g.passive.(estimator := Some(p)))
    else if id == STATUS_ID then TakeStatus(g, DecodeStatus(g.status, p, nowMs), nowMs)
    else if id == ELECTRICAL_ID then TakeElectrical(g, ElectricalSane(p), nowMs)
    else if id == THERMAL_ID then TakeThermal(g, ThermalSane(p), p[7], nowMs)
    else if id == HEALTH_ID then MarkRx(g.(passive := g.passive.(health := Block(true, HealthSane(p), false, nowMs))),
                                        nowMs)
    else if id == CURRENT_DIAG_ID then MarkRx(g.(passive :=
                                                 g.passive.(diagValid := true, diagSane := CurrentDiagSane(p))), nowMs)
    else if IsLoggerId(id) then MarkRx(g.(passive := ReceiveLogger(g.passive, id, p)), nowMs)
    else if IsPowerId(id) then ReceivePower(g, id, p, nowMs)
    else g
  }

  /** The latest content under this identifier can no longer be trusted. */
  function Withdraw(g: Gate, id: nat): Gate {
    if id == STATUS_ID then g.(status := g.status.(valid := false, protocolValid := false, stale := true))
    else if id == ELECTRICAL_ID then g.(electrical := g.electrical.(valid := false, sane := false, stale := true))
    else if id == THERMAL_ID then g.(thermal := g.thermal.(valid := false, sane := false, stale := true))
    else if id == HEALTH_ID then
      var health := g.passive.health.(valid := false, sane := false, stale := true);
      g.(passive := g.passive.(health := health))
    else if id == CURRENT_DIAG_ID then g.(passive := g.passive.(diagValid := false, diagSane := false))
    else if DCL_ID <= id <= ENVELOPE_ID then g.(power := InvalidateId(g.power, id), authority := None)
    else if id == STRATEGY_ID || id == BINDINGS_ID then g.(power := InvalidateId(g.power, id))
    else g
  }

  function InvalidateFrame(g: Gate, id: nat): Gate {
    RefreshStale(Withdraw(g, id))
  }

  function ReceiveFrame(g: Gate, f: CanFrame, nowMs: Word32): Gate {
    if !f.standard || (IsKnownId(f.id) && f.dlc != 8) then
      if IsKnownId(f.id) then InvalidateFrame(g, f.id) else g
    else ReceiveWellFormed(g, f.id, f.data, nowMs)
  }

  predicate Expired(lastMs: Word32, nowMs: Word32) {
    Sub32(nowMs, lastMs) > STALE_TIMEOUT_MS
  }

  function Aged(b: Block, nowMs: Word32): Block {
    b.(stale := !b.valid || Expired(b.lastMs, nowMs))
  }

  function UpdateStaleFlags(g: Gate, nowMs: Word32): Gate {
    if g.status.valid then
      RefreshStale(g.(
        status := g.status.(stale := Expired(g.status.lastMs, nowMs)),
        electrical := Aged(g.electrical, nowMs), thermal := Aged(g.thermal, nowMs),
        passive := g.passive.(health := Aged(g.passive.health, nowMs))))
    else g.(stale := if g.rxCount != 0 then Expired(g.lastRxMs, nowMs) else true)
  }

  function UpdateStale(g: Gate, nowMs: Word32): Gate {
    RefreshAuthority(UpdateStaleFlags(g, nowMs), nowMs)
  }

  // ---------------------------------------------------------------------------------------------
  // Permission
  // ---------------------------------------------------------------------------------------------

  predicate DirectionUsable(d: DirectionAuthority) {
    d.authorized && d.currentA > 0.0 && d.powerW > 0.0
  }

  predicate StatusClear(flags: bv8, faults: bv8) {
    && HasFlag(flags, 0x01) && !HasFlag(flags, 0x02) && !HasFlag(flags, 0x04) && !HasFlag(flags, 0x08)
    && HasFlag(flags, 0x10) && HasFlag(flags, 0x20) && HasFlag(flags, 0x40) && !HasFlag(flags, 0x80)
    && !HasFlag(faults, 0x01) && !HasFlag(faults, 0x02) && !HasFlag(faults, 0x04)
    && !HasFlag(faults, 0x10) && !HasFlag(faults, 0x20) && !HasFlag(faults, 0x40) && !HasFlag(faults, 0x80)
  }

  predicate AuthorityAllowsTorque(authority: Option<Immediate>, torque: int) {
    && authority.Some?
    && if torque > 0 then DirectionUsable(authority.value.discharge)
       else if torque < 0 then DirectionUsable(authority.value.charge)
       else DirectionUsable(authority.value.discharge) || DirectionUsable(authority.value.charge)
  }

  predicate AllowsTorque(g: Gate) {
    && g.status.valid && !g.stale && !g.status.stale
    && g.electrical.valid && g.electrical.sane && !g.electrical.stale
    && g.thermal.valid && g.thermal.sane && !g.thermal.stale && !HasFlag(g.thermalFlags, THERMAL_BLOCK_MASK)
    && StatusClear(g.status.flags, g.status.faults) && g.status.protocolValid && !g.status.sequenceFault
    && (AuthorityAllowsTorque(g.authority, 1) || AuthorityAllowsTorque(g.authority, -1))
  }

  /** One status pattern allows torque; the reserved fault bit 3 is ignored. */
  lemma OneStatusPattern(flags: bv8, faults: bv8)
    ensures StatusClear(flags, faults) <==> flags == 0x71 && faults & 0xF7 == 0
  {
  }

  // ---------------------------------------------------------------------------------------------
  // Events
  // ---------------------------------------------------------------------------------------------

  /** The receive interrupt delivers a frame or withdraws a remote frame's identifier; the error task ages the data. */
  datatype Event = Arrives(frame: CanFrame, nowMs: Word32) | Withdrawn(id: nat) | Ages(nowMs: Word32)

  function Step(g: Gate, e: Event): Gate {
    match e
    case Arrives(f, nowMs) => ReceiveFrame(g, f, nowMs)
    case Withdrawn(id) => InvalidateFrame(g, id)
    case Ages(nowMs) => UpdateStale(g, nowMs)
  }

  function Run(events: seq<Event>): Gate {
    if events == [] then INITIAL_GATE else Step(Run(events[..|events| - 1]), events[|events| - 1])
  }

  // ---------------------------------------------------------------------------------------------
  // The in-place form
  // ---------------------------------------------------------------------------------------------

  class AmsDevice {
    const power: PowerConsumer
    var status: StatusBlock
    var electrical: Block
    var thermal: Block
    var thermalFlags: bv8
    var authority: Option<Immediate>
    var stale: bool
    var lastRxMs: Word32
    var rxCount: Word32
    var passive: Passive

    ghost predicate Valid()
      reads this, power
    {
      power.Valid()
    }

    ghost function View(): Gate
      reads this, power, power.payload
      requires Valid()
    {
      Gate(status, electrical, thermal, thermalFlags, power.View(), authority, stale, lastRxMs, rxCount, passive)
    }

    constructor ()
      ensures Valid() && fresh(power) && fresh(power.payload) && View() == INITIAL_GATE
    {
      power := new PowerConsumer();
      status, electrical, thermal, thermalFlags := NO_STATUS, NO_BLOCK, NO_BLOCK, 0;
      authority, stale, lastRxMs, rxCount, passive := None, false, 0, 0, NO_PASSIVE;
    }

    method MarkReceived(nowMs: Word32)
      requires Valid()
      modifies this`lastRxMs, this`rxCount
      ensures View() == MarkRx(old(View()), nowMs)
    {
      lastRxMs := nowMs;
      rxCount := (rxCount + 1) % TWO_32;
    }

    method RefreshCompactStaleFlag()
      requires Valid()
      modifies this`stale
      ensures View() == RefreshStale(old(View()))
    {
      stale := !status.valid || status.stale || !electrical.valid || electrical.stale || !thermal.valid
          || thermal.stale;
    }

    method RefreshPowerAuthorityCache(nowMs: Word32)
      requires Valid()
      modifies this`authority
      ensures View() == RefreshAuthority(old(View()), nowMs)
    {
      authority := power.GetImmediateAuthority(nowMs);
    }

    method InvalidateCanFrame(id: nat)
      requires Valid()
      modifies this, power
      ensures View() == InvalidateFrame(old(View()), id)
    {
      if id == STATUS_ID {
        status := status.(valid := false, protocolValid := false, stale := true);
      } else if id == ELECTRICAL_ID {
        electrical := electrical.(valid := false, sane := false, stale := true);
      } else if id == THERMAL_ID {
        thermal := thermal.(valid := false, sane := false, stale := true);
      } else if id == HEALTH_ID {
        passive := passive.(health := passive.health.(valid := false, sane := false, stale := true));
      } else if id == CURRENT_DIAG_ID {
        passive := passive.(diagValid := false, diagSane := false);
      } else if DCL_ID <= id <= ENVELOPE_ID {
        power.InvalidateFrame(id);
        authority := None;
      } else if id == STRATEGY_ID || id == BINDINGS_ID {
        power.InvalidateFrame(id);
      }
      assert View() == Withdraw(old(View()), id);
      RefreshCompactStaleFlag();
    }

    method ParsePower(id: nat, data: Payload, nowMs: Word32)
      requires Valid() && IsPowerId(id)
      modifies this`authority, this`lastRxMs, this`rxCount, power, power.payload
      ensures View() == ReceivePower(old(View()), id, data, nowMs)
    {
      var accepted := power.IngestFrame(Frame(id, false, false, 8, data), nowMs);
      if DCL_ID <= id <= ENVELOPE_ID {
        RefreshPowerAuthorityCache(nowMs);
      }
      if accepted {
        MarkReceived(nowMs);
      }
    }

    /** The three compact frames that feed the permission. */
    method ParseCompact(id: nat, data: Payload, nowMs: Word32)
      requires Valid() && id in {STATUS_ID, ELECTRICAL_ID, THERMAL_ID}
      modifies this
      ensures View() == ReceiveWellFormed(old(View()), id, data, nowMs)
    {
      if id == STATUS_ID {
        status := DecodeStatus(status, data, nowMs);
      } else if id == ELECTRICAL_ID {
        electrical := Block(true, ElectricalSane(data), false, nowMs);
      } else {
        thermal := Block(true, ThermalSane(data), false, nowMs);
        thermalFlags := data[7];
      }
      MarkReceived(nowMs);
      RefreshCompactStaleFlag();
    }

    method ParseTelemetry(data: Payload, nowMs: Word32)
      requires Valid()
      modifies this
      ensures View() == ReceiveTelemetry(old(View()), data, nowMs)
    {
      var header := BigEndian16(data, 0);
      if header >= PACKET_COUNT {
        return;
      }
      passive := passive.(lastHeader := header, packets := passive.packets[header := data]);
      MarkReceived(nowMs);
      if !status.valid {
        stale := false;
      }
    }

    method ParseCanFrame(f: CanFrame, nowMs: Word32)
      requires Valid()
      modifies this, power, power.payload
      ensures View() == ReceiveFrame(old(View()), f, nowMs)
    {
      if !f.standard || (IsKnownId(f.id) && f.dlc != 8) {
        if IsKnownId(f.id) {
          InvalidateCanFrame(f.id);
        }
      } else if f.id == TELEMETRY_ID {
        ParseTelemetry(f.data, nowMs);
      } else if f.id == ESTIMATOR_ID {
        passive := passive.(estimator := Some(f.data));
      } else if f.id in {STATUS_ID, ELECTRICAL_ID, THERMAL_ID} {
        ParseCompact(f.id, f.data, nowMs);
      } else if f.id == HEALTH_ID {
        passive := passive.(health := Block(true, HealthSane(f.data), false, nowMs));
        MarkReceived(nowMs);
      } else if f.id == CURRENT_DIAG_ID {
        passive := passive.(diagValid := true, diagSane := CurrentDiagSane(f.data));
        MarkReceived(nowMs);
      } else if IsLoggerId(f.id) {
        passive := passive.(loggerLastId := f.id, loggerFrames := passive.loggerFrames[f.id := f.data]);
        MarkReceived(nowMs);
      } else if IsPowerId(f.id) {
        ParsePower(f.id, f.data, nowMs);
      }
    }

    method UpdateStaleness(nowMs: Word32)
      requires Valid()
      modifies this
      ensures View() == UpdateStale(old(View()), nowMs)
    {
      if status.valid {
        status := status.(stale := Expired(status.lastMs, nowMs));
        electrical := electrical.(stale := !electrical.valid || Expired(electrical.lastMs, nowMs));
        thermal := thermal.(stale := !thermal.valid || Expired(thermal.lastMs, nowMs));
        passive := passive.(health := Aged(passive.health, nowMs));
        RefreshCompactStaleFlag();
      } else if rxCount != 0 {
        stale := Expired(lastRxMs, nowMs);
      } else {
        stale := true;
      }
      RefreshPowerAuthorityCache(nowMs);
    }
  }
}
