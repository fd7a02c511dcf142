/** The consumer of the AMS power-limit bundle: four CRC-protected frames 0x684-0x687 that share a modulo-16 counter. */
module PowerConsumer {
  import opened Numeric
  import opened PowerCrc

  const DCL_ID: CanId := 0x684
  const CCL_ID: CanId := 0x685
  const SOH_ID: CanId := 0x686
  const ENVELOPE_ID: CanId := 0x687
  const STRATEGY_ID: CanId := 0x689
  const BINDINGS_ID: CanId := 0x68A

  const PROTOCOL_VERSION: bv8 := 2
  const MAX_AGE_MS: nat := 250
  const MAX_BUNDLE_SKEW_MS: nat := 50
  const REQUIRED_GOOD_BUNDLES: nat := 2
  const MAX_STREAK: nat := 255

  const FLAG_VALID: bv8 := 0x01
  const FLAG_AUTHORITY_VALID: bv8 := 0x02
  const FLAG_DIRECTION_INHIBIT: bv8 := 0x40
  const FLAG_FALLBACK: bv8 := 0x80
  const BINDING_MAX: bv8 := 14

  datatype Frame = Frame(id: CanId, extended: bool, remote: bool, dlc: nat, payload: Payload)

  type Payloads = s: seq<Payload> | |s| == 4 witness [ZERO_PAYLOAD, ZERO_PAYLOAD, ZERO_PAYLOAD, ZERO_PAYLOAD]

  // ---------------------------------------------------------------------------------------------
  // Frames
  // ---------------------------------------------------------------------------------------------

  predicate IsCoreId(id: CanId) {
    DCL_ID <= id <= ENVELOPE_ID
  }

  predicate IsAdvisoryId(id: CanId) {
    id == STRATEGY_ID || id == BINDINGS_ID
  }

  /** The place of a core frame in its bundle. */
  type Slot = x: nat | x < 4

  const ALL_SLOTS: set<Slot> := {0, 1, 2, 3}

  function SlotOf(id: CanId): Slot
    requires IsCoreId(id)
  {
    id - DCL_ID
  }

  function BigEndian16(p: Payload, at: nat): nat
    requires at < 7
  {
    p[at] as int * 0x100 + p[at + 1] as int
  }

  function CounterOf(p: Payload): bv8 {
    p[0] & 0x0F
  }

  function NextCounter(counter: bv8): bv8 {
    (counter + 1) & 0x0F
  }

  /** Consecutive counters of a sender: one more, modulo sixteen. */
  predicate Follows(later: bv8, earlier: bv8) {
    later as int == (earlier as int + 1) % 16
  }

  lemma LowNibble(byte: bv8)
    ensures (byte & 0x0F) as int == byte as int % 16
  {
  }

  lemma Successor(byte: bv8)
    ensures (byte + 1) as int == if byte as int == 255 then 0 else byte as int + 1
  {
  }

  lemma SameByte(a: bv8, b: bv8)
    requires a as int == b as int
    ensures a == b
  {
  }

  lemma NextCounterFollows(later: bv8, earlier: bv8)
    ensures later == NextCounter(earlier) <==> Follows(later, earlier)
  {
    LowNibble(earlier + 1);
    Successor(earlier);
    if Follows(later, earlier) {
      SameByte(later, NextCounter(earlier));
    }
  }

  /** The counter of a frame is the low nibble of its first byte. */
  lemma CounterOnTheWire(p: Payload)
    ensures CounterOf(p) as int == p[0] as int % 16
  {
    LowNibble(p[0]);
  }

  predicate HasFlag(flags: bv8, flag: bv8) {
    flags & flag != 0
  }

  predicate SegmentNibbleValid(segment: bv8) {
    segment <= 4 || segment == 0x0F
  }

  predicate DirectionValid(flags: bv8) {
    && HasFlag(flags, FLAG_VALID) && HasFlag(flags, FLAG_AUTHORITY_VALID)
    && !HasFlag(flags, FLAG_DIRECTION_INHIBIT) && !HasFlag(flags, FLAG_FALLBACK)
  }

  predicate LimitFrameValid(id: CanId, p: Payload) {
    var valid := HasFlag(p[1], FLAG_VALID);
    var fallback := HasFlag(p[1], FLAG_FALLBACK);
    var current := BigEndian16(p, 2);
    var power := BigEndian16(p, 4);
    && valid == HasFlag(p[1], FLAG_AUTHORITY_VALID) && !(valid && fallback)
    && current <= (if id == DCL_ID then 1200 else 150)
    && power <= (if id == DCL_ID then 4000 else 500)
    && p[6] >> 4 <= BINDING_MAX && SegmentNibbleValid(p[6] & 0x0F)
    && (!valid || HasFlag(p[1], FLAG_DIRECTION_INHIBIT) || fallback ==> current == 0 && power == 0)
  }

  predicate SohFrameValid(p: Payload) {
    && p[1] <= 110 && p[2] <= 100 && p[4] <= 100 && p[5] & 0x7F <= 100 && p[6] & 0x7F <= 100
    && (HasFlag(p[5], 0x80) ==> p[1] >= 50 && p[2] >= 50 && p[2] <= p[1])
    && (HasFlag(p[6], 0x80) ==> p[3] >= 100)
  }

  predicate EnvelopeFrameValid(p: Payload) {
    && p[1] <= 120 && p[2] <= 120 && p[3] <= 120 && p[4] <= 15 && p[5] <= 15 && p[6] <= 15
    && p[1] >= p[2] >= p[3] && p[4] >= p[5] >= p[6]
  }

  predicate CoreFrameValid(id: CanId, p: Payload) {
    if id == DCL_ID || id == CCL_ID then LimitFrameValid(id, p)
    else if id == SOH_ID then SohFrameValid(p)
    else EnvelopeFrameValid(p)
  }

  predicate TransportValid(f: Frame) {
    !f.extended && !f.remote && f.dlc == 8 && f.payload[0] >> 4 == PROTOCOL_VERSION && CrcValid(f.id, f.payload)
  }

  /** A core frame that passes the format, version, CRC and semantic checks. */
  predicate CleanCoreFrame(f: Frame) {
    IsCoreId(f.id) && TransportValid(f) && CoreFrameValid(f.id, f.payload)
  }

  /** The envelope agrees with the scalar limits up to the rounding of one byte. */
  predicate BundleValid(p: Payloads) {
    var dcl, ccl, envelope := BigEndian16(p[0], 2), BigEndian16(p[1], 2), p[3];
    && envelope[1] as int * 10 + 5 >= dcl && envelope[2] as int * 10 <= dcl + 5
    && envelope[4] as int * 10 + 5 >= ccl && envelope[5] as int * 10 <= ccl + 5
  }

  // ---------------------------------------------------------------------------------------------
  // Decoded values
  // ---------------------------------------------------------------------------------------------

  datatype DirectionAuthority = DirectionAuthority(
    currentA: real, powerW: real, flags: bv8, binding: bv8, segment: bv8, authorized: bool)

  datatype Immediate = Immediate(discharge: DirectionAuthority, charge: DirectionAuthority, counter: bv8,
                                 receivedMs: Word32)

  datatype Envelope = Envelope(dischargeA: seq<real>, chargeA: seq<real>, counter: bv8, receivedMs: Word32)

  datatype Soh = Soh(
    capacity: real, capacityLower: real, resistanceUpper: real, combined: real,
    capacityConfidence: bv8, resistanceConfidence: bv8, capacityValid: bool, resistanceValid: bool,
    counter: bv8, receivedMs: Word32)

  /** An unauthorised direction carries no limits. */
  function DecodeDirection(p: Payload): DirectionAuthority {
    var ok := DirectionValid(p[1]);
    DirectionAuthority(
      if ok then BigEndian16(p, 2) as real / 10.0 else 0.0,
      if ok then BigEndian16(p, 4) as real * 10.0 else 0.0,
      p[1], p[6] >> 4, p[6] & 0x0F, ok)
  }

  function DecodeImmediate(p: Payloads, counter: bv8, nowMs: Word32): Immediate {
    Immediate(DecodeDirection(p[0]), DecodeDirection(p[1]), counter, nowMs)
  }

  function Amperes(byte: bv8): real {
    byte as int as real
  }

  function DecodeEnvelope(p: Payload, counter: bv8, nowMs: Word32): Envelope {
    Envelope([Amperes(p[1]), Amperes(p[2]), Amperes(p[3])], [Amperes(p[4]), Amperes(p[5]), Amperes(p[6])], counter,
             nowMs)
  }

  function Percent(byte: bv8): real {
    byte as int as real / 100.0
  }

  function DecodeSoh(p: Payload, counter: bv8, nowMs: Word32): Soh {
    Soh(Percent(p[1]), Percent(p[2]), Percent(p[3]), Percent(p[4]), p[5] & 0x7F, p[6] & 0x7F,
        HasFlag(p[5], 0x80), HasFlag(p[6], 0x80), counter, nowMs)
  }

  const NO_DIRECTION := DirectionAuthority(0.0, 0.0, 0, 0, 0, false)
  const NO_IMMEDIATE := Immediate(NO_DIRECTION, NO_DIRECTION, 0, 0)
  const NO_ENVELOPE := Envelope([0.0, 0.0, 0.0], [0.0, 0.0, 0.0], 0, 0)
  const NO_SOH := Soh(0.0, 0.0, 0.0, 0.0, 0, 0, false, false, 0, 0)

  // ---------------------------------------------------------------------------------------------
  // The bundle state machine
  // ---------------------------------------------------------------------------------------------

  /** The frames of the bundle under construction; the mask holds the slots received so far. */
  datatype Stage = Stage(active: bool, counter: bv8, startedMs: Word32, mask: set<Slot>, payloads: Payloads)

  /** The last complete bundle. */
  datatype Active = Active(immediate: Immediate, envelope: Envelope, soh: Soh)

  datatype Core = Core(stage: Stage, active: Active, lastCounter: bv8, completeSeen: bool, streak: nat,
                       activeValid: bool)

  const NO_ACTIVE := Active(NO_IMMEDIATE, NO_ENVELOPE, NO_SOH)
  const EMPTY_STAGE := Stage(false, 0, 0, {}, [ZERO_PAYLOAD, ZERO_PAYLOAD, ZERO_PAYLOAD, ZERO_PAYLOAD])
  const INITIAL_CORE := Core(EMPTY_STAGE, NO_ACTIVE, 0, false, 0, false)

  function Closed(stage: Stage): Stage {
    stage.(active := false, mask := {})
  }

  function Invalidated(c: Core): Core {
    c.(stage := Closed(c.stage), streak := 0, activeValid := false)
  }

  predicate Abandons(c: Core, counter: bv8) {
    c.stage.active && counter != c.stage.counter && c.stage.mask != ALL_SLOTS
  }

  predicate Continues(c: Core, counter: bv8) {
    c.stage.active && counter == c.stage.counter
  }

  /** The stage that a clean frame with this counter joins. */
  function StageFor(c: Core, counter: bv8, nowMs: Word32): Stage {
    if Continues(c, counter) then c.stage else Stage(true, counter, nowMs, {}, c.stage.payloads)
  }

  function Opened(c: Core, counter: bv8, nowMs: Word32): Core {
    var stage := StageFor(c, counter, nowMs);
    if Abandons(c, counter) then c.(stage := stage, streak := 0, activeValid := false) else c.(stage := stage)
  }

  function Stored(stage: Stage, slot: Slot, payload: Payload): Stage {
    stage.(mask := stage.mask + {slot}, payloads := stage.payloads[slot := payload])
  }

  function StreakAfter(c: Core): nat {
    var kept := if c.completeSeen && c.stage.counter != NextCounter(c.lastCounter) then 0 else c.streak;
    if kept < MAX_STREAK then kept + 1 else kept
  }

  function Completed(c: Core, nowMs: Word32): Core {
    var s := c.stage;
    if !BundleValid(s.payloads) then Invalidated(c)
    else
      Core(Closed(s),
           Active(DecodeImmediate(s.payloads, s.counter, nowMs), DecodeEnvelope(s.payloads[3], s.counter, nowMs),
                  DecodeSoh(s.payloads[2], s.counter, nowMs)),
           s.counter, true, StreakAfter(c), StreakAfter(c) >= REQUIRED_GOOD_BUNDLES)
  }

  /** A clean frame joins its stage, unless the stage is too old or already holds that slot. */
  function Joined(c: Core, slot: Slot, payload: Payload, nowMs: Word32): Core {
    if Sub32(nowMs, c.stage.startedMs) > MAX_BUNDLE_SKEW_MS || slot in c.stage.mask then Invalidated(c)
    else
      var next := c.(stage := Stored(c.stage, slot, payload));
      if next.stage.mask == ALL_SLOTS then Completed(next, nowMs) else next
  }

  /** Whether the frame is kept; the frame that fills the stage is kept when the whole bundle is consistent. */
  predicate JoinAccepted(stage: Stage, slot: Slot, payload: Payload, nowMs: Word32) {
    && Sub32(nowMs, stage.startedMs) <= MAX_BUNDLE_SKEW_MS && slot !in stage.mask
    && var next := Stored(stage, slot, payload);
       next.mask == ALL_SLOTS ==> BundleValid(next.payloads)
  }

  /** What an event means to the bundle: nothing, a transport fault, or a clean frame for one slot. */
  datatype Signal = Silence | Fault | Clean(slot: Slot, counter: bv8, payload: Payload, nowMs: Word32)

  function SignalOf(e: Event): Signal {
    match e
    case Receive(f, nowMs) =>
      if !IsCoreId(f.id) then Silence
      else if CleanCoreFrame(f) then Clean(SlotOf(f.id), CounterOf(f.payload), f.payload, nowMs)
      else Fault
    case Malformed(id) => if IsCoreId(id) then Fault else Silence
  }

  function React(c: Core, s: Signal): Core {
    match s
    case Silence => c
    case Fault => Invalidated(c)
    case Clean(slot, counter, payload, nowMs) => Joined(Opened(c, counter, nowMs), slot, payload, nowMs)
  }

  // ---------------------------------------------------------------------------------------------
  // Advisory channels
  // ---------------------------------------------------------------------------------------------

  datatype ResourceState = ResourceState(
    fuseUtilization: real, minimumCoreTempC: real, energyToTargetWh: real, profile: bv8, horizon: bv8,
    thermalReady: bool, fuseAuthorityValid: bool, limpLatched: bool, missionFallback: bool, bootstrapPct: bv8,
    counter: bv8, receivedMs: Word32, valid: bool)

  datatype BindingMetadata = BindingMetadata(
    dischargeBinding: seq<bv8>, chargeBinding: seq<bv8>, dischargeSegment: seq<bv8>, chargeSegment: seq<bv8>,
    counter: bv8, receivedMs: Word32, valid: bool)

  datatype Advisory = Advisory(resource: ResourceState, bindings: BindingMetadata)

  const NO_ADVISORY := Advisory(
    ResourceState(0.0, 0.0, 0.0, 0, 0, false, false, false, false, 0, 0, 0, false),
    BindingMetadata([0, 0, 0], [0, 0, 0], [0, 0, 0], [0, 0, 0], 0, 0, false))

  predicate StrategyFrameValid(p: Payload) {
    p[1] & 0x03 <= 2 && p[6] <= 100
  }

  /** The six nibbles of three consecutive bytes, high nibble first. */
  function Nibbles(p: Payload, at: nat): (nibbles: seq<bv8>)
    requires at + 2 < 8
    ensures |nibbles| == 6
  {
    [p[at] >> 4, p[at] & 0x0F, p[at + 1] >> 4, p[at + 1] & 0x0F, p[at + 2] >> 4, p[at + 2] & 0x0F]
  }

  /** Binding nibbles in bytes 1-3, segment nibbles in bytes 4-6. */
  predicate BindingsFrameValid(p: Payload) {
    forall i :: 0 <= i < 6 ==> Nibbles(p, 1)[i] <= BINDING_MAX && SegmentNibbleValid(Nibbles(p, 4)[i])
  }

  function DecodeStrategy(p: Payload, nowMs: Word32): ResourceState {
    ResourceState(
      Percent(p[2]), Amperes(p[3]) - 40.0, BigEndian16(p, 4) as real / 10.0, p[1] & 0x03, (p[1] >> 2) & 0x03,
      HasFlag(p[1], 0x10), HasFlag(p[1], 0x20), HasFlag(p[1], 0x40), HasFlag(p[1], 0x80), p[6],
      CounterOf(p), nowMs, true)
  }

  function DecodeBindings(p: Payload, nowMs: Word32): BindingMetadata {
    BindingMetadata(
      Nibbles(p, 1)[..3], Nibbles(p, 1)[3..], Nibbles(p, 4)[..3], Nibbles(p, 4)[3..],
      CounterOf(p), nowMs, true)
  }

  function InvalidatedAdvisory(a: Advisory, id: CanId): Advisory {
    if id == STRATEGY_ID then a.(resource := a.resource.(valid := false))
        else a.(bindings := a.bindings.(valid := false))
  }

  function ReceiveAdvisory(a: Advisory, f: Frame, nowMs: Word32): Advisory
    requires IsAdvisoryId(f.id)
  {
    if TransportValid(f) && f.id == STRATEGY_ID && StrategyFrameValid(f.payload) then
        a.(resource := DecodeStrategy(f.payload, nowMs))
    else if TransportValid(f) && f.id == BINDINGS_ID && BindingsFrameValid(f.payload) then
        a.(bindings := DecodeBindings(f.payload, nowMs))
    else InvalidatedAdvisory(a, f.id)
  }

  // ---------------------------------------------------------------------------------------------
  // Events and getters
  // ---------------------------------------------------------------------------------------------

  datatype Consumer = Consumer(core: Core, advisory: Advisory)

  const INITIAL_CONSUMER := Consumer(INITIAL_CORE, NO_ADVISORY)

  /** What the driver hands to the consumer: a received frame, or the notice that a frame was malformed. */
  datatype Event = Receive(frame: Frame, nowMs: Word32) | Malformed(id: CanId)

  function IdOf(e: Event): CanId {
    match e
    case Receive(f, _) => f.id
    case Malformed(id) => id
  }

  function Ingest(s: Consumer, f: Frame, nowMs: Word32): Consumer {
    if IsAdvisoryId(f.id) then s.(advisory := ReceiveAdvisory(s.advisory, f, nowMs))
    else if IsCoreId(f.id) then s.(core := React(s.core, SignalOf(Receive(f, nowMs))))
    else s
  }

  predicate AdvisoryAccepted(f: Frame)
    requires IsAdvisoryId(f.id)
  {
    TransportValid(f) && if f.id == STRATEGY_ID then StrategyFrameValid(f.payload) else BindingsFrameValid(f.payload)
  }

  /** The answer that the driver gets for a received frame. */
  predicate Accepted(s: Consumer, f: Frame, nowMs: Word32) {
    if IsAdvisoryId(f.id) then AdvisoryAccepted(f)
    else CleanCoreFrame(f) && JoinAccepted(StageFor(s.core, CounterOf(f.payload), nowMs), SlotOf(f.id), f.payload,
                                           nowMs)
  }

  function InvalidateId(s: Consumer, id: CanId): Consumer {
    if IsCoreId(id) then s.(core := React(s.core, SignalOf(Malformed(id))))
    else if IsAdvisoryId(id) then s.(advisory := InvalidatedAdvisory(s.advisory, id))
    else s
  }

  function Apply(s: Consumer, e: Event): Consumer {
    match e
    case Receive(f, nowMs) => Ingest(s, f, nowMs)
    case Malformed(id) => InvalidateId(s, id)
  }

  predicate ActiveFresh(c: Core, nowMs: Word32) {
    && c.activeValid && Sub32(nowMs, c.active.immediate.receivedMs) <= MAX_AGE_MS
    && !(c.stage.active && Sub32(nowMs, c.stage.startedMs) > MAX_BUNDLE_SKEW_MS)
  }

  function ImmediateAuthority(c: Core, nowMs: Word32): Option<Immediate> {
    if ActiveFresh(c, nowMs) then Some(c.active.immediate) else None
  }

  function StateOfHealth(c: Core, nowMs: Word32): Option<Soh> {
    if ActiveFresh(c, nowMs) then Some(c.active.soh) else None
  }

  /** Advisory data is shown only beside the bundle it was sent with. */
  predicate Synchronized(bundleCounter: bv8, bundleMs: Word32, counter: bv8, receivedMs: Word32, nowMs: Word32) {
    counter == bundleCounter && Sub32(nowMs, receivedMs) <= MAX_AGE_MS
        && Distance32(receivedMs, bundleMs) <= MAX_BUNDLE_SKEW_MS
  }

  function Resource(s: Consumer, nowMs: Word32): Option<ResourceState> {
    var r, bundle := s.advisory.resource, s.core.active.immediate;
    var synchronized := Synchronized(bundle.counter, bundle.receivedMs, r.counter, r.receivedMs, nowMs);
    if ActiveFresh(s.core, nowMs) && r.valid && synchronized then Some(r) else None
  }

  function FeasibilityEnvelope(s: Consumer, nowMs: Word32): Option<(Envelope, Option<BindingMetadata>)> {
    var b, active := s.advisory.bindings, s.core.active;
    if !ActiveFresh(s.core, nowMs) then None
    else
      var synchronized := b.valid && Synchronized(active.envelope.counter, active.immediate.receivedMs, b.counter,
                                                  b.receivedMs, nowMs);
      Some((active.envelope, if synchronized then Some(b) else None))
  }

  // ---------------------------------------------------------------------------------------------
  // The in-place form
  // ---------------------------------------------------------------------------------------------

  /** The consumer object that the receive interrupt updates. */
  class PowerConsumer {
    const payload: array<Payload>
    var stageActive: bool
    var stageCounter: bv8
    var stageStartedMs: Word32
    var stageMask: set<Slot>
    var active: Active
    var lastCompleteCounter: bv8
    var completeSeen: bool
    var goodBundleStreak: nat
    var activeValid: bool
    var resource: ResourceState
    var bindings: BindingMetadata

    ghost predicate Valid()
      reads this
    {
      payload.Length == 4
    }

    ghost function StageView(): Stage
      reads this, payload
      requires Valid()
    {
      Stage(stageActive, stageCounter, stageStartedMs, stageMask, payload[..])
    }

    ghost function CoreView(): Core
      reads this, payload
      requires Valid()
    {
      Core(StageView(), active, lastCompleteCounter, completeSeen, goodBundleStreak, activeValid)
    }

    ghost function View(): Consumer
      reads this, payload
      requires Valid()
    {
      Consumer(CoreView(), Advisory(resource, bindings))
    }

    constructor ()
      ensures Valid() && fresh(payload) && View() == INITIAL_CONSUMER
    {
      payload := new Payload[4](_ => ZERO_PAYLOAD);
      stageActive, stageCounter, stageStartedMs, stageMask := false, 0, 0, {};
      active := NO_ACTIVE;
      lastCompleteCounter, completeSeen, goodBundleStreak, activeValid := 0, false, 0, false;
      resource, bindings := NO_ADVISORY.resource, NO_ADVISORY.bindings;
      new;
      assert payload[..] == EMPTY_STAGE.payloads;
    }

    method InvalidateTransport()
      requires Valid()
      modifies this`activeValid, this`goodBundleStreak, this`stageActive, this`stageMask
      ensures CoreView() == Invalidated(old(CoreView()))
    {
      activeValid := false;
      goodBundleStreak := 0;
      stageActive := false;
      stageMask := {};
    }

    /** Extends the streak, or restarts it after a counter break. */
    method CountBundle()
      modifies this`goodBundleStreak, this`lastCompleteCounter, this`completeSeen
      ensures lastCompleteCounter == stageCounter && completeSeen
      ensures var kept := if old(completeSeen) && stageCounter != NextCounter(old(lastCompleteCounter)) then 0
          else old(goodBundleStreak);
              goodBundleStreak == if kept < MAX_STREAK then kept + 1 else kept
    {
      if completeSeen && stageCounter != NextCounter(lastCompleteCounter) {
        goodBundleStreak := 0;
      }
      lastCompleteCounter := stageCounter;
      completeSeen := true;
      if goodBundleStreak < MAX_STREAK {
        goodBundleStreak := goodBundleStreak + 1;
      }
    }

    method CompleteBundle(nowMs: Word32) returns (accepted: bool)
      requires Valid()
      modifies this`activeValid, this`goodBundleStreak, this`stageActive, this`stageMask
      modifies this`lastCompleteCounter, this`completeSeen, this`active
      ensures CoreView() == Completed(old(CoreView()), nowMs)
      ensures accepted <==> BundleValid(old(payload[..]))
    {
      var dcl, ccl, soh, envelope := payload[0], payload[1], payload[2], payload[3];
      assert payload[..] == [dcl, ccl, soh, envelope];
      if !BundleValid([dcl, ccl, soh, envelope]) {
        InvalidateTransport();
        return false;
      }
      var immediate := Immediate(DecodeDirection(dcl), DecodeDirection(ccl), stageCounter, nowMs);
      active := Active(immediate, DecodeEnvelope(envelope, stageCounter, nowMs), DecodeSoh(soh, stageCounter, nowMs));
      CountBundle();
      activeValid := goodBundleStreak >= REQUIRED_GOOD_BUNDLES;
      stageActive := false;
      stageMask := {};
      return true;
    }

    /** Opens a stage for the frame's counter, abandoning an incomplete one. */
    method OpenStage(counter: bv8, nowMs: Word32)
      requires Valid()
      modifies this`activeValid, this`goodBundleStreak, this`stageActive, this`stageMask, this`stageCounter,
          this`stageStartedMs
      ensures CoreView() == Opened(old(CoreView()), counter, nowMs)
    {
      if !stageActive || counter != stageCounter {
        if stageActive && stageMask != ALL_SLOTS {
          activeValid := false;
          goodBundleStreak := 0;
        }
        stageActive := true;
        stageCounter := counter;
        stageMask := {};
        stageStartedMs := nowMs;
      }
    }

    method JoinStage(slot: Slot, frame: Payload, nowMs: Word32) returns (accepted: bool)
      requires Valid()
      modifies this, payload
      ensures CoreView() == Joined(old(CoreView()), slot, frame, nowMs)
      ensures resource == old(resource) && bindings == old(bindings)
      ensures accepted <==> JoinAccepted(old(StageView()), slot, frame, nowMs)
    {
      if Sub32(nowMs, stageStartedMs) > MAX_BUNDLE_SKEW_MS {
        InvalidateTransport();
        return false;
      }
      if slot in stageMask {
        InvalidateTransport();
        return false;
      }
      ghost var next := old(CoreView()).(stage := Stored(old(StageView()), slot, frame));
      payload[slot] := frame;
      stageMask := stageMask + {slot};
      assert payload[..] == next.stage.payloads;
      assert CoreView() == next;
      if stageMask == ALL_SLOTS {
        accepted := CompleteBundle(nowMs);
        return;
      }
      return true;
    }

    method IngestFrame(f: Frame, nowMs: Word32) returns (accepted: bool)
      requires Valid()
      modifies this, payload
      ensures View() == Ingest(old(View()), f, nowMs)
      ensures accepted <==> Accepted(old(View()), f, nowMs)
    {
      if IsAdvisoryId(f.id) {
        accepted := IngestAdvisory(f, nowMs);
        return;
      }
      if !IsCoreId(f.id) {
        return false;
      }
      if !TransportValid(f) || !CoreFrameValid(f.id, f.payload) {
        InvalidateTransport();
        return false;
      }
      OpenStage(CounterOf(f.payload), nowMs);
      accepted := JoinStage(SlotOf(f.id), f.payload, nowMs);
    }

    /** A bad advisory frame hides its own channel only. */
    method IngestAdvisory(f: Frame, nowMs: Word32) returns (accepted: bool)
      requires Valid() && IsAdvisoryId(f.id)
      modifies this`resource, this`bindings
      ensures Advisory(resource, bindings) == ReceiveAdvisory(old(Advisory(resource, bindings)), f, nowMs)
      ensures accepted <==> AdvisoryAccepted(f)
    {
      InvalidateAdvisory(f.id);
      if !TransportValid(f) {
        return false;
      }
      if f.id == STRATEGY_ID {
        accepted := StrategyFrameValid(f.payload);
        if accepted {
          resource := DecodeStrategy(f.payload, nowMs);
        }
      } else {
        accepted := CheckBindings(f.payload);
        if accepted {
          bindings := DecodeBindings(f.payload, nowMs);
        }
      }
    }

    method InvalidateAdvisory(id: CanId)
      modifies this`resource, this`bindings
      ensures Advisory(resource, bindings) == InvalidatedAdvisory(old(Advisory(resource, bindings)), id)
    {
      if id == STRATEGY_ID {
        resource := resource.(valid := false);
      } else {
        bindings := bindings.(valid := false);
      }
    }

    method InvalidateFrame(id: CanId)
      requires Valid()
      modifies this
      ensures View() == InvalidateId(old(View()), id)
    {
      if IsCoreId(id) {
        InvalidateTransport();
      } else if IsAdvisoryId(id) {
        InvalidateAdvisory(id);
      }
    }

    method GetImmediateAuthority(nowMs: Word32) returns (authority: Option<Immediate>)
      requires Valid()
      ensures authority == ImmediateAuthority(CoreView(), nowMs)
    {
      var isFresh := BundleFresh(nowMs);
      return if isFresh then Some(active.immediate) else None;
    }

    method BundleFresh(nowMs: Word32) returns (ok: bool)
      requires Valid()
      ensures ok <==> ActiveFresh(CoreView(), nowMs)
    {
      if || !activeValid || Sub32(nowMs, active.immediate.receivedMs) > MAX_AGE_MS
         || (stageActive && Sub32(nowMs, stageStartedMs) > MAX_BUNDLE_SKEW_MS) {
        return false;
      }
      return true;
    }

    method GetSoh(nowMs: Word32) returns (soh: Option<Soh>)
      requires Valid()
      ensures soh == StateOfHealth(CoreView(), nowMs)
    {
      var isFresh := BundleFresh(nowMs);
      return if isFresh then Some(active.soh) else None;
    }

    method GetResourceState(nowMs: Word32) returns (state: Option<ResourceState>)
      requires Valid()
      ensures state == Resource(View(), nowMs)
    {
      var isFresh := BundleFresh(nowMs);
      if !isFresh || !resource.valid || resource.counter != active.immediate.counter
         || Sub32(nowMs, resource.receivedMs) > MAX_AGE_MS
         || Distance32(resource.receivedMs, active.immediate.receivedMs) > MAX_BUNDLE_SKEW_MS {
        return None;
      }
      return Some(resource);
    }

    method GetFeasibilityEnvelope(nowMs: Word32) returns (shown: Option<(Envelope, Option<BindingMetadata>)>)
      requires Valid()
      ensures shown == FeasibilityEnvelope(View(), nowMs)
    {
      var isFresh := BundleFresh(nowMs);
      if !isFresh {
        return None;
      }
      if bindings.valid && bindings.counter == active.envelope.counter
          && Sub32(nowMs, bindings.receivedMs) <= MAX_AGE_MS
         && Distance32(bindings.receivedMs, active.immediate.receivedMs) <= MAX_BUNDLE_SKEW_MS {
        return Some((active.envelope, Some(bindings)));
      }
      return Some((active.envelope, None));
    }
  }

  method CheckBindings(p: Payload) returns (ok: bool)
    ensures ok <==> BindingsFrameValid(p)
  {
    var binding, segment := Nibbles(p, 1), Nibbles(p, 4);
    var index := 0;
    while index < 6
      invariant 0 <= index <= 6
      invariant forall i :: 0 <= i < index ==> binding[i] <= BINDING_MAX && SegmentNibbleValid(segment[i])
    {
      if binding[index] > BINDING_MAX || !SegmentNibbleValid(segment[index]) {
        return false;
      }
      index := index + 1;
    }
    return true;
  }
}
