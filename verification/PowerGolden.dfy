/** The frames that the accumulator firmware really sends: the golden vectors of the protocol, taken through the
    model to the values that the receiver must show. */
module PowerGolden {
  import opened Numeric
  import opened PowerCrc
  import opened PowerConsumer
  import opened PowerBytes
  import opened PowerHistory
  import opened PowerRecovery
  import opened PowerAdvisory

  // ---------------------------------------------------------------------------------------------
  // The checksum of a concrete frame
  // ---------------------------------------------------------------------------------------------

  function FourShifts(crc: bv8): bv8 {
    ShiftBit(ShiftBit(ShiftBit(ShiftBit(crc))))
  }

  lemma EightShifts(crc: bv8, byte: bv8)
    ensures Absorb(crc, byte) == FourShifts(FourShifts(crc ^ byte))
  {
    var start := crc ^ byte;
    assert ShiftBits(start, 1) == ShiftBit(start);
    assert ShiftBits(start, 2) == ShiftBit(ShiftBits(start, 1));
    assert ShiftBits(start, 3) == ShiftBit(ShiftBits(start, 2));
    assert ShiftBits(start, 4) == ShiftBit(ShiftBits(start, 3));
    assert ShiftBits(start, 5) == ShiftBit(ShiftBits(start, 4));
    assert ShiftBits(start, 6) == ShiftBit(ShiftBits(start, 5));
    assert ShiftBits(start, 7) == ShiftBit(ShiftBits(start, 6));
  }

  function EightAt(crc: bv8, byte: bv8): bv8 {
    FourShifts(FourShifts(crc ^ byte))
  }

  lemma PrefixRemainder(bytes: seq<bv8>, k: nat)
    requires 0 < k <= |bytes|
    ensures Remainder(bytes[..k]) == EightAt(Remainder(bytes[..k - 1]), bytes[k - 1])
  {
    assert bytes[..k][..k - 1] == bytes[..k - 1];
    EightShifts(Remainder(bytes[..k - 1]), bytes[k - 1]);
  }

  /** The checksum of a frame from the remainders along it. */
  lemma FrameChecks(id: CanId, p: Payload, t: seq<bv8>)
    requires |t| == 9 && t[8] ^ 0xFF == p[7]
    requires var c := Covered(id, p);
             && t[0] == EightAt(0xFF, c[0]) && t[1] == EightAt(t[0], c[1]) && t[2] == EightAt(t[1], c[2])
             && t[3] == EightAt(t[2], c[3]) && t[4] == EightAt(t[3], c[4]) && t[5] == EightAt(t[4], c[5])
             && t[6] == EightAt(t[5], c[6]) && t[7] == EightAt(t[6], c[7]) && t[8] == EightAt(t[7], c[8])
    ensures CrcValid(id, p)
  {
    var c := Covered(id, p);
    assert c[..0] == [] && c[..9] == c;
    PrefixRemainder(c, 1);
    PrefixRemainder(c, 2);
    PrefixRemainder(c, 3);
    PrefixRemainder(c, 4);
    PrefixRemainder(c, 5);
    PrefixRemainder(c, 6);
    PrefixRemainder(c, 7);
    PrefixRemainder(c, 8);
    PrefixRemainder(c, 9);
  }

  const VECTORS_5: seq<Payload> := [
    [0x25, 0x03, 0x03, 0x20, 0x08, 0x98, 0xD1, 0x49],
    [0x25, 0x03, 0x00, 0x64, 0x01, 0x2C, 0x93, 0xFD],
    [0x25, 0x5F, 0x5A, 0x78, 0x53, 0xCB, 0xD0, 0x92],
    [0x25, 0x76, 0x46, 0x41, 0x0B, 0x0A, 0x09, 0xFD],
    [0x25, 0x35, 0x4C, 0x3E, 0x01, 0x08, 0x58, 0x1E],
    [0x25, 0xEC, 0xBA, 0x87, 0x02, 0x34, 0x21, 0x68]]

  const VECTORS_6: seq<Payload> := [
    [0x26, 0x03, 0x03, 0x20, 0x08, 0x98, 0xD1, 0xAE],
    [0x26, 0x03, 0x00, 0x64, 0x01, 0x2C, 0x93, 0x1A],
    [0x26, 0x5F, 0x5A, 0x78, 0x53, 0xCB, 0xD0, 0x75],
    [0x26, 0x76, 0x46, 0x41, 0x0B, 0x0A, 0x09, 0x1A],
    [0x26, 0x35, 0x4C, 0x3E, 0x01, 0x08, 0x58, 0xF9],
    [0x26, 0xEC, 0xBA, 0x87, 0x02, 0x34, 0x21, 0x8F]]

  lemma Dcl5()
    ensures CrcValid(0x684, VECTORS_5[0])
  {
    assert Covered(0x684, VECTORS_5[0]) == [0x06, 0x84, 0x25, 0x03, 0x03, 0x20, 0x08, 0x98, 0xD1];
    FrameChecks(0x684, VECTORS_5[0], [0x8A, 0xA6, 0x01, 0x3A, 0xBF, 0x50, 0x36, 0x07, 0xB6]);
  }

  lemma Ccl5()
    ensures CrcValid(0x685, VECTORS_5[1])
  {
    assert Covered(0x685, VECTORS_5[1]) == [0x06, 0x85, 0x25, 0x03, 0x00, 0x64, 0x01, 0x2C, 0x93];
    FrameChecks(0x685, VECTORS_5[1], [0x8A, 0xBB, 0x4D, 0xB5, 0x05, 0x89, 0xCE, 0x88, 0x02]);
  }

  lemma Soh5()
    ensures CrcValid(0x686, VECTORS_5[2])
  {
    assert Covered(0x686, VECTORS_5[2]) == [0x06, 0x86, 0x25, 0x5F, 0x5A, 0x78, 0x53, 0xCB, 0xD0];
    FrameChecks(0x686, VECTORS_5[2], [0x8A, 0x9C, 0x99, 0x7B, 0x9A, 0x88, 0x37, 0xE3, 0x6D]);
  }

  lemma Envelope5()
    ensures CrcValid(0x687, VECTORS_5[3])
  {
    assert Covered(0x687, VECTORS_5[3]) == [0x06, 0x87, 0x25, 0x76, 0x46, 0x41, 0x0B, 0x0A, 0x09];
    FrameChecks(0x687, VECTORS_5[3], [0x8A, 0x81, 0xD5, 0x86, 0x35, 0x2D, 0xC9, 0x12, 0x02]);
  }

  lemma Strategy5()
    ensures CrcValid(0x689, VECTORS_5[4])
  {
    assert Covered(0x689, VECTORS_5[4]) == [0x06, 0x89, 0x25, 0x35, 0x4C, 0x3E, 0x01, 0x08, 0x58];
    FrameChecks(0x689, VECTORS_5[4], [0x8A, 0x27, 0x3A, 0xBB, 0x2C, 0xF7, 0x31, 0xBF, 0xE1]);
  }

  lemma Bindings5()
    ensures CrcValid(0x68A, VECTORS_5[5])
  {
    assert Covered(0x68A, VECTORS_5[5]) == [0x06, 0x8A, 0x25, 0xEC, 0xBA, 0x87, 0x02, 0x34, 0x21];
    FrameChecks(0x68A, VECTORS_5[5], [0x8A, 0x00, 0xEE, 0x3A, 0x26, 0xBC, 0xCA, 0xD9, 0x97]);
  }

  lemma Dcl6()
    ensures CrcValid(0x684, VECTORS_6[0])
  {
    assert Covered(0x684, VECTORS_6[0]) == [0x06, 0x84, 0x26, 0x03, 0x03, 0x20, 0x08, 0x98, 0xD1];
    FrameChecks(0x684, VECTORS_6[0], [0x8A, 0xA6, 0x26, 0xEE, 0x33, 0xEA, 0x88, 0xCD, 0x51]);
  }

  lemma Ccl6()
    ensures CrcValid(0x685, VECTORS_6[1])
  {
    assert Covered(0x685, VECTORS_6[1]) == [0x06, 0x85, 0x26, 0x03, 0x00, 0x64, 0x01, 0x2C, 0x93];
    FrameChecks(0x685, VECTORS_6[1], [0x8A, 0xBB, 0x6A, 0x61, 0x89, 0x33, 0x70, 0x42, 0xE5]);
  }

  lemma Soh6()
    ensures CrcValid(0x686, VECTORS_6[2])
  {
    assert Covered(0x686, VECTORS_6[2]) == [0x06, 0x86, 0x26, 0x5F, 0x5A, 0x78, 0x53, 0xCB, 0xD0];
    FrameChecks(0x686, VECTORS_6[2], [0x8A, 0x9C, 0xBE, 0xAF, 0x16, 0x32, 0x89, 0x29, 0x8A]);
  }

  lemma Envelope6()
    ensures CrcValid(0x687, VECTORS_6[3])
  {
    assert Covered(0x687, VECTORS_6[3]) == [0x06, 0x87, 0x26, 0x76, 0x46, 0x41, 0x0B, 0x0A, 0x09];
    FrameChecks(0x687, VECTORS_6[3], [0x8A, 0x81, 0xF2, 0x52, 0xB9, 0x97, 0x77, 0xD8, 0xE5]);
  }

  lemma Strategy6()
    ensures CrcValid(0x689, VECTORS_6[4])
  {
    assert Covered(0x689, VECTORS_6[4]) == [0x06, 0x89, 0x26, 0x35, 0x4C, 0x3E, 0x01, 0x08, 0x58];
    FrameChecks(0x689, VECTORS_6[4], [0x8A, 0x27, 0x1D, 0x6F, 0xA0, 0x4D, 0x8F, 0x75, 0x06]);
  }

  lemma Bindings6()
    ensures CrcValid(0x68A, VECTORS_6[5])
  {
    assert Covered(0x68A, VECTORS_6[5]) == [0x06, 0x8A, 0x26, 0xEC, 0xBA, 0x87, 0x02, 0x34, 0x21];
    FrameChecks(0x68A, VECTORS_6[5], [0x8A, 0x00, 0xC9, 0xEE, 0xAA, 0x06, 0x74, 0x13, 0x70]);
  }

  // ---------------------------------------------------------------------------------------------
  // Both sets, one millisecond between frames
  // ---------------------------------------------------------------------------------------------

  /** Frame k of a set, as it arrives. */
  function Arrival(vectors: seq<Payload>, k: nat, startMs: nat): Event
    requires k < 6 == |vectors| && startMs < 0x1_0000
  {
    Receive(Frame(if k < 4 then 0x684 + k else 0x685 + k, false, false, 8, vectors[k]), startMs + k)
  }

  function Arrivals(vectors: seq<Payload>, startMs: nat): seq<Event>
    requires |vectors| == 6 && startMs < 0x1_0000
  {
    [Arrival(vectors, 0, startMs), Arrival(vectors, 1, startMs), Arrival(vectors, 2, startMs),
     Arrival(vectors, 3, startMs), Arrival(vectors, 4, startMs), Arrival(vectors, 5, startMs)]
  }

  /** The four core frames as signals of one counter. */
  function BundleOf(vectors: seq<Payload>, counter: bv8, startMs: nat): seq<Signal>
    requires |vectors| == 6 && startMs < 0x1_0000
  {
    [Clean(0, counter, vectors[0], startMs), Clean(1, counter, vectors[1], startMs + 1),
     Clean(2, counter, vectors[2], startMs + 2), Clean(3, counter, vectors[3], startMs + 3)]
  }

  /** A core frame of slot k with this counter, apart from how it travels. */
  predicate WellSent(p: Payload, counter: bv8, k: Slot) {
    p[0] == 0x20 + counter && CoreOnWire(0x684 + k, p) && CrcValid(0x684 + k, p)
  }

  predicate SetWellSent(vectors: seq<Payload>, counter: bv8) {
    && |vectors| == 6 && counter < 16 && BundleValid(vectors[..4])
    && WellSent(vectors[0], counter, 0) && WellSent(vectors[1], counter, 1)
    && WellSent(vectors[2], counter, 2) && WellSent(vectors[3], counter, 3)
  }

  lemma FirstByte(counter: bv8)
    requires counter < 16
    ensures (0x20 + counter) as int / 16 == 2 && (0x20 + counter) & 0x0F == counter
  {
  }

  lemma GoodArrival(p: Payload, counter: bv8, k: Slot, nowMs: Word32)
    requires counter < 16 && WellSent(p, counter, k)
    ensures SignalOf(Receive(Frame(0x684 + k, false, false, 8, p), nowMs)) == Clean(k, counter, p, nowMs)
  {
    FirstByte(counter);
    SignalIff(Receive(Frame(0x684 + k, false, false, 8, p), nowMs));
  }

  lemma SetIsSignals(vectors: seq<Payload>, counter: bv8, startMs: nat)
    requires SetWellSent(vectors, counter) && startMs < 0x1_0000
    ensures Signals(Arrivals(vectors, startMs)) == BundleOf(vectors, counter, startMs) + [Silence, Silence]
  {
    GoodArrival(vectors[0], counter, 0, startMs);
    GoodArrival(vectors[1], counter, 1, startMs + 1);
    GoodArrival(vectors[2], counter, 2, startMs + 2);
    GoodArrival(vectors[3], counter, 3, startMs + 3);
  }

  lemma SetIsBundle(vectors: seq<Payload>, counter: bv8, startMs: nat)
    requires |vectors| == 6 && BundleValid(vectors[..4]) && startMs < 0x1_0000
    ensures CleanBundle(BundleOf(vectors, counter, startMs), counter, vectors[..4])
  {
  }

  lemma FiveOnWire()
    ensures forall j :: 0 <= j < 4 ==> VECTORS_5[j][0] == 0x25 && CoreOnWire(0x684 + j, VECTORS_5[j])
    ensures BundleValid(VECTORS_5[..4])
  {
  }

  lemma GoldenFive()
    ensures SetWellSent(VECTORS_5, 5)
  {
    Dcl5();
    Ccl5();
    Soh5();
    Envelope5();
    FiveOnWire();
  }

  lemma SixOnWire()
    ensures forall j :: 0 <= j < 4 ==> VECTORS_6[j][0] == 0x26 && CoreOnWire(0x684 + j, VECTORS_6[j])
    ensures BundleValid(VECTORS_6[..4])
  {
  }

  lemma GoldenSix()
    ensures SetWellSent(VECTORS_6, 6)
  {
    Dcl6();
    Ccl6();
    Soh6();
    Envelope6();
    SixOnWire();
  }

  /** The two sets, the second ten milliseconds after the first. */
  function GoldenRun(): (events: seq<Event>)
    ensures |events| == 12
  {
    Arrivals(VECTORS_5, 1000) + Arrivals(VECTORS_6, 1010)
  }

  lemma SignalsConcat(a: seq<Event>, b: seq<Event>)
    ensures Signals(a + b) == Signals(a) + Signals(b)
  {
  }

  lemma SilenceAfter(c: Core, b: seq<Signal>)
    requires |b| == 4
    ensures CoreAfter(c, b + [Silence, Silence], 6) == CoreAfter(c, b, 4)
  {
    AfterConcat(c, b, [Silence, Silence], 0);
    AfterConcat(c, b, [Silence, Silence], 1);
    AfterConcat(c, b, [Silence, Silence], 2);
  }

  /** A set leaves its bundle on show. */
  lemma SetCompletes(c: Core, vectors: seq<Payload>, counter: bv8, startMs: nat)
    requires SetWellSent(vectors, counter) && startMs < 0x1_0000 && !c.stage.active
    ensures Finished(CoreAfter(c, Signals(Arrivals(vectors, startMs)), 6), Clean(3, counter, vectors[3], startMs + 3),
                     vectors[..4], Extended(c, c.streak, counter))
  {
    var b := BundleOf(vectors, counter, startMs);
    SetIsSignals(vectors, counter, startMs);
    SetIsBundle(vectors, counter, startMs);
    FreshBundle(c, b, counter, vectors[..4]);
    SilenceAfter(c, b);
  }

  lemma OneAfterAnother(one: seq<Event>, two: seq<Event>, mid: Core, last: Core)
    requires |one| == |two| == 6
    requires mid == CoreAfter(INITIAL_CORE, Signals(one), 6) && last == CoreAfter(mid, Signals(two), 6)
    ensures After(INITIAL_CONSUMER, one + two, 12).core == last
  {
    SignalsConcat(one, two);
    CoreFollowsSignals(INITIAL_CONSUMER, one + two, 12);
    AfterConcat(INITIAL_CORE, Signals(one), Signals(two), 6);
  }

  /** Two sets with consecutive counters leave the second on show, with authority. */
  lemma TwoSets(one: seq<Payload>, two: seq<Payload>, k1: bv8, k2: bv8, at1: nat, at2: nat)
    requires SetWellSent(one, k1) && SetWellSent(two, k2) && Follows(k2, k1) && at1 < 0x1_0000 && at2 < 0x1_0000
    ensures Finished(After(INITIAL_CONSUMER, Arrivals(one, at1) + Arrivals(two, at2), 12).core,
                     Clean(3, k2, two[3], at2 + 3), two[..4], 2)
  {
    var mid := CoreAfter(INITIAL_CORE, Signals(Arrivals(one, at1)), 6);
    SetCompletes(INITIAL_CORE, one, k1, at1);
    SetCompletes(mid, two, k2, at2);
    OneAfterAnother(Arrivals(one, at1), Arrivals(two, at2), mid, CoreAfter(mid, Signals(Arrivals(two, at2)), 6));
  }

  // ---------------------------------------------------------------------------------------------
  // What must be shown
  // ---------------------------------------------------------------------------------------------

  const GOLDEN_AUTHORITY :=
    Immediate(DirectionAuthority(80.0, 22000.0, 3, 13, 1, true), DirectionAuthority(10.0, 3000.0, 3, 9, 3, true), 6,
              1013)
  const GOLDEN_ENVELOPE := Envelope([118.0, 70.0, 65.0], [11.0, 10.0, 9.0], 6, 1013)
  const GOLDEN_SOH := Soh(0.95, 0.90, 1.20, 0.83, 75, 80, true, true, 6, 1013)
  const GOLDEN_RESOURCE :=
    ResourceState(0.76, 22.0, 26.4, 1, 1, true, true, false, false, 88, 6, 1014, true)
  const GOLDEN_BINDINGS := BindingMetadata([14, 12, 11], [10, 8, 7], [0, 2, 3], [4, 2, 1], 6, 1015, true)

  lemma GoldenLimits()
    ensures DecodeDirection(VECTORS_6[0]) == GOLDEN_AUTHORITY.discharge
    ensures DecodeDirection(VECTORS_6[1]) == GOLDEN_AUTHORITY.charge
  {
  }

  lemma GoldenHealth()
    ensures DecodeSoh(VECTORS_6[2], 6, 1013) == GOLDEN_SOH
    ensures DecodeEnvelope(VECTORS_6[3], 6, 1013) == GOLDEN_ENVELOPE
  {
  }

  lemma GoldenAdvice()
    ensures StrategyFrameValid(VECTORS_6[4]) && DecodeStrategy(VECTORS_6[4], 1014) == GOLDEN_RESOURCE
    ensures BindingsFrameValid(VECTORS_6[5]) && DecodeBindings(VECTORS_6[5], 1015) == GOLDEN_BINDINGS
  {
  }

  /** The last two events of a run are good advisory frames. */
  lemma AdviceArrives(events: seq<Event>, n: nat, strategy: Frame, bindings: Frame, at: Word32)
    requires n + 2 <= |events| && at < 0x1_0000
    requires events[n] == Receive(strategy, at) && strategy.id == STRATEGY_ID && AdvisoryAccepted(strategy)
    requires events[n + 1] == Receive(bindings, at + 1) && bindings.id == BINDINGS_ID && AdvisoryAccepted(bindings)
    ensures After(INITIAL_CONSUMER, events, n + 2).advisory ==
            Advisory(DecodeStrategy(strategy.payload, at), DecodeBindings(bindings.payload, at + 1))
  {
    var s := After(INITIAL_CONSUMER, events, n);
    StrategyStep(s, events[n]);
    var t := Apply(s, events[n]);
    assert After(INITIAL_CONSUMER, events, n + 1) == t;
    StrategyStep(t, events[n + 1]);
    BindingsStep(t, events[n + 1]);
  }

  lemma AdviceOfSet(one: seq<Event>, vectors: seq<Payload>, at: nat)
    requires |one| == 6 && |vectors| == 6 && at < 0x1000
    requires CrcValid(0x689, vectors[4]) && CrcValid(0x68A, vectors[5])
    requires vectors[4][0] >> 4 == 2 && vectors[5][0] >> 4 == 2
    requires StrategyFrameValid(vectors[4]) && BindingsFrameValid(vectors[5])
    ensures After(INITIAL_CONSUMER, one + Arrivals(vectors, at), 12).advisory ==
            Advisory(DecodeStrategy(vectors[4], at + 4), DecodeBindings(vectors[5], at + 5))
  {
    var events := one + Arrivals(vectors, at);
    AdviceArrives(events, 10, events[10].frame, events[11].frame, at + 4);
  }

  lemma GoldenAdvisory(one: seq<Event>)
    requires |one| == 6
    ensures After(INITIAL_CONSUMER, one + Arrivals(VECTORS_6, 1010), 12).advisory ==
            Advisory(GOLDEN_RESOURCE, GOLDEN_BINDINGS)
  {
    Strategy6();
    Bindings6();
    GoldenAdvice();
    AdviceOfSet(one, VECTORS_6, 1010);
  }

  lemma GoldenCore()
    ensures var c := After(INITIAL_CONSUMER, Arrivals(VECTORS_5, 1000) + Arrivals(VECTORS_6, 1010), 12).core;
            && !c.stage.active && c.activeValid
            && c.active == Active(GOLDEN_AUTHORITY, GOLDEN_ENVELOPE, GOLDEN_SOH)
  {
    GoldenFive();
    GoldenSix();
    TwoSets(VECTORS_5, VECTORS_6, 5, 6, 1000, 1010);
    GoldenLimits();
    GoldenHealth();
  }

  /** One set is not enough. */
  lemma FirstSetShowsNothing()
    ensures ImmediateAuthority(After(INITIAL_CONSUMER, Arrivals(VECTORS_5, 1000), 6).core, 1006).None?
  {
    GoldenFive();
    SetCompletes(INITIAL_CORE, VECTORS_5, 5, 1000);
    CoreFollowsSignals(INITIAL_CONSUMER, Arrivals(VECTORS_5, 1000), 6);
  }

  /** The receiver shows exactly what the sender meant: after both sets the limits, the envelope with its bindings,
      the state of health and the strategy data of the second one. */
  lemma GoldenVectors()
    ensures var s := After(INITIAL_CONSUMER, Arrivals(VECTORS_5, 1000) + Arrivals(VECTORS_6, 1010), 12);
            && ImmediateAuthority(s.core, 1016) == Some(GOLDEN_AUTHORITY)
            && StateOfHealth(s.core, 1016) == Some(GOLDEN_SOH)
            && FeasibilityEnvelope(s, 1016) == Some((GOLDEN_ENVELOPE, Some(GOLDEN_BINDINGS)))
            && Resource(s, 1016) == Some(GOLDEN_RESOURCE)
  {
    GoldenCore();
    GoldenAdvisory(Arrivals(VECTORS_5, 1000));
  }
}
