/** The wire format of the power frames, byte by byte. */
module PowerBytes {
  import opened PowerCrc
  import opened PowerConsumer

  /** The big-endian word at a byte position. */
  function Word(p: Payload, at: nat): int
    requires at < 7
  {
    256 * (p[at] as int) + p[at + 1] as int
  }

  function HighNibble(byte: bv8): int {
    byte as int / 16
  }

  function LowNibbleOf(byte: bv8): int {
    byte as int % 16
  }

  predicate SegmentOnWire(nibble: int) {
    0 <= nibble <= 4 || nibble == 15
  }

  /** A limit frame: valid and authority flags agree, a valid one is no fallback, both limits are in range, and
      without an uninhibited authority both are zero. */
  predicate LimitOnWire(p: Payload, mostDeciamps: int, mostDecawatts: int) {
    && (p[1] & 0x03 == 0 || p[1] & 0x83 == 0x03)
    && Word(p, 2) <= mostDeciamps && Word(p, 4) <= mostDecawatts
    && HighNibble(p[6]) <= 14 && SegmentOnWire(LowNibbleOf(p[6]))
    && (p[1] & 0xC3 != 0x03 ==> Word(p, 2) == 0 && Word(p, 4) == 0)
  }

  lemma FlagBits(flags: bv8)
    ensures DirectionValid(flags) <==> flags & 0xC3 == 0x03
    ensures HasFlag(flags, FLAG_VALID) == HasFlag(flags, FLAG_AUTHORITY_VALID)
            && !(HasFlag(flags, FLAG_VALID) && HasFlag(flags, FLAG_FALLBACK)) <==>
            flags & 0x03 == 0 || flags & 0x83 == 0x03
  {
  }

  lemma NibbleValues(byte: bv8)
    ensures (byte >> 4) as int == HighNibble(byte) && (byte & 0x0F) as int == LowNibbleOf(byte)
  {
  }

  /** A state-of-health frame: percentages and confidences in range, and what is marked valid is plausible. */
  predicate SohOnWire(p: Payload) {
    && p[1] as int <= 110 && p[2] as int <= 100 && p[4] as int <= 100
    && p[5] as int % 128 <= 100 && p[6] as int % 128 <= 100
    && (p[5] as int >= 128 ==> p[1] as int >= 50 && p[2] as int >= 50 && p[2] as int <= p[1] as int)
    && (p[6] as int >= 128 ==> p[3] as int >= 100)
  }

  /** An envelope frame: three discharge and three charge currents, each triple falling with the horizon. */
  predicate EnvelopeOnWire(p: Payload) {
    120 >= p[1] >= p[2] >= p[3] && 15 >= p[4] >= p[5] >= p[6]
  }

  lemma SevenBits(byte: bv8)
    ensures (byte & 0x7F) as int == byte as int % 128
    ensures HasFlag(byte, 0x80) <==> byte as int >= 128
  {
  }

  /** What each of the four core identifiers may carry. */
  predicate CoreOnWire(id: CanId, p: Payload) {
    if id == 0x684 then LimitOnWire(p, 1200, 4000)
    else if id == 0x685 then LimitOnWire(p, 150, 500)
    else if id == 0x686 then SohOnWire(p)
    else EnvelopeOnWire(p)
  }

  lemma LimitFrameIff(id: CanId, p: Payload)
    requires id == 0x684 || id == 0x685
    ensures LimitFrameValid(id, p) <==> CoreOnWire(id, p)
  {
    FlagBits(p[1]);
    NibbleValues(p[6]);
  }

  lemma SohFrameIff(p: Payload)
    ensures SohFrameValid(p) <==> SohOnWire(p)
  {
    SevenBits(p[5]);
    SevenBits(p[6]);
  }

  lemma CoreFrameIff(id: CanId, p: Payload)
    requires 0x684 <= id <= 0x687
    ensures CoreFrameValid(id, p) <==> CoreOnWire(id, p)
  {
    if id <= 0x685 {
      LimitFrameIff(id, p);
    } else if id == 0x686 {
      SohFrameIff(p);
    }
  }

  /** A frame that may take part in a bundle: a standard data frame of eight bytes under 0x684 .. 0x687, protocol
      version 2 in the high nibble of its first byte, the right checksum in its last, and well-formed content. */
  predicate GoodFrame(f: Frame) {
    && 0x684 <= f.id <= 0x687 && !f.extended && !f.remote && f.dlc == 8
    && f.payload[0] as int / 16 == 2 && f.payload[7] == Crc8(f.id, f.payload) && CoreOnWire(f.id, f.payload)
  }

  lemma VersionNibble(byte: bv8)
    ensures byte >> 4 == 2 <==> byte as int / 16 == 2
  {
    NibbleValues(byte);
  }

  /** The consumer takes exactly these frames for its bundles, and sorts them by identifier and by the counter in
      the low nibble of the first byte; any other frame or notice under the four identifiers is a fault. */
  lemma SignalIff(e: Event)
    ensures var s := SignalOf(e);
            && (s.Silence? <==> !(0x684 <= IdOf(e) <= 0x687))
            && (s.Clean? <==> e.Receive? && GoodFrame(e.frame))
            && (s.Clean? ==> && s.slot == e.frame.id - 0x684 && s.counter as int == e.frame.payload[0] as int % 16
                             && s.payload == e.frame.payload && s.nowMs == e.nowMs)
  {
    if e.Receive? && 0x684 <= e.frame.id <= 0x687 {
      VersionNibble(e.frame.payload[0]);
      CoreFrameIff(e.frame.id, e.frame.payload);
      CounterOnTheWire(e.frame.payload);
    }
  }

  // ---------------------------------------------------------------------------------------------
  // Decoded values
  // ---------------------------------------------------------------------------------------------

  /** A direction has authority exactly under the flags valid and authority without inhibition and fallback; its
      limits are a tenth of an ampere and ten watts per count. */
  lemma DirectionOnWire(p: Payload)
    ensures var d := DecodeDirection(p);
            && (d.authorized <==> p[1] & 0xC3 == 0x03)
            && d.currentA * 10.0 == (if d.authorized then Word(p, 2) as real else 0.0)
            && d.powerW == (if d.authorized then Word(p, 4) as real * 10.0 else 0.0)
            && d.flags == p[1] && d.binding as int == HighNibble(p[6]) && d.segment as int == LowNibbleOf(p[6])
  {
    FlagBits(p[1]);
    NibbleValues(p[6]);
  }

  /** The limits and the feasibility envelope of a consistent bundle agree to half an ampere: the shortest horizon
      allows at least the scalar limit, the middle one at most. */
  predicate EnvelopeAgrees(limit: int, shortest: bv8, middle: bv8) {
    limit <= shortest as int * 10 + 5 && middle as int * 10 <= limit + 5
  }

  lemma BundleIff(p: Payloads)
    ensures BundleValid(p) <==>
            EnvelopeAgrees(Word(p[0], 2), p[3][1], p[3][2]) && EnvelopeAgrees(Word(p[1], 2), p[3][4], p[3][5])
  {
  }

  /** An advisory frame that is taken: strategy data with one of three mission profiles and a percentage, or six binding
      nibbles with six segment nibbles. */
  predicate GoodAdvisory(f: Frame) {
    && !f.extended && !f.remote && f.dlc == 8
    && f.payload[0] as int / 16 == 2 && f.payload[7] == Crc8(f.id, f.payload)
    && if f.id == 0x689 then f.payload[1] as int % 4 <= 2 && f.payload[6] as int <= 100
       else
         && BindingByte(f.payload[1]) && BindingByte(f.payload[2]) && BindingByte(f.payload[3])
         && SegmentByte(f.payload[4]) && SegmentByte(f.payload[5]) && SegmentByte(f.payload[6])
  }

  predicate BindingByte(byte: bv8) {
    byte >> 4 <= 14 && byte & 0x0F <= 14
  }

  predicate SegmentByte(byte: bv8) {
    (byte >> 4 <= 4 || byte >> 4 == 15) && (byte & 0x0F <= 4 || byte & 0x0F == 15)
  }

  lemma TwoBits(byte: bv8)
    ensures (byte & 0x03) as int == byte as int % 4
  {
  }

  lemma SixAndSix(b: seq<bv8>, s: seq<bv8>)
    requires |b| == 6 && |s| == 6
    ensures (forall i :: 0 <= i < 6 ==> b[i] <= BINDING_MAX && SegmentNibbleValid(s[i])) <==>
            && b[0] <= 14 && b[1] <= 14 && b[2] <= 14 && b[3] <= 14 && b[4] <= 14 && b[5] <= 14
            && SegmentNibbleValid(s[0]) && SegmentNibbleValid(s[1]) && SegmentNibbleValid(s[2])
            && SegmentNibbleValid(s[3]) && SegmentNibbleValid(s[4]) && SegmentNibbleValid(s[5])
  {
  }

  lemma BindingsIff(p: Payload)
    ensures BindingsFrameValid(p) <==>
            && BindingByte(p[1]) && BindingByte(p[2]) && BindingByte(p[3])
            && SegmentByte(p[4]) && SegmentByte(p[5]) && SegmentByte(p[6])
  {
    SixAndSix(Nibbles(p, 1), Nibbles(p, 4));
  }

  lemma AdvisoryIff(f: Frame)
    requires f.id == 0x689 || f.id == 0x68A
    ensures AdvisoryAccepted(f) <==> GoodAdvisory(f)
  {
    VersionNibble(f.payload[0]);
    TwoBits(f.payload[1]);
    BindingsIff(f.payload);
  }
}
