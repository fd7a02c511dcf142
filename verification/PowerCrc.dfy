/** The CRC-8 that protects the AMS power frames: polynomial 0x1D, initial value 0xFF, final inversion, computed over
    the CAN identifier and seven payload bytes. */
module PowerCrc {
  import opened Bytes

  const POLYNOMIAL: bv8 := 0x1D

  type CanId = x: nat | x < 0x1_0000

  type Payload = s: seq<bv8> | |s| == 8 witness [0, 0, 0, 0, 0, 0, 0, 0]

  const ZERO_PAYLOAD: Payload := [0, 0, 0, 0, 0, 0, 0, 0]

  /** The nine bytes under protection; the eighth payload byte carries the checksum itself. */
  function Covered(id: CanId, payload: Payload): (bytes: seq<bv8>)
    ensures |bytes| == 9
  {
    [HighByte(id), LowByte(id)] + payload[..7]
  }

  function ShiftBit(crc: bv8): bv8 {
    if crc & 0x80 != 0 then (crc << 1) ^ POLYNOMIAL else crc << 1
  }

  function ShiftBits(crc: bv8, bits: nat): bv8 {
    if bits == 0 then crc else ShiftBit(ShiftBits(crc, bits - 1))
  }

  function Absorb(crc: bv8, byte: bv8): bv8 {
    ShiftBits(crc ^ byte, 8)
  }

  function Remainder(bytes: seq<bv8>): bv8 {
    if bytes == [] then 0xFF else Absorb(Remainder(bytes[..|bytes| - 1]), bytes[|bytes| - 1])
  }

  function Crc8(id: CanId, payload: Payload): bv8 {
    Remainder(Covered(id, payload)) ^ 0xFF
  }

  /** The bitwise inner loop. */
  method AbsorbByte(start: bv8, byte: bv8) returns (crc: bv8)
    ensures crc == Absorb(start, byte)
  {
    crc := start ^ byte;
    var bit := 0;
    while bit < 8
      invariant 0 <= bit <= 8
      invariant crc == ShiftBits(start ^ byte, bit)
    {
      crc := if crc & 0x80 != 0 then (crc << 1) ^ POLYNOMIAL else crc << 1;
      bit := bit + 1;
    }
  }

  /** The loop of the firmware computes the same checksum. */
  method ComputeCrc8(id: CanId, payload: Payload) returns (crc: bv8)
    ensures crc == Crc8(id, payload)
  {
    var bytes := [HighByte(id), LowByte(id)] + payload[..7];
    crc := 0xFF;
    var index := 0;
    while index < |bytes|
      invariant 0 <= index <= |bytes|
      invariant crc == Remainder(bytes[..index])
    {
      assert bytes[..index + 1][..index] == bytes[..index];
      crc := AbsorbByte(crc, bytes[index]);
      index := index + 1;
    }
    assert bytes[..|bytes|] == bytes;
    crc := crc ^ 0xFF;
  }

  // ---------------------------------------------------------------------------------------------
  // Error detection
  // ---------------------------------------------------------------------------------------------

  lemma ShiftBitInjective(a: bv8, b: bv8)
    requires ShiftBit(a) == ShiftBit(b)
    ensures a == b
  {
  }

  lemma {:induction false} ShiftBitsInjective(a: bv8, b: bv8, bits: nat)
    requires ShiftBits(a, bits) == ShiftBits(b, bits)
    ensures a == b
  {
    if bits > 0 {
      ShiftBitInjective(ShiftBits(a, bits - 1), ShiftBits(b, bits - 1));
      ShiftBitsInjective(a, b, bits - 1);
    }
  }

  lemma XorCancels(a: bv8, b: bv8, x: bv8, y: bv8)
    requires a ^ x == b ^ y
    ensures x == y <==> a == b
  {
  }

  /** Equal remainders after one more byte: the bytes agree exactly when the remainders before agreed. */
  lemma AbsorbInjective(a: bv8, b: bv8, x: bv8, y: bv8)
    requires Absorb(a, x) == Absorb(b, y)
    ensures x == y <==> a == b
  {
    var bits := 8;
    assert ShiftBits(a ^ x, bits) == ShiftBits(b ^ y, bits);
    ShiftBitsInjective(a ^ x, b ^ y, bits);
    XorCancels(a, b, x, y);
  }

  /** Two messages that differ in one byte only leave different remainders: a single corrupted byte is always seen. */
  lemma {:induction false} OneByteChangesRemainder(a: seq<bv8>, b: seq<bv8>, k: nat)
    requires |a| == |b| && k < |a| && a[k] != b[k]
    requires forall i :: 0 <= i < |a| && i != k ==> a[i] == b[i]
    ensures Remainder(a) != Remainder(b)
  {
    var n := |a| - 1;
    if k < n {
      OneByteChangesRemainder(a[..n], b[..n], k);
    } else {
      assert a[..n] == b[..n];
    }
    if Remainder(a) == Remainder(b) {
      AbsorbInjective(Remainder(a[..n]), Remainder(b[..n]), a[n], b[n]);
    }
  }

  lemma InversionKeepsDifference(a: bv8, b: bv8)
    requires a != b
    ensures a ^ 0xFF != b ^ 0xFF
  {
  }

  predicate CrcValid(id: CanId, payload: Payload) {
    payload[7] == Crc8(id, payload)
  }

  /** A valid frame with one byte of its payload changed, the checksum byte included, is no longer valid. */
  lemma CorruptedByteDetected(id: CanId, payload: Payload, k: nat, byte: bv8)
    requires CrcValid(id, payload) && k < 8 && byte != payload[k]
    ensures !CrcValid(id, payload[k := byte])
  {
    var changed: Payload := payload[k := byte];
    if k < 7 {
      OneByteChangesRemainder(Covered(id, payload), Covered(id, changed), k + 2);
      InversionKeepsDifference(Remainder(Covered(id, payload)), Remainder(Covered(id, changed)));
    } else {
      assert Covered(id, payload) == Covered(id, changed);
    }
  }

  /** A payload valid under one identifier is never valid under another of the same 256-identifier page: the power
      frames 0x684-0x68A cannot be mistaken for each other. */
  lemma IdentifierIsProtected(id: CanId, other: CanId, payload: Payload)
    requires CrcValid(id, payload) && id != other && id / 0x100 == other / 0x100
    ensures !CrcValid(other, payload)
  {
    LowBytesDiffer(id, other);
    OneByteChangesRemainder(Covered(id, payload), Covered(other, payload), 1);
    InversionKeepsDifference(Remainder(Covered(id, payload)), Remainder(Covered(other, payload)));
  }
}
