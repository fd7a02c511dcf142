/** The bytes of a 16-bit identifier. Conversion from integers is written out nibble by nibble,
    which keeps the proofs about it within bit-vector and linear reasoning. */
module Bytes {
  function Nibble(n: nat): bv8
    requires n < 16
  {
    if n < 8 then
      if n < 4 then (if n < 2 then (if n == 0 then 0 else 1) else if n == 2 then 2 else 3)
      else (if n < 6 then (if n == 4 then 4 else 5) else if n == 6 then 6 else 7)
    else
      if n < 12 then (if n < 10 then (if n == 8 then 8 else 9) else if n == 10 then 10 else 11)
      else (if n < 14 then (if n == 12 then 12 else 13) else if n == 14 then 14 else 15)
  }

  function Byte(n: nat): bv8
    requires n < 0x100
  {
    (Nibble(n / 16) << 4) | Nibble(n % 16)
  }

  function HighByte(x: nat): bv8
    requires x < 0x1_0000
  {
    Byte(x / 0x100)
  }

  function LowByte(x: nat): bv8 {
    Byte(x % 0x100)
  }

  lemma NibbleRange(n: nat)
    requires n < 16
    ensures Nibble(n) < 16
  {
  }

  lemma NibblesDiffer(a: nat, b: nat)
    requires a < 16 && b < 16 && a != b
    ensures Nibble(a) != Nibble(b)
  {
  }

  lemma NibblesRecovered(a: bv8, b: bv8, c: bv8, d: bv8)
    requires a < 16 && b < 16 && c < 16 && d < 16 && (a << 4) | b == (c << 4) | d
    ensures a == c && b == d
  {
  }

  lemma BytesDiffer(a: nat, b: nat)
    requires a < 0x100 && b < 0x100 && a != b
    ensures Byte(a) != Byte(b)
  {
    NibbleRange(a / 16);
    NibbleRange(b / 16);
    NibbleRange(a % 16);
    NibbleRange(b % 16);
    if Byte(a) == Byte(b) {
      NibblesRecovered(Nibble(a / 16), Nibble(a % 16), Nibble(b / 16), Nibble(b % 16));
      if a / 16 != b / 16 {
        NibblesDiffer(a / 16, b / 16);
      } else {
        NibblesDiffer(a % 16, b % 16);
      }
    }
  }

  /** Identifiers of one page differ in their low byte. */
  lemma LowBytesDiffer(a: nat, b: nat)
    requires a != b && a / 0x100 == b / 0x100
    ensures LowByte(a) != LowByte(b)
  {
    BytesDiffer(a % 0x100, b % 0x100);
  }
}
