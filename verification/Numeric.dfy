/** Shared arithmetic: finite floats are reals, ticks and generations are counted modulo 2^32. */
module Numeric {

  datatype Option<+T> = None | Some(value: T)

  /** A closed interval; the firmware uses it for currents (A) and for operating axes. */
  datatype Interval = Interval(lo: real, hi: real)

  const TWO_32: int := 0x1_0000_0000

  /** A 32-bit unsigned counter or timestamp. */
  type Word32 = x: int | 0 <= x < TWO_32

  /** Unsigned 32-bit subtraction with wrap-around. */
  function Sub32(a: Word32, b: Word32): Word32 {
    (a - b) % TWO_32
  }

  function Add32(a: Word32, b: int): Word32 {
    (a + b) % TWO_32
  }

  /** The shorter way round between two ticks. */
  function Distance32(a: Word32, b: Word32): Word32 {
    if Sub32(a, b) < Sub32(b, a) then Sub32(a, b) else Sub32(b, a)
  }

  function Min(a: real, b: real): real {
    if a < b then a else b
  }

  function Max(a: real, b: real): real {
    if a > b then a else b
  }

  function Abs(a: real): real {
    if a < 0.0 then -a else a
  }

  /** A speed in units per second from a distance and microseconds. */
  lemma RateBound(distance: real, elapsed: real, rate: real)
    requires elapsed > 0.0
    ensures distance * 1000000.0 / elapsed <= rate <==> distance * 1000000.0 <= rate * elapsed
  {
    var speed := distance * 1000000.0 / elapsed;
    assert speed * elapsed == distance * 1000000.0;
  }

  predicate Ordered(i: Interval) {
    i.lo <= i.hi
  }

  /** Two closed intervals share a point. */
  predicate Overlap(a: Interval, b: Interval) {
    a.hi >= b.lo && b.hi >= a.lo
  }

  /** Every point of the inner interval lies in the outer one. */
  predicate Within(inner: Interval, outer: Interval) {
    outer.lo <= inner.lo && inner.hi <= outer.hi
  }

  ghost predicate StrictlyIncreasing(s: seq<real>) {
    forall i, j :: 0 <= i < j < |s| ==> s[i] < s[j]
  }

  /** A point between the first and the last grid line lies between two neighbouring lines. */
  lemma {:induction false} FindGridCell(s: seq<real>, x: real) returns (k: nat)
    requires |s| >= 2 && s[0] <= x <= s[|s| - 1]
    ensures k + 1 < |s| && s[k] <= x <= s[k + 1]
  {
    if |s| == 2 || x >= s[|s| - 2] {
      k := |s| - 2;
    } else {
      k := FindGridCell(s[..|s| - 1], x);
    }
  }
}
