/** Bytes, powers and little-endian numbers. */
module Bytes {
  /** A Rust `u8`. */
  type Byte = b: int | 0 <= b < 256

  function Pow(base: nat, e: nat): (r: nat)
    ensures base > 0 ==> r > 0
  {
    if e == 0 then 1 else base * Pow(base, e - 1)
  }

  lemma {:induction false} PowAdd(base: nat, a: nat, b: nat)
    ensures Pow(base, a + b) == Pow(base, a) * Pow(base, b)
    decreases b
  {
    if b > 0 {
      PowAdd(base, a, b - 1);
      calc {
        Pow(base, a + b);
        base * Pow(base, a + b - 1);
        base * (Pow(base, a) * Pow(base, b - 1));
        Pow(base, a) * (base * Pow(base, b - 1));
      }
    }
  }

  lemma {:induction false} PowMonotone(base: nat, a: nat, b: nat)
    requires base >= 1 && a <= b
    ensures Pow(base, a) <= Pow(base, b)
    decreases b - a
  {
    if a < b {
      PowMonotone(base, a, b - 1);
      assert Pow(base, b) == base * Pow(base, b - 1);
    }
  }

  /** The unsigned number whose little-endian bytes are `bs` (the first byte is the lowest). */
  function LittleEndian(bs: seq<Byte>): (r: nat)
    ensures r < Pow(256, |bs|)
  {
    if bs == [] then 0 else bs[0] + 256 * LittleEndian(bs[1..])
  }
}
