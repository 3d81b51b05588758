/**
 * The JVM's fixed-width signed integers and the narrowing conversions
 * `Int.toByte()` and `Int.toShort()`: both keep the low bits of the
 * two's-complement representation and read them back as a signed number,
 * with no range check and no error.
 */
module Ints {

  type int8 = x: int | -0x80 <= x < 0x80
  type int16 = x: int | -0x8000 <= x < 0x8000
  type int32 = x: int | -0x8000_0000 <= x < 0x8000_0000
  type int64 = x: int | -0x8000_0000_0000_0000 <= x < 0x8000_0000_0000_0000

  /**
   * `Int.toByte()`: the low 8 bits (Dafny's `%` is Euclidean, so `low` is
   * those bits read unsigned), shifted down when the sign bit is set.
   */
  function ToByte(v: int32): (r: int8)
    ensures (r - v) % 0x100 == 0
    ensures -0x80 <= v < 0x80 ==> r == v
  {
    var low := v % 0x100;
    if low < 0x80 then low else low - 0x100
  }

  /** `Int.toShort()`: the low 16 bits, read as a signed short. */
  function ToShort(v: int32): (r: int16)
    ensures (r - v) % 0x1_0000 == 0
    ensures -0x8000 <= v < 0x8000 ==> r == v
  {
    var low := v % 0x1_0000;
    if low < 0x8000 then low else low - 0x1_0000
  }

  /** `ToByte(v)` is the one byte congruent to `v` modulo 256. */
  lemma ToByteUnique(v: int32, b: int8)
    requires (b - v) % 0x100 == 0
    ensures b == ToByte(v)
  {
  }

  /** `ToShort(v)` is the one short congruent to `v` modulo 65536. */
  lemma ToShortUnique(v: int32, s: int16)
    requires (s - v) % 0x1_0000 == 0
    ensures s == ToShort(v)
  {
  }

  /** The remainder modulo 256 of a number written as whole multiples of 256 plus a small rest. */
  lemma ModByteOfDecomposed(x: int, k: int, c: int)
    requires 0 <= c < 0x100 && x == k * 0x100 + c
    ensures x % 0x100 == c
  {
  }

  /** `v.toShort().toByte() == v.toByte()`: the low byte survives the wider truncation. */
  lemma ToByteOfToShort(v: int32)
    ensures ToByte(ToShort(v)) == ToByte(v)
  {
    var low := v % 0x1_0000;
    var high := v / 0x1_0000;
    assert v == high * 0x1_0000 + low;
    var b, c := low / 0x100, low % 0x100;
    assert low == b * 0x100 + c;
    ModByteOfDecomposed(v, high * 0x100 + b, c);
    ModByteOfDecomposed(low, b, c);
    ModByteOfDecomposed(low - 0x1_0000, b - 0x100, c);
  }

  /** Narrowing an already narrowed value changes nothing. */
  lemma ToByteIdempotent(v: int32)
    ensures ToByte(ToByte(v)) == ToByte(v)
  {
  }

  /** Worked values of the wrap-around, including both ends of each range. */
  lemma NarrowingExamples()
    ensures ToByte(300) == 44 && ToByte(0x80) == -0x80 && ToByte(-0x81) == 0x7f && ToByte(0xff) == -1
    ensures ToShort(0x8000) == -0x8000 && ToShort(70000) == 4464 && ToShort(-0x8001) == 0x7fff
  {
  }
}
