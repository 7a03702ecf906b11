/** Java's fixed-width integer types, written out over Dafny's unbounded `int`. */
module JavaInts {

  const IntMin: int := -0x8000_0000
  const IntMax: int := 0x7FFF_FFFF
  const LongMin: int := -0x8000_0000_0000_0000
  const LongMax: int := 0x7FFF_FFFF_FFFF_FFFF

  /** The values of a Java `long`. */
  type Long = x: int | LongMin <= x <= LongMax

  /** Java's `(int)` narrowing: keeps the low 32 bits, read as two's complement. */
  function ToInt(x: int): (r: int)
    ensures IntMin <= r <= IntMax
    ensures (x - r) % 0x1_0000_0000 == 0
    ensures IntMin <= x <= IntMax ==> r == x
  {
    (x - IntMin) % 0x1_0000_0000 + IntMin
  }

  /** A 64-bit `long` result of an exact sum: wraps around on overflow. */
  function ToLong(x: int): (r: Long)
    ensures (x - r) % 0x1_0000_0000_0000_0000 == 0
    ensures LongMin <= x <= LongMax ==> r == x
  {
    (x - LongMin) % 0x1_0000_0000_0000_0000 + LongMin
  }
}
