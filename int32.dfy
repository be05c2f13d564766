/** The C# `int`: 32-bit two's complement, with unchecked arithmetic wrapping around. */
module Int32 {

  const MinValue: int := -0x8000_0000
  const MaxValue: int := 0x7fff_ffff

  type int32 = x: int | -0x8000_0000 <= x <= 0x7fff_ffff

  /** The value an unchecked `int` operation yields for the mathematical result `x`. */
  function Wrap(x: int): (r: int32)
    ensures (x - r) % 0x1_0000_0000 == 0
    ensures MinValue <= x <= MaxValue ==> r == x
  {
    (x + 0x8000_0000) % 0x1_0000_0000 - 0x8000_0000
  }
}
