/** Operations on 32-bit words. */
module Words32 {
  import opened Arith
  import Bits

  function Add32(x: U32, y: U32): (z: U32) { (x as int + y as int) % 0x1_0000_0000 }

  function Not32(x: U32): (z: U32) { 0xFFFF_FFFF - x }

  function And32(x: U32, y: U32): (z: U32) { Bits.And(x, y) }

  function Xor32(x: U32, y: U32): (z: U32)
  {
    Pow2Values();
    Bits.XorRange(x, y, 32);
    Bits.Xor(x, y)
  }

  function Rotl32(x: U32, n: nat): (z: U32)
    requires n <= 32
  {
    Bits.Or(Bits.Shl(x, n), Bits.Shr(x, 32 - n)) % 0x1_0000_0000
  }

  function Rotr32(x: U32, n: nat): (z: U32)
    requires n <= 32
  {
    Bits.Or(Bits.Shr(x, n), Bits.Shl(x, 32 - n)) % 0x1_0000_0000
  }

  function Shr32(x: U32, n: nat): (z: U32)
  {
    Bits.Shr(x, n) % 0x1_0000_0000
  }
}
