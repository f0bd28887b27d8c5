/** Go's fixed-width integers and the conversions between them. A conversion to
    a narrower type keeps the low bits, which is the Euclidean remainder by the
    width's modulus, for negative sources as well. */
module GoInts {

  type uint8 = x: int | 0 <= x < 0x100
  type uint32 = x: int | 0 <= x < 0x1_0000_0000
  type uint64 = x: int | 0 <= x < 0x1_0000_0000_0000_0000
  type int64 = x: int | -0x8000_0000_0000_0000 <= x < 0x8000_0000_0000_0000

  /** Go's `uint`, assuming a 64-bit platform. */
  type uint = uint64

  /** `uint8(x)` */
  function ToUint8(x: int): (r: uint8)
    ensures (x - r) % 0x100 == 0
    ensures 0 <= x < 0x100 ==> r == x
  {
    x % 0x100
  }

  /** `uint32(x)` */
  function ToUint32(x: int): (r: uint32)
    ensures (x - r) % 0x1_0000_0000 == 0
    ensures 0 <= x < 0x1_0000_0000 ==> r == x
  {
    x % 0x1_0000_0000
  }

  /** `uint64(x)` */
  function ToUint64(x: int): (r: uint64)
    ensures (x - r) % 0x1_0000_0000_0000_0000 == 0
    ensures 0 <= x < 0x1_0000_0000_0000_0000 ==> r == x
    ensures -0x1_0000_0000_0000_0000 <= x < 0 ==> r == x + 0x1_0000_0000_0000_0000
  {
    x % 0x1_0000_0000_0000_0000
  }
}
