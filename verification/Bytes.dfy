/** Bytes, and numbers stored in them. */
module Bytes {

  type byte = x: int | 0 <= x < 256

  const UINT_LIMIT: nat := 0x1_0000_0000

  /** A 32-bit number, least significant byte first. */
  function Uint(b: seq<byte>): (n: nat)
    requires |b| == 4
    ensures n < UINT_LIMIT
  {
    var (b0: int, b1: int, b2: int, b3: int) := (b[0], b[1], b[2], b[3]);
    b0 + 0x100 * b1 + 0x1_0000 * b2 + 0x100_0000 * b3
  }

  function UintBytes(n: nat): (b: seq<byte>)
    requires n < UINT_LIMIT
    ensures |b| == 4 && Uint(b) == n
  {
    var n1 := n / 0x100;
    var n2 := n1 / 0x100;
    var n3 := n2 / 0x100;
    [n % 0x100, n1 % 0x100, n2 % 0x100, n3]
  }
}
