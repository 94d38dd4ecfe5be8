/** 32-bit words as bit vectors and as numbers. */
module Words {

  function Pow256(n: nat): nat {
    if n == 0 then 1 else 256 * Pow256(n - 1)
  }

  function Bit(x: bv32, weight: nat): nat {
    if x != 0 then weight else 0
  }

  // The four bytes of a word, the lowest first, as the sums of their bits.
  function Byte0(x: bv32): (b: nat)
    ensures b < 256
  {
    Bit(x & 0x1, 1) + Bit(x & 0x2, 2) + Bit(x & 0x4, 4) + Bit(x & 0x8, 8)
    + Bit(x & 0x10, 16) + Bit(x & 0x20, 32) + Bit(x & 0x40, 64) + Bit(x & 0x80, 128)
  }

  function Byte1(x: bv32): (b: nat)
    ensures b < 256
  {
    Bit(x & 0x100, 1) + Bit(x & 0x200, 2) + Bit(x & 0x400, 4) + Bit(x & 0x800, 8)
    + Bit(x & 0x1000, 16) + Bit(x & 0x2000, 32) + Bit(x & 0x4000, 64) + Bit(x & 0x8000, 128)
  }

  function Byte2(x: bv32): (b: nat)
    ensures b < 256
  {
    Bit(x & 0x1_0000, 1) + Bit(x & 0x2_0000, 2) + Bit(x & 0x4_0000, 4) + Bit(x & 0x8_0000, 8)
    + Bit(x & 0x10_0000, 16) + Bit(x & 0x20_0000, 32) + Bit(x & 0x40_0000, 64) + Bit(x & 0x80_0000, 128)
  }

  function Byte3(x: bv32): (b: nat)
    ensures b < 256
  {
    Bit(x & 0x100_0000, 1) + Bit(x & 0x200_0000, 2) + Bit(x & 0x400_0000, 4) + Bit(x & 0x800_0000, 8)
    + Bit(x & 0x1000_0000, 16) + Bit(x & 0x2000_0000, 32) + Bit(x & 0x4000_0000, 64) + Bit(x & 0x8000_0000, 128)
  }

  // The number a word stands for.
  function Number(x: bv32): nat {
    Byte0(x) + 0x100 * Byte1(x) + 0x1_0000 * Byte2(x) + 0x100_0000 * Byte3(x)
  }

  // ---------------------------------------------------------------- little-endian bytes

  function LeBytes(x: nat, n: nat): (bytes: seq<int>)
    ensures |bytes| == n && forall i :: 0 <= i < n ==> 0 <= bytes[i] < 256
  {
    if n == 0 then [] else [x % 256] + LeBytes(x / 256, n - 1)
  }

  function FromLe(bytes: seq<int>): int {
    if bytes == [] then 0 else bytes[0] + 256 * FromLe(bytes[1..])
  }

  lemma {:induction false} LeRoundTrip(x: nat, n: nat)
    requires x < Pow256(n)
    ensures FromLe(LeBytes(x, n)) == x
  {
    if n > 0 {
      LeRoundTrip(x / 256, n - 1);
      assert LeBytes(x, n)[1..] == LeBytes(x / 256, n - 1);
    }
  }
}
