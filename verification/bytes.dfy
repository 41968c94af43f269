/** Bytes as the numbers 0 to 255, and the bit operations the WebSocket
    framing applies to them. Testing the top bit (`& 0x80`) is comparing
    with 0x80, keeping the low seven bits (`& 0x7F`) or the low four
    (`& 0x0F`) is a remainder, and setting the top bit of a number below
    0x80 (`0x80 | n`) is adding 0x80. XOR is defined bit by bit. */
module Bytes {
  type Byte = x: int | 0 <= x < 0x100

  /** `b & 0x80 != 0`. */
  predicate HighBit(b: Byte)
  {
    b >= 0x80
  }

  /** `b & 0x7F`. */
  function Low7(b: Byte): (r: nat)
    ensures r < 0x80
  {
    b % 0x80
  }

  /** `b & 0x0F`. */
  function LowNibble(b: Byte): (r: nat)
    ensures r < 0x10
  {
    b % 0x10
  }

  /** Setting the top bit of a number below 0x80 keeps it in the low seven
      bits and sets the top bit; leaving it clear keeps the number. */
  lemma TopBitAndLow7(top: bool, n: nat)
    requires n < 0x80
    ensures var b: Byte := (if top then 0x80 else 0) + n;
            HighBit(b) == top && Low7(b) == n
  {
  }

  function Pow2(n: nat): (r: nat)
    ensures r >= 1
  {
    if n == 0 then 1 else 2 * Pow2(n - 1)
  }

  /** XOR of the low `bits` bits of `a` and `b`, lowest bit first. */
  function XorBits(a: nat, b: nat, bits: nat): (r: nat)
    ensures r < Pow2(bits)
  {
    if bits == 0 then 0
    else (a % 2 + b % 2) % 2 + 2 * XorBits(a / 2, b / 2, bits - 1)
  }

  /** `a ^ b` on bytes. */
  function Xor(a: Byte, b: Byte): Byte
  {
    assert Pow2(8) == 0x100;
    XorBits(a, b, 8)
  }

  /** XOR with the same bits twice gives back what there was. */
  lemma {:induction false} XorBitsTwice(a: nat, b: nat, bits: nat)
    requires a < Pow2(bits)
    ensures XorBits(XorBits(a, b, bits), b, bits) == a
  {
    if bits > 0 {
      var low := (a % 2 + b % 2) % 2;
      var high := XorBits(a / 2, b / 2, bits - 1);
      var r := XorBits(a, b, bits);
      HalvesOf(low, high);
      XorBitsTwice(a / 2, b / 2, bits - 1);
      assert XorBits(r, b, bits) == (low + b % 2) % 2 + 2 * XorBits(high, b / 2, bits - 1);
      ParityTwice(a % 2, b % 2);
    }
  }

  lemma HalvesOf(low: nat, high: nat)
    requires low < 2
    ensures (low + 2 * high) % 2 == low && (low + 2 * high) / 2 == high
  {
  }

  lemma ParityTwice(x: nat, y: nat)
    requires x < 2 && y < 2
    ensures ((x + y) % 2 + y) % 2 == x
  {
  }

  /** XOR with the same byte twice is the identity. */
  lemma XorTwice(a: Byte, b: Byte)
    ensures Xor(Xor(a, b), b) == a
  {
    assert Pow2(8) == 0x100;
    XorBitsTwice(a, b, 8);
  }
}
