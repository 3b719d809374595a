/** 128-bit blocks (__m128i), bit 0 first.  Bit 127 is what a move-mask of the top byte's sign bit reads. */
module Blocks {
  import opened Ring

  function Zeros(n: nat): (r: seq<bool>)
    ensures |r| == n && forall i :: 0 <= i < n ==> !r[i]
  {
    if n == 0 then [] else [false] + Zeros(n - 1)
  }

  /** A byte, least significant bit first. */
  type Byte = b: seq<bool> | |b| == 8 witness Zeros(8)

  type Bits128 = b: seq<bool> | |b| == 128 witness Zeros(128)

  datatype Block = Block(bits: Bits128)

  const ZERO: Block := Block(Zeros(128))
  const MSB1: Block := Block(Zeros(127) + [true])

  function XorBits(a: Bits128, b: Bits128): (r: Bits128) {
    seq(128, i requires 0 <= i < 128 => a[i] != b[i])
  }

  function Xor(a: Block, b: Block): Block {
    Block(XorBits(a.bits, b.bits))
  }

  /** AND with the mask that has every bit but the top one. */
  function ClearMsb(a: Block): Block {
    Block(a.bits[127 := false])
  }

  /** AND with the all-ones or all-zeros word made from a control bit. */
  function MulMask(bit: bool, v: Block): Block {
    if bit then v else ZERO
  }

  function GetMsb(v: Block): bool {
    v.bits[127]
  }

  /** The number a little-endian bit string stands for. */
  function BitsValue(bits: seq<bool>): (r: nat)
    ensures r < Pow2(|bits|)
  {
    if bits == [] then 0 else (if bits[0] then 1 else 0) + 2 * BitsValue(bits[1..])
  }

  /** The low 64-bit lane. */
  function Low64(v: Block): nat {
    BitsValue(v.bits[..64])
  }

  lemma XorSelf(a: Block, b: Block)
    ensures Xor(a, Xor(a, b)) == b && Xor(b, Xor(a, b)) == a
    ensures Xor(a, b) == Xor(b, a)
  {
  }

  lemma XorZero(a: Block)
    ensures Xor(a, ZERO) == a && Xor(ZERO, a) == a
  {
  }

  /** Putting the top bit back after clearing it. */
  lemma MsbRestored(a: Block)
    ensures Xor(ClearMsb(a), if GetMsb(a) then MSB1 else ZERO) == a
    ensures !GetMsb(ClearMsb(a)) && GetMsb(MSB1) && !GetMsb(ZERO)
  {
  }
}
