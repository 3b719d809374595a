/** The index hash: the holder's local Davies-Meyer chain, and the same chain as a two-party circuit over XOR shares of
    the element and of the seed.  AES is an arbitrary function of a key block and a plaintext block. */
module Hash {
  import opened Ring
  import opened Blocks

  type Aes = (Block, Block) -> Block

  const ELL_MAX := 31

  datatype HashResult = EllOutOfRange | KeyTooLong | Digest(value: nat)

  /** Sixteen bytes in memory, missing ones zero. */
  function BlockOf(bytes: seq<Byte>): Block {
    Block(seq(128, i requires 0 <= i < 128 => i / 8 < |bytes| && bytes[i / 8][i % 8]))
  }

  function BlockCount(len: nat): nat {
    (len + 15) / 16
  }

  /** The b-th block of a message, the last one zero-padded. */
  function Piece(msg: seq<Byte>, b: nat): Block {
    if 16 * b <= |msg| then BlockOf(msg[16 * b..Min(16 * b + 16, |msg|)]) else ZERO
  }

  function Pieces(msg: seq<Byte>, count: nat): (r: seq<Block>)
    ensures |r| == count && forall b :: 0 <= b < count ==> r[b] == Piece(msg, b)
  {
    seq(count, b requires 0 <= b < count => Piece(msg, b))
  }

  /** H_0 = 0, H_i = AES(key, H_{i-1} ^ M_i) ^ H_{i-1}. */
  function Chain(aes: Aes, key: Block, ms: seq<Block>): Block {
    if ms == [] then ZERO
    else
      var h := Chain(aes, key, ms[..|ms| - 1]);
      Xor(aes(key, Xor(h, ms[|ms| - 1])), h)
  }

  function LowBits(ell: nat, h: Block): nat
    requires ell <= 128
  {
    BitsValue(h.bits[..ell])
  }

  /** The digest of a message on the holder's side and in the circuit, which hashes one zero block when there is
      nothing to hash. */
  function LocalDigest(aes: Aes, key: Block, msg: seq<Byte>, ell: nat): nat
    requires ell <= 128
  {
    LowBits(ell, Chain(aes, key, Pieces(msg, BlockCount(|msg|))))
  }

  function CircuitDigest(aes: Aes, key: Block, msg: seq<Byte>, ell: nat): nat
    requires ell <= 128
  {
    LowBits(ell, Chain(aes, key, Pieces(msg, if msg == [] then 1 else BlockCount(|msg|))))
  }

  /** The two digests agree exactly when the message is not empty, or AES happens to send the zero block to a block
      whose low bits are zero. */
  lemma DigestsAgree(aes: Aes, key: Block, msg: seq<Byte>, ell: nat)
    requires ell <= 128
    ensures CircuitDigest(aes, key, msg, ell) == LocalDigest(aes, key, msg, ell)
      <==> msg != [] || LowBits(ell, aes(key, ZERO)) == 0
  {
    if msg == [] {
      var ms := Pieces(msg, 1);
      assert Piece(msg, 0).bits == ZERO.bits;
      assert ms == [ZERO] && ms[..0] == [];
      assert Chain(aes, key, []) == ZERO;
      XorZero(ZERO);
      XorZero(aes(key, ZERO));
      assert Chain(aes, key, ms) == aes(key, ZERO);
      ZeroValue(ell);
      assert ZERO.bits[..ell] == Zeros(ell);
    }
  }

  lemma {:induction false} ZeroValue(n: nat)
    ensures BitsValue(Zeros(n)) == 0
  {
    if n > 0 {
      ZeroValue(n - 1);
      assert Zeros(n)[1..] == Zeros(n - 1);
    }
  }

  /** Masking the low 32-bit lane. */
  lemma {:induction false} MaskedBits(bits: seq<bool>, ell: nat)
    requires ell <= |bits|
    ensures BitsValue(bits) % Pow2(ell) == BitsValue(bits[..ell])
    decreases ell
  {
    if ell == 0 {
      ModSmall(0, 1);
      ModShift(0, BitsValue(bits), 1);
    } else {
      MaskedBits(bits[1..], ell - 1);
      assert bits[..ell][1..] == bits[1..][..ell - 1];
      LowBitFirst(if bits[0] then 1 else 0, BitsValue(bits[1..]), Pow2(ell - 1));
    }
  }

  lemma LowBitFirst(low: nat, v: nat, m: nat)
    requires low < 2 && m > 0
    ensures (low + 2 * v) % (2 * m) == low + 2 * (v % m)
  {
    var q := Quotient(v, m);
    assert 2 * (q * m) == q * (2 * m);
    DivUnique(q, low + 2 * (v % m), 2 * m);
  }

  // ---- the local hash ----

  method Absorb(aes: Aes, key: Block, h: Block, block: Block) returns (h': Block)
    ensures h' == Xor(aes(key, Xor(h, block)), h)
  {
    hide Xor;
    var x := Xor(h, block);
    x := aes(key, x);
    h' := Xor(x, h);
  }

  /** A key shorter than 16 bytes is zero-padded, a longer one refused. */
  method HashAesDm(aes: Aes, msg: seq<Byte>, key: seq<Byte>, ell: nat) returns (res: HashResult)
    ensures res.EllOutOfRange? <==> !(1 <= ell <= ELL_MAX)
    ensures res.KeyTooLong? <==> 1 <= ell <= ELL_MAX && |key| > 16
    ensures res.Digest? ==> res.value == LocalDigest(aes, BlockOf(key), msg, ell) < Pow2(ell)
  {
    hide BlockOf, Xor, Chain, Pieces, Piece, BitsValue, Pow2, LowBits, LocalDigest;
    if ell < 1 || ell > ELL_MAX {
      return EllOutOfRange;
    }
    if |key| > 16 {
      return KeyTooLong;
    }
    var keyBlock := BlockOf(key);
    var h := ZERO;
    var pos := 0;
    ghost var done: nat := 0;
    NoPieces(aes, keyBlock, msg);
    while pos + 16 <= |msg|
      invariant pos == 16 * done <= |msg|
      invariant h == Chain(aes, keyBlock, Pieces(msg, done))
    {
      var block := BlockOf(msg[pos..pos + 16]);
      FullPiece(msg, done);
      ChainStep(aes, keyBlock, msg, done);
      h := Absorb(aes, keyBlock, h, block);
      pos := pos + 16;
      done := done + 1;
    }
    if pos < |msg| {
      var block := BlockOf(msg[pos..]);
      LastPiece(msg, done);
      ChainStep(aes, keyBlock, msg, done);
      h := Absorb(aes, keyBlock, h, block);
      done := done + 1;
    }
    DigestIs(aes, keyBlock, msg, ell, done);
    Truncated(h, ell);
    return Digest(BitsValue(h.bits[..32]) % Pow2(ell));
  }

  lemma DigestIs(aes: Aes, key: Block, msg: seq<Byte>, ell: nat, done: nat)
    requires 16 * done < |msg| + 16 && |msg| <= 16 * done && ell <= 128
    ensures LocalDigest(aes, key, msg, ell) == LowBits(ell, Chain(aes, key, Pieces(msg, done)))
  {
  }

  lemma Truncated(h: Block, ell: nat)
    requires ell <= 32
    ensures BitsValue(h.bits[..32]) % Pow2(ell) == LowBits(ell, h) < Pow2(ell)
  {
    MaskedBits(h.bits[..32], ell);
    assert h.bits[..32][..ell] == h.bits[..ell];
  }

  lemma NoPieces(aes: Aes, key: Block, msg: seq<Byte>)
    ensures Chain(aes, key, Pieces(msg, 0)) == ZERO
  {
  }

  lemma FullPiece(msg: seq<Byte>, done: nat)
    requires 16 * done + 16 <= |msg|
    ensures Piece(msg, done) == BlockOf(msg[16 * done..16 * done + 16])
  {
  }

  lemma LastPiece(msg: seq<Byte>, done: nat)
    requires 16 * done <= |msg| < 16 * done + 16
    ensures Piece(msg, done) == BlockOf(msg[16 * done..])
  {
  }

  /** One more block. */
  lemma ChainStep(aes: Aes, key: Block, msg: seq<Byte>, done: nat)
    ensures var h := Chain(aes, key, Pieces(msg, done));
      Chain(aes, key, Pieces(msg, done + 1)) == Xor(aes(key, Xor(h, Piece(msg, done))), h)
  {
    hide Piece;
    assert Pieces(msg, done + 1)[..done] == Pieces(msg, done);
  }

  // ---- XOR shares of byte strings ----

  function XorByte(a: Byte, b: Byte): Byte {
    seq(8, i requires 0 <= i < 8 => a[i] != b[i])
  }

  function XorBytes(a: seq<Byte>, b: seq<Byte>): (r: seq<Byte>)
    requires |a| == |b|
    ensures |r| == |a| && forall i :: 0 <= i < |a| ==> r[i] == XorByte(a[i], b[i])
  {
    seq(|a|, i requires 0 <= i < |a| => XorByte(a[i], b[i]))
  }

  /** The sharer keeps the random bytes and sends the rest. */
  method ShareBytes(plain: seq<Byte>, random: seq<Byte>) returns (mine: seq<Byte>, peer: seq<Byte>)
    requires |plain| == |random|
    ensures |mine| == |peer| == |plain| && XorBytes(mine, peer) == plain
  {
    mine := random;
    peer := [];
    for i := 0 to |plain|
      invariant |peer| == i && forall k :: 0 <= k < i ==> peer[k] == XorByte(plain[k], mine[k])
    {
      peer := peer + [XorByte(plain[i], mine[i])];
    }
    forall i | 0 <= i < |plain|
      ensures XorByte(mine[i], XorByte(plain[i], mine[i])) == plain[i]
    {
    }
    assert XorBytes(mine, peer) == plain;
  }

  // ---- the circuit ----

  predicate InputOf(bits: seq<bool>, mine: seq<Byte>) {
    forall i :: 0 <= i < |bits| ==> (bits[i] <==> i / 8 < |mine| && mine[i / 8][i % 8])
  }

  /** One party's input wires: its bytes as bits, block by block, the rest zero. */
  method InputBits(mine: seq<Byte>, nBlocks: nat) returns (bits: array<bool>)
    requires |mine| <= 16 * nBlocks && 16 * (nBlocks - 1) <= |mine|
    ensures fresh(bits) && bits.Length == 128 * nBlocks
    ensures InputOf(bits[..], mine)
  {
    bits := new bool[128 * nBlocks];
    for b := 0 to nBlocks
      invariant forall i :: 0 <= i < 128 * b ==> (bits[i] <==> i / 8 < |mine| && mine[i / 8][i % 8])
    {
      var off := b * 16;
      var len := Min(|mine| - off, 16);
      for i := 0 to 128
        invariant forall k :: 0 <= k < 128 * b + i ==> (bits[k] <==> k / 8 < |mine| && mine[k / 8][k % 8])
      {
        var at := b * 128 + i;
        assert at / 8 == off + i / 8 && at % 8 == i % 8;
        bits[at] := i < len * 8 && mine[off + i / 8][i % 8];
      }
    }
  }

  /** XOR of two parties' wires, cut into blocks, is the blocks of the XORed bytes. */
  lemma WireBlock(a: seq<Byte>, b: seq<Byte>, k: nat, wires: seq<bool>)
    requires |a| == |b| && 16 * k <= |a| && |wires| == 128
    requires forall i :: 0 <= i < 128 ==>
      (wires[i] <==> (16 * k + i / 8 < |a| && a[16 * k + i / 8][i % 8]) != (16 * k + i / 8 < |b| && b[16 * k + i / 8][i % 8]))
    ensures Block(wires) == Piece(XorBytes(a, b), k)
  {
    var msg := XorBytes(a, b);
    var part := msg[16 * k..Min(16 * k + 16, |msg|)];
    forall i | 0 <= i < 128
      ensures wires[i] == BlockOf(part).bits[i]
    {
      if i / 8 < |part| {
        assert part[i / 8] == msg[16 * k + i / 8] == XorByte(a[16 * k + i / 8], b[16 * k + i / 8]);
      }
    }
    assert wires == BlockOf(part).bits;
  }

  /** The circuit's wires for one block. */
  method Wires(a: array<bool>, b: array<bool>, from: nat) returns (w: Block)
    requires from + 128 <= a.Length == b.Length
    ensures forall i :: 0 <= i < 128 ==> (w.bits[i] <==> a[from + i] != b[from + i])
  {
    var wires := [];
    for i := 0 to 128
      invariant |wires| == i && forall k :: 0 <= k < i ==> (wires[k] <==> a[from + k] != b[from + k])
    {
      wires := wires + [a[from + i] != b[from + i]];
    }
    return Block(wires);
  }

  /** Both parties put their XOR shares of the element and of the seed in; the digest comes out as ring-additive shares,
      the first of which is random. */
  method CircuitHash(aes: Aes, ptA: seq<Byte>, ptB: seq<Byte>, keyA: seq<Byte>, keyB: seq<Byte>, ell: nat, r: nat)
    returns (shareA: nat, shareB: nat)
    requires |ptA| == |ptB| && |keyA| == |keyB| == 16 && 1 <= ell <= ELL_MAX && r < Pow2(ell)
    ensures shareA < Pow2(ell) && shareB < Pow2(ell)
    ensures Add(Pow2(ell), shareA, shareB) == CircuitDigest(aes, BlockOf(XorBytes(keyA, keyB)), XorBytes(ptA, ptB), ell)
  {
    hide BlockOf, Xor, Chain, Pieces, Piece, BitsValue, Pow2, InputOf;
    var nBlocks := (|ptA| + 15) / 16;
    if nBlocks == 0 {
      nBlocks := 1;
    }
    ghost var key := BlockOf(XorBytes(keyA, keyB));
    ghost var msg := XorBytes(ptA, ptB);
    var aw := InputBits(ptA, nBlocks);
    var bw := InputBits(ptB, nBlocks);
    var ak := InputBits(keyA, 1);
    var bk := InputBits(keyB, 1);
    var kyBlk := Wires(ak, bk, 0);
    WireBits(keyA, keyB, ak[..], bk[..], 0, kyBlk);
    WireBlock(keyA, keyB, 0, kyBlk.bits);
    OnePiece(XorBytes(keyA, keyB));
    var h := ZERO;
    NoPieces(aes, key, msg);
    for b := 0 to nBlocks
      invariant h == Chain(aes, key, Pieces(msg, b))
      invariant InputOf(aw[..], ptA) && InputOf(bw[..], ptB)
    {
      var m := Wires(aw, bw, b * 128);
      WireBits(ptA, ptB, aw[..], bw[..], b, m);
      WireBlock(ptA, ptB, b, m.bits);
      ChainStep(aes, key, msg, b);
      if b == 0 {
        XorZero(m);
        XorZero(aes(kyBlk, m));
        h := aes(kyBlk, m);
      } else {
        var x := Xor(h, m);
        var ct := aes(kyBlk, x);
        h := Xor(ct, h);
      }
    }
    var hashVal := BitsValue(h.bits[..ell]);
    shareA := r;
    shareB := Sub(Pow2(ell), hashVal, r);
    assert hashVal < Pow2(ell);
    SharesOpen(Pow2(ell), hashVal, r);
  }

  lemma OnePiece(key: seq<Byte>)
    requires |key| == 16
    ensures Piece(key, 0) == BlockOf(key)
  {
  }

  lemma WireBits(a: seq<Byte>, b: seq<Byte>, aw: seq<bool>, bw: seq<bool>, k: nat, w: Block)
    requires |aw| == |bw| && 128 * k + 128 <= |aw|
    requires InputOf(aw, a) && InputOf(bw, b)
    requires forall i :: 0 <= i < 128 ==> (w.bits[i] <==> aw[k * 128 + i] != bw[k * 128 + i])
    ensures forall i :: 0 <= i < 128 ==>
      (w.bits[i] <==> (16 * k + i / 8 < |a| && a[16 * k + i / 8][i % 8]) != (16 * k + i / 8 < |b| && b[16 * k + i / 8][i % 8]))
  {
  }

  // ---- two-party ring functionalities ----

  /** A value minus a mask and the mask. */
  lemma SharesOpen(m: nat, v: nat, r: nat)
    requires m > 0 && v < m && r < m
    ensures Add(m, r, Sub(m, v, r)) == v
  {
    ModMod(v - r, m);
    AddCong((v - r) % m, v - r, r, r, m);
    ModSmall(v, m);
  }

  datatype ShareResult = BadModulus | Shares(a: nat, b: nat)

  /** Modulo a public value, on ring-additive shares. */
  method ModShares(ell: nat, a: nat, b: nat, mv: nat, t: nat) returns (res: ShareResult)
    requires 1 <= ell <= ELL_MAX && a < Pow2(ell) && b < Pow2(ell) && t < Pow2(ell)
    ensures res.BadModulus? <==> mv == 0 || mv >= Pow2(ell)
    ensures res.Shares? ==> Add(Pow2(ell), res.a, res.b) == Add(Pow2(ell), a, b) % mv
    ensures res.Shares? ==> res.a < Pow2(ell) && res.b < Pow2(ell)
  {
    if mv == 0 || mv >= Pow2(ell) {
      return BadModulus;
    }
    var r := Add(Pow2(ell), a, b) % mv;
    SharesOpen(Pow2(ell), r, t);
    return Shares(t, Sub(Pow2(ell), r, t));
  }

  /** One when the two shared values are equal, zero otherwise. */
  method EqualityShares(ell: nat, aA: nat, aB: nat, bA: nat, bB: nat, r: nat) returns (a: nat, b: nat)
    requires 1 <= ell <= ELL_MAX && r < Pow2(ell)
    ensures a < Pow2(ell) && b < Pow2(ell)
    ensures Add(Pow2(ell), a, b) == if Add(Pow2(ell), aA, aB) == Add(Pow2(ell), bA, bB) then 1 else 0
  {
    var m := Pow2(ell);
    var diff := Sub(m, Add(m, aA, aB), Add(m, bA, bB));
    var eq := if diff == 0 then 1 else 0;
    ZeroDifference(m, Add(m, aA, aB), Add(m, bA, bB));
    SharesOpen(m, eq, r);
    return r, Sub(m, eq, r);
  }

  lemma ZeroDifference(m: nat, x: nat, y: nat)
    requires m > 0 && x < m && y < m
    ensures Sub(m, x, y) == 0 <==> x == y
  {
    ModSmall(0, m);
    if x >= y {
      ModSmall(x - y, m);
    } else {
      ModShift(x - y, 1, m);
      ModSmall(x - y + m, m);
    }
  }
}
