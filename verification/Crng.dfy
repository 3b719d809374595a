/** The correlated generator of one party: a counter-mode pad shared with each neighbour, read bit by bit, byte by
    byte or a vector at a time.

    A party's pad at counter c is the block its own key gives, combined with the block the previous party's key
    gives: by exclusive or for bits, by bytewise difference for bytes. */
module Crng {
  import opened Ring
  import opened Blocks
  import opened Aby3

  const W64: nat := 0x1_0000_0000_0000_0000
  const W128: nat := 0x1_0000_0000_0000_0000_0000_0000_0000_0000

  type Prf = nat -> Block

  function Bit(b: bool): nat {
    if b then 1 else 0
  }

  function Byte(b: Block, j: nat): (r: nat)
    requires j < 16
    ensures r < 256
  {
    assert Pow2(8) == 256;
    BitsValue(b.bits[8 * j..8 * j + 8])
  }

  // ---- the pads ----

  function BitPad(own: Prf, prev: Prf, c: nat, k: nat): nat
    requires k < 128
  {
    Bit(Xor(own(c), prev(c)).bits[k])
  }

  function BytePad(own: Prf, prev: Prf, ell: nat, c: nat, j: nat): nat
    requires j < 16
  {
    Mask8(ell, (Byte(own(c), j) - Byte(prev(c), j)) % 256)
  }

  function Mask8(ell: nat, v: nat): nat {
    v % Pow2(ell)
  }

  /** One pad position read by the three parties in lockstep sums to zero. */
  lemma BitPadsCancel(k0: Prf, k1: Prf, k2: Prf, c: nat, k: nat)
    requires k < 128
    ensures ZeroSum(2, Trio(BitPad(k0, k2, c, k), BitPad(k1, k0, c, k), BitPad(k2, k1, c, k)))
  {
  }

  lemma BytePadsCancel(k0: Prf, k1: Prf, k2: Prf, ell: nat, c: nat, j: nat)
    requires j < 16 && ell <= 8
    ensures ZeroSum(Pow2(ell), Trio(BytePad(k0, k2, ell, c, j), BytePad(k1, k0, ell, c, j), BytePad(k2, k1, ell, c, j)))
  {
    hide Byte, Mask8, Pow2;
    DifferencesCancel(ell, Byte(k0(c), j), Byte(k1(c), j), Byte(k2(c), j));
  }

  lemma DifferencesCancel(ell: nat, a0: int, a1: int, a2: int)
    requires ell <= 8
    ensures ZeroSum(Pow2(ell), Trio(Mask8(ell, (a0 - a2) % 256), Mask8(ell, (a1 - a0) % 256), Mask8(ell, (a2 - a1) % 256)))
  {
    hide Pow2;
    var m := Pow2(ell);
    ByteFirst(ell, a0 - a2);
    ByteFirst(ell, a1 - a0);
    ByteFirst(ell, a2 - a1);
    Residues3(a0 - a2, a1 - a0, a2 - a1, m);
    assert (a0 - a2) + (a1 - a0) + (a2 - a1) == 0;
    ModSmall(0, m);
  }

  lemma ByteFirst(ell: nat, a: int)
    requires ell <= 8
    ensures (a % 256) % Pow2(ell) == a % Pow2(ell)
  {
    Pow2Add(ell, 8 - ell);
    assert Pow2(8) == 256;
    ModOfMultiple(a, Pow2(ell), Pow2(8 - ell));
  }

  // ---- where the generator stands, and what a request consumes ----

  /** counter: next unused pad counter; ptr: bits of the cached block already used (128: none left);
      isXor: how the cached block was combined. */
  datatype Pos = Pos(counter: nat, ptr: nat, isXor: bool)

  datatype Request = DrawBit | DrawByte(ell: nat) | DrawBits(n: nat) | DrawBytes(ell: nat, n: nat)

  /** A stretch [from, upto) of bits of the pad at one counter, read under one interpretation. */
  datatype Cell = Cell(counter: nat, from: nat, upto: nat, isXor: bool)

  /** The scalar cache is refilled when it is used up or was combined the other way. */
  function Refilled(p: Pos, isXor: bool): Pos {
    if p.ptr >= 128 || p.isXor != isXor then Pos(Succ128(p.counter), 0, isXor) else p
  }

  function Succ128(c: nat): nat {
    (c + 1) % W128
  }

  function Add128(c: nat, k: nat): nat {
    (c + k) % W128
  }

  /** The counter of the block a scalar draw reads. */
  function CachedAt(counter: nat): nat {
    (counter - 1) % W128
  }

  function Batches(units: nat, perBatch: nat): nat
    requires perBatch > 0
  {
    (units + perBatch - 1) / perBatch
  }

  function Next(p: Pos, req: Request): Pos {
    match req
    case DrawBit => var q := Refilled(p, true); q.(ptr := q.ptr + 1)
    case DrawByte(_) => var q := Refilled(p, false); q.(ptr := q.ptr + 8)
    case DrawBits(n) => Pos(Add128(p.counter, 4 * Batches(n, 512)), 128, p.isXor)
    case DrawBytes(_, n) => Pos(Add128(p.counter, 4 * Batches(n, 64)), 128, p.isXor)
  }

  // ---- no pad bit is read twice ----

  /** The pad counters a request moves past. */
  function Ticks(p: Pos, req: Request): nat {
    match req
    case DrawBit => if Refilled(p, true) == p then 0 else 1
    case DrawByte(_) => if Refilled(p, false) == p then 0 else 1
    case DrawBits(n) => 4 * Batches(n, 512)
    case DrawBytes(_, n) => 4 * Batches(n, 64)
  }

  function TicksOf(p: Pos, reqs: seq<Request>): nat
    decreases |reqs|
  {
    if reqs == [] then 0 else Ticks(p, reqs[0]) + TicksOf(Next(p, reqs[0]), reqs[1..])
  }

  /** Whole blocks, one per counter. */
  function Blocks128(c: nat, k: nat, isXor: bool): (cells: seq<Cell>)
    ensures |cells| == k && forall i :: 0 <= i < k ==> cells[i] == Cell(c + i, 0, 128, isXor)
  {
    if k == 0 then [] else Blocks128(c, k - 1, isXor) + [Cell(c + k - 1, 0, 128, isXor)]
  }

  /** What a request takes from the pad; a vector request takes the blocks of its last batch whole. */
  function Cells(p: Pos, req: Request): seq<Cell> {
    match req
    case DrawBit => var q := Refilled(p, true); [Cell(CachedAt(q.counter), q.ptr, q.ptr + 1, true)]
    case DrawByte(_) => var q := Refilled(p, false); [Cell(CachedAt(q.counter), q.ptr, q.ptr + 8, false)]
    case DrawBits(n) => Blocks128(p.counter, 4 * Batches(n, 512), true)
    case DrawBytes(_, n) => Blocks128(p.counter, 4 * Batches(n, 64), false)
  }

  function CellsOf(p: Pos, reqs: seq<Request>): seq<Cell>
    decreases |reqs|
  {
    if reqs == [] then [] else Cells(p, reqs[0]) + CellsOf(Next(p, reqs[0]), reqs[1..])
  }

  /** The second cell lies later in the pad: on a later counter, or further on in a block read the same way. */
  predicate Later(a: Cell, b: Cell) {
    a.counter < b.counter || (a.counter == b.counter && a.isXor == b.isXor && a.upto <= b.from)
  }

  /** Not yet consumed when the generator stands at p. */
  predicate Unused(p: Pos, c: Cell) {
    c.counter >= p.counter || (p.ptr < 128 && c.counter + 1 == p.counter && c.isXor == p.isXor && c.from >= p.ptr)
  }

  predicate ValidPos(p: Pos) {
    p.counter < W128 && p.ptr <= 128 && (p.ptr < 128 ==> p.counter > 0) && (!p.isXor ==> p.ptr % 8 == 0)
  }

  /** One request takes unused cells only, and everything unused afterwards is later than what it took. */
  lemma RequestAdvances(p: Pos, req: Request)
    requires ValidPos(p) && p.counter + Ticks(p, req) < W128
    ensures ValidPos(Next(p, req)) && Next(p, req).counter == p.counter + Ticks(p, req)
    ensures forall i :: 0 <= i < |Cells(p, req)| ==> Unused(p, Cells(p, req)[i])
    ensures forall i, k :: 0 <= i < k < |Cells(p, req)| ==> Later(Cells(p, req)[i], Cells(p, req)[k])
    ensures forall i, c: Cell :: 0 <= i < |Cells(p, req)| && Unused(Next(p, req), c) ==> Later(Cells(p, req)[i], c)
    ensures forall c: Cell :: Unused(Next(p, req), c) ==> Unused(p, c)
  {
    if req.DrawBit? || req.DrawByte? {
      ScalarAdvances(p, req);
    } else {
      VectorAdvances(p, req);
    }
    hide Cells, Next, Ticks, Later, Unused, ValidPos;
  }

  lemma ScalarAdvances(p: Pos, req: Request)
    requires ValidPos(p) && p.counter + Ticks(p, req) < W128 && (req.DrawBit? || req.DrawByte?)
    ensures ValidPos(Next(p, req)) && Next(p, req).counter == p.counter + Ticks(p, req)
    ensures |Cells(p, req)| == 1 && Unused(p, Cells(p, req)[0])
    ensures forall c: Cell :: Unused(Next(p, req), c) ==> Later(Cells(p, req)[0], c) && Unused(p, c)
  {
    Refills(p, req.DrawBit?);
    hide Refilled, CachedAt;
  }

  lemma Refills(p: Pos, isXor: bool)
    requires ValidPos(p) && (Refilled(p, isXor) == p || p.counter + 1 < W128)
    ensures var q := Refilled(p, isXor);
      && q.isXor == isXor && q.ptr < 128 && q.counter < W128 && q.counter > 0 && CachedAt(q.counter) == q.counter - 1
      && (q == p || (q.counter == p.counter + 1 && q.ptr == 0)) && (!isXor ==> q.ptr % 8 == 0)
  {
    var q := Refilled(p, isXor);
    assert q != p ==> (p.counter + 1) % W128 == p.counter + 1;
    assert (q.counter - 1) % W128 == q.counter - 1;
  }

  lemma VectorAdvances(p: Pos, req: Request)
    requires ValidPos(p) && p.counter + Ticks(p, req) < W128 && (req.DrawBits? || req.DrawBytes?)
    ensures ValidPos(Next(p, req)) && Next(p, req).counter == p.counter + Ticks(p, req)
    ensures forall i :: 0 <= i < |Cells(p, req)| ==> Unused(p, Cells(p, req)[i])
    ensures forall i, k :: 0 <= i < k < |Cells(p, req)| ==> Later(Cells(p, req)[i], Cells(p, req)[k])
    ensures forall i, c: Cell :: 0 <= i < |Cells(p, req)| && Unused(Next(p, req), c) ==> Later(Cells(p, req)[i], c)
    ensures forall c: Cell :: Unused(Next(p, req), c) ==> Unused(p, c)
  {
    assert (p.counter + Ticks(p, req)) % W128 == p.counter + Ticks(p, req);
    hide Batches;
  }

  /** Over any sequence of draws that stays below 2^128 counters, the cells come strictly one after the other: no
      bit of the pad is consumed twice and no counter under two interpretations. */
  lemma {:induction false} PadNeverReused(p: Pos, reqs: seq<Request>)
    requires ValidPos(p) && p.counter + TicksOf(p, reqs) < W128
    ensures forall i :: 0 <= i < |CellsOf(p, reqs)| ==> Unused(p, CellsOf(p, reqs)[i])
    ensures forall i, k :: 0 <= i < k < |CellsOf(p, reqs)| ==> Later(CellsOf(p, reqs)[i], CellsOf(p, reqs)[k])
    decreases |reqs|
  {
    hide Cells, Next, Ticks, Later, Unused, ValidPos;
    if reqs != [] {
      RequestAdvances(p, reqs[0]);
      PadNeverReused(Next(p, reqs[0]), reqs[1..]);
    }
  }

  // ---- what the values drawn have to do with the cells ----

  /** The values of one request are what the pad holds in its cells: the bits of an exclusive-or block, or the bytes of a
      difference block masked to the ring. */
  ghost predicate TakenFrom(own: Prf, prev: Prf, req: Request, cells: seq<Cell>, vals: seq<nat>) {
    match req
    case DrawBit => |vals| == 1 && |cells| == 1 && OneBit(own, prev, cells[0], 0, vals[0])
    case DrawByte(ell) => |vals| == 1 && |cells| == 1 && OneByte(own, prev, ell, cells[0], 0, vals[0])
    case DrawBits(n) =>
      |vals| == n && forall i: nat :: i < n ==> i / 128 < |cells| && OneBit(own, prev, cells[i / 128], i % 128, vals[i])
    case DrawBytes(ell, n) =>
      |vals| == n && forall i: nat :: i < n ==> i / 16 < |cells| && OneByte(own, prev, ell, cells[i / 16], i % 16, vals[i])
  }

  /** `val` is bit k of the cell. */
  predicate OneBit(own: Prf, prev: Prf, c: Cell, k: nat, val: nat) {
    c.isXor && c.from + k < c.upto && c.from + k < 128 && val == BitPad(own, prev, c.counter % W128, c.from + k)
  }

  /** `val` is byte j of the cell. */
  predicate OneByte(own: Prf, prev: Prf, ell: nat, c: Cell, j: nat, val: nat) {
    && !c.isXor && c.from % 8 == 0 && c.from + 8 * j + 8 <= c.upto && c.from / 8 + j < 16
    && val == BytePad(own, prev, ell, c.counter % W128, c.from / 8 + j)
  }

  /** All values of a run of requests that starts at p. */
  ghost predicate Drawn(own: Prf, prev: Prf, p: Pos, reqs: seq<Request>, vals: seq<seq<nat>>)
    decreases |reqs|
  {
    if reqs == [] then vals == []
    else
      && vals != [] && TakenFrom(own, prev, reqs[0], Cells(p, reqs[0]), vals[0])
      && Drawn(own, prev, Next(p, reqs[0]), reqs[1..], vals[1..])
  }

  function After(p: Pos, reqs: seq<Request>): Pos
    decreases |reqs|
  {
    if reqs == [] then p else After(Next(p, reqs[0]), reqs[1..])
  }

  lemma BitTaken(own: Prf, prev: Prf, p: Pos, bit: nat)
    requires var q := Refilled(p, true); q.ptr < 128 && bit == BitPad(own, prev, CachedAt(q.counter), q.ptr)
    ensures TakenFrom(own, prev, DrawBit, Cells(p, DrawBit), [bit])
  {
    hide BitPad;
    Wrapped(Refilled(p, true).counter);
  }

  lemma ByteTaken(own: Prf, prev: Prf, ell: nat, p: Pos, val: nat)
    requires var q := Refilled(p, false);
      q.ptr < 128 && q.ptr % 8 == 0 && val == BytePad(own, prev, ell, CachedAt(q.counter), q.ptr / 8)
    ensures TakenFrom(own, prev, DrawByte(ell), Cells(p, DrawByte(ell)), [val])
  {
    hide BytePad;
    Wrapped(Refilled(p, false).counter);
  }

  lemma Wrapped(c: nat)
    ensures CachedAt(c) % W128 == CachedAt(c)
  {
  }

  lemma BitsTaken(own: Prf, prev: Prf, p: Pos, out: seq<nat>)
    requires BitsFrom(out, own, prev, p.counter, |out|)
    ensures TakenFrom(own, prev, DrawBits(|out|), Cells(p, DrawBits(|out|)), out)
  {
    hide BitPad;
    var cells := Cells(p, DrawBits(|out|));
    forall i: nat | i < |out|
      ensures i / 128 < |cells| && OneBit(own, prev, cells[i / 128], i % 128, out[i])
    {
      assert i / 128 < 4 * Batches(|out|, 512);
      assert out[i] == BitPad(own, prev, Add128(p.counter, i / 128), i % 128);
    }
  }

  lemma BytesTaken(own: Prf, prev: Prf, ell: nat, p: Pos, out: seq<nat>)
    requires BytesFrom(out, own, prev, ell, p.counter, |out|)
    ensures TakenFrom(own, prev, DrawBytes(ell, |out|), Cells(p, DrawBytes(ell, |out|)), out)
  {
    hide BytePad;
    var cells := Cells(p, DrawBytes(ell, |out|));
    forall i: nat | i < |out|
      ensures i / 16 < |cells| && OneByte(own, prev, ell, cells[i / 16], i % 16, out[i])
    {
      assert i / 16 < 4 * Batches(|out|, 64);
      assert out[i] == BytePad(own, prev, ell, Add128(p.counter, i / 16), i % 16);
    }
  }

  // ---- the generator object ----

  lemma {:induction false} BitOfValue(bits: seq<bool>, t: nat)
    requires t < |bits|
    ensures Shr(BitsValue(bits), t) % 2 == Bit(bits[t])
  {
    if t != 0 {
      BitOfValue(bits[1..], t - 1);
      ShrHalf(BitsValue(bits), t);
    }
  }

  lemma {:induction false} ShrHalf(x: nat, t: nat)
    requires t > 0
    ensures Shr(x, t) == Shr(x / 2, t - 1)
  {
    if t > 1 {
      ShrHalf(x, t - 1);
    }
  }

  /** The cached block as bytes. */
  function Combined(own: Prf, prev: Prf, isXor: bool, c: nat): (r: seq<nat>)
    ensures |r| == 16
    ensures forall j :: 0 <= j < 16 ==>
      r[j] == if isXor then Byte(Xor(own(c), prev(c)), j) else (Byte(own(c), j) - Byte(prev(c), j)) % 256
  {
    seq(16, j requires 0 <= j < 16 =>
      if isXor then Byte(Xor(own(c), prev(c)), j) else (Byte(own(c), j) - Byte(prev(c), j)) % 256)
  }

  lemma CachedBit(own: Prf, prev: Prf, c: nat, ptr: nat)
    requires ptr < 128
    ensures Shr(Combined(own, prev, true, c)[ptr / 8], ptr % 8) % 2 == BitPad(own, prev, c, ptr)
  {
    hide Xor, Shr;
    var block := Xor(own(c), prev(c));
    var j := ptr / 8;
    BitOfValue(block.bits[8 * j..8 * j + 8], ptr % 8);
    assert block.bits[8 * j..8 * j + 8][ptr % 8] == block.bits[ptr];
  }

  lemma CachedByte(own: Prf, prev: Prf, ell: nat, c: nat, j: nat)
    requires j < 16
    ensures Mask8(ell, Combined(own, prev, false, c)[j]) == BytePad(own, prev, ell, c, j)
  {
  }

  /** The k-th block id of a batch: the low limb may wrap and carries into the high one. */
  function BatchId(lo: nat, hi: nat, k: nat): nat {
    var l := (lo + k) % W64;
    ((hi + if l < lo then 1 else 0) % W64) * W64 + l
  }

  lemma BatchIdIs(lo: nat, hi: nat, k: nat)
    requires lo < W64 && hi < W64 && k <= 4
    ensures BatchId(lo, hi, k) == Add128(hi * W64 + lo, k)
  {
    if lo + k < W64 {
      assert (lo + k) % W64 == lo + k;
    } else {
      assert (lo + k) % W64 == lo + k - W64;
      if hi + 1 < W64 {
        assert (hi + 1) % W64 == hi + 1;
      }
    }
  }

  /** The two limbs after an addition to the low one. */
  lemma CarryIs(lo: nat, hi: nat, k: nat)
    requires lo < W64 && hi < W64 && 1 <= k <= 4
    ensures var lo' := (lo + k) % W64;
      (if lo' < k then (hi + 1) % W64 else hi) * W64 + lo' == Add128(hi * W64 + lo, k)
  {
    BatchIdIs(lo, hi, k);
    hide Add128;
    if lo + k < W64 {
      assert (lo + k) % W64 == lo + k;
      assert hi % W64 == hi;
    } else {
      assert (lo + k) % W64 == lo + k - W64;
    }
  }

  lemma CounterBehind(c: nat)
    requires c < W128
    ensures CachedAt(Succ128(c)) == c && Add128(c, 1) == Succ128(c)
  {
  }

  lemma AddTwice(c: nat, a: nat, b: nat)
    ensures Add128(Add128(c, a), b) == Add128(c, a + b)
  {
  }

  /** One 64-bit lane written to element positions 64 w, 64 w + 1, ... that exist. */
  method WriteWord(out: array<nat>, w: nat, lane: seq<bool>)
    requires |lane| == 64 && 64 * w < out.Length
    modifies out
    ensures forall i :: 0 <= i < out.Length ==>
      out[i] == if 64 * w <= i < 64 * w + 64 then Bit(lane[i - 64 * w]) else old(out[i])
  {
    var b := 0;
    while b < 64 && 64 * w + b < out.Length
      invariant 0 <= b <= 64 && 64 * w + b <= out.Length
      invariant forall i :: 0 <= i < out.Length ==>
        out[i] == if 64 * w <= i < 64 * w + b then Bit(lane[i - 64 * w]) else old(out[i])
    {
      out[64 * w + b] := Bit(lane[b]);
      b := b + 1;
    }
  }

  /** The two lanes of one block, the second only if the vector has that word. */
  method WriteBlock(out: array<nat>, w: nat, words: nat, raw: Block) returns (w': nat)
    requires w < words == (out.Length + 63) / 64
    modifies out
    ensures w' == Min(w + 2, words)
    ensures forall i :: 0 <= i < out.Length ==>
      out[i] == if 64 * w <= i < 64 * w + 128 then Bit(raw.bits[i - 64 * w]) else old(out[i])
  {
    hide Bit;
    WriteWord(out, w, raw.bits[..64]);
    w' := w + 1;
    if w' < words {
      WriteWord(out, w', raw.bits[64..]);
      w' := w' + 1;
    }
  }

  lemma BlockExtends(out: seq<nat>, before: seq<nat>, own: Prf, prev: Prf, c: nat, block: nat)
    requires |out| == |before| && BitsFrom(before, own, prev, c, Min(128 * block, |out|))
    requires var raw := Xor(own(Add128(c, block)), prev(Add128(c, block)));
      forall i :: 0 <= i < |out| ==>
        out[i] == if 128 * block <= i < 128 * block + 128 then Bit(raw.bits[i - 128 * block]) else before[i]
    ensures BitsFrom(out, own, prev, c, Min(128 * block + 128, |out|))
  {
    hide Add128, Xor, Bit;
    forall i: nat | i < Min(128 * block + 128, |out|)
      ensures out[i] == BitPad(own, prev, Add128(c, i / 128), i % 128)
    {
      if i >= 128 * block {
        assert i / 128 == block && i % 128 == i - 128 * block;
      }
    }
  }

  lemma BatchCount(n: nat, words: nat, it: nat)
    requires words == (n + 63) / 64 && words <= 8 * it && (it > 0 ==> 8 * (it - 1) < words)
    ensures it == Batches(n, 512)
  {
  }

  lemma AddNothing(c: nat)
    requires c < W128
    ensures Add128(c, 0) == c
  {
  }

  /** The first `upto` elements of a bit vector come from the pad, 128 to a block. */
  ghost predicate BitsFrom(out: seq<nat>, own: Prf, prev: Prf, c: nat, upto: int) {
    upto <= |out| && forall i: nat :: i < upto ==> out[i] == BitPad(own, prev, Add128(c, i / 128), i % 128)
  }

  /** The first `upto` elements of a byte vector come from the pad, 16 to a block. */
  ghost predicate BytesFrom(out: seq<nat>, own: Prf, prev: Prf, ell: nat, c: nat, upto: int) {
    upto <= |out| && forall i: nat :: i < upto ==> out[i] == BytePad(own, prev, ell, Add128(c, i / 16), i % 16)
  }

  class Generator {
    const own: Prf
    const prev: Prf
    var lo: nat
    var hi: nat
    var crngCache: seq<nat>
    var crngPtr: nat
    var crngIsXor: bool

    ghost predicate Valid()
      reads this
    {
      && lo < W64 && hi < W64 && crngPtr <= 128 && (!crngIsXor ==> crngPtr % 8 == 0) && |crngCache| == 16
      && (crngPtr < 128 ==> crngCache == Combined(own, prev, crngIsXor, CachedAt(Counter())))
    }

    ghost function Counter(): nat
      reads this`lo, this`hi
    {
      hi * W64 + lo
    }

    ghost function Here(): Pos
      reads this
    {
      Pos(Counter(), crngPtr, crngIsXor)
    }

    constructor (own: Prf, prev: Prf)
      ensures Valid() && this.own == own && this.prev == prev && Here() == Pos(0, 128, false)
    {
      this.own, this.prev := own, prev;
      lo, hi := 0, 0;
      crngCache := seq(16, i => 0);
      crngPtr := 128;
      crngIsXor := false;
    }

    /** Two 64-bit limbs with a carry. */
    method RefillCrngCache(isXor: bool)
      requires lo < W64 && hi < W64
      modifies this`lo, this`hi, this`crngCache
      ensures lo < W64 && hi < W64 && Counter() == Succ128(old(Counter())) && CachedAt(Counter()) == old(Counter())
      ensures crngCache == Combined(own, prev, isXor, old(Counter()))
    {
      hide Combined, Succ128, CachedAt;
      CarryIs(lo, hi, 1);
      CounterBehind(Counter());
      hide Add128;
      crngCache := Combined(own, prev, isXor, hi * W64 + lo);
      lo := (lo + 1) % W64;
      if lo == 0 {
        hi := (hi + 1) % W64;
      }
    }

    /** Refill the scalar cache when it is used up or was combined the other way. */
    method Ready(isXor: bool)
      requires Valid()
      modifies this
      ensures Valid() && Here() == Refilled(old(Here()), isXor) && crngPtr < 128 && crngIsXor == isXor
    {
      hide Combined, Succ128, CachedAt, Counter;
      if crngPtr >= 128 || crngIsXor != isXor {
        RefillCrngCache(isXor);
        crngPtr := 0;
        crngIsXor := isXor;
      }
    }

    method CrngBit() returns (bit: nat)
      requires Valid()
      modifies this
      ensures Valid() && Here() == Next(old(Here()), DrawBit)
      ensures var q := Refilled(old(Here()), true); bit == BitPad(own, prev, CachedAt(q.counter), q.ptr)
      ensures TakenFrom(own, prev, DrawBit, Cells(old(Here()), DrawBit), [bit])
    {
      hide Combined, BitPad, Shr, Refilled, CachedAt, Counter, TakenFrom, Cells;
      Ready(true);
      bit := Shr(crngCache[crngPtr / 8], crngPtr % 8) % 2;
      CachedBit(own, prev, CachedAt(Counter()), crngPtr);
      BitTaken(own, prev, old(Here()), bit);
      crngPtr := crngPtr + 1;
    }

    method CrngByte(ell: nat) returns (val: nat)
      requires Valid()
      modifies this
      ensures Valid() && Here() == Next(old(Here()), DrawByte(ell))
      ensures var q := Refilled(old(Here()), false); val == BytePad(own, prev, ell, CachedAt(q.counter), q.ptr / 8)
      ensures TakenFrom(own, prev, DrawByte(ell), Cells(old(Here()), DrawByte(ell)), [val])
    {
      hide Combined, BytePad, Refilled, CachedAt, Counter, Mask8, TakenFrom, Cells;
      Ready(false);
      val := Mask8(ell, crngCache[crngPtr / 8]);
      CachedByte(own, prev, ell, CachedAt(Counter()), crngPtr / 8);
      ByteTaken(own, prev, ell, old(Here()), val);
      crngPtr := crngPtr + 8;
    }

    /** Move the counter four blocks on. */
    method NextBatch()
      requires lo < W64 && hi < W64
      modifies this`lo, this`hi
      ensures lo < W64 && hi < W64 && Counter() == Add128(old(Counter()), 4)
    {
      hide Add128;
      CarryIs(lo, hi, 4);
      lo := (lo + 4) % W64;
      if lo < 4 {
        hi := (hi + 1) % W64;
      }
    }

    /** The four blocks of one batch, two words a block, as far as the vector goes. */
    method BatchBits(out: array<nat>, w0: nat, words: nat, baseLo: nat, baseHi: nat, ghost c0: nat, ghost it: nat)
      returns (w: nat)
      requires baseLo < W64 && baseHi < W64 && words == (out.Length + 63) / 64 && w0 == Min(8 * it, words)
      requires baseHi * W64 + baseLo == Add128(c0, 4 * it) && BitsFrom(out[..], own, prev, c0, Min(64 * w0, out.Length))
      modifies out
      ensures w == Min(8 * it + 8, words) && BitsFrom(out[..], own, prev, c0, Min(64 * w, out.Length))
    {
      hide Add128, BitPad, Xor, BatchId, BitsFrom;
      w := w0;
      var k := 0;
      while k < 4 && w < words
        invariant 0 <= k <= 4 && w == Min(8 * it + 2 * k, words)
        invariant BitsFrom(out[..], own, prev, c0, Min(64 * w, out.Length))
      {
        var id := BatchId(baseLo, baseHi, k);
        BatchIdIs(baseLo, baseHi, k);
        AddTwice(c0, 4 * it, k);
        var raw := Xor(own(id), prev(id));
        ghost var before := out[..];
        w := WriteBlock(out, w, words, raw);
        BlockExtends(out[..], before, own, prev, c0, 4 * it + k);
        k := k + 1;
      }
    }

    /** A vector over Z_2. */
    method CrngBits(out: array<nat>)
      requires Valid()
      modifies this, out
      ensures Valid() && Here() == Next(old(Here()), DrawBits(out.Length))
      ensures BitsFrom(out[..], own, prev, old(Here().counter), out.Length)
      ensures TakenFrom(own, prev, DrawBits(out.Length), Cells(old(Here()), DrawBits(out.Length)), out[..])
    {
      hide Add128, BitPad, Batches, TakenFrom, Cells, CachedAt, Combined;
      var n := out.Length;
      var words := (n + 63) / 64;
      var w := 0;
      ghost var c0 := Counter();
      ghost var it := 0;
      AddNothing(c0);
      while w < words
        invariant lo < W64 && hi < W64 && crngIsXor == old(crngIsXor) && crngCache == old(crngCache)
        invariant w == Min(8 * it, words) && (it > 0 ==> 8 * (it - 1) < words)
        invariant Counter() == Add128(c0, 4 * it)
        invariant BitsFrom(out[..], own, prev, c0, Min(64 * w, n))
        decreases words - w
      {
        var baseLo, baseHi := lo, hi;
        NextBatch();
        AddTwice(c0, 4 * it, 4);
        w := BatchBits(out, w, words, baseLo, baseHi, c0, it);
        it := it + 1;
      }
      BatchCount(n, words, it);
      crngPtr := 128;
      BitsTaken(own, prev, old(Here()), out[..]);
    }

    /** The four blocks of one batch, one byte an element, masked. */
    method BatchBytes(ell: nat, out: array<nat>, i0: nat, baseLo: nat, baseHi: nat, ghost c0: nat, ghost it: nat)
      returns (i: nat)
      requires baseLo < W64 && baseHi < W64 && i0 == Min(64 * it, out.Length)
      requires baseHi * W64 + baseLo == Add128(c0, 4 * it) && BytesFrom(out[..], own, prev, ell, c0, i0)
      modifies out
      ensures i == Min(64 * it + 64, out.Length) && BytesFrom(out[..], own, prev, ell, c0, i)
    {
      hide Add128, BytePad, Mask8, Combined, BatchId, BytesFrom;
      i := i0;
      var k := 0;
      while k < 4 && i < out.Length
        invariant 0 <= k <= 4 && i == Min(64 * it + 16 * k, out.Length)
        invariant BytesFrom(out[..], own, prev, ell, c0, i)
      {
        var id := BatchId(baseLo, baseHi, k);
        BatchIdIs(baseLo, baseHi, k);
        AddTwice(c0, 4 * it, k);
        var correlated := Combined(own, prev, false, id);
        var batch := Min(out.Length - i, 16);
        CopyMasked(ell, out, i, correlated, batch, own, prev, c0, 4 * it + k);
        i := i + batch;
        k := k + 1;
      }
    }

    /** A vector over Z_{2^ell}, ell >= 2. */
    method CrngBytes(ell: nat, out: array<nat>)
      requires Valid()
      modifies this, out
      ensures Valid() && Here() == Next(old(Here()), DrawBytes(ell, out.Length))
      ensures BytesFrom(out[..], own, prev, ell, old(Here().counter), out.Length)
      ensures TakenFrom(own, prev, DrawBytes(ell, out.Length), Cells(old(Here()), DrawBytes(ell, out.Length)), out[..])
    {
      hide Add128, BytePad, TakenFrom, Cells, CachedAt, Combined;
      var n := out.Length;
      var i := 0;
      ghost var c0 := Counter();
      ghost var it := 0;
      AddNothing(c0);
      while i < n
        invariant lo < W64 && hi < W64 && crngIsXor == old(crngIsXor) && crngCache == old(crngCache)
        invariant i == Min(64 * it, n) && (it > 0 ==> 64 * (it - 1) < n)
        invariant Counter() == Add128(c0, 4 * it)
        invariant BytesFrom(out[..], own, prev, ell, c0, i)
        decreases n - i
      {
        var baseLo, baseHi := lo, hi;
        NextBatch();
        AddTwice(c0, 4 * it, 4);
        i := BatchBytes(ell, out, i, baseLo, baseHi, c0, it);
        it := it + 1;
      }
      assert it == Batches(n, 64);
      crngPtr := 128;
      BytesTaken(own, prev, ell, old(Here()), out[..]);
    }

    /** One request of a run; a vector goes to a buffer of its own. */
    method Draw(req: Request) returns (vals: seq<nat>)
      requires Valid()
      modifies this
      ensures Valid() && Here() == Next(old(Here()), req)
      ensures TakenFrom(own, prev, req, Cells(old(Here()), req), vals)
    {
      hide TakenFrom, Cells, Next, Valid, BitsFrom, BytesFrom;
      match req
      case DrawBit =>
        var bit := CrngBit();
        vals := [bit];
      case DrawByte(ell) =>
        var val := CrngByte(ell);
        vals := [val];
      case DrawBits(n) =>
        var out := new nat[n];
        CrngBits(out);
        vals := out[..];
      case DrawBytes(ell, n) =>
        var out := new nat[n];
        CrngBytes(ell, out);
        vals := out[..];
    }

    /** Any run of requests: the values come from the run's cells, and as long as the counter has not come round these lie
        strictly one after the other, so no bit of the pad goes into two values. */
    method DrawAll(reqs: seq<Request>) returns (vals: seq<seq<nat>>)
      requires Valid()
      modifies this
      ensures Valid() && Here() == After(old(Here()), reqs)
      ensures Drawn(own, prev, old(Here()), reqs, vals)
      ensures ValidPos(old(Here())) && old(Counter()) + TicksOf(old(Here()), reqs) < W128 ==>
        var cells := CellsOf(old(Here()), reqs);
        forall i, k :: 0 <= i < k < |cells| ==> Later(cells[i], cells[k])
      decreases |reqs|
    {
      hide TakenFrom, Cells, Next, Ticks, Later, Unused;
      ghost var p := Here();
      if ValidPos(p) && p.counter + TicksOf(p, reqs) < W128 {
        PadNeverReused(p, reqs);
      }
      if reqs == [] {
        return [];
      }
      var first := Draw(reqs[0]);
      var rest := DrawAll(reqs[1..]);
      vals := [first] + rest;
      assert vals[1..] == rest;
    }
  }

  /** Up to sixteen bytes of one combined block, masked to the ring. */
  method CopyMasked(ell: nat, out: array<nat>, i: nat, correlated: seq<nat>, batch: nat,
                    ghost own: Prf, ghost prev: Prf, ghost c: nat, ghost block: nat)
    requires batch <= 16 && i == 16 * block && i + batch <= out.Length
    requires correlated == Combined(own, prev, false, Add128(c, block))
    requires BytesFrom(out[..], own, prev, ell, c, i)
    modifies out
    ensures BytesFrom(out[..], own, prev, ell, c, i + batch)
  {
    hide Add128, BytePad, Mask8, Combined;
    for b := 0 to batch
      invariant BytesFrom(out[..], own, prev, ell, c, i + b)
    {
      assert (i + b) / 16 == block && (i + b) % 16 == b;
      CachedByte(own, prev, ell, Add128(c, block), b);
      out[i + b] := Mask8(ell, correlated[b]);
    }
  }
}
