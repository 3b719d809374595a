/** Packing and unpacking whole ring vectors for ELL = 1 .. 8: bits are copied word by word and bytes byte by byte, the
    widths in between go through the group loops.  In every case the packed bytes are the bit string that the elements'
    low ELL bits make, least significant bit first. */
module PackVectors {
  import opened Ring
  import opened Blocks
  import opened Packing
  import opened BitVectors

  predicate RingEll(ell: nat) {
    1 <= ell <= 8
  }

  function PackedSize(ell: nat, n: nat): nat
    requires RingEll(ell)
  {
    if ell == 1 then WordsFor(n) * 8 else if ell == 8 then n else BytesFor(ell, n)
  }

  /** The buffer a packed vector is sent from and received into. */
  class PackBuffer {
    const ell: nat
    const n: nat
    const buf: array<Byte>

    ghost predicate Valid() {
      RingEll(ell) && buf.Length == PackedSize(ell, n)
    }

    constructor (ell: nat, n: nat)
      requires RingEll(ell)
      ensures Valid() && this.ell == ell && this.n == n && fresh(buf)
    {
      this.ell, this.n := ell, n;
      buf := new Byte[PackedSize(ell, n)];
    }
  }

  // ---- ELL = 2 .. 8, one element to a byte ----

  /** Every byte is an element of the ring. */
  ghost predicate InRing(ell: nat, s: seq<Byte>) {
    forall i, t :: 0 <= i < |s| && ell <= t < 8 ==> !s[i][t]
  }

  /** The bytes are the bit string of the elements. */
  ghost predicate Holds(ell: nat, s: seq<Byte>, bytes: seq<Byte>)
    requires 2 <= ell <= 8
  {
    |bytes| == PackedSize(ell, |s|)
    && forall o, t :: 0 <= o < |bytes| && 0 <= t < 8 ==> (bytes[o][t] <==> FieldBit(ell, s, 8 * o + t))
  }

  method CopyBytes(src: array<Byte>, dst: array<Byte>)
    requires src.Length == dst.Length && src != dst
    modifies dst
    ensures dst[..] == src[..]
  {
    for i := 0 to src.Length
      invariant dst[..i] == src[..i]
    {
      dst[i] := src[i];
    }
  }

  /** Eight bits an element are their own bit string, and nothing else is. */
  lemma BytesHoldThemselves(s: seq<Byte>, bytes: seq<Byte>)
    ensures Holds(8, s, bytes) <==> bytes == s
  {
    forall o: nat, t: nat | o < |s| && t < 8
      ensures FieldBit(8, s, 8 * o + t) <==> s[o][t]
    {
      FieldShift(8, o, t);
    }
    if Holds(8, s, bytes) {
      forall o | 0 <= o < |s|
        ensures bytes[o] == s[o]
      {
        forall t: nat | t < 8
          ensures bytes[o][t] == s[o][t]
        {
        }
      }
    }
  }

  lemma PacksHolds(ell: nat, s: seq<Byte>, bytes: seq<Byte>)
    requires PackedEll(ell)
    ensures Packs(ell, s, bytes) <==> Holds(ell, s, bytes)
  {
  }

  method PackRvec(ell: nat, src: array<Byte>, auxBuf: PackBuffer) returns (ok: bool)
    requires 2 <= ell <= 8 && auxBuf.Valid() && auxBuf.buf != src
    modifies auxBuf.buf
    ensures ok <==> auxBuf.ell == ell && auxBuf.n == src.Length
    ensures ok ==> Holds(ell, src[..], auxBuf.buf[..])
    ensures !ok ==> auxBuf.buf[..] == old(auxBuf.buf[..])
  {
    hide Packs, Holds;
    if auxBuf.ell != ell || auxBuf.n != src.Length {
      return false;
    }
    if ell == 8 {
      CopyBytes(src, auxBuf.buf);
      BytesHoldThemselves(src[..], auxBuf.buf[..]);
    } else {
      var _ := Pack(ell, src, auxBuf.buf);
      PacksHolds(ell, src[..], auxBuf.buf[..]);
    }
    return true;
  }

  /** Whatever ring vector the bytes hold comes out of them. */
  method UnpackRvec(ell: nat, auxBuf: PackBuffer, dst: array<Byte>) returns (ok: bool)
    requires 2 <= ell <= 8 && auxBuf.Valid() && auxBuf.buf != dst
    modifies dst
    ensures ok <==> auxBuf.ell == ell && auxBuf.n == dst.Length
    ensures ok ==> forall s: seq<Byte> ::
      |s| == dst.Length && InRing(ell, s) && Holds(ell, s, auxBuf.buf[..]) ==> dst[..] == s
    ensures !ok ==> dst[..] == old(dst[..])
  {
    hide Packs, Unpacks, Holds, InRing;
    if auxBuf.ell != ell || auxBuf.n != dst.Length {
      return false;
    }
    ghost var bytes := auxBuf.buf[..];
    if ell == 8 {
      CopyBytes(auxBuf.buf, dst);
      forall s | Holds(8, s, bytes)
        ensures dst[..] == s
      {
        BytesHoldThemselves(s, bytes);
      }
    } else {
      Unpack(ell, auxBuf.buf, dst);
      ghost var was := dst[..];
      Canonicalize(ell, dst);
      forall s | |s| == dst.Length && InRing(ell, s) && Holds(ell, s, bytes)
        ensures dst[..] == s
      {
        UnpackedIs(ell, s, bytes, was, dst[..]);
      }
    }
    return true;
  }

  lemma UnpackedIs(ell: nat, s: seq<Byte>, bytes: seq<Byte>, was: seq<Byte>, now: seq<Byte>)
    requires PackedEll(ell) && InRing(ell, s) && Holds(ell, s, bytes) && |now| == |was| == |s|
    requires Unpacks(ell, bytes, was) && forall i :: 0 <= i < |s| ==> now[i] == ShrMasked(was[i], 0, ell)
    ensures now == s
  {
    hide Packs, Unpacks, Holds;
    PacksHolds(ell, s, bytes);
    RoundTrip(ell, s, bytes, was);
    forall i | 0 <= i < |s|
      ensures now[i] == s[i]
    {
      assert ShrMasked(s[i], 0, ell) == s[i];
    }
  }

  // ---- ELL = 1, 64 elements to a word ----

  /** Bit g of the packed bytes is element g, and zero beyond the last element. */
  ghost predicate HoldsBits(v: BitVec, bytes: seq<Byte>)
    requires v.Valid()
    reads v.data
  {
    |bytes| == WordsFor(v.n) * 8
    && forall o, t :: 0 <= o < |bytes| && 0 <= t < 8 ==> (bytes[o][t] <==> 8 * o + t < v.n && v.Get(8 * o + t))
  }

  /** The eight bytes of every word, least significant first. */
  method PackBits(src: BitVec, auxBuf: PackBuffer) returns (ok: bool)
    requires src.Valid() && src.Canonical() && auxBuf.Valid()
    modifies auxBuf.buf
    ensures ok <==> auxBuf.ell == 1 && auxBuf.n == src.n
    ensures ok ==> HoldsBits(src, auxBuf.buf[..])
    ensures !ok ==> auxBuf.buf[..] == old(auxBuf.buf[..])
  {
    if auxBuf.ell != 1 || auxBuf.n != src.n {
      return false;
    }
    for o := 0 to auxBuf.buf.Length
      invariant forall k :: 0 <= k < o ==> auxBuf.buf[k] == src.data[k / 8][8 * (k % 8)..8 * (k % 8) + 8]
    {
      auxBuf.buf[o] := src.data[o / 8][8 * (o % 8)..8 * (o % 8) + 8];
    }
    forall o: nat, t: nat | o < auxBuf.buf.Length && t < 8
      ensures auxBuf.buf[o][t] <==> 8 * o + t < src.n && src.Get(8 * o + t)
    {
      WordByte(o, t);
      assert auxBuf.buf[o][t] <==> src.data[o / 8][8 * (o % 8) + t];
    }
    return true;
  }

  lemma WordByte(o: nat, t: nat)
    requires t < 8
    ensures (8 * o + t) / 64 == o / 8 && (8 * o + t) % 64 == 8 * (o % 8) + t
  {
    DivUnique(o / 8, 8 * (o % 8) + t, 64);
  }

  /** The word whose bytes start at `from`. */
  function WordOf(bytes: seq<Byte>, from: nat): Word
    requires from + 8 <= |bytes|
  {
    seq(64, k requires 0 <= k < 64 => bytes[from + k / 8][k % 8])
  }

  method UnpackBits(auxBuf: PackBuffer, dst: BitVec) returns (ok: bool)
    requires dst.Valid() && auxBuf.Valid()
    modifies dst.data
    ensures ok <==> auxBuf.ell == 1 && auxBuf.n == dst.n
    ensures ok ==> dst.Canonical() && forall i :: 0 <= i < dst.n ==> (dst.Get(i) <==> auxBuf.buf[i / 8][i % 8])
    ensures !ok ==> dst.data[..] == old(dst.data[..])
  {
    if auxBuf.ell != 1 || auxBuf.n != dst.n {
      return false;
    }
    for w := 0 to dst.data.Length
      invariant forall k :: 0 <= k < w ==> dst.data[k] == WordOf(auxBuf.buf[..], 8 * k)
    {
      dst.data[w] := WordOf(auxBuf.buf[..], 8 * w);
    }
    assert forall i :: 0 <= i < dst.n ==> (dst.Get(i) <==> auxBuf.buf[i / 8][i % 8]);
    dst.MaskPartialLastWord();
    return true;
  }

  // ---- round trips ----

  /** packRvec followed by unpackRvec, one element to a byte. */
  method PackThenUnpack(ell: nat, src: array<Byte>, auxBuf: PackBuffer, dst: array<Byte>)
    requires 2 <= ell <= 8 && auxBuf.Valid() && auxBuf.ell == ell && auxBuf.n == src.Length == dst.Length
    requires auxBuf.buf != src && auxBuf.buf != dst && src != dst && InRing(ell, src[..])
    modifies auxBuf.buf, dst
    ensures dst[..] == src[..]
  {
    hide Holds, InRing;
    var _ := PackRvec(ell, src, auxBuf);
    var _ := UnpackRvec(ell, auxBuf, dst);
  }

  /** packRvec followed by unpackRvec for bits. */
  method PackThenUnpackBits(src: BitVec, auxBuf: PackBuffer, dst: BitVec)
    requires src.Valid() && src.Canonical() && dst.Valid() && auxBuf.Valid() && src.data != dst.data
    requires auxBuf.ell == 1 && auxBuf.n == src.n && auxBuf.n == dst.n
    modifies auxBuf.buf, dst.data
    ensures dst.Canonical() && dst.Elements() == src.Elements()
  {
    var _ := PackBits(src, auxBuf);
    var _ := UnpackBits(auxBuf, dst);
    forall i: nat | i < src.n
      ensures dst.Get(i) == src.Get(i)
    {
      assert i / 8 < auxBuf.buf.Length && 8 * (i / 8) + i % 8 == i;
    }
  }
}
