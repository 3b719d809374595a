/** Packing ring vectors with ELL = 2 .. 7 bits an element into bytes, and back: groups of elements that fill whole bytes
    go through one machine word, a tail follows.  Bits are numbered from the least significant one; elements come one to
    a byte. */
module Packing {
  import opened Ring
  import opened Blocks

  predicate PackedEll(ell: nat) {
    2 <= ell <= 7
  }

  /** Elements to a group, bytes to a group and the width of the word a group passes through. */
  function GroupElems(ell: nat): (g: nat)
    requires PackedEll(ell)
    ensures g > 0
  {
    if ell == 2 || ell == 6 then 4 else if ell == 4 then 2 else 8
  }

  function GroupBytes(ell: nat): (b: nat)
    requires PackedEll(ell)
    ensures b > 0 && GroupElems(ell) * ell == 8 * b <= WordWidth(ell)
  {
    if ell == 2 || ell == 4 then 1 else if ell == 6 then 3 else ell
  }

  function WordWidth(ell: nat): nat
    requires PackedEll(ell)
  {
    if ell == 2 || ell == 4 then 8 else if ell == 3 || ell == 6 then 32 else 64
  }

  function BytesFor(ell: nat, n: nat): nat {
    (n * ell + 7) / 8
  }

  // ---- machine words as bit strings ----

  function Or(a: seq<bool>, b: seq<bool>): (r: seq<bool>)
    requires |a| == |b|
  {
    seq(|a|, k requires 0 <= k < |a| => a[k] || b[k])
  }

  /** The low `keep` bits of v, moved up by `up` in a word of the given width; what leaves the word is lost. */
  function MaskedShl(width: nat, v: Byte, keep: nat, up: nat): (r: seq<bool>)
    ensures |r| == width
  {
    seq(width, k requires 0 <= k < width => up <= k < up + keep && k - up < 8 && v[k - up])
  }

  /** The low `keep` bits after moving down. */
  function ShrMasked(word: seq<bool>, down: nat, keep: nat): (r: Byte)
  {
    seq(8, k requires 0 <= k < 8 => k < keep && k + down < |word| && word[k + down])
  }

  // ---- positions ----

  lemma FieldAt(f: nat, j: nat, p: nat)
    requires f > 0 && j * f <= p < (j + 1) * f
    ensures p / f == j && p % f == p - j * f
  {
    Distribute(j, 1, f);
    DivUnique(j, p - j * f, f);
  }

  lemma FieldShift(f: nat, i: nat, p: nat)
    requires f > 0
    ensures (i * f + p) / f == i + p / f && (i * f + p) % f == p % f
  {
    var q := Quotient(p, f);
    Distribute(i, q, f);
    DivUnique(i + q, p % f, f);
  }

  /** p lies in one of the first `count` fields exactly when its field number is below `count`. */
  lemma FieldBelow(f: nat, count: nat, p: nat)
    requires f > 0
    ensures p < count * f <==> p / f < count
  {
    var q := Quotient(p, f);
    Distribute(count, q, f);
    MulSign(count - q - 1, f);
    Distribute(count - q, 1, f);
    MulSign(q - count, f);
  }

  /** Bit p of the string that the low f bits of the elements make. */
  predicate FieldBit(f: nat, s: seq<Byte>, p: nat)
    requires 0 < f <= 8
  {
    p / f < |s| && s[p / f][p % f]
  }

  lemma FieldBitShift(f: nat, s: seq<Byte>, at: nat, count: nat, p: nat)
    requires 0 < f <= 8 && at + count <= |s|
    ensures p < count * f ==> (FieldBit(f, s[at..at + count], p) <==> FieldBit(f, s, at * f + p))
    ensures p >= count * f ==> !FieldBit(f, s[at..at + count], p)
  {
    FieldShift(f, at, p);
    FieldBelow(f, count, p);
  }

  // ---- a word made of fields ----

  /** Masked elements OR-ed into a word one after the other. */
  method OrFields(width: nat, f: nat, src: array<Byte>, at: nat, count: nat) returns (bits: seq<bool>)
    requires 0 < f <= 8 && at + count <= src.Length && count * f <= width
    ensures |bits| == width && forall p :: 0 <= p < width ==> (bits[p] <==> FieldBit(f, src[at..at + count], p))
  {
    hide FieldBit;
    bits := Zeros(width);
    NoFields(f);
    assert src[at..at + 0] == [];
    for j := 0 to count
      invariant |bits| == width && forall p :: 0 <= p < width ==> (bits[p] <==> FieldBit(f, src[at..at + j], p))
    {
      var shifted := MaskedShl(width, src[at + j], f, j * f);
      ghost var more := src[at..at + j + 1];
      assert more[..j] == src[at..at + j];
      forall p: nat | p < width
        ensures FieldBit(f, more, p) <==> FieldBit(f, more[..j], p) || shifted[p]
      {
        OneMoreField(f, more, j, p);
      }
      bits := Or(bits, shifted);
    }
  }

  lemma NoFields(f: nat)
    requires 0 < f <= 8
    ensures forall p: nat :: !FieldBit(f, [], p)
  {
  }

  lemma OneMoreField(f: nat, s: seq<Byte>, j: nat, p: nat)
    requires 0 < f <= 8 && |s| == j + 1
    ensures FieldBit(f, s, p) <==> FieldBit(f, s[..j], p) || (j * f <= p < j * f + f && s[j][p - j * f])
  {
    FieldBelow(f, j, p);
    FieldBelow(f, j + 1, p);
    Distribute(j, 1, f);
    if j * f <= p < (j + 1) * f {
      FieldAt(f, j, p);
    }
  }

  // ---- pack ----

  /** Bit t of byte o of the string the elements make. */
  predicate PackedBit(ell: nat, s: seq<Byte>, o: nat, t: nat)
    requires PackedEll(ell)
  {
    FieldBit(ell, s, 8 * o + t)
  }

  predicate WordBit(bits: seq<bool>, b: nat, t: nat) {
    8 * b + t < |bits| && bits[8 * b + t]
  }

  /** The bytes hold the bit string of the elements' low bits, the rest of the last byte zero. */
  ghost predicate Packs(ell: nat, s: seq<Byte>, bytes: seq<Byte>)
    requires PackedEll(ell)
  {
    |bytes| == BytesFor(ell, |s|)
    && forall o, t :: 0 <= o < |bytes| && 0 <= t < 8 ==> (bytes[o][t] <==> PackedBit(ell, s, o, t))
  }

  /** `count` bytes of a word are stored. */
  method StoreBytes(bits: seq<bool>, dst: array<Byte>, out: nat, count: nat) returns (next: nat)
    requires out + count <= dst.Length
    modifies dst
    ensures next == out + count
    ensures forall k :: 0 <= k < dst.Length && !(out <= k < next) ==> dst[k] == old(dst[k])
    ensures forall o, t :: out <= o < next && 0 <= t < 8 ==> (dst[o][t] <==> WordBit(bits, o - out, t))
  {
    for b := 0 to count
      invariant forall k :: 0 <= k < dst.Length && !(out <= k < out + b) ==> dst[k] == old(dst[k])
      invariant forall o, t :: out <= o < out + b && 0 <= t < 8 ==> (dst[o][t] <==> WordBit(bits, o - out, t))
    {
      dst[out + b] := ShrMasked(bits, b * 8, 8);
    }
    return out + count;
  }

  method Pack(ell: nat, src: array<Byte>, dst: array<Byte>) returns (out: nat)
    requires PackedEll(ell) && src != dst && dst.Length == BytesFor(ell, src.Length)
    modifies dst
    ensures out == dst.Length && Packs(ell, src[..], dst[..])
  {
    hide FieldBit, PackedBit, WordBit;
    var n := src.Length;
    var group, bytes, width := GroupElems(ell), GroupBytes(ell), WordWidth(ell);
    var i := 0;
    out := 0;
    while i + group - 1 < n
      invariant 0 <= i <= n && out * 8 == i * ell && out <= dst.Length
      invariant forall o, t :: 0 <= o < out && 0 <= t < 8 ==> (dst[o][t] <==> PackedBit(ell, src[..], o, t))
    {
      var bits := OrFields(width, ell, src, i, group);
      Distribute(i, group, ell);
      Room(ell, n, i + group, out + bytes);
      StoredGroup(ell, src[..], i, group, width, bits, out, bytes);
      out := StoreBytes(bits, dst, out, bytes);
      i := i + group;
    }
    if i < n {
      var rem := n - i;
      Distribute(i, rem, ell);
      Distribute(group, rem, ell);
      MulSign(group - rem, ell);
      var bits := OrFields(width, ell, src, i, rem);
      var remBytes := (rem * ell + 7) / 8;
      StoredGroup(ell, src[..], i, rem, width, bits, out, remBytes);
      out := StoreBytes(bits, dst, out, remBytes);
      i := n;
    }
    assert out == BytesFor(ell, n);
  }

  /** A full group leaves its bytes inside the buffer. */
  lemma Room(ell: nat, n: nat, i: nat, out: nat)
    requires PackedEll(ell) && i <= n && out * 8 == i * ell
    ensures out <= BytesFor(ell, n)
  {
    MulSign(n - i, ell);
    Distribute(n, i, ell);
  }

  /** The bits of a group's word are the string's bits from position 8 * out on. */
  lemma StoredGroup(ell: nat, s: seq<Byte>, i: nat, count: nat, width: nat, bits: seq<bool>, out: nat, bytes: nat)
    requires PackedEll(ell) && i + count <= |s| && out * 8 == i * ell && |bits| == width && 8 * bytes < count * ell + 8
    requires count * ell <= 8 * bytes && count * ell <= width && (count * ell < 8 * bytes ==> i + count == |s|)
    requires forall p :: 0 <= p < width ==> (bits[p] <==> FieldBit(ell, s[i..i + count], p))
    ensures forall o, t :: out <= o < out + bytes && 0 <= t < 8 ==> (WordBit(bits, o - out, t) <==> PackedBit(ell, s, o, t))
  {
    forall o: nat, t: nat | out <= o < out + bytes && t < 8
      ensures WordBit(bits, o - out, t) <==> PackedBit(ell, s, o, t)
    {
      var p := 8 * (o - out) + t;
      FieldBitShift(ell, s, i, count, p);
      assert 8 * o + t == i * ell + p;
      if p >= count * ell {
        Distribute(i, count, ell);
        FieldBelow(ell, |s|, i * ell + p);
      }
    }
  }

  // ---- unpack ----

  /** Bit t of element i of what a byte string stands for. */
  predicate ElementBit(ell: nat, bytes: seq<Byte>, i: nat, t: nat)
    requires PackedEll(ell)
  {
    t < ell && FieldBit(8, bytes, i * ell + t)
  }

  ghost predicate Unpacks(ell: nat, bytes: seq<Byte>, s: seq<Byte>)
    requires PackedEll(ell)
  {
    forall i, t :: 0 <= i < |s| && 0 <= t < 8 ==> (s[i][t] <==> ElementBit(ell, bytes, i, t))
  }

  /** The elements of a group come out of the word. */
  lemma LoadedGroup(ell: nat, bytes: seq<Byte>, i: nat, count: nat, width: nat, bits: seq<bool>, from: nat, len: nat)
    requires PackedEll(ell) && from + len <= |bytes| && from * 8 == i * ell && count * ell <= len * 8 <= width == |bits|
    requires forall p :: 0 <= p < width ==> (bits[p] <==> FieldBit(8, bytes[from..from + len], p))
    ensures forall e, t :: i <= e < i + count && 0 <= t < 8 ==>
      (ShrMasked(bits, (e - i) * ell, ell)[t] <==> ElementBit(ell, bytes, e, t))
  {
    forall e: nat, t: nat | i <= e < i + count && t < 8
      ensures ShrMasked(bits, (e - i) * ell, ell)[t] <==> ElementBit(ell, bytes, e, t)
    {
      var p := (e - i) * ell + t;
      FieldBitShift(8, bytes, from, len, p);
      Distribute(e, i, ell);
      Distribute(count, e - i, ell);
      MulSign(count - (e - i) - 1, ell);
      Distribute(count - (e - i), 1, ell);
    }
  }

  /** (v << up) masked to the low `keep` bits. */
  function ShlMasked(v: Byte, up: nat, keep: nat): (r: Byte) {
    seq(8, k requires 0 <= k < 8 => up <= k < keep && v[k - up])
  }

  /** One element through a window of one or two bytes. */
  method WindowElement(ell: nat, src: array<Byte>, i: nat) returns (v: Byte)
    requires PackedEll(ell) && i * ell + ell <= 8 * src.Length
    ensures forall t :: 0 <= t < 8 ==> (v[t] <==> ElementBit(ell, src[..], i, t))
  {
    var bit := i * ell;
    var q, r := bit / 8, bit % 8;
    v := ShrMasked(src[q], r, ell);
    if r + ell > 8 {
      v := Or(v, ShlMasked(src[q + 1], 8 - r, ell));
    }
  }

  method Unpack(ell: nat, src: array<Byte>, dst: array<Byte>)
    requires PackedEll(ell) && src != dst && src.Length == BytesFor(ell, dst.Length)
    modifies dst
    ensures Unpacks(ell, src[..], dst[..])
  {
    hide FieldBit, ElementBit, ShrMasked;
    var n := dst.Length;
    var group, bytes, width := GroupElems(ell), GroupBytes(ell), WordWidth(ell);
    var i, from := 0, 0;
    while i + group - 1 < n
      invariant 0 <= i <= n && from * 8 == i * ell && from <= src.Length
      invariant forall e, t :: 0 <= e < i && 0 <= t < 8 ==> (dst[e][t] <==> ElementBit(ell, src[..], e, t))
    {
      Distribute(i, group, ell);
      Room(ell, n, i + group, from + bytes);
      var bits := OrFields(width, 8, src, from, bytes);
      LoadedGroup(ell, src[..], i, group, width, bits, from, bytes);
      for k := 0 to group
        invariant forall e, t :: 0 <= e < i + k && 0 <= t < 8 ==> (dst[e][t] <==> ElementBit(ell, src[..], e, t))
      {
        dst[i + k] := ShrMasked(bits, k * ell, ell);
      }
      i := i + group;
      from := from + bytes;
    }
    if ell == 2 || ell == 4 {
      UnpackTailByte(ell, src, dst, i, from);
    } else {
      while i < n
        invariant 0 <= i <= n
        invariant forall e, t :: 0 <= e < i && 0 <= t < 8 ==> (dst[e][t] <==> ElementBit(ell, src[..], e, t))
      {
        Distribute(n, i, ell);
        Distribute(n - i, 1, ell);
        MulSign(n - i - 1, ell);
        dst[i] := WindowElement(ell, src, i);
        i := i + 1;
      }
    }
  }

  /** With 2 or 4 bits an element what is left sits in one byte. */
  method UnpackTailByte(ell: nat, src: array<Byte>, dst: array<Byte>, i: nat, from: nat)
    requires (ell == 2 || ell == 4) && src != dst && src.Length == BytesFor(ell, dst.Length)
    requires i <= dst.Length < i + GroupElems(ell) && from * 8 == i * ell
    requires forall e, t :: 0 <= e < i && 0 <= t < 8 ==> (dst[e][t] <==> ElementBit(ell, src[..], e, t))
    modifies dst
    ensures Unpacks(ell, src[..], dst[..])
  {
    hide FieldBit, ElementBit, ShrMasked;
    var n := dst.Length;
    if i < n {
      assert from < src.Length;
      var b := src[from];
      OneByte(src[..], from);
      LoadedGroup(ell, src[..], i, n - i, 8, b, from, 1);
      for j := 0 to n - i
        invariant forall e, t :: 0 <= e < i + j && 0 <= t < 8 ==> (dst[e][t] <==> ElementBit(ell, src[..], e, t))
      {
        dst[i + j] := ShrMasked(b, j * ell, ell);
      }
    }
  }

  lemma OneByte(bytes: seq<Byte>, from: nat)
    requires from < |bytes|
    ensures forall p :: 0 <= p < 8 ==> (bytes[from][p] <==> FieldBit(8, bytes[from..from + 1], p))
  {
  }

  /** canonicalize: the bits above ELL are cleared. */
  method Canonicalize(ell: nat, v: array<Byte>)
    requires PackedEll(ell)
    modifies v
    ensures forall i :: 0 <= i < v.Length ==> v[i] == ShrMasked(old(v[i]), 0, ell)
  {
    for i := 0 to v.Length
      invariant forall k :: 0 <= k < v.Length ==> v[k] == if k < i then ShrMasked(old(v[k]), 0, ell) else old(v[k])
    {
      v[i] := ShrMasked(v[i], 0, ell);
    }
  }

  // ---- round trip ----

  lemma RoundTripBit(ell: nat, s: seq<Byte>, bytes: seq<Byte>, i: nat, t: nat)
    requires PackedEll(ell) && Packs(ell, s, bytes) && i < |s| && t < 8
    ensures ElementBit(ell, bytes, i, t) <==> t < ell && s[i][t]
  {
    hide BytesFor, FieldBit, Packs;
    assert |bytes| == BytesFor(ell, |s|) by { PackedLength(ell, s, bytes); }
    ElementIs(ell, s, i, t);
    if t < ell {
      var g := i * ell + t;
      InsideString(ell, |s|, i, t);
      PackedAt(ell, s, bytes, g);
    }
  }

  lemma PackedLength(ell: nat, s: seq<Byte>, bytes: seq<Byte>)
    requires PackedEll(ell) && Packs(ell, s, bytes)
    ensures |bytes| == BytesFor(ell, |s|)
  {
  }

  lemma ElementIs(ell: nat, s: seq<Byte>, i: nat, t: nat)
    requires PackedEll(ell) && i < |s|
    ensures t < ell ==> (FieldBit(ell, s, i * ell + t) <==> s[i][t])
  {
    if t < ell {
      FieldShift(ell, i, t);
    }
  }

  lemma PackedAt(ell: nat, s: seq<Byte>, bytes: seq<Byte>, g: nat)
    requires PackedEll(ell) && Packs(ell, s, bytes) && g / 8 < |bytes| && 8 * (g / 8) + g % 8 == g
    ensures FieldBit(8, bytes, g) <==> FieldBit(ell, s, g)
  {
    hide BytesFor;
    assert bytes[g / 8][g % 8] <==> PackedBit(ell, s, g / 8, g % 8);
  }

  lemma InsideString(ell: nat, n: nat, i: nat, t: nat)
    requires PackedEll(ell) && i < n && t < ell
    ensures (i * ell + t) / 8 < BytesFor(ell, n) && 8 * ((i * ell + t) / 8) + (i * ell + t) % 8 == i * ell + t
  {
    Distribute(n, i, ell);
    Distribute(n - i, 1, ell);
    MulSign(n - i - 1, ell);
  }

  /** For every ELL and every length, unpacking the packed bytes gives the elements back, reduced to ELL bits; elements
      of the ring come back unchanged. */
  lemma RoundTrip(ell: nat, s: seq<Byte>, bytes: seq<Byte>, back: seq<Byte>)
    requires PackedEll(ell) && Packs(ell, s, bytes) && |back| == |s| && Unpacks(ell, bytes, back)
    ensures forall i :: 0 <= i < |s| ==> back[i] == ShrMasked(s[i], 0, ell)
    ensures (forall i, t :: 0 <= i < |s| && ell <= t < 8 ==> !s[i][t]) ==> back == s
  {
    hide ElementBit;
    forall i | 0 <= i < |s|
      ensures back[i] == ShrMasked(s[i], 0, ell)
    {
      forall t: nat | t < 8
        ensures back[i][t] == ShrMasked(s[i], 0, ell)[t]
      {
        RoundTripBit(ell, s, bytes, i, t);
      }
      assert back[i] == ShrMasked(s[i], 0, ell);
    }
    if forall i, t :: 0 <= i < |s| && ell <= t < 8 ==> !s[i][t] {
      forall i | 0 <= i < |s|
        ensures ShrMasked(s[i], 0, ell) == s[i]
      {
      }
    }
  }
}
