/** Three generators that make the same requests: the values they draw sum to zero and the generators stay level. */
module CrngVectors {
  import opened Ring
  import opened Aby3
  import opened Aby3Vec
  import opened Crng

  lemma BitVectorsCancel(k0: Prf, k1: Prf, k2: Prf, c: nat, n: nat, o: Trio<seq<nat>>)
    requires |o.p0| == |o.p1| == |o.p2| == n
    requires BitsFrom(o.p0, k0, k2, c, n) && BitsFrom(o.p1, k1, k0, c, n) && BitsFrom(o.p2, k2, k1, c, n)
    ensures ZeroSumVec(2, n, o)
  {
    hide BitPad, Add128, ZeroSum;
    forall i: nat | i < n
      ensures ZeroSum(2, Trio(o.p0[i], o.p1[i], o.p2[i]))
    {
      BitPadsCancel(k0, k1, k2, Add128(c, i / 128), i % 128);
    }
  }

  lemma ByteVectorsCancel(ell: nat, k0: Prf, k1: Prf, k2: Prf, c: nat, n: nat, o: Trio<seq<nat>>)
    requires ell <= 8 && |o.p0| == |o.p1| == |o.p2| == n
    requires BytesFrom(o.p0, k0, k2, ell, c, n) && BytesFrom(o.p1, k1, k0, ell, c, n) && BytesFrom(o.p2, k2, k1, ell, c, n)
    ensures ZeroSumVec(Pow2(ell), n, o)
  {
    hide BytePad, Add128, ZeroSum, Pow2;
    forall i: nat | i < n
      ensures ZeroSum(Pow2(ell), Trio(o.p0[i], o.p1[i], o.p2[i]))
    {
      BytePadsCancel(k0, k1, k2, ell, Add128(c, i / 16), i % 16);
    }
  }

  /** The keys go round the ring of parties, and the three generators stand at the same place. */
  ghost predicate Level(g: Trio<Generator>)
    reads g.p0, g.p1, g.p2
  {
    && g.p0 != g.p1 && g.p0 != g.p2 && g.p1 != g.p2
    && g.p0.Valid() && g.p1.Valid() && g.p2.Valid()
    && g.p0.prev == g.p2.own && g.p1.prev == g.p0.own && g.p2.prev == g.p1.own
    && g.p0.Here() == g.p1.Here() == g.p2.Here()
  }

  method DrawBitTogether(g: Trio<Generator>) returns (r: Trio<nat>)
    requires Level(g)
    modifies g.p0, g.p1, g.p2
    ensures Level(g) && g.p0.Here() == Next(old(g.p0.Here()), DrawBit)
    ensures ZeroSum(2, r)
  {
    hide BitPad, ZeroSum, Next, CachedAt;
    ghost var q := Refilled(g.p0.Here(), true);
    var r0 := g.p0.CrngBit();
    var r1 := g.p1.CrngBit();
    var r2 := g.p2.CrngBit();
    r := Trio(r0, r1, r2);
    BitPadsCancel(g.p0.own, g.p1.own, g.p2.own, CachedAt(q.counter), q.ptr);
  }

  method DrawByteTogether(ell: nat, g: Trio<Generator>) returns (r: Trio<nat>)
    requires ell <= 8 && Level(g)
    modifies g.p0, g.p1, g.p2
    ensures Level(g) && g.p0.Here() == Next(old(g.p0.Here()), DrawByte(ell))
    ensures ZeroSum(Pow2(ell), r)
  {
    hide BytePad, ZeroSum, Next, CachedAt, Pow2;
    ghost var q := Refilled(g.p0.Here(), false);
    var r0 := g.p0.CrngByte(ell);
    var r1 := g.p1.CrngByte(ell);
    var r2 := g.p2.CrngByte(ell);
    r := Trio(r0, r1, r2);
    BytePadsCancel(g.p0.own, g.p1.own, g.p2.own, ell, CachedAt(q.counter), q.ptr / 8);
  }

  method DrawBitsTogether(g: Trio<Generator>, o: Trio<array<nat>>)
    requires Level(g) && o.p0.Length == o.p1.Length == o.p2.Length && o.p0 != o.p1 && o.p0 != o.p2 && o.p1 != o.p2
    modifies g.p0, g.p1, g.p2, o.p0, o.p1, o.p2
    ensures Level(g) && g.p0.Here() == Next(old(g.p0.Here()), DrawBits(o.p0.Length))
    ensures ZeroSumVec(2, o.p0.Length, Trio(o.p0[..], o.p1[..], o.p2[..]))
  {
    hide BitsFrom, ZeroSumVec, Next;
    ghost var c := g.p0.Here().counter;
    g.p0.CrngBits(o.p0);
    g.p1.CrngBits(o.p1);
    g.p2.CrngBits(o.p2);
    BitVectorsCancel(g.p0.own, g.p1.own, g.p2.own, c, o.p0.Length, Trio(o.p0[..], o.p1[..], o.p2[..]));
  }

  method DrawBytesTogether(ell: nat, g: Trio<Generator>, o: Trio<array<nat>>)
    requires ell <= 8 && Level(g) && o.p0.Length == o.p1.Length == o.p2.Length && o.p0 != o.p1 && o.p0 != o.p2 && o.p1 != o.p2
    modifies g.p0, g.p1, g.p2, o.p0, o.p1, o.p2
    ensures Level(g) && g.p0.Here() == Next(old(g.p0.Here()), DrawBytes(ell, o.p0.Length))
    ensures ZeroSumVec(Pow2(ell), o.p0.Length, Trio(o.p0[..], o.p1[..], o.p2[..]))
  {
    hide BytesFrom, ZeroSumVec, Next, Pow2;
    ghost var c := g.p0.Here().counter;
    g.p0.CrngBytes(ell, o.p0);
    g.p1.CrngBytes(ell, o.p1);
    g.p2.CrngBytes(ell, o.p2);
    ByteVectorsCancel(ell, g.p0.own, g.p1.own, g.p2.own, c, o.p0.Length, Trio(o.p0[..], o.p1[..], o.p2[..]));
  }
}
