/** Binary-to-arithmetic conversion: a replicated sharing of a bit over Z_2 becomes one over Z_m, m = 2^ELL_TO,
    in two rounds.  The scalar protocol is given party by party as functions of what the party holds and receives;
    the vector protocol works in place on the output buffers and is proved equal to it at every index. */
module RingConv {
  import opened Ring
  import opened Aby3
  import opened Rvector
  import opened Aby3Vec

  // ---- the scalar protocol, party `pid` holding bits b0 = thisShare and b1 = nxtShare ----

  function Msg1(m: nat, pid: nat, b: Rep, r: nat): nat
    requires m > 0
  {
    if pid == 0 then Add(m, Mul(m, b.thisShare, b.nxtShare), r) else r
  }

  /** d = b0 + b1 - 2 * prod01, with the bits only where the party holds them in that position. */
  function Difference(m: nat, pid: nat, b: Rep, prod01: Rep): Rep
    requires m > 0
  {
    var left := if pid == 2 then 0 else b.thisShare;
    var right := if pid == 1 then 0 else b.nxtShare;
    Rep(Sub(m, left, Add(m, prod01.thisShare, prod01.thisShare)), Sub(m, right, Add(m, prod01.nxtShare, prod01.nxtShare)))
  }

  function Msg2(m: nat, pid: nat, b: Rep, d: Rep, r: nat): nat
    requires m > 0
  {
    if pid == 0 then r
    else if pid == 1 then Add(m, Mul(m, d.thisShare, b.nxtShare), r)
    else Add(m, Mul(m, Add(m, d.thisShare, d.nxtShare), b.thisShare), r)
  }

  /** e = d + b2 - 2 * prod2. */
  function Result(m: nat, pid: nat, b: Rep, d: Rep, prod2: Rep): Rep
    requires m > 0
  {
    var left := if pid == 2 then Add(m, d.thisShare, b.thisShare) else d.thisShare;
    var right := if pid == 1 then Add(m, d.nxtShare, b.nxtShare) else d.nxtShare;
    Rep(Sub(m, left, Add(m, prod2.thisShare, prod2.thisShare)), Sub(m, right, Add(m, prod2.nxtShare, prod2.nxtShare)))
  }

  // ---- the three parties together ----

  function Round1(m: nat, x: Trio<Rep>, r: Trio<nat>): Trio<Rep>
    requires m > 0
  {
    var prod01 := Reshare(Trio(Msg1(m, 0, x.p0, r.p0), Msg1(m, 1, x.p1, r.p1), Msg1(m, 2, x.p2, r.p2)));
    Trio(Difference(m, 0, x.p0, prod01.p0), Difference(m, 1, x.p1, prod01.p1), Difference(m, 2, x.p2, prod01.p2))
  }

  function Round2(m: nat, x: Trio<Rep>, d: Trio<Rep>, r: Trio<nat>): Trio<Rep>
    requires m > 0
  {
    var prod2 := Reshare(Trio(Msg2(m, 0, x.p0, d.p0, r.p0), Msg2(m, 1, x.p1, d.p1, r.p1), Msg2(m, 2, x.p2, d.p2, r.p2)));
    Trio(Result(m, 0, x.p0, d.p0, prod2.p0), Result(m, 1, x.p1, d.p1, prod2.p1), Result(m, 2, x.p2, d.p2, prod2.p2))
  }

  function ConvAll(m: nat, x: Trio<Rep>, r1: Trio<nat>, r2: Trio<nat>): Trio<Rep>
    requires m > 0
  {
    Round2(m, x, Round1(m, x, r1), r2)
  }

  /** Subtracting twice a masked term from every share. */
  lemma TwiceSubtracted(m: nat, a0: int, a1: int, a2: int, q0: int, q1: int, q2: int, a: int, q: int)
    requires m > 0 && (a0 + a1 + a2) % m == a % m && (q0 + q1 + q2) % m == q % m
    ensures (Sub(m, a0, Add(m, q0, q0)) + Sub(m, a1, Add(m, q1, q1)) + Sub(m, a2, Add(m, q2, q2))) % m == (a - 2 * q) % m
  {
    SubTwice(m, a0, q0);
    SubTwice(m, a1, q1);
    SubTwice(m, a2, q2);
    Residues3(a0 - 2 * q0, a1 - 2 * q1, a2 - 2 * q2, m);
    AddCong(q0 + q1 + q2, q, q0 + q1 + q2, q, m);
    AddCong(a0 + a1 + a2, a, 2 * (q0 + q1 + q2), 2 * q, m);
  }

  lemma SubTwice(m: nat, a: int, q: int)
    requires m > 0
    ensures Sub(m, a, Add(m, q, q)) == (a - 2 * q) % m
  {
    ModMod(q + q, m);
    AddCong(a, a, (q + q) % m, q + q, m);
  }

  /** The first round shares the exclusive or of the first two bits. */
  lemma Round1Correct(m: nat, x: Trio<Rep>, r: Trio<nat>)
    requires m > 1 && Consistent(2, x) && ZeroSum(m, r)
    ensures Consistent(m, Round1(m, x, r))
    ensures var b0, b1 := x.p0.thisShare, x.p1.thisShare;
      Value(m, Round1(m, x, r)) == (b0 + b1 - 2 * (b0 * b1)) % m
  {
    var b0, b1 := x.p0.thisShare, x.p1.thisShare;
    var p := b0 * b1;
    var q0 := Msg1(m, 0, x.p0, r.p0);
    ModMod(p, m);
    AddCong(p % m, p, r.p0, r.p0, m);
    ModMod(p % m + r.p0, m);
    ModSmall(0, m);
    AddCong(q0, p + r.p0, r.p1 + r.p2, r.p1 + r.p2, m);
    AddCong(p, p, r.p0 + r.p1 + r.p2, 0, m);
    TwiceSubtracted(m, b0, b1, 0, q0, r.p1, r.p2, b0 + b1, p);
  }

  /** The second round adds in the third bit the same way. */
  lemma Round2Correct(m: nat, x: Trio<Rep>, d: Trio<Rep>, r: Trio<nat>)
    requires m > 1 && Consistent(2, x) && Consistent(m, d) && ZeroSum(m, r)
    ensures Consistent(m, Round2(m, x, d, r))
    ensures var b2 := x.p2.thisShare;
      Value(m, Round2(m, x, d, r)) == (Value(m, d) + b2 - 2 * (Value(m, d) * b2)) % m
  {
    var b2 := x.p2.thisShare;
    var d0, d1, d2 := d.p0.thisShare, d.p1.thisShare, d.p2.thisShare;
    var q1, q2 := Msg2(m, 1, x.p1, d.p1, r.p1), Msg2(m, 2, x.p2, d.p2, r.p2);
    MaskedTerm(m, d1, d1, b2, r.p1);
    ModMod(d2 + d0, m);
    MaskedTerm(m, Add(m, d2, d0), d2 + d0, b2, r.p2);
    ModMod(d0 + d1 + d2, m);
    ScaleCong(d0 + d1 + d2, Value(m, d), b2, m);
    Distribute(d1, d2 + d0, b2);
    AddCong(q1, d1 * b2 + r.p1, q2, (d2 + d0) * b2 + r.p2, m);
    AddCong(q1 + q2, d1 * b2 + r.p1 + ((d2 + d0) * b2 + r.p2), r.p0, r.p0, m);
    ModSmall(0, m);
    AddCong((d0 + d1 + d2) * b2, Value(m, d) * b2, r.p0 + r.p1 + r.p2, 0, m);
    ModMod(d2 + b2, m);
    AddCong(d0 + d1, d0 + d1, Add(m, d2, b2), d2 + b2, m);
    AddCong(d0 + d1 + d2, Value(m, d), b2, b2, m);
    TwiceSubtracted(m, d0, d1, Add(m, d2, b2), r.p0, q1, q2, Value(m, d) + b2, Value(m, d) * b2);
  }

  lemma MaskedTerm(m: nat, a: int, a': int, b: int, r: int)
    requires m > 0 && a % m == a' % m
    ensures Add(m, Mul(m, a, b), r) % m == (a' * b + r) % m
  {
    ScaleCong(a, a', b, m);
    ModMod(a * b, m);
    AddCong((a * b) % m, a' * b, r, r, m);
    ModMod((a * b) % m + r, m);
  }

  /** For every sharing of a bit and every zero-sum randomness the result is a consistent sharing of that bit. */
  lemma ConvCorrect(m: nat, x: Trio<Rep>, r1: Trio<nat>, r2: Trio<nat>)
    requires m > 1 && Consistent(2, x) && ZeroSum(m, r1) && ZeroSum(m, r2)
    ensures Consistent(m, ConvAll(m, x, r1, r2)) && Value(m, ConvAll(m, x, r1, r2)) == Value(2, x)
  {
    hide Round1, Round2, ZeroSum, Value, Consistent;
    var d := Round1(m, x, r1);
    BitShares(x);
    Round1Correct(m, x, r1);
    Round2Correct(m, x, d, r2);
    XorByArithmetic(m, x.p0.thisShare, x.p1.thisShare, x.p2.thisShare, Value(m, d));
  }

  lemma BitShares(x: Trio<Rep>)
    requires Consistent(2, x)
    ensures x.p0.thisShare < 2 && x.p1.thisShare < 2 && x.p2.thisShare < 2
    ensures Value(2, x) == (x.p0.thisShare + x.p1.thisShare + x.p2.thisShare) % 2
  {
  }

  lemma XorByArithmetic(m: nat, b0: nat, b1: nat, b2: nat, d: nat)
    requires m > 1 && b0 < 2 && b1 < 2 && b2 < 2 && d == (b0 + b1 - 2 * (b0 * b1)) % m
    ensures (d + b2 - 2 * (d * b2)) % m == (b0 + b1 + b2) % 2
  {
    var e := b0 + b1 - 2 * (b0 * b1);
    assert e == if b0 == b1 then 0 else 1;
    ModSmall(e, m);
    var f := e + b2 - 2 * (e * b2);
    assert f == if e == b2 then 0 else 1;
    ModSmall(f, m);
  }

  // ---- the vector protocol of one party, in place ----

  /** The buffers of one party's vector conversion are pairwise different objects of one length. */
  ghost predicate Buffers(iThis: array<nat>, iNxt: array<nat>, oThis: array<nat>, oNxt: array<nat>, prod: array<nat>, tmp: array<nat>) {
    && iThis.Length == iNxt.Length == oThis.Length == oNxt.Length == prod.Length == tmp.Length
    && oThis != oNxt && oThis != prod && oThis != tmp && oNxt != prod && oNxt != tmp && prod != tmp
    && iThis != oThis && iThis != oNxt && iThis != prod && iThis != tmp
    && iNxt != oThis && iNxt != oNxt && iNxt != prod && iNxt != tmp
  }

  /** Round 1 on the lifted bits in oThis / oNxt: prod01 = b0 * b1, then d = b0 + b1 - 2 * prod01. */
  method Round1Vector(m: nat, pid: nat, iThis: array<nat>, iNxt: array<nat>, oThis: array<nat>, oNxt: array<nat>,
                      prod01: array<nat>, tmp: array<nat>, draw: seq<nat>, recv: seq<nat>)
    returns (sent: seq<nat>)
    requires m > 1 && pid < 3 && Buffers(iThis, iNxt, oThis, oNxt, prod01, tmp)
    requires |draw| == |recv| == iThis.Length && forall i :: 0 <= i < |draw| ==> draw[i] < m
    requires oThis[..] == iThis[..] && oNxt[..] == iNxt[..]
    modifies oThis, oNxt, prod01, tmp
    ensures |sent| == iThis.Length
    ensures forall i :: 0 <= i < iThis.Length ==> sent[i] == Msg1(m, pid, Rep(iThis[i], iNxt[i]), draw[i])
    ensures forall i :: 0 <= i < iThis.Length ==>
      Rep(oThis[i], oNxt[i]) == Difference(m, pid, Rep(iThis[i], iNxt[i]), Rep(sent[i], recv[i]))
  {
    hide Mul;
    assert forall i :: 0 <= i < iThis.Length ==> oThis[i] == oThis[..][i] == iThis[i] && oNxt[i] == oNxt[..][i] == iNxt[i];
    if pid == 0 {
      var _ := VecHadamard(m, oThis, oNxt, prod01);
    } else {
      Fill(prod01, 0);
    }
    Receive(tmp, draw);
    assert forall i :: 0 <= i < iThis.Length ==> tmp[i] == tmp[..][i] == draw[i];
    var _ := VecAdd(m, prod01, tmp, prod01);
    DrawsReduced(m, draw);
    sent := prod01[..];
    Receive(tmp, recv);
    assert forall i :: 0 <= i < iThis.Length ==> tmp[i] == tmp[..][i] == recv[i];
    var _ := VecAdd(m, prod01, prod01, prod01);
    var _ := VecAdd(m, tmp, tmp, tmp);
    if pid == 2 {
      Fill(oThis, 0);
    }
    var _ := VecSub(m, oThis, prod01, oThis);
    if pid == 1 {
      Fill(oNxt, 0);
    }
    var _ := VecSub(m, oNxt, tmp, oNxt);
  }

  lemma DrawsReduced(m: nat, draw: seq<nat>)
    requires m > 0 && forall i :: 0 <= i < |draw| ==> draw[i] < m
    ensures forall i :: 0 <= i < |draw| ==> Add(m, 0, draw[i]) == draw[i]
  {
  }

  /** Round 2 on d in oThis / oNxt: prod2 = d * b2, then e = d + b2 - 2 * prod2. */
  method Round2Vector(m: nat, pid: nat, iThis: array<nat>, iNxt: array<nat>, oThis: array<nat>, oNxt: array<nat>,
                      prod: array<nat>, tmp: array<nat>, draw: seq<nat>, recv: seq<nat>)
    returns (sent: seq<nat>)
    requires m > 1 && pid < 3 && Buffers(iThis, iNxt, oThis, oNxt, prod, tmp)
    requires |draw| == |recv| == iThis.Length && forall i :: 0 <= i < |draw| ==> draw[i] < m
    modifies oThis, oNxt, prod, tmp
    ensures |sent| == iThis.Length
    ensures forall i :: 0 <= i < iThis.Length ==>
      sent[i] == Msg2(m, pid, Rep(iThis[i], iNxt[i]), Rep(old(oThis[i]), old(oNxt[i])), draw[i])
    ensures forall i :: 0 <= i < iThis.Length ==>
      Rep(oThis[i], oNxt[i])
      == Result(m, pid, Rep(iThis[i], iNxt[i]), Rep(old(oThis[i]), old(oNxt[i])), Rep(sent[i], recv[i]))
  {
    hide Mul, Sub;
    var n := iThis.Length;
    if pid == 0 {
      Fill(prod, 0);
    } else if pid == 1 {
      for i := 0 to n
        modifies prod
        invariant forall k :: 0 <= k < i ==> prod[k] == Mul(m, oThis[k], iNxt[k])
      {
        prod[i] := Mul(m, oThis[i], iNxt[i]);
      }
    } else {
      for i := 0 to n
        modifies prod
        invariant forall k :: 0 <= k < i ==> prod[k] == Mul(m, Add(m, oThis[k], oNxt[k]), iThis[k])
      {
        var sum := Add(m, oThis[i], oNxt[i]);
        prod[i] := Mul(m, sum, iThis[i]);
      }
    }
    Receive(tmp, draw);
    assert forall i :: 0 <= i < n ==> tmp[i] == tmp[..][i] == draw[i];
    var _ := VecAdd(m, prod, tmp, prod);
    DrawsReduced(m, draw);
    sent := prod[..];
    Receive(tmp, recv);
    assert forall i :: 0 <= i < n ==> tmp[i] == tmp[..][i] == recv[i];
    var _ := VecAdd(m, prod, prod, prod);
    var _ := VecAdd(m, tmp, tmp, tmp);
    if pid == 2 {
      AddThenSub(m, oThis, iThis, prod);
    } else {
      var _ := VecSub(m, oThis, prod, oThis);
    }
    if pid == 1 {
      AddThenSub(m, oNxt, iNxt, tmp);
    } else {
      var _ := VecSub(m, oNxt, tmp, oNxt);
    }
  }

  /** d := d + b - q, element by element. */
  method AddThenSub(m: nat, d: array<nat>, b: array<nat>, q: array<nat>)
    requires m > 0 && d.Length == b.Length == q.Length && d != b && d != q
    modifies d
    ensures forall i :: 0 <= i < d.Length ==> d[i] == Sub(m, Add(m, old(d[i]), b[i]), q[i])
  {
    for i := 0 to d.Length
      invariant forall k :: 0 <= k < i ==> d[k] == Sub(m, Add(m, old(d[k]), b[k]), q[k])
      invariant forall k :: i <= k < d.Length ==> d[k] == old(d[k])
    {
      d[i] := Sub(m, Add(m, d[i], b[i]), q[i]);
    }
  }

  /** What the environment supplies to one party's vector conversion: its correlated draws and the two messages from
      the next party. */
  datatype ConvEnv = ConvEnv(draw1: seq<nat>, draw2: seq<nat>, recv1: seq<nat>, recv2: seq<nat>)

  predicate EnvSized(m: nat, n: nat, e: ConvEnv) {
    && |e.draw1| == |e.draw2| == |e.recv1| == |e.recv2| == n
    && forall i :: 0 <= i < n ==> e.draw1[i] < m && e.draw2[i] < m
  }

  function Sent1(m: nat, pid: nat, n: nat, x: RepVec, e: ConvEnv): (s: seq<nat>)
    requires m > 0 && |x.thisShare| == |x.nxtShare| == n && EnvSized(m, n, e)
    ensures |s| == n && forall i :: 0 <= i < n ==> s[i] == Msg1(m, pid, At(x, i), e.draw1[i])
  {
    seq(n, i requires 0 <= i < n => Msg1(m, pid, At(x, i), e.draw1[i]))
  }

  function DifferenceAt(m: nat, pid: nat, n: nat, x: RepVec, e: ConvEnv, i: nat): Rep
    requires m > 0 && |x.thisShare| == |x.nxtShare| == n && EnvSized(m, n, e) && i < n
  {
    Difference(m, pid, At(x, i), Rep(Sent1(m, pid, n, x, e)[i], e.recv1[i]))
  }

  function Sent2(m: nat, pid: nat, n: nat, x: RepVec, e: ConvEnv): (s: seq<nat>)
    requires m > 0 && |x.thisShare| == |x.nxtShare| == n && EnvSized(m, n, e)
    ensures |s| == n && forall i :: 0 <= i < n ==> s[i] == Msg2(m, pid, At(x, i), DifferenceAt(m, pid, n, x, e, i), e.draw2[i])
  {
    seq(n, i requires 0 <= i < n => Msg2(m, pid, At(x, i), DifferenceAt(m, pid, n, x, e, i), e.draw2[i]))
  }

  /** One party's converted shares: the scalar protocol at every index. */
  function ConvLocal(m: nat, pid: nat, n: nat, x: RepVec, e: ConvEnv): (z: RepVec)
    requires m > 0 && |x.thisShare| == |x.nxtShare| == n && EnvSized(m, n, e)
    ensures |z.thisShare| == |z.nxtShare| == n
    ensures forall i :: 0 <= i < n ==>
      At(z, i) == Result(m, pid, At(x, i), DifferenceAt(m, pid, n, x, e, i), Rep(Sent2(m, pid, n, x, e)[i], e.recv2[i]))
  {
    RepVec(
      seq(n, i requires 0 <= i < n =>
        Result(m, pid, At(x, i), DifferenceAt(m, pid, n, x, e, i), Rep(Sent2(m, pid, n, x, e)[i], e.recv2[i])).thisShare),
      seq(n, i requires 0 <= i < n =>
        Result(m, pid, At(x, i), DifferenceAt(m, pid, n, x, e, i), Rep(Sent2(m, pid, n, x, e)[i], e.recv2[i])).nxtShare))
  }

  /** Party `pid` converts the share vectors iThis / iNxt into oThis / oNxt in place. */
  method ConvVector(m: nat, pid: nat, iThis: array<nat>, iNxt: array<nat>, oThis: array<nat>, oNxt: array<nat>, e: ConvEnv)
    returns (sent1: seq<nat>, sent2: seq<nat>)
    requires m > 1 && pid < 3
    requires iThis.Length == iNxt.Length == oThis.Length == oNxt.Length && EnvSized(m, iThis.Length, e)
    requires oThis != oNxt && oThis != iThis && oThis != iNxt && oNxt != iThis && oNxt != iNxt
    modifies oThis, oNxt
    ensures sent1 == Sent1(m, pid, iThis.Length, RepVec(iThis[..], iNxt[..]), e)
    ensures sent2 == Sent2(m, pid, iThis.Length, RepVec(iThis[..], iNxt[..]), e)
    ensures RepVec(oThis[..], oNxt[..]) == ConvLocal(m, pid, iThis.Length, RepVec(iThis[..], iNxt[..]), e)
  {
    hide Msg1, Msg2, Difference, Result;
    var n := iThis.Length;
    ghost var x := RepVec(iThis[..], iNxt[..]);
    if n == 0 {
      assert oThis[..] == ConvLocal(m, pid, n, x, e).thisShare && oNxt[..] == ConvLocal(m, pid, n, x, e).nxtShare;
      return [], [];
    }
    for i := 0 to n
      invariant forall k :: 0 <= k < i ==> oThis[k] == iThis[k] && oNxt[k] == iNxt[k]
    {
      oThis[i], oNxt[i] := iThis[i], iNxt[i];
    }
    var prod01 := new nat[n];
    var tmp := new nat[n];
    sent1 := Round1Vector(m, pid, iThis, iNxt, oThis, oNxt, prod01, tmp, e.draw1, e.recv1);
    assert sent1 == Sent1(m, pid, n, x, e);
    sent2 := Round2Vector(m, pid, iThis, iNxt, oThis, oNxt, prod01, tmp, e.draw2, e.recv2);
    assert sent2 == Sent2(m, pid, n, x, e);
    assert oThis[..] == ConvLocal(m, pid, n, x, e).thisShare;
    assert oNxt[..] == ConvLocal(m, pid, n, x, e).nxtShare;
  }

  // ---- the three parties' vectors together ----

  /** Everyone receives what the next party sent, and the draws are correlated. */
  ghost predicate RingDelivered(m: nat, n: nat, x: Trio<RepVec>, e: Trio<ConvEnv>)
    requires m > 0 && ConsistentVec(2, n, x)
  {
    && EnvSized(m, n, e.p0) && EnvSized(m, n, e.p1) && EnvSized(m, n, e.p2)
    && e.p0.recv1 == Sent1(m, 1, n, x.p1, e.p1) && e.p1.recv1 == Sent1(m, 2, n, x.p2, e.p2) && e.p2.recv1 == Sent1(m, 0, n, x.p0, e.p0)
    && e.p0.recv2 == Sent2(m, 1, n, x.p1, e.p1) && e.p1.recv2 == Sent2(m, 2, n, x.p2, e.p2) && e.p2.recv2 == Sent2(m, 0, n, x.p0, e.p0)
    && ZeroSumVec(m, n, Trio(e.p0.draw1, e.p1.draw1, e.p2.draw1))
    && ZeroSumVec(m, n, Trio(e.p0.draw2, e.p1.draw2, e.p2.draw2))
  }

  function ConvVecAll(m: nat, n: nat, x: Trio<RepVec>, e: Trio<ConvEnv>): Trio<RepVec>
    requires m > 0 && ConsistentVec(2, n, x) && EnvSized(m, n, e.p0) && EnvSized(m, n, e.p1) && EnvSized(m, n, e.p2)
  {
    Trio(ConvLocal(m, 0, n, x.p0, e.p0), ConvLocal(m, 1, n, x.p1, e.p1), ConvLocal(m, 2, n, x.p2, e.p2))
  }

  /** The converted vectors are a consistent sharing over Z_m of the same bits. */
  lemma ConvVecCorrect(m: nat, n: nat, x: Trio<RepVec>, e: Trio<ConvEnv>)
    requires m > 1 && ConsistentVec(2, n, x) && RingDelivered(m, n, x, e)
    ensures ConsistentVec(m, n, ConvVecAll(m, n, x, e))
    ensures Values(m, n, ConvVecAll(m, n, x, e)) == Values(2, n, x)
  {
    hide Msg1, Msg2, Difference, Result, Value, Consistent;
    var z := ConvVecAll(m, n, x, e);
    forall i | 0 <= i < n
      ensures Consistent(m, AtAll(z, i)) && Value(m, AtAll(z, i)) == Value(2, AtAll(x, i))
    {
      ConvAt(m, n, x, e, i);
    }
    ConsistentEverywhere(m, n, z);
    assert Values(m, n, z) == Values(2, n, x);
  }

  lemma ConsistentEverywhere(m: nat, n: nat, z: Trio<RepVec>)
    requires |z.p0.thisShare| == |z.p1.thisShare| == |z.p2.thisShare| == n
    requires |z.p0.nxtShare| == |z.p1.nxtShare| == |z.p2.nxtShare| == n
    requires forall i :: 0 <= i < n ==> Consistent(m, AtAll(z, i))
    ensures ConsistentVec(m, n, z)
  {
    forall i | 0 <= i < n
      ensures z.p0.nxtShare[i] == z.p1.thisShare[i] && z.p1.nxtShare[i] == z.p2.thisShare[i] && z.p2.nxtShare[i] == z.p0.thisShare[i]
      ensures z.p0.thisShare[i] < m && z.p1.thisShare[i] < m && z.p2.thisShare[i] < m
    {
      assert Consistent(m, AtAll(z, i));
    }
  }

  lemma ConvAt(m: nat, n: nat, x: Trio<RepVec>, e: Trio<ConvEnv>, i: nat)
    requires m > 1 && ConsistentVec(2, n, x) && RingDelivered(m, n, x, e) && i < n
    ensures var z := AtAll(ConvVecAll(m, n, x, e), i);
      Consistent(m, z) && Value(m, z) == Value(2, AtAll(x, i))
  {
    hide Msg1, Msg2, Difference, Result, Value;
    var r1 := Trio(e.p0.draw1[i], e.p1.draw1[i], e.p2.draw1[i]);
    var r2 := Trio(e.p0.draw2[i], e.p1.draw2[i], e.p2.draw2[i]);
    ConvCorrect(m, AtAll(x, i), r1, r2);
    assert AtAll(ConvVecAll(m, n, x, e), i) == ConvAll(m, AtAll(x, i), r1, r2);
  }
}
