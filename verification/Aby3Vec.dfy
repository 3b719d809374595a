/** Replicated sharing of vectors: the functions of whole share vectors, what they mean for the plaintext vectors,
    and the in-place methods of one party that compute them. */
module Aby3Vec {
  import opened Ring
  import opened Aby3
  import opened Rvector

  predicate ZeroSumVec(m: nat, n: nat, r: Trio<seq<nat>>)
    requires m > 0
  {
    |r.p0| == |r.p1| == |r.p2| == n && forall i :: 0 <= i < n ==> ZeroSum(m, Trio(r.p0[i], r.p1[i], r.p2[i]))
  }

  function ReshareVec(t: Trio<seq<nat>>): Trio<RepVec> {
    Trio(RepVec(t.p0, t.p1), RepVec(t.p1, t.p2), RepVec(t.p2, t.p0))
  }

  predicate Sized(n: nat, x: RepVec) {
    |x.thisShare| == |x.nxtShare| == n
  }

  // ---- what one party computes ----

  function AddLocal(m: nat, n: nat, x: RepVec, y: RepVec): (z: RepVec)
    requires m > 0 && Sized(n, x) && Sized(n, y)
    ensures Sized(n, z) && forall i :: 0 <= i < n ==> At(z, i) == AddRep(m, At(x, i), At(y, i))
  {
    RepVec(seq(n, i requires 0 <= i < n => Add(m, x.thisShare[i], y.thisShare[i])),
      seq(n, i requires 0 <= i < n => Add(m, x.nxtShare[i], y.nxtShare[i])))
  }

  function SubLocal(m: nat, n: nat, x: RepVec, y: RepVec): (z: RepVec)
    requires m > 0 && Sized(n, x) && Sized(n, y)
    ensures Sized(n, z) && forall i :: 0 <= i < n ==> At(z, i) == SubRep(m, At(x, i), At(y, i))
  {
    RepVec(seq(n, i requires 0 <= i < n => Sub(m, x.thisShare[i], y.thisShare[i])),
      seq(n, i requires 0 <= i < n => Sub(m, x.nxtShare[i], y.nxtShare[i])))
  }

  function HadamardLocal(m: nat, n: nat, x: RepVec, y: RepVec, r: seq<nat>): (t: seq<nat>)
    requires m > 0 && Sized(n, x) && Sized(n, y) && |r| == n
    ensures |t| == n && forall i :: 0 <= i < n ==> t[i] == MulLocal(m, At(x, i), At(y, i), r[i])
  {
    seq(n, i requires 0 <= i < n => MulLocal(m, At(x, i), At(y, i), r[i]))
  }

  // ---- the three parties together ----

  function AddVecAll(m: nat, n: nat, x: Trio<RepVec>, y: Trio<RepVec>): Trio<RepVec>
    requires m > 0 && ConsistentVec(m, n, x) && ConsistentVec(m, n, y)
  {
    Trio(AddLocal(m, n, x.p0, y.p0), AddLocal(m, n, x.p1, y.p1), AddLocal(m, n, x.p2, y.p2))
  }

  function SubVecAll(m: nat, n: nat, x: Trio<RepVec>, y: Trio<RepVec>): Trio<RepVec>
    requires m > 0 && ConsistentVec(m, n, x) && ConsistentVec(m, n, y)
  {
    Trio(SubLocal(m, n, x.p0, y.p0), SubLocal(m, n, x.p1, y.p1), SubLocal(m, n, x.p2, y.p2))
  }

  function HadamardAll(m: nat, n: nat, x: Trio<RepVec>, y: Trio<RepVec>, r: Trio<seq<nat>>): Trio<RepVec>
    requires m > 0 && ConsistentVec(m, n, x) && ConsistentVec(m, n, y) && ZeroSumVec(m, n, r)
  {
    ReshareVec(Trio(HadamardLocal(m, n, x.p0, y.p0, r.p0), HadamardLocal(m, n, x.p1, y.p1, r.p1), HadamardLocal(m, n, x.p2, y.p2, r.p2)))
  }

  lemma LinearVecCorrect(m: nat, n: nat, x: Trio<RepVec>, y: Trio<RepVec>)
    requires m > 0 && ConsistentVec(m, n, x) && ConsistentVec(m, n, y)
    ensures ConsistentVec(m, n, AddVecAll(m, n, x, y)) && ConsistentVec(m, n, SubVecAll(m, n, x, y))
    ensures forall i :: 0 <= i < n ==>
      && Values(m, n, AddVecAll(m, n, x, y))[i] == Add(m, Values(m, n, x)[i], Values(m, n, y)[i])
      && Values(m, n, SubVecAll(m, n, x, y))[i] == Sub(m, Values(m, n, x)[i], Values(m, n, y)[i])
  {
    hide Add, Sub, Value;
    var s, d := AddVecAll(m, n, x, y), SubVecAll(m, n, x, y);
    forall i | 0 <= i < n
      ensures Value(m, AtAll(s, i)) == Add(m, Value(m, AtAll(x, i)), Value(m, AtAll(y, i)))
      ensures Value(m, AtAll(d, i)) == Sub(m, Value(m, AtAll(x, i)), Value(m, AtAll(y, i)))
    {
      LinearCorrect(m, AtAll(x, i), AtAll(y, i));
      assert AtAll(s, i) == AddAll(m, AtAll(x, i), AtAll(y, i));
      assert AtAll(d, i) == SubAll(m, AtAll(x, i), AtAll(y, i));
    }
  }

  lemma HadamardCorrect(m: nat, n: nat, x: Trio<RepVec>, y: Trio<RepVec>, r: Trio<seq<nat>>)
    requires m > 0 && ConsistentVec(m, n, x) && ConsistentVec(m, n, y) && ZeroSumVec(m, n, r)
    ensures ConsistentVec(m, n, HadamardAll(m, n, x, y, r))
    ensures forall i :: 0 <= i < n ==>
      Values(m, n, HadamardAll(m, n, x, y, r))[i] == Mul(m, Values(m, n, x)[i], Values(m, n, y)[i])
  {
    hide MulLocal, Mul, Value;
    var z := HadamardAll(m, n, x, y, r);
    forall i | 0 <= i < n
      ensures Value(m, AtAll(z, i)) == Mul(m, Value(m, AtAll(x, i)), Value(m, AtAll(y, i)))
    {
      MulCorrect(m, AtAll(x, i), AtAll(y, i), Trio(r.p0[i], r.p1[i], r.p2[i]));
      assert AtAll(z, i) == MulAll(m, AtAll(x, i), AtAll(y, i), Trio(r.p0[i], r.p1[i], r.p2[i]));
    }
  }

  /** A vector dealt by party 0, who adds it to its draw. */
  function DealVec(m: nat, n: nat, vec: seq<nat>, r: Trio<seq<nat>>): Trio<RepVec>
    requires m > 0 && |vec| == n && ZeroSumVec(m, n, r)
  {
    ReshareVec(Trio(seq(n, i requires 0 <= i < n => Add(m, vec[i], r.p0[i])), r.p1, r.p2))
  }

  lemma DealCorrect(m: nat, n: nat, vec: seq<nat>, r: Trio<seq<nat>>)
    requires m > 0 && |vec| == n && ZeroSumVec(m, n, r)
    ensures ConsistentVec(m, n, DealVec(m, n, vec, r))
    ensures forall i :: 0 <= i < n ==> Values(m, n, DealVec(m, n, vec, r))[i] == vec[i] % m
  {
    hide Value;
    var z := DealVec(m, n, vec, r);
    forall i | 0 <= i < n
      ensures Value(m, AtAll(z, i)) == vec[i] % m
    {
      ShareCorrect(m, 0, vec[i], Trio(r.p0[i], r.p1[i], r.p2[i]));
      assert AtAll(z, i) == Share(m, 0, vec[i], Trio(r.p0[i], r.p1[i], r.p2[i]));
    }
  }

  // ---- the merge of two filters over Z_2: a + b - a * b ----

  /** What the environment supplies to one party's merge: its draw and the message from the next party. */
  datatype MergeEnv = MergeEnv(draw: seq<nat>, recv: seq<nat>)

  function MergeLocal(n: nat, x: RepVec, y: RepVec, e: MergeEnv): (z: RepVec)
    requires Sized(n, x) && Sized(n, y) && |e.draw| == |e.recv| == n
    ensures Sized(n, z)
  {
    SubLocal(2, n, AddLocal(2, n, x, y), RepVec(HadamardLocal(2, n, x, y, e.draw), e.recv))
  }

  function MergeAll(n: nat, x: Trio<RepVec>, y: Trio<RepVec>, r: Trio<seq<nat>>): Trio<RepVec>
    requires ConsistentVec(2, n, x) && ConsistentVec(2, n, y) && ZeroSumVec(2, n, r)
  {
    LinearVecCorrect(2, n, x, y);
    HadamardCorrect(2, n, x, y, r);
    SubVecAll(2, n, AddVecAll(2, n, x, y), HadamardAll(2, n, x, y, r))
  }

  /** The merged sharing opens to the union of the two filters. */
  lemma MergeCorrect(n: nat, x: Trio<RepVec>, y: Trio<RepVec>, r: Trio<seq<nat>>)
    requires ConsistentVec(2, n, x) && ConsistentVec(2, n, y) && ZeroSumVec(2, n, r)
    ensures ConsistentVec(2, n, MergeAll(n, x, y, r))
    ensures forall i :: 0 <= i < n ==>
      (Values(2, n, MergeAll(n, x, y, r))[i] == 1 <==> Values(2, n, x)[i] == 1 || Values(2, n, y)[i] == 1)
  {
    hide AddVecAll, SubVecAll, HadamardAll, Values;
    LinearVecCorrect(2, n, x, y);
    HadamardCorrect(2, n, x, y, r);
    var s, p := AddVecAll(2, n, x, y), HadamardAll(2, n, x, y, r);
    LinearVecCorrect(2, n, s, p);
    forall i | 0 <= i < n
      ensures Values(2, n, MergeAll(n, x, y, r))[i] == 1 <==> Values(2, n, x)[i] == 1 || Values(2, n, y)[i] == 1
    {
      OrOfBits(Values(2, n, x)[i], Values(2, n, y)[i]);
    }
  }

  lemma OrOfBits(a: nat, b: nat)
    requires a < 2 && b < 2
    ensures Sub(2, Add(2, a, b), Mul(2, a, b)) == 1 <==> a == 1 || b == 1
  {
  }

  // ---- share vectors of one party, in memory ----

  class ShareVec {
    const thisShare: array<nat>
    const nxtShare: array<nat>

    ghost predicate Valid(n: nat) {
      thisShare != nxtShare && thisShare.Length == nxtShare.Length == n
    }

    ghost function Val(): RepVec
      reads thisShare, nxtShare
    {
      RepVec(thisShare[..], nxtShare[..])
    }

    constructor (n: nat)
      ensures Valid(n) && fresh(thisShare) && fresh(nxtShare)
    {
      thisShare := new nat[n];
      nxtShare := new nat[n];
    }
  }

  /** Two share vectors share no buffer unless they are the same object. */
  ghost predicate Apart(a: ShareVec, b: ShareVec) {
    a == b || (a.thisShare != b.thisShare && a.thisShare != b.nxtShare && a.nxtShare != b.thisShare && a.nxtShare != b.nxtShare)
  }

  /** The output may be one of the inputs. */
  method AddVectors(m: nat, n: nat, a: ShareVec, b: ShareVec, o: ShareVec)
    requires m > 0 && a.Valid(n) && b.Valid(n) && o.Valid(n) && Apart(a, b) && Apart(a, o) && Apart(b, o)
    modifies o.thisShare, o.nxtShare
    ensures o.Val() == AddLocal(m, n, old(a.Val()), old(b.Val()))
  {
    hide Add;
    var _ := VecAdd(m, a.thisShare, b.thisShare, o.thisShare);
    var _ := VecAdd(m, a.nxtShare, b.nxtShare, o.nxtShare);
    assert o.thisShare[..] == AddLocal(m, n, old(a.Val()), old(b.Val())).thisShare;
    assert o.nxtShare[..] == AddLocal(m, n, old(a.Val()), old(b.Val())).nxtShare;
  }

  method SubVectors(m: nat, n: nat, a: ShareVec, b: ShareVec, o: ShareVec)
    requires m > 0 && a.Valid(n) && b.Valid(n) && o.Valid(n) && Apart(a, b) && Apart(a, o) && Apart(b, o)
    modifies o.thisShare, o.nxtShare
    ensures o.Val() == SubLocal(m, n, old(a.Val()), old(b.Val()))
  {
    hide Sub;
    var _ := VecSub(m, a.thisShare, b.thisShare, o.thisShare);
    var _ := VecSub(m, a.nxtShare, b.nxtShare, o.nxtShare);
    assert o.thisShare[..] == SubLocal(m, n, old(a.Val()), old(b.Val())).thisShare;
    assert o.nxtShare[..] == SubLocal(m, n, old(a.Val()), old(b.Val())).nxtShare;
  }

  /** The output's second buffer is the scratch space for the cross terms and for the draw; at the end it holds what
      arrives from the next party. */
  method Hadamard(m: nat, n: nat, a: ShareVec, b: ShareVec, o: ShareVec, draw: seq<nat>, recv: seq<nat>)
    returns (ok: bool, sent: seq<nat>)
    requires m > 0 && a.Valid(n) && b.Valid(n) && o.Valid(n) && Apart(a, b) && Apart(a, o) && Apart(b, o)
    requires |draw| == |recv| == n
    modifies o.thisShare, o.nxtShare
    ensures ok <==> o != a && o != b
    ensures ok ==> sent == HadamardLocal(m, n, a.Val(), b.Val(), draw) && o.Val() == RepVec(sent, recv)
    ensures !ok ==> o.Val() == old(o.Val())
  {
    hide Add, Mul;
    if o == a || o == b {
      return false, [];
    }
    var _ := VecHadamard(m, a.thisShare, b.thisShare, o.thisShare);
    var _ := VecHadamard(m, a.thisShare, b.nxtShare, o.nxtShare);
    var _ := VecAdd(m, o.thisShare, o.nxtShare, o.thisShare);
    var _ := VecHadamard(m, a.nxtShare, b.thisShare, o.nxtShare);
    var _ := VecAdd(m, o.thisShare, o.nxtShare, o.thisShare);
    Receive(o.nxtShare, draw);
    assert forall i :: 0 <= i < n ==> o.nxtShare[i] == o.nxtShare[..][i] == draw[i];
    var _ := VecAdd(m, o.thisShare, o.nxtShare, o.thisShare);
    sent := o.thisShare[..];
    assert sent == HadamardLocal(m, n, a.Val(), b.Val(), draw);
    Receive(o.nxtShare, recv);
    return true, sent;
  }

  /** An additive share goes round the ring; it may sit in the second buffer of the output. */
  method ReshareVector(n: nat, vec: array<nat>, o: ShareVec, recv: seq<nat>) returns (ok: bool, sent: seq<nat>)
    requires vec.Length == n && o.Valid(n) && |recv| == n
    modifies o.thisShare, o.nxtShare
    ensures ok <==> vec != o.thisShare
    ensures ok ==> sent == old(vec[..]) && o.Val() == RepVec(sent, recv)
    ensures !ok ==> o.Val() == old(o.Val())
  {
    if vec == o.thisShare {
      return false, [];
    }
    Receive(o.thisShare, vec[..]);
    sent := o.thisShare[..];
    Receive(o.nxtShare, recv);
    return true, sent;
  }

  /** The dealer's side of a vector sharing; the others run the same steps without the plaintext. */
  method ShareVector(m: nat, n: nat, vec: array<nat>, o: ShareVec, draw: seq<nat>, recv: seq<nat>)
    returns (ok: bool, sent: seq<nat>)
    requires m > 0 && vec.Length == n && o.Valid(n) && |draw| == |recv| == n
    modifies o.thisShare, o.nxtShare
    ensures ok <==> vec != o.thisShare
    ensures ok ==> o.Val() == RepVec(sent, recv) && |sent| == n
    ensures ok ==> forall i :: 0 <= i < n ==> sent[i] == Add(m, old(vec[i]), draw[i])
    ensures !ok ==> o.Val() == old(o.Val())
  {
    if vec == o.thisShare {
      return false, [];
    }
    Receive(o.thisShare, draw);
    assert forall i :: 0 <= i < n ==> o.thisShare[i] == o.thisShare[..][i] == draw[i];
    var _ := VecAdd(m, vec, o.thisShare, o.thisShare);
    sent := o.thisShare[..];
    Receive(o.nxtShare, recv);
    return true, sent;
  }

  method RecvShareVector(n: nat, o: ShareVec, draw: seq<nat>, recv: seq<nat>) returns (sent: seq<nat>)
    requires o.Valid(n) && |draw| == |recv| == n
    modifies o.thisShare, o.nxtShare
    ensures sent == draw && o.Val() == RepVec(draw, recv)
  {
    Receive(o.thisShare, draw);
    sent := o.thisShare[..];
    Receive(o.nxtShare, recv);
  }

  /** The inner product of one party before resharing. */
  method DotVectors(m: nat, n: nat, a: ShareVec, b: ShareVec, draw: nat) returns (t: nat)
    requires m > 0 && a.Valid(n) && b.Valid(n)
    ensures t == DotLocal(m, a.Val(), b.Val(), draw)
  {
    var _, dotVal := VecDot(m, a.thisShare, b.thisShare);
    var _, cross := VecDot(m, a.thisShare, b.nxtShare);
    dotVal := Add(m, dotVal, cross);
    var _, cross' := VecDot(m, a.nxtShare, b.thisShare);
    dotVal := Add(m, dotVal, cross');
    t := Add(m, dotVal, draw);
  }

  /** The merge primitive of one agent: svout := (sva + svb) - sva * svb, the product in `mergeBuf`. */
  method Merge(n: nat, sva: ShareVec, svb: ShareVec, svout: ShareVec, mergeBuf: ShareVec, e: MergeEnv)
    returns (sent: seq<nat>)
    requires sva.Valid(n) && svb.Valid(n) && svout.Valid(n) && mergeBuf.Valid(n)
    requires Apart(sva, svb) && sva != svout && svb != svout && mergeBuf != sva && mergeBuf != svb && mergeBuf != svout
    requires Apart(sva, svout) && Apart(svb, svout) && Apart(mergeBuf, sva) && Apart(mergeBuf, svb) && Apart(mergeBuf, svout)
    requires |e.draw| == |e.recv| == n
    modifies svout.thisShare, svout.nxtShare, mergeBuf.thisShare, mergeBuf.nxtShare
    ensures sent == HadamardLocal(2, n, sva.Val(), svb.Val(), e.draw)
    ensures svout.Val() == MergeLocal(n, sva.Val(), svb.Val(), e)
  {
    AddVectors(2, n, sva, svb, svout);
    var ok, s := Hadamard(2, n, sva, svb, mergeBuf, e.draw, e.recv);
    SubVectors(2, n, svout, mergeBuf, svout);
    sent := s;
  }
}
