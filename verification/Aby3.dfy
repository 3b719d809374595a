/** Three-party replicated sharing over Z_m, m = 2^ell: what each party computes between messages, and what the
    three results mean together.

    Party i holds the pair (thisShare, nxtShare); every protocol ends by sending thisShare to the previous party and
    taking nxtShare from the next one. */
module Aby3 {
  import opened Ring

  datatype Rep = Rep(thisShare: nat, nxtShare: nat)

  datatype Trio<T> = Trio(p0: T, p1: T, p2: T)

  /** P_i.nxt = P_{i+1}.this, every share reduced. */
  predicate Consistent(m: nat, x: Trio<Rep>) {
    && x.p0.nxtShare == x.p1.thisShare < m
    && x.p1.nxtShare == x.p2.thisShare < m
    && x.p2.nxtShare == x.p0.thisShare < m
  }

  function Value(m: nat, x: Trio<Rep>): (v: nat)
    requires m > 0
    ensures v < m
  {
    (x.p0.thisShare + x.p1.thisShare + x.p2.thisShare) % m
  }

  /** Correlated randomness. */
  predicate ZeroSum(m: nat, r: Trio<nat>)
    requires m > 0
  {
    r.p0 < m && r.p1 < m && r.p2 < m && (r.p0 + r.p1 + r.p2) % m == 0
  }

  /** Everyone sends its additive share to the previous party. */
  function Reshare(t: Trio<nat>): Trio<Rep> {
    Trio(Rep(t.p0, t.p1), Rep(t.p1, t.p2), Rep(t.p2, t.p0))
  }

  lemma ReshareMeaning(m: nat, t: Trio<nat>)
    requires m > 0 && t.p0 < m && t.p1 < m && t.p2 < m
    ensures Consistent(m, Reshare(t)) && Value(m, Reshare(t)) == (t.p0 + t.p1 + t.p2) % m
  {
  }

  // ---- share / recvShare / revealAll ----

  /** Party `pid` of a sharing dealt by party `dealer`: the dealer adds the plaintext to its draw. */
  function ShareLocal(m: nat, dealer: nat, pid: nat, num: nat, r: nat): nat
    requires m > 0
  {
    if pid == dealer then Add(m, num, r) else r
  }

  function Share(m: nat, dealer: nat, num: nat, r: Trio<nat>): Trio<Rep>
    requires m > 0
  {
    Reshare(Trio(ShareLocal(m, dealer, 0, num, r.p0), ShareLocal(m, dealer, 1, num, r.p1), ShareLocal(m, dealer, 2, num, r.p2)))
  }

  /** Whoever deals, the sharing is consistent and opens to the plaintext. */
  lemma ShareCorrect(m: nat, dealer: nat, num: nat, r: Trio<nat>)
    requires m > 0 && dealer < 3 && ZeroSum(m, r)
    ensures Consistent(m, Share(m, dealer, num, r)) && Value(m, Share(m, dealer, num, r)) == num % m
  {
    var s := r.p0 + r.p1 + r.p2;
    var own := if dealer == 0 then r.p0 else if dealer == 1 then r.p1 else r.p2;
    ModMod(num + own, m);
    AddCong((num + own) % m, num + own, s - own, s - own, m);
    ModSmall(0, m);
    AddCong(num, num, s, 0, m);
  }

  /** P1 hands its second share to P0, who adds the three and broadcasts. */
  function RevealAll(m: nat, atP0: Rep, missing: nat): nat
    requires m > 0
  {
    (atP0.thisShare + atP0.nxtShare + missing) % m
  }

  lemma RevealAllCorrect(m: nat, x: Trio<Rep>)
    requires m > 0 && Consistent(m, x)
    ensures RevealAll(m, x.p0, x.p1.nxtShare) == Value(m, x)
  {
  }

  // ---- linear operations ----

  function AddRep(m: nat, a: Rep, b: Rep): Rep
    requires m > 0
  {
    Rep(Add(m, a.thisShare, b.thisShare), Add(m, a.nxtShare, b.nxtShare))
  }

  function SubRep(m: nat, a: Rep, b: Rep): Rep
    requires m > 0
  {
    Rep(Sub(m, a.thisShare, b.thisShare), Sub(m, a.nxtShare, b.nxtShare))
  }

  function AddAll(m: nat, x: Trio<Rep>, y: Trio<Rep>): Trio<Rep>
    requires m > 0
  {
    Trio(AddRep(m, x.p0, y.p0), AddRep(m, x.p1, y.p1), AddRep(m, x.p2, y.p2))
  }

  function SubAll(m: nat, x: Trio<Rep>, y: Trio<Rep>): Trio<Rep>
    requires m > 0
  {
    Trio(SubRep(m, x.p0, y.p0), SubRep(m, x.p1, y.p1), SubRep(m, x.p2, y.p2))
  }

  /** A sum of three residues and the residue of the sum. */
  lemma Residues3(a: int, b: int, c: int, m: int)
    requires m > 0
    ensures (a % m + b % m + c % m) % m == (a + b + c) % m
  {
    ModMod(a, m);
    ModMod(b, m);
    ModMod(c, m);
    AddCong(a % m, a, b % m, b, m);
    AddCong(a % m + b % m, a + b, c % m, c, m);
  }

  lemma LinearCorrect(m: nat, x: Trio<Rep>, y: Trio<Rep>)
    requires m > 0 && Consistent(m, x) && Consistent(m, y)
    ensures Consistent(m, AddAll(m, x, y)) && Value(m, AddAll(m, x, y)) == Add(m, Value(m, x), Value(m, y))
    ensures Consistent(m, SubAll(m, x, y)) && Value(m, SubAll(m, x, y)) == Sub(m, Value(m, x), Value(m, y))
  {
    var a0: int, a1: int, a2: int := x.p0.thisShare, x.p1.thisShare, x.p2.thisShare;
    var b0: int, b1: int, b2: int := y.p0.thisShare, y.p1.thisShare, y.p2.thisShare;
    Residues3(a0 + b0, a1 + b1, a2 + b2, m);
    Residues3(a0 - b0, a1 - b1, a2 - b2, m);
    ModMod(a0 + a1 + a2, m);
    ModMod(b0 + b1 + b2, m);
    AddCong(Value(m, x), a0 + a1 + a2, Value(m, y), b0 + b1 + b2, m);
  }

  // ---- multiplication ----

  /** What one party computes before resharing: its three cross terms and its draw. */
  function MulLocal(m: nat, x: Rep, y: Rep, r: nat): (t: nat)
    requires m > 0
    ensures t < m
  {
    var t := Mul(m, x.thisShare, y.thisShare);
    var t := Add(m, t, Mul(m, x.thisShare, y.nxtShare));
    var t := Add(m, t, Mul(m, x.nxtShare, y.thisShare));
    Add(m, t, r)
  }

  function MulAll(m: nat, x: Trio<Rep>, y: Trio<Rep>, r: Trio<nat>): Trio<Rep>
    requires m > 0
  {
    Reshare(Trio(MulLocal(m, x.p0, y.p0, r.p0), MulLocal(m, x.p1, y.p1, r.p1), MulLocal(m, x.p2, y.p2, r.p2)))
  }

  lemma MulLocalResidue(m: nat, x: Rep, y: Rep, r: nat) returns (t: int)
    requires m > 0
    ensures t == x.thisShare * y.thisShare + x.thisShare * y.nxtShare + x.nxtShare * y.thisShare
    ensures MulLocal(m, x, y, r) == (t + r) % m
  {
    var a, b, c := x.thisShare * y.thisShare, x.thisShare * y.nxtShare, x.nxtShare * y.thisShare;
    t := a + b + c;
    Fold4(a, b, c, r, t, m);
  }

  /** Reducing after every step of a four-term sum. */
  lemma Fold4(a: int, b: int, c: int, d: int, t: int, m: int)
    requires m > 0 && t == a + b + c
    ensures (((a % m + b % m) % m + c % m) % m + d) % m == (t + d) % m
  {
    ModMod(a, m);
    ModMod(b, m);
    ModMod(c, m);
    AddCong(a % m, a, b % m, b, m);
    ModMod(a % m + b % m, m);
    AddCong((a % m + b % m) % m, a + b, c % m, c, m);
    var s := (a % m + b % m) % m + c % m;
    ModMod(s, m);
    AddCong(s % m, t, d, d, m);
  }

  /** The nine cross terms are the product of the sums. */
  lemma CrossTerms(a0: int, a1: int, a2: int, b0: int, b1: int, b2: int)
    ensures (a0 * b0 + a0 * b1 + a1 * b0) + (a1 * b1 + a1 * b2 + a2 * b1) + (a2 * b2 + a2 * b0 + a0 * b2)
      == (a0 + a1 + a2) * (b0 + b1 + b2)
  {
  }

  /** Three numbers, each masked with one third of a zero sum, open to their sum. */
  lemma MaskedSum(m: nat, t0: int, t1: int, t2: int, r: Trio<nat>)
    requires m > 0 && ZeroSum(m, r)
    ensures ((t0 + r.p0) % m + (t1 + r.p1) % m + (t2 + r.p2) % m) % m == (t0 + t1 + t2) % m
  {
    Residues3(t0 + r.p0, t1 + r.p1, t2 + r.p2, m);
    ModSmall(0, m);
    AddCong(t0 + t1 + t2, t0 + t1 + t2, r.p0 + r.p1 + r.p2, 0, m);
  }

  /** Three numbers that sum to a product, each masked with one third of a zero sum, open to that product. */
  lemma MaskedProduct(m: nat, x: int, y: int, t0: int, t1: int, t2: int, r: Trio<nat>)
    requires m > 0 && ZeroSum(m, r) && t0 + t1 + t2 == x * y
    ensures ((t0 + r.p0) % m + (t1 + r.p1) % m + (t2 + r.p2) % m) % m == Mul(m, x % m, y % m)
  {
    MaskedSum(m, t0, t1, t2, r);
    ModMod(x, m);
    ModMod(y, m);
    MulCong(x, x % m, y, y % m, m);
  }

  /** The unmasked terms of the three parties. */
  lemma MulTerms(m: nat, x: Trio<Rep>, y: Trio<Rep>, r: Trio<nat>) returns (t0: int, t1: int, t2: int)
    requires m > 0 && Consistent(m, x) && Consistent(m, y)
    ensures MulLocal(m, x.p0, y.p0, r.p0) == (t0 + r.p0) % m
    ensures MulLocal(m, x.p1, y.p1, r.p1) == (t1 + r.p1) % m
    ensures MulLocal(m, x.p2, y.p2, r.p2) == (t2 + r.p2) % m
    ensures t0 + t1 + t2
      == (x.p0.thisShare + x.p1.thisShare + x.p2.thisShare) * (y.p0.thisShare + y.p1.thisShare + y.p2.thisShare)
  {
    hide MulLocal;
    var a0, a1, a2 := x.p0.thisShare, x.p1.thisShare, x.p2.thisShare;
    var b0, b1, b2 := y.p0.thisShare, y.p1.thisShare, y.p2.thisShare;
    t0 := MulLocalResidue(m, x.p0, y.p0, r.p0);
    t1 := MulLocalResidue(m, x.p1, y.p1, r.p1);
    t2 := MulLocalResidue(m, x.p2, y.p2, r.p2);
    CrossTerms(a0, a1, a2, b0, b1, b2);
  }

  /** Multiplication reshares to the product, for every zero-sum randomness. */
  lemma MulCorrect(m: nat, x: Trio<Rep>, y: Trio<Rep>, r: Trio<nat>)
    requires m > 0 && Consistent(m, x) && Consistent(m, y) && ZeroSum(m, r)
    ensures Consistent(m, MulAll(m, x, y, r)) && Value(m, MulAll(m, x, y, r)) == Mul(m, Value(m, x), Value(m, y))
  {
    hide MulLocal, Mul, ZeroSum;
    var t0, t1, t2 := MulTerms(m, x, y, r);
    MaskedProduct(m, x.p0.thisShare + x.p1.thisShare + x.p2.thisShare,
      y.p0.thisShare + y.p1.thisShare + y.p2.thisShare, t0, t1, t2, r);
  }

  // ---- inner product ----

  /** The sum of products in the machine's wide accumulator. */
  function WideDot(a: seq<nat>, b: seq<nat>): nat
    requires |a| == |b|
  {
    if a == [] then 0 else WideDot(a[..|a| - 1], b[..|b| - 1]) + a[|a| - 1] * b[|b| - 1]
  }

  function Dot(m: nat, a: seq<nat>, b: seq<nat>): nat
    requires m > 0 && |a| == |b|
  {
    WideDot(a, b) % m
  }

  /** Share vectors of one party. */
  datatype RepVec = RepVec(thisShare: seq<nat>, nxtShare: seq<nat>)

  predicate ConsistentVec(m: nat, n: nat, x: Trio<RepVec>) {
    && |x.p0.thisShare| == |x.p1.thisShare| == |x.p2.thisShare| == n
    && x.p0.nxtShare == x.p1.thisShare && x.p1.nxtShare == x.p2.thisShare && x.p2.nxtShare == x.p0.thisShare
    && forall i :: 0 <= i < n ==> x.p0.thisShare[i] < m && x.p1.thisShare[i] < m && x.p2.thisShare[i] < m
  }

  /** The scalar sharing at one position. */
  function At(x: RepVec, i: nat): Rep
    requires i < |x.thisShare| && i < |x.nxtShare|
  {
    Rep(x.thisShare[i], x.nxtShare[i])
  }

  function AtAll(x: Trio<RepVec>, i: nat): Trio<Rep>
    requires i < |x.p0.thisShare| && i < |x.p0.nxtShare|
    requires i < |x.p1.thisShare| && i < |x.p1.nxtShare|
    requires i < |x.p2.thisShare| && i < |x.p2.nxtShare|
  {
    Trio(At(x.p0, i), At(x.p1, i), At(x.p2, i))
  }

  /** The plaintext vector. */
  function Values(m: nat, n: nat, x: Trio<RepVec>): (v: seq<nat>)
    requires m > 0 && ConsistentVec(m, n, x)
    ensures |v| == n && forall i :: 0 <= i < n ==> v[i] == Value(m, AtAll(x, i)) < m
  {
    seq(n, i requires 0 <= i < n => Value(m, AtAll(x, i)))
  }

  function DotLocal(m: nat, x: RepVec, y: RepVec, r: nat): nat
    requires m > 0 && |x.thisShare| == |x.nxtShare| == |y.thisShare| == |y.nxtShare|
  {
    var d := Dot(m, x.thisShare, y.thisShare);
    var d := Add(m, d, Dot(m, x.thisShare, y.nxtShare));
    var d := Add(m, d, Dot(m, x.nxtShare, y.thisShare));
    Add(m, d, r)
  }

  function DotAll(m: nat, n: nat, x: Trio<RepVec>, y: Trio<RepVec>, r: Trio<nat>): Trio<Rep>
    requires m > 0 && ConsistentVec(m, n, x) && ConsistentVec(m, n, y)
  {
    Reshare(Trio(DotLocal(m, x.p0, y.p0, r.p0), DotLocal(m, x.p1, y.p1, r.p1), DotLocal(m, x.p2, y.p2, r.p2)))
  }

  /** The wide inner products each party adds up. */
  function Wide3(a: seq<nat>, a': seq<nat>, b: seq<nat>, b': seq<nat>): nat
    requires |a| == |a'| == |b| == |b'|
  {
    WideDot(a, b) + WideDot(a, b') + WideDot(a', b)
  }

  lemma Wide3Step(a: seq<nat>, a': seq<nat>, b: seq<nat>, b': seq<nat>)
    requires |a| == |a'| == |b| == |b'| > 0
    ensures var l := |a| - 1;
      Wide3(a, a', b, b') == Wide3(a[..l], a'[..l], b[..l], b'[..l]) + (a[l] * b[l] + a[l] * b'[l] + a'[l] * b[l])
  {
  }

  /** The nine wide inner products add up to the inner product of the sums, and reducing entries first is harmless. */
  lemma {:induction false} DotTerms(m: nat, a0: seq<nat>, a1: seq<nat>, a2: seq<nat>, b0: seq<nat>, b1: seq<nat>, b2: seq<nat>,
                                    va: seq<nat>, vb: seq<nat>)
    requires m > 0 && |a0| == |a1| == |a2| == |b0| == |b1| == |b2| == |va| == |vb|
    requires forall i :: 0 <= i < |a0| ==> va[i] == (a0[i] + a1[i] + a2[i]) % m && vb[i] == (b0[i] + b1[i] + b2[i]) % m
    ensures (Wide3(a0, a1, b0, b1) + Wide3(a1, a2, b1, b2) + Wide3(a2, a0, b2, b0)) % m == WideDot(va, vb) % m
  {
    hide Wide3, WideDot;
    if |a0| == 0 {
      assert Wide3(a0, a1, b0, b1) + Wide3(a1, a2, b1, b2) + Wide3(a2, a0, b2, b0) == WideDot(va, vb) by { Wide3Empty(); }
    } else {
      var l := |a0| - 1;
      DotTerms(m, a0[..l], a1[..l], a2[..l], b0[..l], b1[..l], b2[..l], va[..l], vb[..l]);
      Wide3Step(a0, a1, b0, b1);
      Wide3Step(a1, a2, b1, b2);
      Wide3Step(a2, a0, b2, b0);
      assert WideDot(va, vb) == WideDot(va[..l], vb[..l]) + va[l] * vb[l] by { WideDotStep(va, vb); }
      DotStep(m, Wide3(a0[..l], a1[..l], b0[..l], b1[..l]), Wide3(a1[..l], a2[..l], b1[..l], b2[..l]),
        Wide3(a2[..l], a0[..l], b2[..l], b0[..l]), WideDot(va[..l], vb[..l]),
        a0[l], a1[l], a2[l], b0[l], b1[l], b2[l], va[l], vb[l]);
    }
  }

  lemma Wide3Empty()
    ensures Wide3([], [], [], []) == WideDot([], []) == 0
  {
  }

  lemma WideDotStep(a: seq<nat>, b: seq<nat>)
    requires |a| == |b| > 0
    ensures WideDot(a, b) == WideDot(a[..|a| - 1], b[..|a| - 1]) + a[|a| - 1] * b[|a| - 1]
  {
  }

  /** One more entry: its nine products are those of the sums. */
  lemma DotStep(m: nat, w0: int, w1: int, w2: int, v: int, a0: int, a1: int, a2: int, b0: int, b1: int, b2: int, va: int, vb: int)
    requires m > 0 && (w0 + w1 + w2) % m == v % m && va == (a0 + a1 + a2) % m && vb == (b0 + b1 + b2) % m
    ensures ((w0 + (a0 * b0 + a0 * b1 + a1 * b0)) + (w1 + (a1 * b1 + a1 * b2 + a2 * b1)) + (w2 + (a2 * b2 + a2 * b0 + a0 * b2))) % m
      == (v + va * vb) % m
  {
    CrossTerms(a0, a1, a2, b0, b1, b2);
    ProductStep(m, w0 + w1 + w2, v, a0 + a1 + a2, b0 + b1 + b2, va, vb);
  }

  lemma ProductStep(m: nat, w: int, w': int, x: int, y: int, vx: int, vy: int)
    requires m > 0 && w % m == w' % m && vx == x % m && vy == y % m
    ensures (w + x * y) % m == (w' + vx * vy) % m
  {
    ModMod(x, m);
    ModMod(y, m);
    MulCong(x, vx, y, vy, m);
    AddCong(w, w', x * y, vx * vy, m);
  }

  lemma FoldAdd(w0: int, w1: int, w2: int, r: nat, m: nat)
    requires m > 0
    ensures Add(m, Add(m, Add(m, w0 % m, w1 % m), w2 % m), r) == (w0 + w1 + w2 + r) % m
  {
    hide Add;
    AddResidues(m, w0 % m, w0, w1 % m, w1);
    AddResidues(m, Add(m, w0 % m, w1 % m), w0 + w1, w2 % m, w2);
    AddResidues(m, Add(m, Add(m, w0 % m, w1 % m), w2 % m), w0 + w1 + w2, r, r);
  }

  lemma AddResidues(m: nat, a: int, a': int, b: int, b': int)
    requires m > 0 && (a == a' % m || a == a') && (b == b' % m || b == b')
    ensures Add(m, a, b) == (a' + b') % m
  {
    ModMod(a', m);
    ModMod(b', m);
    AddCong(a, a', b, b', m);
  }

  lemma DotLocalResidue(m: nat, x: RepVec, y: RepVec, r: nat)
    requires m > 0 && |x.thisShare| == |x.nxtShare| == |y.thisShare| == |y.nxtShare|
    ensures DotLocal(m, x, y, r) == (Wide3(x.thisShare, x.nxtShare, y.thisShare, y.nxtShare) + r) % m
  {
    hide WideDot, Add;
    FoldAdd(WideDot(x.thisShare, y.thisShare), WideDot(x.thisShare, y.nxtShare), WideDot(x.nxtShare, y.thisShare), r, m);
  }

  /** Three masked terms, reshared, open to their sum. */
  lemma MaskedOpens(m: nat, t0: int, t1: int, t2: int, r: Trio<nat>, s: Trio<nat>, w: int)
    requires m > 0 && ZeroSum(m, r) && (t0 + t1 + t2) % m == w % m
    requires s.p0 == (t0 + r.p0) % m && s.p1 == (t1 + r.p1) % m && s.p2 == (t2 + r.p2) % m
    ensures Consistent(m, Reshare(s)) && Value(m, Reshare(s)) == w % m
  {
    MaskedSum(m, t0, t1, t2, r);
    ReshareMeaning(m, s);
  }

  /** The inner product protocol opens to the inner product of the plaintext vectors. */
  lemma DotCorrect(m: nat, n: nat, x: Trio<RepVec>, y: Trio<RepVec>, r: Trio<nat>)
    requires m > 0 && ConsistentVec(m, n, x) && ConsistentVec(m, n, y) && ZeroSum(m, r)
    ensures Consistent(m, DotAll(m, n, x, y, r))
    ensures Value(m, DotAll(m, n, x, y, r)) == Dot(m, Values(m, n, x), Values(m, n, y))
  {
    hide WideDot, DotLocal, Wide3, Value, Consistent, ZeroSum, Reshare, Values;
    var a0, a1, a2 := x.p0.thisShare, x.p1.thisShare, x.p2.thisShare;
    var b0, b1, b2 := y.p0.thisShare, y.p1.thisShare, y.p2.thisShare;
    var va, vb := Values(m, n, x), Values(m, n, y);
    DotLocalResidue(m, x.p0, y.p0, r.p0);
    DotLocalResidue(m, x.p1, y.p1, r.p1);
    DotLocalResidue(m, x.p2, y.p2, r.p2);
    PlainAt(m, n, x, va);
    PlainAt(m, n, y, vb);
    DotTerms(m, a0, a1, a2, b0, b1, b2, va, vb);
    var s := Trio(DotLocal(m, x.p0, y.p0, r.p0), DotLocal(m, x.p1, y.p1, r.p1), DotLocal(m, x.p2, y.p2, r.p2));
    MaskedOpens(m, Wide3(a0, a1, b0, b1), Wide3(a1, a2, b1, b2), Wide3(a2, a0, b2, b0), r, s, WideDot(va, vb));
  }

  lemma PlainAt(m: nat, n: nat, x: Trio<RepVec>, v: seq<nat>)
    requires m > 0 && ConsistentVec(m, n, x) && v == Values(m, n, x)
    ensures forall i :: 0 <= i < n ==> v[i] == (x.p0.thisShare[i] + x.p1.thisShare[i] + x.p2.thisShare[i]) % m
  {
  }
}
