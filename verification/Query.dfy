/** A whole query: the querier's element and the steward's seeds become shared indices, the peers turn the steward's
    point-function keys into shares of the index counts, the agents take the inner product with the published root, and
    one equality test opens to the answer.  The parties' steps are written in protocol order; a message is the value the
    receiver continues with. */
module Query {
  import opened Ring
  import opened Blocks
  import opened Hash
  import opened Aby3
  import opened Aby3Vec
  import opened Rvector
  import B = Bgi16
  import opened QueryMath
  import opened QueryPeers

  datatype Setup = Setup(aes: Aes, ccrh: B.Ccrh, ellIn: nat, ellRoot: nat, bf: nat, seeds: seq<seq<Byte>>, cores: nat)

  /** The random bytes drawn for one hash function. */
  datatype IndexRandom = IndexRandom(keyMask: seq<Byte>, hashMask: nat, modMask: nat, split: nat)

  datatype QueryResult = Rejected | Answer(value: nat)

  /** The filter parameters fit their rings and every seed has 16 bytes. */
  ghost predicate ProperSetup(c: Setup) {
    && 1 <= c.ellIn <= ELL_MAX && 1 <= c.ellRoot <= 8 && c.bf > 0 && c.cores > 0
    && 0 < |c.seeds| < Pow2(c.ellRoot) && forall k :: 0 <= k < |c.seeds| ==> |c.seeds[k]| == 16
  }

  ghost predicate ProperRandom(c: Setup, r: IndexRandom) {
    |r.keyMask| == 16 && r.hashMask < Pow2(c.ellIn) && r.modMask < Pow2(c.ellIn) && r.split < Pow2(c.ellIn)
  }

  /** The position the circuit computes for one seed. */
  function CircuitIndex(c: Setup, element: seq<Byte>, k: nat): (i: nat)
    requires k < |c.seeds| && c.ellIn <= ELL_MAX && c.bf > 0
    ensures i < c.bf
  {
    CircuitDigest(c.aes, BlockOf(c.seeds[k]), element, c.ellIn) % c.bf
  }

  function CircuitIndices(c: Setup, element: seq<Byte>): (r: seq<nat>)
    requires c.ellIn <= ELL_MAX && c.bf > 0
    ensures |r| == |c.seeds| && forall k :: 0 <= k < |r| ==> r[k] == CircuitIndex(c, element, k)
  {
    seq(|c.seeds|, k requires 0 <= k < |c.seeds| => CircuitIndex(c, element, k))
  }

  // ---- the indices ----

  lemma ThreeWaySplit(N: nat, xQ: nat, xS: nat, r: nat)
    requires N > 0 && xQ < N && xS < N && r < N
    ensures Add(N, Add(N, xS, Sub(N, xQ, r)), r) == Add(N, xQ, xS)
  {
    ModMod(xQ - r, N);
    ModMod(xS + Sub(N, xQ, r), N);
    AddCong(Sub(N, xQ, r), xQ - r, xS, xS, N);
    AddCong(Add(N, xS, Sub(N, xQ, r)), xS + xQ - r, r, r, N);
  }

  /** One index: hashed and reduced between querier and steward, then the querier's half is split between the peers.
      After each agent has sent its share to the previous one, the steward adds two shares to the point of its key and
      both peers know the third as their bias. */
  method ShareIndex(c: Setup, ptQ: seq<Byte>, ptS: seq<Byte>, k: nat, rnd: IndexRandom) returns (ok: bool, alpha: nat, bias0: nat, bias1: nat)
    requires ProperSetup(c) && ProperRandom(c, rnd) && |ptQ| == |ptS| && k < |c.seeds|
    ensures ok <==> c.bf < Pow2(c.ellIn)
    ensures ok ==> alpha < Pow2(c.ellIn) && bias0 == bias1
    ensures ok ==> (alpha + bias0) % Pow2(c.ellIn) == CircuitIndex(c, XorBytes(ptQ, ptS), k)
  {
    hide Pow2, CircuitDigest, XorBytes, BlockOf;
    var N := Pow2(c.ellIn);
    var keyS, keyQ := ShareBytes(c.seeds[k], rnd.keyMask);
    XorBytesSymmetric(keyS, keyQ);
    var hQ, hS := CircuitHash(c.aes, ptQ, ptS, keyQ, keyS, c.ellIn, rnd.hashMask);
    var res := ModShares(c.ellIn, hQ, hS, c.bf, rnd.modMask);
    if res.BadModulus? {
      return false, 0, 0, 0;
    }
    var s := Trio(res.b, Sub(N, res.a, rnd.split), rnd.split);
    var rep := Reshare(s);
    ThreeWaySplit(N, res.a, res.b, rnd.split);
    return true, Add(N, rep.p0.thisShare, rep.p0.nxtShare), rep.p1.nxtShare, rep.p2.thisShare;
  }

  lemma XorBytesSymmetric(a: seq<Byte>, b: seq<Byte>)
    requires |a| == |b|
    ensures XorBytes(a, b) == XorBytes(b, a)
  {
    forall i | 0 <= i < |a|
      ensures XorByte(a[i], b[i]) == XorByte(b[i], a[i])
    {
    }
  }

  /** All indices of the element. */
  method ShareIndices(c: Setup, element: seq<Byte>, elementMask: seq<Byte>, rnds: seq<IndexRandom>)
    returns (ok: bool, alphas: seq<nat>, biases0: seq<nat>, biases1: seq<nat>)
    requires ProperSetup(c) && |elementMask| == |element| && |rnds| == |c.seeds|
    requires forall k :: 0 <= k < |rnds| ==> ProperRandom(c, rnds[k])
    ensures ok <==> c.bf < Pow2(c.ellIn)
    ensures ok ==> biases0 == biases1 && Splits(Pow2(c.ellIn), c.bf, CircuitIndices(c, element), alphas, biases0)
  {
    hide Pow2, CircuitDigest, ProperRandom;
    var ptQ, ptS := ShareBytes(element, elementMask);
    ok, alphas, biases0, biases1 := true, [], [], [];
    for k := 0 to |c.seeds|
      invariant |alphas| == |biases0| == k && biases0 == biases1
      invariant k > 0 ==> c.bf < Pow2(c.ellIn)
      invariant forall j :: 0 <= j < k ==>
        alphas[j] < Pow2(c.ellIn) && (alphas[j] + biases0[j]) % Pow2(c.ellIn) == CircuitIndex(c, element, j)
    {
      var fine, alpha, bias0, bias1 := ShareIndex(c, ptQ, ptS, k, rnds[k]);
      if !fine {
        return false, [], [], [];
      }
      alphas := alphas + [alpha];
      biases0 := biases0 + [bias0];
      biases1 := biases1 + [bias1];
    }
  }

  // ---- the index-count vector ----

  /** The three agents' query buffers are pairwise different objects. */
  ghost predicate Separate(bf: nat, b: Trio<ShareVec>) {
    && b.p0.Valid(bf) && b.p1.Valid(bf) && b.p2.Valid(bf)
    && b.p0 != b.p1 && b.p0 != b.p2 && b.p1 != b.p2
    && Apart(b.p0, b.p1) && Apart(b.p0, b.p2) && Apart(b.p1, b.p2)
  }

  ghost predicate Away(a: ShareVec, b: Trio<ShareVec>) {
    a != b.p0 && a != b.p1 && a != b.p2 && Apart(a, b.p0) && Apart(a, b.p1) && Apart(a, b.p2)
  }

  function ValsOf(b: Trio<ShareVec>): Trio<RepVec>
    reads b.p0.thisShare, b.p0.nxtShare, b.p1.thisShare, b.p1.nxtShare, b.p2.thisShare, b.p2.nxtShare
  {
    Trio(RepVec(b.p0.thisShare[..], b.p0.nxtShare[..]), RepVec(b.p1.thisShare[..], b.p1.nxtShare[..]),
      RepVec(b.p2.thisShare[..], b.p2.nxtShare[..]))
  }

  /** A share of the number of times each position is an index. */
  ghost predicate SharesCounts(m: nat, bf: nat, q: Trio<RepVec>, idxs: seq<nat>)
    requires m > 0
  {
    ConsistentVec(m, bf, q) && forall s :: 0 <= s < bf ==> Values(m, bf, q)[s] == Count(idxs, s) % m
  }

  lemma CountsShared(m: nat, bf: nat, v: Trio<seq<nat>>, idxs: seq<nat>)
    requires m > 0 && |v.p0| == |v.p1| == |v.p2| == bf
    requires forall s :: 0 <= s < bf ==> v.p0[s] < m && v.p1[s] < m && v.p2[s] < m
    requires forall s :: 0 <= s < bf ==> (v.p0[s] + v.p1[s] + v.p2[s]) % m == Count(idxs, s) % m
    ensures SharesCounts(m, bf, ReshareVec(v), idxs)
  {
    hide Count;
  }

  lemma {:induction false} AccumulatedReduced(h: B.Ccrh, party: nat, ellIn: nat, ellOut: nat, keys: seq<B.Key>, biases: seq<nat>, draw: nat, s: nat)
    requires |keys| == |biases| && draw < Pow2(ellOut)
    ensures Accumulated(h, party, ellIn, ellOut, keys, biases, draw, s) < Pow2(ellOut)
  {
    hide B.Eval, Pow2;
  }

  /** Draws, peer evaluations and the resharing. */
  method CountVector(c: Setup, alphas: seq<nat>, biases0: seq<nat>, biases1: seq<nat>, ghost idxs: seq<nat>, keyRnds: seq<KeyRandom>,
                     crng: Trio<seq<nat>>, buf: Trio<ShareVec>)
    requires ProperSetup(c) && c.bf < Pow2(c.ellIn) && |keyRnds| == |alphas| && biases0 == biases1
    requires Splits(Pow2(c.ellIn), c.bf, idxs, alphas, biases0)
    requires Separate(c.bf, buf) && ZeroSumVec(Pow2(c.ellRoot), c.bf, crng)
    modifies buf.p0.thisShare, buf.p0.nxtShare, buf.p1.thisShare, buf.p1.nxtShare, buf.p2.thisShare, buf.p2.nxtShare
    ensures SharesCounts(Pow2(c.ellRoot), c.bf, ValsOf(buf), idxs)
  {
    hide Pow2, B.Eval, Accumulated, PointKeys, SharesCounts;
    var m := Pow2(c.ellRoot);
    var k0s, k1s := StewardKeys(c.ccrh, c.ellIn, c.ellRoot, alphas, keyRnds);
    KeysSized(c.ccrh, c.ellIn, c.ellRoot, k0s, k1s, alphas);
    Receive(buf.p0.nxtShare, crng.p0);
    Receive(buf.p1.nxtShare, crng.p1);
    Receive(buf.p2.nxtShare, crng.p2);
    assert forall s :: 0 <= s < c.bf ==> buf.p1.nxtShare[s] == crng.p1[s] && buf.p2.nxtShare[s] == crng.p2[s];
    var _ := PeerQuery(c.ccrh, k0s, biases0, 0, c.ellIn, c.ellRoot, c.bf, c.cores, buf.p1);
    var _ := PeerQuery(c.ccrh, k1s, biases1, 1, c.ellIn, c.ellRoot, c.bf, c.cores, buf.p2);
    var v := Trio(buf.p0.nxtShare[..], buf.p1.nxtShare[..], buf.p2.nxtShare[..]);
    PeersDone(c, k0s, k1s, idxs, alphas, biases0, crng, v);
    var _, _ := ReshareVector(c.bf, buf.p0.nxtShare, buf.p0, v.p1);
    var _, _ := ReshareVector(c.bf, buf.p1.nxtShare, buf.p1, v.p2);
    var _, _ := ReshareVector(c.bf, buf.p2.nxtShare, buf.p2, v.p0);
    assert ValsOf(buf) == ReshareVec(v);
  }

  lemma KeysSized(h: B.Ccrh, ellIn: nat, ellOut: nat, k0s: seq<B.Key>, k1s: seq<B.Key>, alphas: seq<nat>)
    requires PointKeys(h, ellIn, ellOut, k0s, k1s, alphas)
    ensures |k0s| == |k1s| == |alphas|
    ensures forall k :: 0 <= k < |alphas| ==> |k0s[k].cws| == ellIn && |k1s[k].cws| == ellIn
  {
  }

  lemma PeersDone(c: Setup, k0s: seq<B.Key>, k1s: seq<B.Key>, idxs: seq<nat>, alphas: seq<nat>, biases: seq<nat>,
                  crng: Trio<seq<nat>>, v: Trio<seq<nat>>)
    requires ProperSetup(c) && c.bf < Pow2(c.ellIn) && PointKeys(c.ccrh, c.ellIn, c.ellRoot, k0s, k1s, alphas)
    requires Splits(Pow2(c.ellIn), c.bf, idxs, alphas, biases) && ZeroSumVec(Pow2(c.ellRoot), c.bf, crng)
    requires |k0s| == |k1s| == |biases| && |v.p0| == |v.p1| == |v.p2| == c.bf && v.p0 == crng.p0
    requires forall s: nat :: s < c.bf ==> v.p1[s] == Accumulated(c.ccrh, 0, c.ellIn, c.ellRoot, k0s, biases, crng.p1[s], s)
    requires forall s: nat :: s < c.bf ==> v.p2[s] == Accumulated(c.ccrh, 1, c.ellIn, c.ellRoot, k1s, biases, crng.p2[s], s)
    ensures SharesCounts(Pow2(c.ellRoot), c.bf, ReshareVec(v), idxs)
  {
    hide Pow2, B.Eval, Accumulated, PointKeys, SharesCounts, Splits, Count;
    var m := Pow2(c.ellRoot);
    forall s: nat | s < c.bf
      ensures v.p0[s] < m && v.p1[s] < m && v.p2[s] < m
      ensures (v.p0[s] + v.p1[s] + v.p2[s]) % m == Count(idxs, s) % m
    {
      assert ZeroSum(m, Trio(crng.p0[s], crng.p1[s], crng.p2[s]));
      AccumulatedReduced(c.ccrh, 0, c.ellIn, c.ellRoot, k0s, biases, crng.p1[s], s);
      AccumulatedReduced(c.ccrh, 1, c.ellIn, c.ellRoot, k1s, biases, crng.p2[s], s);
      PeersShareCounts(c.ccrh, c.ellIn, c.ellRoot, c.bf, k0s, k1s, idxs, alphas, biases, crng.p1[s], crng.p2[s], s);
      ThreeSum(m, crng.p0[s], crng.p1[s], crng.p2[s], v.p1[s], v.p2[s], Count(idxs, s));
    }
    CountsShared(m, c.bf, v, idxs);
  }

  lemma ThreeSum(m: nat, r0: nat, r1: nat, r2: nat, a: nat, b: nat, n: nat)
    requires m > 0 && (r0 + r1 + r2) % m == 0 && (a + b) % m == (r1 + r2 + n) % m
    ensures (r0 + a + b) % m == n % m
  {
    ModSmall(0, m);
    AddCong(a + b, r1 + r2 + n, r0, r0, m);
    AddCong(r0 + r1 + r2, 0, n, n, m);
  }

  // ---- inner product and answer ----

  /** The inner product with the root, and the equality test of its shares against the number of hash functions. */
  method Compare(c: Setup, buf: Trio<ShareVec>, root: Trio<ShareVec>, ghost idxs: seq<nat>, dotDraws: Trio<nat>, eqMask: nat) returns (answer: nat)
    requires ProperSetup(c) && buf.p0.Valid(c.bf) && buf.p1.Valid(c.bf) && buf.p2.Valid(c.bf)
    requires root.p0.Valid(c.bf) && root.p1.Valid(c.bf) && root.p2.Valid(c.bf)
    requires SharesCounts(Pow2(c.ellRoot), c.bf, ValsOf(buf), idxs) && ConsistentVec(Pow2(c.ellRoot), c.bf, ValsOf(root))
    requires ZeroSum(Pow2(c.ellRoot), dotDraws) && eqMask < Pow2(c.ellRoot)
    requires |idxs| == |c.seeds| && forall k :: 0 <= k < |idxs| ==> idxs[k] < c.bf
    requires forall s :: 0 <= s < c.bf ==> Values(Pow2(c.ellRoot), c.bf, ValsOf(root))[s] < 2
    ensures answer == if forall k :: 0 <= k < |idxs| ==> Values(Pow2(c.ellRoot), c.bf, ValsOf(root))[idxs[k]] == 1 then 1 else 0
  {
    hide Pow2, DotLocal, SharesCounts, Values, Value, ConsistentVec;
    var m := Pow2(c.ellRoot);
    var t0 := DotVectors(m, c.bf, buf.p0, root.p0, dotDraws.p0);
    var t1 := DotVectors(m, c.bf, buf.p1, root.p1, dotDraws.p1);
    var t2 := DotVectors(m, c.bf, buf.p2, root.p2, dotDraws.p2);
    var rep := Reshare(Trio(t0, t1, t2));
    var drShare := Add(m, rep.p0.thisShare, rep.p0.nxtShare);
    DotOpens(c, ValsOf(buf), ValsOf(root), idxs, dotDraws, Trio(t0, t1, t2));
    var qrQuerier, qrSteward := EqualityShares(c.ellRoot, rep.p2.thisShare, drShare, 0, |c.seeds|, eqMask);
    answer := Add(m, qrSteward, qrQuerier);
  }

  /** The sum cannot wrap, so the test succeeds exactly when every index is set in the root. */
  lemma DotOpens(c: Setup, q: Trio<RepVec>, root: Trio<RepVec>, idxs: seq<nat>, dotDraws: Trio<nat>, t: Trio<nat>)
    requires ProperSetup(c) && SharesCounts(Pow2(c.ellRoot), c.bf, q, idxs) && ConsistentVec(Pow2(c.ellRoot), c.bf, root)
    requires ZeroSum(Pow2(c.ellRoot), dotDraws)
    requires |idxs| == |c.seeds| && forall k :: 0 <= k < |idxs| ==> idxs[k] < c.bf
    requires forall s :: 0 <= s < c.bf ==> Values(Pow2(c.ellRoot), c.bf, root)[s] < 2
    requires Reshare(t) == DotAll(Pow2(c.ellRoot), c.bf, q, root, dotDraws)
    ensures var m := Pow2(c.ellRoot);
      Add(m, t.p2, Add(m, t.p0, t.p1)) == Add(m, 0, |c.seeds|)
      <==> forall k :: 0 <= k < |idxs| ==> Values(m, c.bf, root)[idxs[k]] == 1
  {
    hide Pow2, DotAll, Count;
    var m := Pow2(c.ellRoot);
    DotCorrect(m, c.bf, q, root, dotDraws);
    var plain := Values(m, c.bf, root);
    DotReduced(m, Counts(c.bf, idxs), Values(m, c.bf, q), plain);
    CountsPick(c.bf, idxs, plain);
    AllPicked(plain, idxs);
    ModSmall(Picked(plain, idxs), m);
    ModSmall(|c.seeds|, m);
    ModMod(t.p0 + t.p1, m);
    AddCong(Add(m, t.p0, t.p1), t.p0 + t.p1, t.p2, t.p2, m);
  }

  // ---- the whole query ----

  /** Everything the parties draw during one query. */
  datatype QueryRandom = QueryRandom(elementMask: seq<Byte>, index: seq<IndexRandom>, key: seq<KeyRandom>,
    crng: Trio<seq<nat>>, dot: Trio<nat>, eq: nat)

  ghost predicate ProperDraws(c: Setup, element: seq<Byte>, rnd: QueryRandom) {
    && |rnd.elementMask| == |element| && |rnd.index| == |rnd.key| == |c.seeds|
    && (forall k :: 0 <= k < |rnd.index| ==> ProperRandom(c, rnd.index[k]))
    && ZeroSumVec(Pow2(c.ellRoot), c.bf, rnd.crng) && ZeroSum(Pow2(c.ellRoot), rnd.dot) && rnd.eq < Pow2(c.ellRoot)
  }

  /** For every element, every split of every secret and every draw, the answer is one exactly when the published root
      is one at each of the element's positions; a filter as large as the index ring is refused. */
  method RunQuery(c: Setup, element: seq<Byte>, rnd: QueryRandom, root: Trio<ShareVec>, buf: Trio<ShareVec>) returns (res: QueryResult)
    requires ProperSetup(c) && ProperDraws(c, element, rnd) && Separate(c.bf, buf)
    requires root.p0.Valid(c.bf) && root.p1.Valid(c.bf) && root.p2.Valid(c.bf)
    requires Away(root.p0, buf) && Away(root.p1, buf) && Away(root.p2, buf)
    requires ConsistentVec(Pow2(c.ellRoot), c.bf, ValsOf(root))
    requires forall s :: 0 <= s < c.bf ==> Values(Pow2(c.ellRoot), c.bf, ValsOf(root))[s] < 2
    modifies buf.p0.thisShare, buf.p0.nxtShare, buf.p1.thisShare, buf.p1.nxtShare, buf.p2.thisShare, buf.p2.nxtShare
    ensures res.Rejected? <==> c.bf >= Pow2(c.ellIn)
    ensures ValsOf(root) == old(ValsOf(root))
    ensures res.Answer? ==> res.value == if forall k :: 0 <= k < |c.seeds| ==>
      Values(Pow2(c.ellRoot), c.bf, ValsOf(root))[CircuitIndex(c, element, k)] == 1 then 1 else 0
  {
    hide Pow2, CircuitIndex, Splits, SharesCounts, Values, ConsistentVec, ProperRandom, ZeroSumVec, ZeroSum;
    ghost var idxs := CircuitIndices(c, element);
    var ok, alphas, biases0, biases1 := ShareIndices(c, element, rnd.elementMask, rnd.index);
    if !ok {
      return Rejected;
    }
    SplitLengths(Pow2(c.ellIn), c.bf, idxs, alphas, biases0);
    CountVector(c, alphas, biases0, biases1, idxs, rnd.key, rnd.crng, buf);
    assert ValsOf(root) == old(ValsOf(root));
    var answer := Compare(c, buf, root, idxs, rnd.dot, rnd.eq);
    return Answer(answer);
  }

  lemma SplitLengths(N: nat, bf: nat, idxs: seq<nat>, alphas: seq<nat>, biases: seq<nat>)
    requires N > 0 && Splits(N, bf, idxs, alphas, biases)
    ensures |alphas| == |idxs|
  {
  }
}
