/** The index-count vector of a query: the steward's point-function keys, the peers' shifted range evaluations summed in
    place onto correlated randomness, and what the three vectors share. */
module QueryPeers {
  import opened Ring
  import opened Blocks
  import opened Bgi16
  import opened Bgi16Eval
  import opened Aby3Vec
  import opened Rvector
  import opened QueryMath

  datatype KeyRandom = KeyRandom(draw0: Block, draw1: Block, keyL: Block, keyR: Block)

  datatype PeerResult = Evaluated | RingRejects

  /** Each pair of keys shares the unit function at its point. */
  ghost predicate PointKeys(h: Ccrh, ellIn: nat, ellOut: nat, k0s: seq<Key>, k1s: seq<Key>, alphas: seq<nat>) {
    && |k0s| == |k1s| == |alphas|
    && forall k :: 0 <= k < |alphas| ==> PointPair(h, ellIn, ellOut, k0s[k], k1s[k], alphas[k])
  }

  ghost predicate PointPair(h: Ccrh, ellIn: nat, ellOut: nat, k0: Key, k1: Key, alpha: nat) {
    |k0.cws| == |k1.cws| == ellIn && SharesPoint(h, k0, k1, ellIn, ellOut, alpha, 1)
  }

  /** The steward generates one pair of keys per hash function. */
  method StewardKeys(h: Ccrh, ellIn: nat, ellOut: nat, alphas: seq<nat>, randoms: seq<KeyRandom>)
    returns (k0s: seq<Key>, k1s: seq<Key>)
    requires ellIn <= 31 && ellOut <= 8 && |randoms| == |alphas|
    requires forall k :: 0 <= k < |alphas| ==> alphas[k] < Pow2(ellIn)
    ensures PointKeys(h, ellIn, ellOut, k0s, k1s, alphas)
  {
    hide SharesPoint, Pow2;
    k0s, k1s := [], [];
    for k := 0 to |alphas|
      invariant |k0s| == |k1s| == k
      invariant forall j :: 0 <= j < k ==> PointPair(h, ellIn, ellOut, k0s[j], k1s[j], alphas[j])
    {
      Pow2Mono(ellIn, 32);
      var r := randoms[k];
      var res := Gen(h, ellIn, ellOut, alphas[k], 1, r.draw0, r.draw1, r.keyL, r.keyR);
      k0s := k0s + [res.k0];
      k1s := k1s + [res.k1];
    }
  }

  /** One peer's entry s: its draw plus its evaluations of all keys, each at s shifted by the bias. */
  function Accumulated(h: Ccrh, party: nat, ellIn: nat, ellOut: nat, keys: seq<Key>, biases: seq<nat>, draw: nat, s: nat): nat
    requires |keys| == |biases|
    decreases |keys|
  {
    if keys == [] then draw
    else
      var l := |keys| - 1;
      Add(Pow2(ellOut), Accumulated(h, party, ellIn, ellOut, keys[..l], biases[..l], draw, s),
        Eval(h, keys[l], party, ellOut, (s - biases[l]) % Pow2(ellIn)))
  }

  lemma AccumulatedMore(h: Ccrh, party: nat, ellIn: nat, ellOut: nat, keys: seq<Key>, biases: seq<nat>, k: nat, draw: nat, s: nat)
    requires |keys| == |biases| && k < |keys|
    ensures Accumulated(h, party, ellIn, ellOut, keys[..k + 1], biases[..k + 1], draw, s)
      == Add(Pow2(ellOut), Accumulated(h, party, ellIn, ellOut, keys[..k], biases[..k], draw, s),
        Eval(h, keys[k], party, ellOut, (s - biases[k]) % Pow2(ellIn)))
  {
    assert keys[..k + 1][..k] == keys[..k] && biases[..k + 1][..k] == biases[..k];
  }

  /** The loop of a peer over its keys.  `nxtShare` starts with the correlated draw and accumulates; `thisShare` is the
      evaluation buffer.  A filter as large as the index ring is refused by the ring addition. */
  method PeerQuery(h: Ccrh, keys: seq<Key>, biases: seq<nat>, party: nat, ellIn: nat, ellOut: nat, bf: nat, cores: nat,
                   buf: ShareVec)
    returns (res: PeerResult)
    requires |keys| == |biases| && bf > 0 && cores > 0 && buf.Valid(bf)
    requires forall k :: 0 <= k < |keys| ==> |keys[k].cws| == ellIn
    modifies buf.thisShare, buf.nxtShare
    ensures res.RingRejects? <==> keys != [] && bf >= Pow2(ellIn)
    ensures res.Evaluated? ==> forall s: nat :: s < bf ==>
      buf.nxtShare[s] == Accumulated(h, party, ellIn, ellOut, keys, biases, old(buf.nxtShare[s]), s)
  {
    hide Eval, Accumulated, Add, Sub, Pow2;
    StartsWithDraw(h, party, ellIn, ellOut);
    for k := 0 to |keys|
      invariant k > 0 ==> bf < Pow2(ellIn)
      invariant forall s: nat :: s < bf ==>
        buf.nxtShare[s] == Accumulated(h, party, ellIn, ellOut, keys[..k], biases[..k], old(buf.nxtShare[s]), s)
    {
      if bf >= Pow2(ellIn) {
        return RingRejects;
      }
      EvaluateKey(h, keys[k], biases[k], party, ellIn, ellOut, bf, cores, buf.thisShare);
      ghost var was := buf.nxtShare[..];
      var _ := VecAdd(Pow2(ellOut), buf.nxtShare, buf.thisShare, buf.nxtShare);
      forall s: nat | s < bf
        ensures buf.nxtShare[s] == Accumulated(h, party, ellIn, ellOut, keys[..k + 1], biases[..k + 1], old(buf.nxtShare[s]), s)
      {
        assert was[s] == Accumulated(h, party, ellIn, ellOut, keys[..k], biases[..k], old(buf.nxtShare[s]), s);
        AccumulatedMore(h, party, ellIn, ellOut, keys, biases, k, old(buf.nxtShare[s]), s);
      }
    }
    assert keys[..|keys|] == keys && biases[..|keys|] == biases;
    return Evaluated;
  }

  lemma StartsWithDraw(h: Ccrh, party: nat, ellIn: nat, ellOut: nat)
    ensures forall draw: nat, s: nat :: Accumulated(h, party, ellIn, ellOut, [], [], draw, s) == draw
  {
  }

  /** One range evaluation from -bias on. */
  method EvaluateKey(h: Ccrh, key: Key, bias: nat, party: nat, ellIn: nat, ellOut: nat, bf: nat, cores: nat, buf: array<nat>)
    requires |key.cws| == ellIn && 0 < bf < Pow2(ellIn) && buf.Length == bf && cores > 0
    modifies buf
    ensures forall s: nat :: s < bf ==> buf[s] == Eval(h, key, party, ellOut, (s - bias) % Pow2(ellIn))
  {
    hide Eval, Pow2;
    var N := Pow2(ellIn);
    var evalBg := Sub(N, 0, bias);
    var evalEd := Add(N, evalBg, bf);
    evalEd := Sub(N, evalEd, 1);
    QueryMath.Window(N, bias, bf);
    var _ := RangeEval(h, key, party, ellOut, cores, buf, evalBg, evalEd);
    forall s: nat | s < bf
      ensures buf[s] == Eval(h, key, party, ellOut, (s - bias) % N)
    {
      WindowAt(N, bias, s);
    }
  }

  // ---- what the peers' vectors add up to ----

  /** alpha and bias split the index. */
  ghost predicate Splits(N: nat, bf: nat, idxs: seq<nat>, alphas: seq<nat>, biases: seq<nat>)
    requires N > 0
  {
    && |idxs| == |alphas| == |biases|
    && forall k :: 0 <= k < |idxs| ==> idxs[k] < bf && alphas[k] < N && (alphas[k] + biases[k]) % N == idxs[k]
  }

  lemma UnitAt(h: Ccrh, ellIn: nat, ellOut: nat, k0: Key, k1: Key, idx: nat, alpha: nat, bias: nat, s: nat)
    requires PointPair(h, ellIn, ellOut, k0, k1, alpha) && ellOut >= 1
    requires alpha < Pow2(ellIn) && idx < Pow2(ellIn) && s < Pow2(ellIn) && (alpha + bias) % Pow2(ellIn) == idx
    ensures var x := (s - bias) % Pow2(ellIn);
      Add(Pow2(ellOut), Eval(h, k0, 0, ellOut, x), Eval(h, k1, 1, ellOut, x)) == if s == idx then 1 else 0
  {
    hide Eval, Pow2;
    var N := Pow2(ellIn);
    ModSmall(idx, N);
    AddCong(alpha + bias, idx, bias, bias, N);
    ModSmall(alpha, N);
    Rotation(N, idx, bias, alpha, s);
    TwoAtLeast(ellOut);
    ModSmall(1, Pow2(ellOut));
  }

  lemma TwoAtLeast(ell: nat)
    requires ell >= 1
    ensures Pow2(ell) >= 2
  {
  }

  /** The two peers' entries at s add up to their draws plus the number of times s is an index. */
  lemma {:induction false} PeersShareCounts(h: Ccrh, ellIn: nat, ellOut: nat, bf: nat, k0s: seq<Key>, k1s: seq<Key>,
                                            idxs: seq<nat>, alphas: seq<nat>, biases: seq<nat>, draw1: nat, draw2: nat, s: nat)
    requires PointKeys(h, ellIn, ellOut, k0s, k1s, alphas) && ellOut >= 1
    requires bf < Pow2(ellIn) && Splits(Pow2(ellIn), bf, idxs, alphas, biases) && s < bf
    ensures (Accumulated(h, 0, ellIn, ellOut, k0s, biases, draw1, s) + Accumulated(h, 1, ellIn, ellOut, k1s, biases, draw2, s))
        % Pow2(ellOut)
      == (draw1 + draw2 + Count(idxs, s)) % Pow2(ellOut)
    decreases |idxs|
  {
    hide Eval, Pow2, PointPair, Add, Accumulated;
    if idxs == [] {
      StartsWithDraw(h, 0, ellIn, ellOut);
      StartsWithDraw(h, 1, ellIn, ellOut);
      assert k0s == [] && k1s == [] && biases == [];
    } else {
      var l := |idxs| - 1;
      PeersShareCounts(h, ellIn, ellOut, bf, k0s[..l], k1s[..l], idxs[..l], alphas[..l], biases[..l], draw1, draw2, s);
      UnitAt(h, ellIn, ellOut, k0s[l], k1s[l], idxs[l], alphas[l], biases[l], s);
      var x := (s - biases[l]) % Pow2(ellIn);
      LastKey(h, 0, ellIn, ellOut, k0s, biases, draw1, s);
      LastKey(h, 1, ellIn, ellOut, k1s, biases, draw2, s);
      AddPair(Pow2(ellOut), Accumulated(h, 0, ellIn, ellOut, k0s[..l], biases[..l], draw1, s), Eval(h, k0s[l], 0, ellOut, x),
        Accumulated(h, 1, ellIn, ellOut, k1s[..l], biases[..l], draw2, s), Eval(h, k1s[l], 1, ellOut, x),
        draw1 + draw2 + Count(idxs[..l], s), if s == idxs[l] then 1 else 0,
        Accumulated(h, 0, ellIn, ellOut, k0s, biases, draw1, s), Accumulated(h, 1, ellIn, ellOut, k1s, biases, draw2, s),
        draw1 + draw2 + Count(idxs, s));
    }
  }

  lemma LastKey(h: Ccrh, party: nat, ellIn: nat, ellOut: nat, keys: seq<Key>, biases: seq<nat>, draw: nat, s: nat)
    requires |keys| == |biases| > 0
    ensures var l := |keys| - 1;
      Accumulated(h, party, ellIn, ellOut, keys, biases, draw, s)
        == Add(Pow2(ellOut), Accumulated(h, party, ellIn, ellOut, keys[..l], biases[..l], draw, s),
               Eval(h, keys[l], party, ellOut, (s - biases[l]) % Pow2(ellIn)))
  {
    hide Eval, Pow2, Add;
  }

  lemma AddPair(m: nat, a: nat, x: nat, b: nat, y: nat, sum: nat, unit: nat, a': nat, b': nat, total: nat)
    requires m > 0 && (a + b) % m == sum % m && Add(m, x, y) == unit
    requires a' == Add(m, a, x) && b' == Add(m, b, y) && total == sum + unit
    ensures (a' + b') % m == total % m
  {
    ModMod(a + x, m);
    ModMod(b + y, m);
    ModMod(x + y, m);
    AddCong(Add(m, a, x), a + x, Add(m, b, y), b + y, m);
    AddCong(a + b, sum, x + y, unit, m);
  }
}
