/** The BGI16 distributed point function: key generation and the reference evaluator.

    CCRH is an arbitrary function of a 128-bit key and a 128-bit block; the random draws of the generator are
    arguments.  A block is a 128-bit word whose top bit is the control bit. */
module Bgi16 {
  import opened Ring
  import opened Blocks

  type Ccrh = (Block, Block) -> Block

  /** The sizes of the machine words the source computes in. */
  function WordSize(bits: nat): nat {
    Pow2(bits)
  }

  datatype Cw = Cw(left: Block, right: Block)

  datatype Key = Key(origin: Block, cws: seq<Cw>, cwLast: nat, keyL: Block, keyR: Block)

  datatype GenResult = AlphaOutOfRange | Keys(k0: Key, k1: Key)

  function GetTrunc(ellOut: nat, v: Block): nat {
    Low64(v) % Pow2(ellOut)
  }

  // ---- the reference evaluator ----

  function Child(h: Ccrh, key: Key, layer: nat, st: Block, right: bool): Block
    requires layer < |key.cws|
  {
    Xor(h(if right then key.keyR else key.keyL, st),
      MulMask(GetMsb(st), if right then key.cws[layer].right else key.cws[layer].left))
  }

  /** The state of tree node `id` (0 <= id < 2^layer, root first bit) on the given layer. */
  function NodeState(h: Ccrh, key: Key, layer: nat, id: nat): Block
    requires layer <= |key.cws|
  {
    if layer == 0 then key.origin
    else Child(h, key, layer - 1, NodeState(h, key, layer - 1, id / 2), id % 2 == 1)
  }

  /** The word each leaf state is turned into; party 1 negates with the xor-and-subtract trick on 64-bit words. */
  function LeafValue(party: nat, ellOut: nat, cwLast: nat, st: Block): (r: nat)
    ensures r < Pow2(ellOut)
  {
    var pidMask := if party == 0 then 0 else WordSize(64) - 1;
    var rawRes := (Low64(st) + (if GetMsb(st) then cwLast else 0)) % WordSize(64);
    var flipped := if party == 0 then rawRes else WordSize(64) - 1 - rawRes;
    ((flipped - pidMask) % WordSize(64)) % Pow2(ellOut)
  }

  function Eval(h: Ccrh, key: Key, party: nat, ellOut: nat, x: nat): (r: nat)
    ensures r < Pow2(ellOut)
  {
    LeafValue(party, ellOut, key.cwLast, NodeState(h, key, |key.cws|, x))
  }

  /** The two keys are additive shares of the function that is beta at alpha and zero elsewhere. */
  ghost predicate SharesPoint(h: Ccrh, k0: Key, k1: Key, n: nat, ellOut: nat, alpha: nat, beta: nat) {
    forall x: nat :: x < Pow2(n) ==>
      Add(Pow2(ellOut), Eval(h, k0, 0, ellOut, x), Eval(h, k1, 1, ellOut, x))
      == if x == alpha then beta % Pow2(ellOut) else 0
  }

  // ---- one level of the generator ----

  /** The correction words of one level from the four expanded states and the path bit. */
  function LevelCw(right: bool, e0: Cw, e1: Cw): Cw {
    var base := ClearMsb(if right then Xor(e0.left, e1.left) else Xor(e0.right, e1.right));
    var cbitR := right != GetMsb(Xor(e0.right, e1.right));
    var cbitL := true != (right != GetMsb(Xor(e0.left, e1.left)));
    Cw(Xor(base, if cbitL then MSB1 else ZERO), Xor(base, if cbitR then MSB1 else ZERO))
  }

  function Pick(right: bool, c: Cw): Block {
    if right then c.right else c.left
  }

  /** Off the path the two corrected states are equal; on the path their control bits still differ. */
  ghost predicate GoodCw(right: bool, s0: Block, s1: Block, e0: Cw, e1: Cw, cw: Cw) {
    && Corrected(!right, s0, e0, cw) == Corrected(!right, s1, e1, cw)
    && GetMsb(Corrected(right, s0, e0, cw)) != GetMsb(Corrected(right, s1, e1, cw))
  }

  function Corrected(right: bool, st: Block, e: Cw, cw: Cw): Block {
    Xor(Pick(right, e), MulMask(GetMsb(st), Pick(right, cw)))
  }

  lemma Commuted(right: bool, st: Block, e: Cw, cw: Cw)
    ensures Xor(MulMask(GetMsb(st), Pick(right, cw)), Pick(right, e)) == Corrected(right, st, e, cw)
  {
  }

  lemma LevelInvariant(right: bool, s0: Block, s1: Block, e0: Cw, e1: Cw)
    requires GetMsb(s0) != GetMsb(s1)
    ensures GoodCw(right, s0, s1, e0, e1, LevelCw(right, e0, e1))
  {
    var a, b := Pick(!right, e0), Pick(!right, e1);
    MsbRestored(Xor(a, b));
    assert Pick(!right, LevelCw(right, e0, e1)) == Xor(a, b);
    XorSelf(a, b);
    XorZero(a);
    XorZero(b);
  }

  /** The output correction word. */
  function LastWord(ellOut: nat, s0: Block, s1: Block, beta: nat): nat {
    var g0, g1 := GetTrunc(ellOut, s0), GetTrunc(ellOut, s1);
    ((if !GetMsb(s1) then beta - g0 + g1 else g0 - g1 - beta) % WordSize(64)) % Pow2(ellOut)
  }

  // ---- the two-run invariant over the tree ----

  /** After `layer` levels: on the path to alpha the control bits differ, everywhere else the states agree. */
  ghost predicate TwoRun(h: Ccrh, k0: Key, k1: Key, n: nat, layer: nat, alpha: nat)
    requires layer <= n && |k0.cws| == |k1.cws| && layer <= |k0.cws|
  {
    var path := Shr(alpha, n - layer);
    && GetMsb(NodeState(h, k0, layer, path)) != GetMsb(NodeState(h, k1, layer, path))
    && forall id: nat :: id < Pow2(layer) && id != path ==> NodeState(h, k0, layer, id) == NodeState(h, k1, layer, id)
  }

  function Grow(key: Key, cw: Cw): Key {
    key.(cws := key.cws + [cw])
  }

  function Expand(h: Ccrh, key: Key, st: Block): Cw {
    Cw(h(key.keyL, st), h(key.keyR, st))
  }

  /** Appending a level leaves the states above it alone. */
  lemma {:induction false} NodeStateExtend(h: Ccrh, key: Key, cw: Cw, layer: nat, id: nat)
    requires layer <= |key.cws|
    ensures NodeState(h, Grow(key, cw), layer, id) == NodeState(h, key, layer, id)
  {
    if layer != 0 {
      NodeStateExtend(h, key, cw, layer - 1, id / 2);
    }
  }

  lemma {:induction false} CwLastIrrelevant(h: Ccrh, key: Key, last: nat, layer: nat, id: nat)
    requires layer <= |key.cws|
    ensures NodeState(h, key.(cwLast := last), layer, id) == NodeState(h, key, layer, id)
  {
    if layer != 0 {
      CwLastIrrelevant(h, key, last, layer - 1, id / 2);
    }
  }

  /** The states of the level a correction word was just appended for. */
  lemma GrownState(h: Ccrh, key: Key, cw: Cw, id: nat)
    ensures var st := NodeState(h, key, |key.cws|, id / 2);
      NodeState(h, Grow(key, cw), |key.cws| + 1, id)
      == Corrected(id % 2 == 1, st, Expand(h, key, st), cw)
  {
    NodeStateExtend(h, key, cw, |key.cws|, id / 2);
  }

  /** Where the parents' states agree so do the children's; the sibling of the path collapses. */
  lemma OffPathNode(h: Ccrh, k0: Key, k1: Key, cw: Cw, id: nat, down: nat)
    requires |k0.cws| == |k1.cws| && k0.keyL == k1.keyL && k0.keyR == k1.keyR && id != down
    requires var s0, s1 := NodeState(h, k0, |k0.cws|, id / 2), NodeState(h, k1, |k0.cws|, id / 2);
      if id / 2 != down / 2 then s0 == s1
      else Corrected(down % 2 != 1, s0, Expand(h, k0, s0), cw) == Corrected(down % 2 != 1, s1, Expand(h, k1, s1), cw)
    ensures NodeState(h, Grow(k0, cw), |k0.cws| + 1, id) == NodeState(h, Grow(k1, cw), |k0.cws| + 1, id)
  {
    GrownState(h, k0, cw, id);
    GrownState(h, k1, cw, id);
  }

  /** One level of the generator carries the invariant, and the two running states, one level down. */
  lemma TwoRunStep(h: Ccrh, k0: Key, k1: Key, n: nat, alpha: nat, cw: Cw)
    requires |k0.cws| == |k1.cws| < n && k0.keyL == k1.keyL && k0.keyR == k1.keyR
    requires TwoRun(h, k0, k1, n, |k0.cws|, alpha)
    requires var s0, s1 := NodeState(h, k0, |k0.cws|, Shr(alpha, n - |k0.cws|)), NodeState(h, k1, |k0.cws|, Shr(alpha, n - |k0.cws|));
      cw == LevelCw(Shr(alpha, n - |k0.cws| - 1) % 2 == 1, Expand(h, k0, s0), Expand(h, k1, s1))
    ensures TwoRun(h, Grow(k0, cw), Grow(k1, cw), n, |k0.cws| + 1, alpha)
  {
    hide Corrected, LevelCw, Expand, NodeState, GetMsb;
    var layer := |k0.cws|;
    var down := Shr(alpha, n - layer - 1);
    var right := down % 2 == 1;
    var s0, s1 := NodeState(h, k0, layer, down / 2), NodeState(h, k1, layer, down / 2);
    LevelInvariant(right, s0, s1, Expand(h, k0, s0), Expand(h, k1, s1));
    GrownState(h, k0, cw, down);
    GrownState(h, k1, cw, down);
    var next := layer + 1;
    forall id: nat | id < Pow2(next) && id != down
      ensures NodeState(h, Grow(k0, cw), next, id) == NodeState(h, Grow(k1, cw), next, id)
    {
      if id / 2 != down / 2 {
        assert NodeState(h, k0, layer, id / 2) == NodeState(h, k1, layer, id / 2);
      }
      OffPathNode(h, k0, k1, cw, id, down);
    }
  }

  /** Computing on 64-bit words first changes no residue of the output ring. */
  lemma WordResidue(c: int, ellOut: nat)
    requires ellOut <= 64
    ensures (c % WordSize(64)) % Pow2(ellOut) == c % Pow2(ellOut)
  {
    Pow2Add(ellOut, 64 - ellOut);
    ModOfMultiple(c, Pow2(ellOut), Pow2(64 - ellOut));
  }

  lemma LeafResidue(party: nat, ellOut: nat, cwLast: nat, st: Block)
    requires ellOut <= 64
    ensures var t := Low64(st) + (if GetMsb(st) then cwLast else 0);
      LeafValue(party, ellOut, cwLast, st) % Pow2(ellOut) == (if party == 0 then t else -t) % Pow2(ellOut)
  {
    var m := Pow2(ellOut);
    var t := Low64(st) + (if GetMsb(st) then cwLast else 0);
    var raw := t % WordSize(64);
    var signed := if party == 0 then raw else -raw;
    WordResidue(t, ellOut);
    WordResidue(signed, ellOut);
    ModMod(signed, m);
    AddCong(0, 0, raw, t, m);
    assert (WordSize(64) - 1 - raw) - (WordSize(64) - 1) == -raw;
    assert LeafValue(party, ellOut, cwLast, st) == (signed % WordSize(64)) % m;
  }

  /** The last correction word makes the two leaf values add up to beta. */
  lemma LeafSum(ellOut: nat, s0: Block, s1: Block, beta: nat, cwLast: nat)
    requires ellOut <= 64
    requires GetMsb(s0) != GetMsb(s1)
    requires cwLast == LastWord(ellOut, s0, s1, beta)
    ensures Add(Pow2(ellOut), LeafValue(0, ellOut, cwLast, s0), LeafValue(1, ellOut, cwLast, s1)) == beta % Pow2(ellOut)
  {
    hide LeafValue, Low64, Pow2;
    var m := Pow2(ellOut);
    var l0, l1 := Low64(s0), Low64(s1);
    var g0, g1 := GetTrunc(ellOut, s0), GetTrunc(ellOut, s1);
    LeafResidue(0, ellOut, cwLast, s0);
    LeafResidue(1, ellOut, cwLast, s1);
    var t0, t1 := l0 + (if GetMsb(s0) then cwLast else 0), l1 + (if GetMsb(s1) then cwLast else 0);
    AddCong(LeafValue(0, ellOut, cwLast, s0), t0, LeafValue(1, ellOut, cwLast, s1), -t1, m);
    ModMod(l0, m);
    ModMod(l1, m);
    AddCong(l0, g0, l1, g1, m);
    var c := if !GetMsb(s1) then beta - g0 + g1 else g0 - g1 - beta;
    WordResidue(c, ellOut);
    ModMod(c, m);
    AddCong(l0 - l1, g0 - g1, cwLast, c, m);
  }

  /** Equal leaf states cancel. */
  lemma LeafCancel(ellOut: nat, st: Block, cwLast: nat)
    requires ellOut <= 64
    ensures Add(Pow2(ellOut), LeafValue(0, ellOut, cwLast, st), LeafValue(1, ellOut, cwLast, st)) == 0
  {
    var t := Low64(st) + (if GetMsb(st) then cwLast else 0);
    LeafResidue(0, ellOut, cwLast, st);
    LeafResidue(1, ellOut, cwLast, st);
    AddCong(LeafValue(0, ellOut, cwLast, st), t, LeafValue(1, ellOut, cwLast, st), -t, Pow2(ellOut));
    ModSmall(0, Pow2(ellOut));
  }

  /** The finished key pair shares the point function. */
  lemma KeysShareThePoint(h: Ccrh, k0: Key, k1: Key, n: nat, ellOut: nat, alpha: nat, beta: nat)
    requires ellOut <= 8 && alpha < Pow2(n)
    requires |k0.cws| == |k1.cws| == n && k0.cwLast == k1.cwLast
    requires TwoRun(h, k0, k1, n, n, alpha)
    requires k0.cwLast == LastWord(ellOut, NodeState(h, k0, n, alpha), NodeState(h, k1, n, alpha), beta)
    ensures SharesPoint(h, k0, k1, n, ellOut, alpha, beta)
  {
    forall x: nat | x < Pow2(n)
      ensures Add(Pow2(ellOut), Eval(h, k0, 0, ellOut, x), Eval(h, k1, 1, ellOut, x))
        == if x == alpha then beta % Pow2(ellOut) else 0
    {
      if x == alpha {
        LeafSum(ellOut, NodeState(h, k0, n, x), NodeState(h, k1, n, x), beta, k0.cwLast);
      } else {
        LeafCancel(ellOut, NodeState(h, k0, n, x), k0.cwLast);
      }
    }
  }

  lemma LastWordKeeps(h: Ccrh, k0: Key, k1: Key, n: nat, alpha: nat, last: nat)
    requires |k0.cws| == |k1.cws| == n && TwoRun(h, k0, k1, n, n, alpha)
    ensures TwoRun(h, k0.(cwLast := last), k1.(cwLast := last), n, n, alpha)
    ensures NodeState(h, k0.(cwLast := last), n, alpha) == NodeState(h, k0, n, alpha)
    ensures NodeState(h, k1.(cwLast := last), n, alpha) == NodeState(h, k1, n, alpha)
  {
    var j0, j1 := k0.(cwLast := last), k1.(cwLast := last);
    forall id: nat
      ensures NodeState(h, j0, n, id) == NodeState(h, k0, n, id)
      ensures NodeState(h, j1, n, id) == NodeState(h, k1, n, id)
    {
      CwLastIrrelevant(h, k0, last, n, id);
      CwLastIrrelevant(h, k1, last, n, id);
    }
  }

  lemma RootBits(draw0: Block, draw1: Block)
    ensures Xor(ClearMsb(draw0), ZERO) == ClearMsb(draw0)
    ensures !GetMsb(ClearMsb(draw0)) && GetMsb(Xor(ClearMsb(draw1), MSB1))
  {
  }

  lemma RootsStart(h: Ccrh, k0: Key, k1: Key, n: nat, alpha: nat)
    requires alpha < Pow2(n) && k0.cws == k1.cws == [] && GetMsb(k0.origin) != GetMsb(k1.origin)
    ensures Shr(alpha, n) == 0 && Shr(alpha, 0) == alpha && TwoRun(h, k0, k1, n, 0, alpha)
    ensures NodeState(h, k0, 0, 0) == k0.origin && NodeState(h, k1, 0, 0) == k1.origin
  {
    ShrBound(alpha, n, 0);
  }

  // ---- the generator ----

  /** Key generation.  `draw` and the two hash keys are the random bytes; the declared width of the domain
      constant makes every alpha out of range when n is 32. */
  method Gen(h: Ccrh, n: nat, ellOut: nat, alpha: nat, beta: nat, draw0: Block, draw1: Block, keyL: Block, keyR: Block)
    returns (res: GenResult)
    requires n <= 32 && ellOut <= 8 && alpha < Pow2(32)
    ensures res.Keys? <==> alpha < Pow2(n) && n != 32
    ensures res.Keys? ==> SharesPoint(h, res.k0, res.k1, n, ellOut, alpha, beta)
    ensures res.Keys? ==> res.k1 == res.k0.(origin := res.k1.origin) && |res.k0.cws| == n
    ensures res.Keys? ==> res.k0.keyL == keyL && res.k0.keyR == keyR && res.k0.cwLast < Pow2(ellOut)
    ensures res.Keys? ==> res.k0.origin == ClearMsb(draw0)
    ensures res.Keys? ==> res.k1.origin == Xor(ClearMsb(draw1), MSB1)
  {
    hide NodeState, Xor, MulMask, Corrected, TwoRun, SharesPoint, Shr, Pow2, GetMsb, ClearMsb;
    var domainSize := Pow2(n) % Pow2(32);
    DomainSize(n);
    if alpha >= domainSize {
      return AlphaOutOfRange;
    }
    var stRoot := new Block[2];
    stRoot[0] := Xor(ClearMsb(draw0), ZERO);
    stRoot[1] := Xor(ClearMsb(draw1), MSB1);
    RootBits(draw0, draw1);
    RootsStart(h, Key(stRoot[0], [], 0, keyL, keyR), Key(stRoot[1], [], 0, keyL, keyR), n, alpha);
    var k0 := Key(stRoot[0], [], 0, keyL, keyR);
    var k1 := Key(stRoot[1], [], 0, keyL, keyR);
    for i := 0 to n
      invariant |k0.cws| == |k1.cws| == i && k1 == k0.(origin := k1.origin)
      invariant k0.keyL == keyL && k0.keyR == keyR && k0.cwLast == 0
      invariant k0.origin == ClearMsb(draw0) && k1.origin == Xor(ClearMsb(draw1), MSB1)
      invariant TwoRun(h, k0, k1, n, i, alpha)
      invariant stRoot[0] == NodeState(h, k0, i, Shr(alpha, n - i))
      invariant stRoot[1] == NodeState(h, k1, i, Shr(alpha, n - i))
    {
      var exp0 := Cw(h(keyL, stRoot[0]), h(keyR, stRoot[0]));
      var exp1 := Cw(h(keyL, stRoot[1]), h(keyR, stRoot[1]));
      var ai := Shr(alpha, n - 1 - i) % 2 == 1;
      var diff := if ai then Xor(exp0.left, exp1.left) else Xor(exp0.right, exp1.right);
      var cwL := ClearMsb(diff);
      var cbitR := ai != GetMsb(Xor(exp0.right, exp1.right));
      var cwR := Xor(cwL, if cbitR then MSB1 else ZERO);
      var cbitL := true != (ai != GetMsb(Xor(exp0.left, exp1.left)));
      cwL := Xor(cwL, if cbitL then MSB1 else ZERO);
      var cw := Cw(cwL, cwR);
      ghost var down := Shr(alpha, n - i - 1);
      assert Shr(alpha, n - i) == down / 2 by { ShrStep(alpha, n - i - 1); }
      TwoRunStep(h, k0, k1, n, alpha, cw);
      GrownState(h, k0, cw, down);
      GrownState(h, k1, cw, down);
      Commuted(ai, stRoot[0], exp0, cw);
      Commuted(ai, stRoot[1], exp1, cw);
      k0 := Grow(k0, cw);
      k1 := Grow(k1, cw);
      var oblMask := if ai then cwR else cwL;
      stRoot[0] := Xor(MulMask(GetMsb(stRoot[0]), oblMask), if ai then exp0.right else exp0.left);
      stRoot[1] := Xor(MulMask(GetMsb(stRoot[1]), oblMask), if ai then exp1.right else exp1.left);
    }
    var g0 := GetTrunc(ellOut, stRoot[0]);
    var g1 := GetTrunc(ellOut, stRoot[1]);
    var cwLast := ((if !GetMsb(stRoot[1]) then beta - g0 + g1 else g0 - g1 - beta) % WordSize(64)) % Pow2(ellOut);
    LastWordKeeps(h, k0, k1, n, alpha, cwLast);
    k0 := k0.(cwLast := cwLast);
    k1 := k1.(cwLast := cwLast);
    KeysShareThePoint(h, k0, k1, n, ellOut, alpha, beta);
    return Keys(k0, k1);
  }

  lemma DomainSize(n: nat)
    requires n <= 32
    ensures Pow2(n) % Pow2(32) == if n == 32 then 0 else Pow2(n)
  {
    if n == 32 {
      ModShift(0, 1, Pow2(32));
      ModSmall(0, Pow2(32));
    } else {
      Pow2Mono(n, 31);
      ModSmall(Pow2(n), Pow2(32));
    }
  }
}
