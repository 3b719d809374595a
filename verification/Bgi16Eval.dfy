/** The evaluators of BGI16: breadth expansion of the top of the tree in place, one depth-first walk per task with
    an explicit stack, a double-buffered breadth-first walk of the last levels, and pruning to a cyclic window.

    `fullEval` and `rangeEval` hold the same loops; the range version adds the window tests, which the model keeps
    behind `Window.Range?`.  Worker threads run in any order. */
module Bgi16Eval {
  import opened Ring
  import opened Blocks
  import opened Bgi16

  datatype Window = Whole | Range(bg: nat, ed: nat)

  datatype StkNode = StkNode(st: Block, id: nat, layer: nat)

  datatype EvalResult = Done | BgOutOfRange | EdOutOfRange | SizeMismatch

  /** What one evaluation is about; everything the workers share read-only. */
  datatype Job = Job(h: Ccrh, key: Key, party: nat, ellOut: nat, w: Window)
  {
    function N(): nat {
      |key.cws|
    }

    function Value(x: nat): nat {
      Eval(h, key, party, ellOut, x)
    }

    predicate Circular() {
      w.Range? && w.ed < w.bg
    }

    ghost predicate Valid() {
      w.Range? ==> w.bg < Pow2(N()) && w.ed < Pow2(N())
    }

    /** The leaves the caller asked for. */
    predicate Wanted(x: nat) {
      match w
      case Whole => true
      case Range(bg, ed) => if ed < bg then x >= bg || x <= ed else bg <= x <= ed
    }

    function Length(): nat {
      match w
      case Whole => Pow2(N())
      case Range(bg, ed) => if ed < bg then if bg <= Pow2(N()) then Pow2(N()) - bg + ed + 1 else 0 else ed - bg + 1
    }

    /** The output position of a wanted leaf. */
    function Slot(x: nat): int {
      match w
      case Whole => x
      case Range(bg, ed) => if ed < bg then (if x >= bg then x - bg else Pow2(N()) - bg + x) else x - bg
    }

    /** The leaf an output position belongs to. */
    function LeafOf(s: nat): nat {
      match w
      case Whole => s
      case Range(bg, _) => if bg + s < Pow2(N()) then bg + s else bg + s - Pow2(N())
    }

    /** No wanted leaf in [lo, hi). */
    ghost predicate Gap(lo: int, hi: int) {
      forall x: nat :: lo <= x < hi && x < Pow2(N()) ==> !Wanted(x)
    }

    /** The output holds the values of the leaves in [lo, hi) and is otherwise `was`. */
    ghost predicate Filled(buf: seq<nat>, was: seq<nat>, lo: int, hi: int) {
      |buf| == |was| && forall s: nat :: s < |buf| ==> buf[s] == if lo <= LeafOf(s) < hi then Value(LeafOf(s)) else was[s]
    }

    ghost predicate NodeOk(node: StkNode) {
      node.layer <= N() && node.st == NodeState(h, key, node.layer, node.id)
    }

    function Below(node: StkNode): nat {
      if node.layer <= N() then N() - node.layer else 0
    }

    function First(node: StkNode): nat {
      node.id * Pow2(Below(node))
    }

    function Last(node: StkNode): nat {
      (node.id + 1) * Pow2(Below(node))
    }
  }

  // ---- windows ----

  lemma SlotOfLeaf(j: Job, x: nat)
    requires j.Valid() && x < Pow2(j.N()) && j.Wanted(x)
    ensures 0 <= j.Slot(x) < j.Length() && j.LeafOf(j.Slot(x)) == x
  {
  }

  lemma LeafOfSlot(j: Job, s: nat)
    requires j.Valid() && s < j.Length()
    ensures j.LeafOf(s) < Pow2(j.N()) && j.Wanted(j.LeafOf(s)) && j.Slot(j.LeafOf(s)) == s
    ensures j.w.Range? ==> j.LeafOf(s) == (j.w.bg + s) % Pow2(j.N())
  {
    if j.w.Range? {
      var t := j.w.bg + s;
      if t < Pow2(j.N()) {
        ModSmall(t, Pow2(j.N()));
      } else {
        ModShift(t - Pow2(j.N()), 1, Pow2(j.N()));
        ModSmall(t - Pow2(j.N()), Pow2(j.N()));
      }
    }
  }

  // ---- heap positions ----

  lemma ChildSpan(id: nat, rem: nat)
    requires rem > 0
    ensures (2 * id) * Pow2(rem - 1) == id * Pow2(rem)
    ensures (2 * id + 1) * Pow2(rem - 1) == id * Pow2(rem) + Pow2(rem - 1)
    ensures (2 * id + 2) * Pow2(rem - 1) == (id + 1) * Pow2(rem)
  {
    var p := Pow2(rem - 1);
    assert Pow2(rem) == 2 * p;
    assert (2 * id) * p == id * (2 * p);
    Distribute(2 * id, 1, p);
    Distribute(2 * id, 2, p);
    Distribute(id, 1, 2 * p);
  }

  lemma SpanSize(id: nat, rem: nat)
    ensures (id + 1) * Pow2(rem) == id * Pow2(rem) + Pow2(rem)
  {
    Distribute(id, 1, Pow2(rem));
  }

  // ---- breadth expansion of the task roots, in place and backward ----

  /** One task becomes its two children; only the slots of the children change. */
  method ExpandTask(h: Ccrh, key: Key, tasks: array<Block>, d: nat, i: nat)
    requires d < |key.cws| && 2 * i + 1 < tasks.Length && tasks[i] == NodeState(h, key, d, i)
    modifies tasks
    ensures tasks[2 * i] == NodeState(h, key, d + 1, 2 * i) && tasks[2 * i + 1] == NodeState(h, key, d + 1, 2 * i + 1)
    ensures forall k: nat :: k < tasks.Length && k != 2 * i && k != 2 * i + 1 ==> tasks[k] == old(tasks[k])
  {
    hide Xor, MulMask, GetMsb;
    var lch := h(key.keyL, tasks[i]);
    var rch := h(key.keyR, tasks[i]);
    var msb := GetMsb(tasks[i]);
    tasks[2 * i] := Xor(lch, MulMask(msb, key.cws[d].left));
    tasks[2 * i + 1] := Xor(rch, MulMask(msb, key.cws[d].right));
    assert (2 * i) / 2 == i && (2 * i + 1) / 2 == i;
  }

  /** One pass from the last task of layer `d` to the first, so that no task is overwritten before it is read. */
  method ExpandTaskLevel(h: Ccrh, key: Key, tasks: array<Block>, d: nat)
    requires d < |key.cws| && Pow2(d + 1) <= tasks.Length
    requires forall k: nat :: k < Pow2(d) ==> tasks[k] == NodeState(h, key, d, k)
    modifies tasks
    ensures forall k: nat :: k < Pow2(d + 1) ==> tasks[k] == NodeState(h, key, d + 1, k)
  {
    hide NodeState;
    var i := Pow2(d) - 1;
    while i >= 0
      invariant -1 <= i < Pow2(d)
      invariant forall k: nat :: k <= i ==> tasks[k] == NodeState(h, key, d, k)
      invariant forall k: nat :: 2 * (i + 1) <= k < Pow2(d + 1) ==> tasks[k] == NodeState(h, key, d + 1, k)
    {
      ExpandTask(h, key, tasks, d, i);
      i := i - 1;
    }
  }

  method ExpandTasks(h: Ccrh, key: Key, splitCoff: nat) returns (tasks: array<Block>)
    requires splitCoff <= |key.cws|
    ensures fresh(tasks) && tasks.Length == Pow2(splitCoff)
    ensures forall k: nat :: k < tasks.Length ==> tasks[k] == NodeState(h, key, splitCoff, k)
  {
    tasks := new Block[Pow2(splitCoff)];
    tasks[0] := key.origin;
    for d := 0 to splitCoff
      invariant Pow2(d) <= tasks.Length && forall k: nat :: k < Pow2(d) ==> tasks[k] == NodeState(h, key, d, k)
    {
      Pow2Mono(d + 1, splitCoff);
      ExpandTaskLevel(h, key, tasks, d);
    }
  }

  // ---- the double-buffered breadth-first walk of the last levels ----

  /** The first `num` entries of row `r` are the states of the nodes base, base + 1, ... of a layer. */
  ghost predicate RowHolds(h: Ccrh, key: Key, layer: nat, base: nat, bfsBuf: array2<Block>, r: nat, num: nat)
    reads bfsBuf
    requires r < bfsBuf.Length0 && num <= bfsBuf.Length1 && layer <= |key.cws|
  {
    forall k: nat :: k < num ==> bfsBuf[r, k] == NodeState(h, key, layer, base + k)
  }

  /** Both children of entry `i`, written to the other row. */
  method ExpandEntry(h: Ccrh, key: Key, bfsBuf: array2<Block>, cb: nat, nb: nat, i: nat, layer: nat, ghost id: nat)
    requires bfsBuf.Length0 == 2 && cb < 2 && nb == 1 - cb && 2 * i + 1 < bfsBuf.Length1 && layer < |key.cws|
    requires bfsBuf[cb, i] == NodeState(h, key, layer, id)
    modifies bfsBuf
    ensures bfsBuf[nb, 2 * i] == NodeState(h, key, layer + 1, 2 * id)
    ensures bfsBuf[nb, 2 * i + 1] == NodeState(h, key, layer + 1, 2 * id + 1)
    ensures forall k: nat :: k < bfsBuf.Length1 ==> bfsBuf[cb, k] == old(bfsBuf[cb, k])
    ensures forall k: nat :: k < bfsBuf.Length1 && k != 2 * i && k != 2 * i + 1 ==> bfsBuf[nb, k] == old(bfsBuf[nb, k])
  {
    hide Xor, MulMask, GetMsb;
    var lch := h(key.keyL, bfsBuf[cb, i]);
    var rch := h(key.keyR, bfsBuf[cb, i]);
    var msb := GetMsb(bfsBuf[cb, i]);
    assert (2 * id) / 2 == id && (2 * id + 1) / 2 == id;
    bfsBuf[nb, 2 * i] := Xor(lch, MulMask(msb, key.cws[layer].left));
    bfsBuf[nb, 2 * i + 1] := Xor(rch, MulMask(msb, key.cws[layer].right));
  }

  /** One level: four entries at a time, then the rest one by one. */
  method ExpandLevel(h: Ccrh, key: Key, bfsBuf: array2<Block>, cb: nat, nb: nat, num: nat, layer: nat, ghost base: nat)
    requires bfsBuf.Length0 == 2 && cb < 2 && nb == 1 - cb && 2 * num <= bfsBuf.Length1 && layer < |key.cws|
    requires RowHolds(h, key, layer, base, bfsBuf, cb, num)
    modifies bfsBuf
    ensures RowHolds(h, key, layer + 1, 2 * base, bfsBuf, nb, 2 * num)
  {
    hide NodeState;
    var i := 0;
    while i + 3 < num
      invariant 0 <= i <= num
      invariant RowHolds(h, key, layer, base, bfsBuf, cb, num)
      invariant RowHolds(h, key, layer + 1, 2 * base, bfsBuf, nb, 2 * i)
    {
      ExpandEntry(h, key, bfsBuf, cb, nb, i, layer, base + i);
      ExpandEntry(h, key, bfsBuf, cb, nb, i + 1, layer, base + i + 1);
      ExpandEntry(h, key, bfsBuf, cb, nb, i + 2, layer, base + i + 2);
      ExpandEntry(h, key, bfsBuf, cb, nb, i + 3, layer, base + i + 3);
      i := i + 4;
    }
    while i < num
      invariant 0 <= i <= num
      invariant RowHolds(h, key, layer, base, bfsBuf, cb, num)
      invariant RowHolds(h, key, layer + 1, 2 * base, bfsBuf, nb, 2 * i)
    {
      ExpandEntry(h, key, bfsBuf, cb, nb, i, layer, base + i);
      i := i + 1;
    }
  }

  method LocalBfs(h: Ccrh, key: Key, node: StkNode, remainingDepth: nat, bfsBuf: array2<Block>) returns (cb: nat)
    requires node.layer + remainingDepth == |key.cws| && node.st == NodeState(h, key, node.layer, node.id)
    requires bfsBuf.Length0 == 2 && Pow2(remainingDepth) <= bfsBuf.Length1
    modifies bfsBuf
    ensures cb < 2
    ensures RowHolds(h, key, |key.cws|, node.id * Pow2(remainingDepth), bfsBuf, cb, Pow2(remainingDepth))
  {
    hide NodeState;
    bfsBuf[0, 0] := node.st;
    cb := 0;
    for bd := 0 to remainingDepth
      invariant cb < 2 && Pow2(bd) <= bfsBuf.Length1
      invariant RowHolds(h, key, node.layer + bd, node.id * Pow2(bd), bfsBuf, cb, Pow2(bd))
    {
      Pow2Mono(bd + 1, remainingDepth);
      assert node.id * Pow2(bd + 1) == 2 * (node.id * Pow2(bd));
      ExpandLevel(h, key, bfsBuf, cb, 1 - cb, Pow2(bd), node.layer + bd, node.id * Pow2(bd));
      cb := 1 - cb;
    }
  }

  // ---- leaves of one local tree ----

  method WriteLeaves(j: Job, node: StkNode, remainingDepth: nat, bfsBuf: array2<Block>, cb: nat, fdresBuf: array<nat>)
    requires j.Valid() && node.layer + remainingDepth == j.N() && j.Last(node) <= Pow2(j.N())
    requires bfsBuf.Length0 == 2 && cb < 2 && Pow2(remainingDepth) <= bfsBuf.Length1 && fdresBuf.Length == j.Length()
    requires RowHolds(j.h, j.key, j.N(), j.First(node), bfsBuf, cb, Pow2(remainingDepth))
    modifies fdresBuf
    ensures j.Filled(fdresBuf[..], old(fdresBuf[..]), j.First(node), j.Last(node))
  {
    hide NodeState, LeafValue, Job.Slot, Job.LeafOf, Job.Wanted, Job.Valid, Job.Length;
    var outStart := node.id * Pow2(remainingDepth);
    var leafCount := Pow2(remainingDepth);
    SpanSize(node.id, remainingDepth);
    for i := 0 to leafCount
      invariant j.Filled(fdresBuf[..], old(fdresBuf[..]), outStart, outStart + i)
    {
      var globalIdx := outStart + i;
      if j.Wanted(globalIdx) {
        var finalRes := LeafValue(j.party, j.ellOut, j.key.cwLast, bfsBuf[cb, i]);
        SlotOfLeaf(j, globalIdx);
        fdresBuf[j.Slot(globalIdx)] := finalRes;
      }
      OneMore(j, globalIdx);
    }
  }

  /** No other output position belongs to this leaf. */
  lemma OneMore(j: Job, x: nat)
    requires j.Valid() && x < Pow2(j.N())
    ensures forall s: nat :: s < j.Length() && j.LeafOf(s) == x ==> j.Wanted(x) && j.Slot(x) == s
  {
  }

  lemma FilledCompose(j: Job, a: seq<nat>, b: seq<nat>, d: seq<nat>, lo: nat, c: int, first: nat, last: nat)
    requires j.Valid() && |a| == j.Length()
    requires j.Filled(b, a, lo, c) && j.Filled(d, b, first, last) && lo <= c <= first <= last && j.Gap(c, first)
    ensures j.Filled(d, a, lo, last)
  {
    forall s: nat | s < |d|
      ensures d[s] == if lo <= j.LeafOf(s) < last then j.Value(j.LeafOf(s)) else a[s]
    {
      LeafOfSlot(j, s);
    }
  }

  lemma FilledSkip(j: Job, a: seq<nat>, b: seq<nat>, lo: nat, c: int, last: nat)
    requires j.Valid() && |a| == j.Length()
    requires j.Filled(b, a, lo, c) && lo <= c <= last && j.Gap(c, last)
    ensures j.Filled(b, a, lo, last)
  {
    forall s: nat | s < |b|
      ensures b[s] == if lo <= j.LeafOf(s) < last then j.Value(j.LeafOf(s)) else a[s]
    {
      LeafOfSlot(j, s);
    }
  }

  // ---- the explicit stack ----

  /** Where the next entry pushed on this stack has to end. */
  function Limit(j: Job, stk: seq<StkNode>, hi: nat): nat {
    if stk == [] then hi else j.First(stk[|stk| - 1])
  }

  /** Entries lie one before the other from top to bottom with only unwanted leaves between them, and each entry
      is at least as deep as its position; that bounds the stack. */
  ghost predicate StackOk(j: Job, stk: seq<StkNode>, splitCoff: nat, deepest: nat, hi: nat)
    requires deepest <= j.N()
  {
    && (forall k :: 0 <= k < |stk| ==> j.NodeOk(stk[k]) && splitCoff + k <= stk[k].layer <= deepest && j.Last(stk[k]) <= hi)
    && (forall k :: 0 <= k < |stk| ==>
        && j.Last(stk[k]) <= Limit(j, stk[..k], hi)
        && j.Gap(j.Last(stk[k]), Limit(j, stk[..k], hi)))
  }

  lemma StackPop(j: Job, stk: seq<StkNode>, splitCoff: nat, deepest: nat, hi: nat)
    requires deepest <= j.N() && stk != [] && StackOk(j, stk, splitCoff, deepest, hi)
    ensures StackOk(j, stk[..|stk| - 1], splitCoff, deepest, hi)
  {
  }

  /** Pushing a node, or leaving it out because none of its leaves is wanted. */
  lemma StackPush(j: Job, stk: seq<StkNode>, node: StkNode, pushed: bool, splitCoff: nat, deepest: nat, hi: nat)
    requires deepest <= j.N() && StackOk(j, stk, splitCoff, deepest, hi)
    requires j.NodeOk(node) && splitCoff + |stk| <= node.layer <= deepest
    requires j.Last(node) <= Limit(j, stk, hi) <= hi && j.Gap(j.Last(node), Limit(j, stk, hi))
    requires pushed || j.Gap(j.First(node), j.Last(node))
    ensures var grown := if pushed then stk + [node] else stk;
      && StackOk(j, grown, splitCoff, deepest, hi)
      && j.First(node) <= Limit(j, grown, hi) <= hi && j.Gap(j.First(node), Limit(j, grown, hi))
      && (!pushed ==> Limit(j, grown, hi) >= j.Last(node))
  {
    hide Job.NodeOk, Job.First, Job.Wanted;
    assert j.First(node) < j.Last(node) by { SpanPositive(j, node); }
    if pushed {
      var s := stk + [node];
      forall k | 0 <= k < |s|
        ensures j.Last(s[k]) <= Limit(j, s[..k], hi) && j.Gap(j.Last(s[k]), Limit(j, s[..k], hi))
      {
        assert s[..k] == stk[..k];
      }
    }
  }

  lemma SpanPositive(j: Job, node: StkNode)
    requires node.layer <= j.N()
    ensures j.First(node) < j.Last(node)
  {
    SpanSize(node.id, j.N() - node.layer);
  }

  lemma GapJoin(j: Job, a: int, b: int, c: int)
    requires j.Gap(a, b) && j.Gap(b, c)
    ensures j.Gap(a, c)
  {
  }

  function LeftChild(j: Job, node: StkNode): StkNode
    requires node.layer < j.N()
  {
    StkNode(Child(j.h, j.key, node.layer, node.st, false), 2 * node.id, node.layer + 1)
  }

  function RightChild(j: Job, node: StkNode): StkNode
    requires node.layer < j.N()
  {
    StkNode(Child(j.h, j.key, node.layer, node.st, true), 2 * node.id + 1, node.layer + 1)
  }

  lemma ChildNodes(j: Job, node: StkNode)
    requires node.layer < j.N() && j.NodeOk(node)
    ensures var l, r := LeftChild(j, node), RightChild(j, node);
      && j.NodeOk(l) && j.NodeOk(r)
      && j.First(l) == j.First(node) && j.Last(l) == j.First(r) && j.Last(r) == j.Last(node)
  {
    hide Child;
    ChildSpan(node.id, j.N() - node.layer);
    assert (2 * node.id) / 2 == node.id && (2 * node.id + 1) / 2 == node.id;
  }

  /** Pushing the children that overlap the window, right one first. */
  function Pushed(j: Job, rest: seq<StkNode>, node: StkNode): seq<StkNode>
    requires node.layer < j.N()
  {
    var l, r := LeftChild(j, node), RightChild(j, node);
    var s1 := if Overlaps(j, j.First(r), j.Last(r)) then rest + [r] else rest;
    if Overlaps(j, j.First(l), j.Last(l)) then s1 + [l] else s1
  }

  /** Replacing the popped node by its pushed children keeps the stack in order and brings the walk closer to its
      end: either the next leaf is further right or the top entry is deeper. */
  lemma Descend(j: Job, rest: seq<StkNode>, node: StkNode, splitCoff: nat, deepest: nat, hi: nat)
    requires deepest <= j.N() && StackOk(j, rest, splitCoff, deepest, hi)
    requires j.NodeOk(node) && splitCoff + |rest| <= node.layer < deepest
    requires j.Last(node) <= Limit(j, rest, hi) <= hi && j.Gap(j.Last(node), Limit(j, rest, hi))
    ensures var s2 := Pushed(j, rest, node);
      && StackOk(j, s2, splitCoff, deepest, hi)
      && j.First(node) <= Limit(j, s2, hi) <= hi && j.Gap(j.First(node), Limit(j, s2, hi))
      && (Limit(j, s2, hi) > j.First(node) || (s2 != [] && s2[|s2| - 1].layer == node.layer + 1))
  {
    hide NodeState, StackOk, Job.Gap, Job.First, Job.Last, Overlaps, LeftChild, RightChild;
    var l, r := LeftChild(j, node), RightChild(j, node);
    ChildLayers(j, node);
    ChildNodes(j, node);
    PruningIsSafe(j, j.First(r), j.Last(r));
    PruningIsSafe(j, j.First(l), j.Last(l));
    var pushR := Overlaps(j, j.First(r), j.Last(r));
    StackPush(j, rest, r, pushR, splitCoff, deepest, hi);
    var s1 := if pushR then rest + [r] else rest;
    StackPush(j, s1, l, Overlaps(j, j.First(l), j.Last(l)), splitCoff, deepest, hi);
    SpanPositive(j, l);
  }

  method PushChildren(j: Job, node: StkNode, stk: array<StkNode>, stkPtr: nat) returns (top: nat)
    requires node.layer < j.N() && stkPtr + 2 <= stk.Length
    modifies stk
    ensures top <= stk.Length && stk[..top] == Pushed(j, old(stk[..stkPtr]), node)
  {
    hide Xor, MulMask, GetMsb, Overlaps;
    top := stkPtr;
    ghost var rest := stk[..stkPtr];
    var lch := j.h(j.key.keyL, node.st);
    var rch := j.h(j.key.keyR, node.st);
    var msb := GetMsb(node.st);
    var rChildId := 2 * node.id + 1;
    var rRemaining := j.N() - (node.layer + 1);
    if Overlaps(j, rChildId * Pow2(rRemaining), (rChildId + 1) * Pow2(rRemaining)) {
      stk[top] := StkNode(Xor(rch, MulMask(msb, j.key.cws[node.layer].right)), rChildId, node.layer + 1);
      top := top + 1;
      assert stk[..top] == rest + [RightChild(j, node)];
    }
    ghost var s1 := stk[..top];
    var lChildId := 2 * node.id;
    if Overlaps(j, lChildId * Pow2(rRemaining), (lChildId + 1) * Pow2(rRemaining)) {
      stk[top] := StkNode(Xor(lch, MulMask(msb, j.key.cws[node.layer].left)), lChildId, node.layer + 1);
      top := top + 1;
      assert stk[..top] == s1 + [LeftChild(j, node)];
    }
  }

  lemma ChildLayers(j: Job, node: StkNode)
    requires node.layer < j.N()
    ensures LeftChild(j, node).layer == RightChild(j, node).layer == node.layer + 1
  {
  }

  /** The test made when a node is popped. */
  predicate Pruned(j: Job, nodeStart: nat, nodeEnd: nat) {
    match j.w
    case Whole => false
    case Range(bg, ed) =>
      if j.Circular() then nodeStart > ed && nodeEnd <= bg else nodeEnd <= bg || nodeStart > ed
  }

  /** The test made before a child is pushed. */
  predicate Overlaps(j: Job, start: nat, end: nat) {
    match j.w
    case Whole => true
    case Range(bg, ed) => if j.Circular() then end > bg || start <= ed else start <= ed && end > bg
  }

  lemma PruningIsSafe(j: Job, start: nat, end: nat)
    ensures Pruned(j, start, end) ==> j.Gap(start, end)
    ensures !Overlaps(j, start, end) ==> j.Gap(start, end)
  {
  }

  /** One task: the depth-first walk of the subtree under `root`. */
  method WalkTask(j: Job, root: StkNode, localBfsD: nat, stk: array<StkNode>, bfsBuf: array2<Block>, fdresBuf: array<nat>)
    requires j.Valid() && localBfsD <= j.N() && fdresBuf.Length == j.Length()
    requires root.layer <= j.N() - localBfsD && j.NodeOk(root) && j.Last(root) <= Pow2(j.N())
    requires stk.Length == j.N() - localBfsD + 2
    requires bfsBuf.Length0 == 2 && bfsBuf.Length1 == Pow2(localBfsD)
    modifies stk, bfsBuf, fdresBuf
    ensures j.Filled(fdresBuf[..], old(fdresBuf[..]), j.First(root), j.Last(root))
  {
    hide NodeState, Xor, MulMask, GetMsb, LeafValue, Job.Valid, Job.Length, Job.Filled, Job.Gap, Job.First, Job.Last;
    hide Pruned, Pushed, StackOk;
    var n := j.N();
    ghost var splitCoff, deepest, lo, hi := root.layer, n - localBfsD, j.First(root), j.Last(root);
    ghost var c := lo;
    ghost var was := fdresBuf[..];
    var stkPtr := 0;
    stk[stkPtr] := root;
    stkPtr := stkPtr + 1;
    StackStart(j, root, was, deepest);
    assert stk[..stkPtr] == [root];
    while stkPtr > 0
      invariant 0 <= stkPtr <= stk.Length
      invariant StackOk(j, stk[..stkPtr], splitCoff, deepest, hi)
      invariant lo <= c <= Limit(j, stk[..stkPtr], hi) <= hi && j.Gap(c, Limit(j, stk[..stkPtr], hi))
      invariant j.Filled(fdresBuf[..], was, lo, c)
      decreases hi - Limit(j, stk[..stkPtr], hi), if stkPtr == 0 then 0 else n - stk[stkPtr - 1].layer
    {
      ghost var before := stk[..stkPtr];
      stkPtr := stkPtr - 1;
      var node := stk[stkPtr];
      ghost var rest := stk[..stkPtr];
      assert before == rest + [node] && before[..|before| - 1] == rest;
      StackPop(j, before, splitCoff, deepest, hi);
      StackTop(j, rest, node, splitCoff, deepest, hi);
      var remainingDepth := n - node.layer;
      var nodeStart := node.id * Pow2(remainingDepth);
      var nodeEnd := (node.id + 1) * Pow2(remainingDepth);
      SpanOf(j, node, remainingDepth);
      if Pruned(j, nodeStart, nodeEnd) {
        PruningIsSafe(j, nodeStart, nodeEnd);
        GapJoin(j, c, nodeStart, nodeEnd);
        FilledSkip(j, was, fdresBuf[..], lo, c, nodeEnd);
        c := nodeEnd;
        continue;
      }
      if remainingDepth <= localBfsD {
        ghost var sofar := fdresBuf[..];
        Pow2Mono(remainingDepth, localBfsD);
        var cb := LocalBfs(j.h, j.key, node, remainingDepth, bfsBuf);
        WriteLeaves(j, node, remainingDepth, bfsBuf, cb, fdresBuf);
        FilledCompose(j, was, sofar, fdresBuf[..], lo, c, nodeStart, nodeEnd);
        c := nodeEnd;
      } else {
        Descend(j, rest, node, splitCoff, deepest, hi);
        stkPtr := PushChildren(j, node, stk, stkPtr);
        GapJoin(j, c, nodeStart, Limit(j, stk[..stkPtr], hi));
      }
    }
    FilledSkip(j, was, fdresBuf[..], lo, c, hi);
  }

  lemma SpanOf(j: Job, node: StkNode, rem: nat)
    requires node.layer + rem == j.N()
    ensures j.First(node) == node.id * Pow2(rem) && j.Last(node) == (node.id + 1) * Pow2(rem)
  {
  }

  lemma StackStart(j: Job, root: StkNode, was: seq<nat>, deepest: nat)
    requires deepest <= j.N() && j.NodeOk(root) && root.layer <= deepest
    ensures StackOk(j, [root], root.layer, deepest, j.Last(root))
    ensures Limit(j, [root], j.Last(root)) == j.First(root) < j.Last(root)
    ensures j.Gap(j.First(root), j.First(root)) && j.Filled(was, was, j.First(root), j.First(root))
  {
  }

  lemma StackTop(j: Job, rest: seq<StkNode>, node: StkNode, splitCoff: nat, deepest: nat, hi: nat)
    requires deepest <= j.N() && StackOk(j, rest + [node], splitCoff, deepest, hi)
    ensures j.NodeOk(node) && splitCoff + |rest| <= node.layer <= deepest
    ensures j.Last(node) <= Limit(j, rest, hi) <= hi && j.Gap(j.Last(node), Limit(j, rest, hi))
    ensures Limit(j, rest + [node], hi) == j.First(node) < j.Last(node)
  {
    var s := rest + [node];
    assert s[..|rest|] == rest && s[|rest|] == node;
    SpanPositive(j, node);
    assert forall k :: 0 <= k < |rest| ==> rest[k] == s[k];
    if rest != [] {
      assert rest[|rest| - 1] == s[|rest| - 1];
      SpanPositive(j, rest[|rest| - 1]);
    }
  }

  // ---- workers ----

  ghost predicate TasksReady(j: Job, tasks: seq<Block>, splitCoff: nat) {
    && splitCoff <= j.N() && |tasks| == Pow2(splitCoff)
    && forall t: nat :: t < |tasks| ==> tasks[t] == NodeState(j.h, j.key, splitCoff, t)
  }

  /** One worker: its tasks from left to right. */
  method EvalThread(j: Job, tasks: array<Block>, splitCoff: nat, localBfsD: nat, startTask: nat, endTask: nat, fdresBuf: array<nat>)
    requires j.Valid() && fdresBuf.Length == j.Length()
    requires localBfsD + splitCoff <= j.N() && TasksReady(j, tasks[..], splitCoff)
    requires startTask <= endTask <= tasks.Length
    modifies fdresBuf
    ensures j.Filled(fdresBuf[..], old(fdresBuf[..]), startTask * Pow2(j.N() - splitCoff), endTask * Pow2(j.N() - splitCoff))
  {
    hide NodeState, Job.Length, Job.Filled, Job.Valid;
    var stk := new StkNode[j.N() - localBfsD + 2];
    var bfsBuf := new Block[2, Pow2(localBfsD)];
    ghost var was := fdresBuf[..];
    ghost var each := Pow2(j.N() - splitCoff);
    FilledNothing(j, was, startTask * each);
    MulSign(startTask, each);
    for t := startTask to endTask
      invariant j.Filled(fdresBuf[..], was, startTask * each, t * each) && startTask * each <= t * each
    {
      var root := StkNode(tasks[t], t, splitCoff);
      ghost var sofar := fdresBuf[..];
      SpanOf(j, root, j.N() - splitCoff);
      SpanSize(t, j.N() - splitCoff);
      TaskSpan(j, t, splitCoff);
      WalkTask(j, root, localBfsD, stk, bfsBuf, fdresBuf);
      FilledCompose(j, was, sofar, fdresBuf[..], startTask * each, t * each, t * each, (t + 1) * each);
    }
  }

  lemma FilledNothing(j: Job, buf: seq<nat>, lo: int)
    ensures j.Filled(buf, buf, lo, lo)
  {
  }

  lemma TaskSpan(j: Job, t: nat, splitCoff: nat)
    requires splitCoff <= j.N() && t < Pow2(splitCoff)
    ensures (t + 1) * Pow2(j.N() - splitCoff) <= Pow2(j.N())
  {
    Pow2Add(splitCoff, j.N() - splitCoff);
    Distribute(Pow2(splitCoff), t + 1, Pow2(j.N() - splitCoff));
    MulSign(Pow2(splitCoff) - (t + 1), Pow2(j.N() - splitCoff));
  }

  /** Worker intervals one after the other from 0 to `total`, none empty. */
  ghost predicate Partition(threads: seq<(nat, nat)>, total: nat) {
    && threads != [] && threads[0].0 == 0 && threads[|threads| - 1].1 == total
    && (forall i :: 0 <= i < |threads| ==> threads[i].0 < threads[i].1 <= total)
    && (forall i :: 0 <= i < |threads| - 1 ==> threads[i].1 == threads[i + 1].0)
  }

  lemma CeilDiv(a: nat, b: nat)
    requires b > 0
    ensures (a + b - 1) / b * b >= a && (a > 0 ==> (a + b - 1) / b > 0)
  {
    var q := Quotient(a + b - 1, b);
    if q <= 0 {
      MulSign(-q, b);
    }
  }

  function TasksPerThread(totalTasks: nat, cores: nat): nat
    requires cores > 0
  {
    (totalTasks + cores - 1) / cores
  }

  /** The interval of worker i. */
  function WorkerTasks(totalTasks: nat, cores: nat, i: nat): (nat, nat)
    requires cores > 0
  {
    var start := i * TasksPerThread(totalTasks, cores);
    (start, Min(start + TasksPerThread(totalTasks, cores), totalTasks))
  }

  /** The split of the tasks over the workers. */
  method SplitTasks(totalTasks: nat, cores: nat) returns (threads: seq<(nat, nat)>)
    requires totalTasks > 0 && cores > 0
    ensures Partition(threads, totalTasks) && |threads| <= cores
    ensures forall i :: 0 <= i < |threads| ==> threads[i] == WorkerTasks(totalTasks, cores, i)
  {
    hide Partition;
    var tasksPerThread := TasksPerThread(totalTasks, cores);
    CeilDiv(totalTasks, cores);
    Commute(tasksPerThread, cores);
    hide TasksPerThread;
    threads := [];
    var i := 0;
    while i < cores
      invariant 0 <= i <= cores && |threads| == i
      invariant i > 0 ==> Partition(threads, Min(i * tasksPerThread, totalTasks))
      invariant forall k :: 0 <= k < i ==> threads[k] == WorkerTasks(totalTasks, cores, k)
    {
      var startTask := i * tasksPerThread;
      var endTask := Min(startTask + tasksPerThread, totalTasks);
      if startTask >= totalTasks {
        break;
      }
      SplitStep(threads, i, tasksPerThread, totalTasks);
      threads := threads + [(startTask, endTask)];
      i := i + 1;
    }
  }

  lemma Commute(a: nat, b: nat)
    ensures a * b == b * a
  {
  }

  /** One more interval. */
  lemma SplitStep(threads: seq<(nat, nat)>, i: nat, size: nat, total: nat)
    requires size > 0 && |threads| == i && i * size < total && (i > 0 ==> Partition(threads, Min(i * size, total)))
    ensures Partition(threads + [(i * size, Min(i * size + size, total))], Min((i + 1) * size, total))
  {
    Distribute(i, 1, size);
    var more := threads + [(i * size, Min(i * size + size, total))];
    forall k | 0 <= k < |more|
      ensures more[k].0 < more[k].1 <= Min(i * size + size, total)
    {
      assert k < i ==> more[k] == threads[k];
    }
    forall k | 0 <= k < |more| - 1
      ensures more[k].1 == more[k + 1].0
    {
      assert more[k] == threads[k];
    }
    assert i > 0 ==> more[0] == threads[0];
  }

  /** Every task has its worker. */
  lemma WorkerOf(threads: seq<(nat, nat)>, total: nat, t: nat) returns (i: nat)
    requires Partition(threads, total) && t < total
    ensures i < |threads| && threads[i].0 <= t < threads[i].1
  {
    i := |threads| - 1;
    while t < threads[i].0
      invariant i < |threads| && t < threads[i].1
    {
      i := i - 1;
    }
  }

  function BitWidth(v: nat): nat {
    if v == 0 then 0 else 1 + BitWidth(v / 2)
  }

  function LocalDepth(n: nat): nat {
    if n < 8 then n else 8
  }

  /** How far the tree is split into tasks. */
  function SplitDepth(n: nat, cores: nat): nat
    requires cores > 0
  {
    Min(n - LocalDepth(n), BitWidth(cores) - 1 + 3)
  }

  /** The whole evaluation: split the tree, run the workers in any order. */
  method Evaluate(j: Job, cores: nat, fdresBuf: array<nat>)
    requires j.Valid() && fdresBuf.Length == j.Length() && cores > 0
    modifies fdresBuf
    ensures forall s: nat :: s < fdresBuf.Length ==> fdresBuf[s] == j.Value(j.LeafOf(s))
  {
    hide NodeState, Job.Filled, Job.Valid, Job.Length, Job.Value, Job.LeafOf, Partition;
    var n := j.N();
    var localBfsD := LocalDepth(n);
    var splitCoff := SplitDepth(n, cores);
    var totalTasks := Pow2(splitCoff);
    var tasks := ExpandTasks(j.h, j.key, splitCoff);
    assert TasksReady(j, tasks[..], splitCoff);
    var threads := SplitTasks(totalTasks, cores);
    ghost var each := Pow2(n - splitCoff);
    var pending := set worker | worker in threads;
    while pending != {}
      invariant forall worker :: worker in pending ==> worker in threads
      invariant forall worker :: worker in threads && worker !in pending ==> WorkerDone(j, fdresBuf[..], worker, each)
      invariant TasksReady(j, tasks[..], splitCoff)
      decreases |pending|
    {
      var worker :| worker in pending;
      ghost var sofar := fdresBuf[..];
      PartitionBounds(threads, totalTasks, worker);
      EvalThread(j, tasks, splitCoff, localBfsD, worker.0, worker.1, fdresBuf);
      WorkersKeep(j, sofar, fdresBuf[..], worker, each);
      pending := pending - {worker};
    }
    AllDone(j, fdresBuf[..], threads, splitCoff);
  }

  lemma PartitionBounds(threads: seq<(nat, nat)>, total: nat, worker: (nat, nat))
    requires Partition(threads, total) && worker in threads
    ensures worker.0 <= worker.1 <= total
  {
  }

  /** The outputs of one worker's leaves are final. */
  ghost predicate WorkerDone(j: Job, buf: seq<nat>, thread: (nat, nat), each: nat) {
    forall s: nat :: s < |buf| && thread.0 * each <= j.LeafOf(s) < thread.1 * each ==> buf[s] == j.Value(j.LeafOf(s))
  }

  lemma WorkersKeep(j: Job, was: seq<nat>, buf: seq<nat>, worker: (nat, nat), each: nat)
    requires j.Filled(buf, was, worker.0 * each, worker.1 * each)
    ensures WorkerDone(j, buf, worker, each)
    ensures forall other :: WorkerDone(j, was, other, each) ==> WorkerDone(j, buf, other, each)
  {
    hide Job.Value, Job.LeafOf;
  }

  /** Every leaf has its worker. */
  lemma WorkerOfLeaf(threads: seq<(nat, nat)>, n: nat, splitCoff: nat, x: nat) returns (i: nat)
    requires splitCoff <= n && Partition(threads, Pow2(splitCoff)) && x < Pow2(n)
    ensures i < |threads| && threads[i].0 * Pow2(n - splitCoff) <= x < threads[i].1 * Pow2(n - splitCoff)
  {
    hide Partition;
    var each := Pow2(n - splitCoff);
    var t := Quotient(x, each);
    Pow2Add(splitCoff, n - splitCoff);
    Distribute(t, Pow2(splitCoff), each);
    MulSign(t - Pow2(splitCoff), each);
    MulSign(-1 - t, each);
    Distribute(-1, t, each);
    i := WorkerOf(threads, Pow2(splitCoff), t);
    Distribute(t, threads[i].0, each);
    MulSign(t - threads[i].0, each);
    Distribute(threads[i].1, t + 1, each);
    Distribute(t, 1, each);
    MulSign(threads[i].1 - (t + 1), each);
  }

  lemma AllDone(j: Job, buf: seq<nat>, threads: seq<(nat, nat)>, splitCoff: nat)
    requires j.Valid() && |buf| == j.Length() && splitCoff <= j.N() && Partition(threads, Pow2(splitCoff))
    requires forall worker :: worker in threads ==> WorkerDone(j, buf, worker, Pow2(j.N() - splitCoff))
    ensures forall s: nat :: s < |buf| ==> buf[s] == j.Value(j.LeafOf(s))
  {
    hide Job.Value, Partition;
    forall s: nat | s < |buf|
      ensures buf[s] == j.Value(j.LeafOf(s))
    {
      LeafOfSlot(j, s);
      var i := WorkerOfLeaf(threads, j.N(), splitCoff, j.LeafOf(s));
      assert threads[i] in threads && WorkerDone(j, buf, threads[i], Pow2(j.N() - splitCoff));
    }
  }

  // ---- the two entry points ----

  /** Full evaluation: slot x receives the value at x. */
  method FullEval(h: Ccrh, key: Key, party: nat, ellOut: nat, cores: nat, fdresBuf: array<nat>) returns (res: EvalResult)
    requires cores > 0
    modifies fdresBuf
    ensures res == if fdresBuf.Length == Pow2(|key.cws|) then Done else SizeMismatch
    ensures res.Done? ==> forall x: nat :: x < Pow2(|key.cws|) ==> fdresBuf[x] == Eval(h, key, party, ellOut, x)
    ensures !res.Done? ==> fdresBuf[..] == old(fdresBuf[..])
  {
    var vecLen := Pow2(|key.cws|);
    if fdresBuf.Length != vecLen {
      return SizeMismatch;
    }
    Evaluate(Job(h, key, party, ellOut, Whole), cores, fdresBuf);
    return Done;
  }

  /** Range evaluation: slot s receives the value at (bg + s) modulo the domain size, wrapped or not. */
  method RangeEval(h: Ccrh, key: Key, party: nat, ellOut: nat, cores: nat, fdresBuf: array<nat>, bg: nat, ed: nat)
    returns (res: EvalResult)
    requires cores > 0
    modifies fdresBuf
    ensures res.BgOutOfRange? <==> bg >= Pow2(|key.cws|)
    ensures res.EdOutOfRange? <==> bg < Pow2(|key.cws|) && ed >= Pow2(|key.cws|)
    ensures bg < Pow2(|key.cws|) && ed < Pow2(|key.cws|) ==>
      res == if fdresBuf.Length == (ed - bg) % Pow2(|key.cws|) + 1 then Done else SizeMismatch
    ensures res.Done? ==> forall s: nat :: s < fdresBuf.Length ==>
      fdresBuf[s] == Eval(h, key, party, ellOut, (bg + s) % Pow2(|key.cws|))
    ensures !res.Done? ==> fdresBuf[..] == old(fdresBuf[..])
  {
    hide Eval;
    var vecLen := Pow2(|key.cws|);
    if bg >= vecLen {
      return BgOutOfRange;
    }
    if ed >= vecLen {
      return EdOutOfRange;
    }
    var isCircular := ed < bg;
    var rangeLen := if isCircular then (vecLen - bg) + ed + 1 else ed - bg + 1;
    if ed < bg {
      ModShift(ed - bg + vecLen, -1, vecLen);
      ModSmall(ed - bg + vecLen, vecLen);
    } else {
      ModSmall(ed - bg, vecLen);
    }
    if fdresBuf.Length != rangeLen {
      return SizeMismatch;
    }
    var j := Job(h, key, party, ellOut, Range(bg, ed));
    Evaluate(j, cores, fdresBuf);
    forall s: nat | s < fdresBuf.Length
      ensures fdresBuf[s] == Eval(h, key, party, ellOut, (bg + s) % vecLen)
    {
      LeafOfSlot(j, s);
    }
    return Done;
  }
}
