/** Heap-numbered full binary trees: node x has children 2x and 2x + 1; with n leaves the nodes are 1 .. 2n - 1 and
    the leaves n .. 2n - 1. */
module HeapTree {

  /** d lies in the subtree of x. */
  predicate Below(x: nat, d: nat) {
    d == x || (d > x && Below(x, d / 2))
  }

  /** A dirty leaf lies in the subtree of x. */
  predicate HasDirty(dirty: set<nat>, x: nat) {
    exists d :: d in dirty && Below(x, d)
  }

  lemma {:induction false} BelowTrans(x: nat, y: nat, z: nat)
    requires Below(x, y) && Below(y, z)
    ensures Below(x, z)
    decreases z
  {
    if y != z {
      BelowTrans(x, y, z / 2);
    }
  }

  lemma {:induction false} RootAbove(d: nat)
    requires d >= 1
    ensures Below(1, d)
  {
    if d > 1 {
      RootAbove(d / 2);
    }
  }

  /** The inner nodes a merge has to recompute, bottom-up: every proper ancestor of a dirty leaf, largest id first. */
  function Schedule(dirty: set<nat>, upto: nat): (s: seq<nat>)
    ensures forall x :: x in s <==> 1 <= x <= upto && HasDirty(dirty, x)
    ensures forall i, k :: 0 <= i < k < |s| ==> s[i] > s[k]
  {
    if upto == 0 then []
    else
      var rest := Schedule(dirty, upto - 1);
      assert forall k :: 0 <= k < |rest| ==> rest[k] in rest;
      (if HasDirty(dirty, upto) then [upto] else []) + rest
  }

  lemma {:induction false} NothingScheduled(upto: nat)
    ensures Schedule({}, upto) == []
  {
    if upto != 0 {
      NothingScheduled(upto - 1);
    }
  }

  // ---- values on the tree ----

  /** Every inner node carries the disjunction of its children. */
  ghost predicate Combined(n: nat, bit: nat -> bool) {
    forall x: nat :: 1 <= x < n ==> JoinsChildren(bit, x)
  }

  predicate JoinsChildren(bit: nat -> bool, x: nat) {
    bit(x) <==> bit(2 * x) || bit(2 * x + 1)
  }

  lemma {:induction false} BitRises(n: nat, bit: nat -> bool, x: nat)
    requires Combined(n, bit) && 1 <= x < 2 * n && bit(x)
    ensures bit(1)
  {
    if x > 1 {
      var p := x / 2;
      assert JoinsChildren(bit, p);
      assert x == 2 * p || x == 2 * p + 1;
      BitRises(n, bit, p);
    }
  }

  lemma {:induction false} BitDescends(n: nat, bit: nat -> bool, x: nat) returns (leaf: nat)
    requires Combined(n, bit) && 1 <= x < 2 * n && bit(x)
    ensures n <= leaf < 2 * n && bit(leaf)
    decreases 2 * n - x
  {
    if x >= n {
      leaf := x;
      return;
    }
    assert JoinsChildren(bit, x);
    if bit(2 * x) {
      leaf := BitDescends(n, bit, 2 * x);
    } else {
      leaf := BitDescends(n, bit, 2 * x + 1);
    }
  }

  /** The root carries the disjunction of the leaves. */
  lemma RootIsUnion(n: nat, bit: nat -> bool)
    requires n >= 1 && Combined(n, bit)
    ensures bit(1) <==> exists leaf: nat :: n <= leaf < 2 * n && bit(leaf)
  {
    if bit(1) {
      var leaf := BitDescends(n, bit, 1);
    }
    forall leaf: nat | n <= leaf < 2 * n && bit(leaf)
      ensures bit(1)
    {
      BitRises(n, bit, leaf);
    }
  }
}
