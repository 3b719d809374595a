/** How execute_merge finds the nodes to recompute: the parents of every dirty leaf up to the root, largest id first.
    Both loops together compute the schedule. */
module MergeOrdering {
  import opened HeapTree

  /** x is d's parent or further up, the root included. */
  predicate Ancestor(x: nat, d: nat) {
    x >= 1 && Below(x, d / 2)
  }

  lemma ClimbStep(x: nat, p: nat)
    requires p > 0
    ensures (x >= 1 && Below(x, p)) <==> (x == p || Ancestor(x, p))
  {
  }

  method Climb(d: nat, nodes: set<nat>) returns (res: set<nat>)
    ensures forall x :: x in res <==> x in nodes || Ancestor(x, d)
  {
    res := nodes;
    var pnode: nat := d / 2;
    while pnode > 0
      invariant forall x: nat :: x in res || (x >= 1 && Below(x, pnode)) <==> x in nodes || Ancestor(x, d)
    {
      ghost var was := res;
      ghost var p := pnode;
      res := res + {pnode};
      pnode := pnode / 2;
      forall x: nat
        ensures x in res || (x >= 1 && Below(x, pnode)) <==> x in nodes || Ancestor(x, d)
      {
        ClimbStep(x, p);
      }
    }
  }

  method DirtyNodes(dirty: set<nat>) returns (nodes: set<nat>)
    ensures forall x :: x in nodes <==> exists d :: d in dirty && Ancestor(x, d)
  {
    nodes := {};
    var todo := dirty;
    while todo != {}
      invariant todo <= dirty
      invariant forall x :: x in nodes <==> exists d :: d in dirty && d !in todo && Ancestor(x, d)
      decreases |todo|
    {
      var d :| d in todo;
      nodes := Climb(d, nodes);
      todo := todo - {d};
    }
  }

  method Largest(nodes: set<nat>) returns (top: nat)
    requires nodes != {}
    ensures top in nodes && forall x :: x in nodes ==> x <= top
  {
    top :| top in nodes;
    var todo := nodes - {top};
    while todo != {}
      invariant todo <= nodes && top in nodes
      invariant forall x :: x in nodes && x !in todo ==> x <= top
      decreases |todo|
    {
      var x :| x in todo;
      if x > top {
        top := x;
      }
      todo := todo - {x};
    }
  }

  ghost predicate Descending(s: seq<nat>) {
    forall i, k :: 0 <= i < k < |s| ==> s[i] > s[k]
  }

  method SortedDescending(nodes: set<nat>) returns (s: seq<nat>)
    ensures Descending(s) && forall x :: x in s <==> x in nodes
  {
    s := [];
    var todo := nodes;
    while todo != {}
      invariant todo <= nodes && Descending(s)
      invariant forall x :: x in s <==> x in nodes && x !in todo
      invariant forall x, y :: x in s && y in todo ==> x > y
      decreases |todo|
    {
      var top := Largest(todo);
      assert forall i :: 0 <= i < |s| ==> s[i] in s;
      s := s + [top];
      todo := todo - {top};
    }
  }

  /** A strictly descending sequence is determined by its elements. */
  lemma {:induction false} DescendingUnique(a: seq<nat>, b: seq<nat>)
    requires Descending(a) && Descending(b) && forall x :: x in a <==> x in b
    ensures a == b
    decreases |a|
  {
    assert (a != [] ==> a[0] in a) && (b != [] ==> b[0] in b);
    if a != [] {
      assert a[0] in b && b[0] in a && b != [];
      assert a[0] == b[0];
      forall x
        ensures x in a[1..] <==> x in b[1..]
      {
        assert x in a <==> x == a[0] || x in a[1..];
        assert x in b <==> x == b[0] || x in b[1..];
        if x in a[1..] {
          assert x < a[0];
        }
        if x in b[1..] {
          assert x < b[0];
        }
      }
      DescendingUnique(a[1..], b[1..]);
      assert a == [a[0]] + a[1..] && b == [b[0]] + b[1..];
    }
  }

  lemma AncestorOfLeaf(n: nat, dirty: set<nat>, x: nat)
    requires n >= 1 && forall d :: d in dirty ==> n <= d < 2 * n
    ensures (exists d :: d in dirty && Ancestor(x, d)) <==> 1 <= x <= n - 1 && HasDirty(dirty, x)
  {
  }

  /** The two loops compute the schedule. */
  method MergeSequence(n: nat, dirty: set<nat>) returns (s: seq<nat>)
    requires n >= 1 && forall d :: d in dirty ==> n <= d < 2 * n
    ensures s == Schedule(dirty, n - 1)
  {
    hide Schedule, HasDirty, Ancestor, Below;
    var nodes := DirtyNodes(dirty);
    s := SortedDescending(nodes);
    forall x
      ensures x in s <==> x in Schedule(dirty, n - 1)
    {
      if x >= 0 {
        AncestorOfLeaf(n, dirty, x);
      }
    }
    DescendingUnique(s, Schedule(dirty, n - 1));
  }
}
