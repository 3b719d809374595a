/** The tree cache in the clear: every stored vector is the set of positions that are one in it.

    What makes an incremental merge sound is coherence: an inner node with no dirty leaf below it already stores the
    union of its children.  Every operation keeps it, a merge completes it, and then the root stores the union of all
    leaves. */
module UnionTree {
  import opened HeapTree
  import opened CacheState

  type Plain = View<set<nat>>

  ghost predicate Coherent(v: Plain)
    requires ViewOk(v)
  {
    forall x :: 1 <= x < v.n && !HasDirty(v.dirty, x) ==> StoresUnion(v.file, x)
  }

  ghost predicate StoresUnion(file: map<nat, set<nat>>, x: nat) {
    x in file && 2 * x in file && 2 * x + 1 in file && file[x] == file[2 * x] + file[2 * x + 1]
  }

  /** Dirt below a child is dirt below the parent. */
  lemma DirtRises(dirty: set<nat>, x: nat)
    requires !HasDirty(dirty, x) && x >= 1
    ensures !HasDirty(dirty, 2 * x) && !HasDirty(dirty, 2 * x + 1)
  {
    forall d | d in dirty
      ensures !Below(2 * x, d) && !Below(2 * x + 1, d)
    {
      if Below(2 * x, d) {
        BelowTrans(x, 2 * x, d);
      }
      if Below(2 * x + 1, d) {
        BelowTrans(x, 2 * x + 1, d);
      }
      assert !Below(x, d);
    }
  }

  lemma InsertCoherent(v: Plain, node: set<nat>)
    requires ViewOk(v) && Coherent(v)
    ensures ViewOk(ViewInsert(v, node)) && Coherent(ViewInsert(v, node))
  {
    hide Below, HasDirty;
    InsertViewOk(v, node);
    var w := ViewInsert(v, node);
    forall x | 1 <= x < w.n && !HasDirty(w.dirty, x)
      ensures StoresUnion(w.file, x)
    {
      InsertDirt(v, node, x);
      assert StoresUnion(v.file, x);
      ParentOf(x, v.n);
    }
  }

  /** Not being above a node is not being its parent. */
  lemma ParentOf(x: nat, d: nat)
    requires !Below(x, d) && x >= 1
    ensures d != x && d != 2 * x && d != 2 * x + 1
  {
  }

  lemma UpdateCoherent(v: Plain, id: nat, node: set<nat>)
    requires ViewOk(v) && Coherent(v) && v.n <= id < 2 * v.n
    ensures ViewOk(ViewUpdate(v, id, node)) && Coherent(ViewUpdate(v, id, node))
  {
    hide Below, HasDirty;
    UpdateViewOk(v, id, node);
    var w := ViewUpdate(v, id, node);
    forall x | 1 <= x < w.n && !HasDirty(w.dirty, x)
      ensures StoresUnion(w.file, x)
    {
      CleanNodes(v.dirty, w.dirty, x);
      CleanNode(w.dirty, x, id);
      ParentOf(x, id);
    }
  }

  lemma CleanNode(dirty: set<nat>, x: nat, d: nat)
    requires !HasDirty(dirty, x) && d in dirty
    ensures !Below(x, d)
  {
  }

  lemma CleanNodes(few: set<nat>, many: set<nat>, x: nat)
    requires !HasDirty(many, x) && few <= many
    ensures !HasDirty(few, x)
  {
    hide Below;
  }

  lemma RemoveCoherent(v: Plain, del: nat)
    requires ViewOk(v) && Coherent(v) && v.n <= del < 2 * v.n
    ensures ViewOk(ViewRemove(v, del)) && Coherent(ViewRemove(v, del))
  {
    hide Below, HasDirty;
    RemoveViewOk(v, del);
    var w := ViewRemove(v, del);
    forall x | 1 <= x < w.n && !HasDirty(w.dirty, x)
      ensures StoresUnion(w.file, x)
    {
      RemoveDirt(v, del, x);
      assert StoresUnion(v.file, x);
      CleanNode(w.dirty, x, v.n - 1);
      ParentOf(x, v.n - 1);
      if del < 2 * v.n - 2 {
        CleanNode(w.dirty, x, del);
        ParentOf(x, del);
      }
    }
  }

  // ---- the merge ----

  /** The children of every scheduled node are stored or scheduled earlier. */
  predicate Ready<T>(file: map<nat, T>, s: seq<nat>) {
    forall i :: 0 <= i < |s| ==>
      (2 * s[i] in file || 2 * s[i] in s[..i]) && (2 * s[i] + 1 in file || 2 * s[i] + 1 in s[..i])
  }

  lemma ReadyStep<T>(file: map<nat, T>, s: seq<nat>, val: T)
    requires s != [] && Ready(file, s)
    ensures 2 * s[0] in file && 2 * s[0] + 1 in file && Ready(file[s[0] := val], s[1..])
  {
    forall i | 0 <= i < |s| - 1
      ensures 2 * s[1..][i] in file[s[0] := val] || 2 * s[1..][i] in s[1..][..i]
      ensures 2 * s[1..][i] + 1 in file[s[0] := val] || 2 * s[1..][i] + 1 in s[1..][..i]
    {
      assert s[..i + 1] == [s[0]] + s[1..][..i];
    }
  }

  function MergeSets(file: map<nat, set<nat>>, s: seq<nat>): map<nat, set<nat>>
    requires Ready(file, s)
    decreases |s|
  {
    if s == [] then file
    else
      ReadyStep(file, s, file[2 * s[0]] + file[2 * s[0] + 1]);
      MergeSets(file[s[0] := file[2 * s[0]] + file[2 * s[0] + 1]], s[1..])
  }

  /** Bottom-up, every scheduled node ends up with the union of its children's final sets; nothing else changes. */
  lemma {:induction false} MergedNodes(file: map<nat, set<nat>>, s: seq<nat>)
    requires Ready(file, s)
    requires forall i, k :: 0 <= i < k < |s| ==> s[i] > s[k]
    requires forall x :: x in s ==> x >= 1
    ensures forall x :: x in s ==> StoresUnion(MergeSets(file, s), x)
    ensures forall x :: x !in s ==> (x in MergeSets(file, s) <==> x in file)
    ensures forall x :: x !in s && x in file ==> MergeSets(file, s)[x] == file[x]
    decreases |s|
  {
    if s != [] {
      var x := s[0];
      var val := file[2 * x] + file[2 * x + 1];
      var next := file[x := val];
      ReadyStep(file, s, val);
      assert MergeSets(file, s) == MergeSets(next, s[1..]);
      hide MergeSets, Ready, StoresUnion;
      assert forall y :: y in s <==> y == x || y in s[1..];
      assert forall y :: y in s[1..] ==> y < x;
      MergedNodes(next, s[1..]);
      assert x in s;
      UnionMade(file, MergeSets(next, s[1..]), x);
    }
  }

  lemma UnionMade(file: map<nat, set<nat>>, final: map<nat, set<nat>>, x: nat)
    requires x >= 1 && 2 * x in file && 2 * x + 1 in file
    requires forall y :: y >= x && y in file[x := file[2 * x] + file[2 * x + 1]] ==>
      y in final && final[y] == file[x := file[2 * x] + file[2 * x + 1]][y]
    ensures StoresUnion(final, x)
  {
  }

  /** The nodes to recompute can be recomputed in schedule order. */
  lemma ScheduleReady<T>(v: View<T>)
    requires ViewOk(v) && v.n >= 1
    ensures Ready(v.file, Schedule(v.dirty, v.n - 1))
  {
    var s := Schedule(v.dirty, v.n - 1);
    forall i, y | 0 <= i < |s| && (y == 2 * s[i] || y == 2 * s[i] + 1)
      ensures y in v.file || y in s[..i]
    {
      assert s[i] in s;
      if y !in v.file {
        assert y < v.n && HasDirty(v.dirty, y);
        EarlierInOrder(s, i, y);
      }
    }
  }

  lemma EarlierInOrder(s: seq<nat>, i: nat, y: nat)
    requires i < |s| && y in s && y > s[i] && forall i, k :: 0 <= i < k < |s| ==> s[i] > s[k]
    ensures y in s[..i]
  {
  }

  lemma UnionKept(file: map<nat, set<nat>>, final: map<nat, set<nat>>, x: nat)
    requires StoresUnion(file, x)
    requires forall y :: y in {x, 2 * x, 2 * x + 1} && y in file ==> y in final && final[y] == file[y]
    ensures StoresUnion(final, x)
  {
  }

  lemma UnionStored(file: map<nat, set<nat>>, x: nat)
    requires StoresUnion(file, x)
    ensures x in file
  {
  }

  /** After a merge nothing is dirty and every inner node stores the union of its children. */
  lemma MergeCoherent(v: Plain)
    requires ViewOk(v) && Coherent(v) && v.n >= 1
    ensures Ready(v.file, Schedule(v.dirty, v.n - 1))
    ensures var w := View(v.n, {}, MergeSets(v.file, Schedule(v.dirty, v.n - 1)));
      && ViewOk(w) && Coherent(w)
      && forall leaf :: v.n <= leaf < 2 * v.n ==> leaf in w.file && w.file[leaf] == v.file[leaf]
  {
    hide Below, HasDirty, Ready, MergeSets, Schedule, StoresUnion;
    var s := Schedule(v.dirty, v.n - 1);
    ScheduleReady(v);
    MergedNodes(v.file, s);
    var file := MergeSets(v.file, s);
    forall x | 1 <= x < v.n
      ensures StoresUnion(file, x) && x in file
    {
      if x !in s {
        DirtRises(v.dirty, x);
        assert StoresUnion(v.file, x);
        UnionKept(v.file, file, x);
      }
      UnionStored(file, x);
    }
    assert forall x :: x in file ==> x in v.file || x in s;
  }

  /** With nothing dirty the root stores exactly the union of the leaves. */
  lemma RootStoresUnion(v: Plain, i: nat)
    requires ViewOk(v) && Coherent(v) && v.dirty == {} && v.n >= 1
    ensures 1 in v.file
    ensures i in v.file[1] <==> exists leaf: nat :: v.n <= leaf < 2 * v.n && i in v.file[leaf]
  {
    hide Below;
    assert forall x: nat :: 1 <= x < v.n ==> StoresUnion(v.file, x);
    var bit := (x: nat) => x in v.file && i in v.file[x];
    forall x: nat | 1 <= x < v.n
      ensures JoinsChildren(bit, x)
    {
      assert StoresUnion(v.file, x);
    }
    assert bit(1) <==> i in v.file[1];
    RootIsUnion(v.n, bit);
    forall leaf: nat | v.n <= leaf < 2 * v.n
      ensures i in v.file[leaf] <==> bit(leaf)
    {
    }
  }
}
