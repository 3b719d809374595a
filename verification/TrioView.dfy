/** Three replicas of the tree cache side by side, and the plaintext tree they share. */
module TrioView {
  import opened Aby3
  import opened HeapTree
  import opened CacheState

  /** Two trees of one shape with the same dirt and the same nodes stored. */
  predicate Agree<T, U>(v: View<T>, w: View<U>) {
    v.n == w.n && v.dirty == w.dirty && v.file.Keys == w.file.Keys
  }

  lemma InsertAgree<T, U>(v: View<T>, w: View<U>, a: T, b: U)
    requires Agree(v, w)
    ensures Agree(ViewInsert(v, a), ViewInsert(w, b))
  {
  }

  lemma UpdateAgree<T, U>(v: View<T>, w: View<U>, id: nat, a: T, b: U)
    requires Agree(v, w)
    ensures Agree(ViewUpdate(v, id, a), ViewUpdate(w, id, b))
  {
  }

  lemma RemoveAgree<T, U>(v: View<T>, w: View<U>, del: nat)
    requires Agree(v, w) && ViewOk(v) && ViewOk(w) && v.n <= del < 2 * v.n
    ensures Agree(ViewRemove(v, del), ViewRemove(w, del))
  {
    hide HasDirty;
  }

  /** Position i of a shared bit vector is one. */
  predicate OneAt(x: Trio<RepVec>, i: nat) {
    && i < |x.p0.thisShare| && i < |x.p1.thisShare| && i < |x.p2.thisShare|
    && (x.p0.thisShare[i] + x.p1.thisShare[i] + x.p2.thisShare[i]) % 2 == 1
  }

  /** The positions that are one. */
  function Ones(bf: nat, x: Trio<RepVec>): (s: set<nat>)
    ensures forall i :: i in s <==> 0 <= i < bf && OneAt(x, i)
  {
    set i: nat | i < bf && OneAt(x, i)
  }

  function Entry(v: Trio<View<RepVec>>, x: nat): Trio<RepVec>
    requires x in v.p0.file && x in v.p1.file && x in v.p2.file
  {
    Trio(v.p0.file[x], v.p1.file[x], v.p2.file[x])
  }

  predicate AllAgree(v: Trio<View<RepVec>>) {
    Agree(v.p0, v.p1) && Agree(v.p0, v.p2)
  }

  function PlainView(bf: nat, v: Trio<View<RepVec>>): (w: View<set<nat>>)
    requires AllAgree(v)
    ensures Agree(v.p0, w)
  {
    var keys := v.p0.file.Keys;
    assert v.p1.file.Keys == keys && v.p2.file.Keys == keys;
    View(v.p0.n, v.p0.dirty, map x | x in keys :: Ones(bf, Entry(v, x)))
  }

  /** Every stored node is a consistent sharing. */
  ghost predicate AllConsistent(bf: nat, v: Trio<View<RepVec>>)
    requires AllAgree(v)
  {
    forall x :: x in v.p0.file.Keys && x in v.p1.file.Keys && x in v.p2.file.Keys ==> ConsistentVec(2, bf, Entry(v, x))
  }

  function InsertAll(v: Trio<View<RepVec>>, node: Trio<RepVec>): Trio<View<RepVec>> {
    Trio(ViewInsert(v.p0, node.p0), ViewInsert(v.p1, node.p1), ViewInsert(v.p2, node.p2))
  }

  lemma InsertTrio(bf: nat, v: Trio<View<RepVec>>, node: Trio<RepVec>)
    requires AllAgree(v) && AllConsistent(bf, v) && ConsistentVec(2, bf, node)
    ensures AllAgree(InsertAll(v, node)) && AllConsistent(bf, InsertAll(v, node))
    ensures PlainView(bf, InsertAll(v, node)) == ViewInsert(PlainView(bf, v), Ones(bf, node))
  {
    hide OneAt, ConsistentVec;
    InsertAgree(v.p0, v.p1, node.p0, node.p1);
    InsertAgree(v.p0, v.p2, node.p0, node.p2);
    var w := InsertAll(v, node);
    var p, q := PlainView(bf, w), ViewInsert(PlainView(bf, v), Ones(bf, node));
    hide PlainView, InsertAll, ViewInsert, Ones;
    InsertAgree(v.p0, PlainView(bf, v), node.p0, Ones(bf, node));
    forall x | x in w.p0.file
      ensures ConsistentVec(2, bf, Entry(w, x)) && x in p.file && x in q.file && p.file[x] == q.file[x]
    {
      InsertEntry(bf, v, node, x);
    }
    assert p.file == q.file;
  }

  lemma InsertEntry(bf: nat, v: Trio<View<RepVec>>, node: Trio<RepVec>, x: nat)
    requires AllAgree(v) && AllConsistent(bf, v) && ConsistentVec(2, bf, node)
    requires AllAgree(InsertAll(v, node)) && x in InsertAll(v, node).p0.file
    ensures ConsistentVec(2, bf, Entry(InsertAll(v, node), x))
    ensures var p, q := PlainView(bf, InsertAll(v, node)), ViewInsert(PlainView(bf, v), Ones(bf, node));
      x in p.file && x in q.file && p.file[x] == q.file[x]
  {
    hide OneAt, ConsistentVec, Ones;
    var w := InsertAll(v, node);
    assert x in w.p0.file.Keys && x in w.p1.file.Keys && x in w.p2.file.Keys;
    assert Entry(w, x) == node || (x in v.p0.file && Entry(w, x) == Entry(v, x))
      || (v.p0.n in v.p0.file && Entry(w, x) == Entry(v, v.p0.n));
  }

  function UpdateAll(v: Trio<View<RepVec>>, id: nat, node: Trio<RepVec>): Trio<View<RepVec>> {
    Trio(ViewUpdate(v.p0, id, node.p0), ViewUpdate(v.p1, id, node.p1), ViewUpdate(v.p2, id, node.p2))
  }

  lemma UpdateTrio(bf: nat, v: Trio<View<RepVec>>, id: nat, node: Trio<RepVec>)
    requires AllAgree(v) && AllConsistent(bf, v) && ConsistentVec(2, bf, node)
    ensures AllAgree(UpdateAll(v, id, node)) && AllConsistent(bf, UpdateAll(v, id, node))
    ensures PlainView(bf, UpdateAll(v, id, node)) == ViewUpdate(PlainView(bf, v), id, Ones(bf, node))
  {
    hide OneAt, ConsistentVec;
    UpdateAgree(v.p0, v.p1, id, node.p0, node.p1);
    UpdateAgree(v.p0, v.p2, id, node.p0, node.p2);
    var w := UpdateAll(v, id, node);
    var p, q := PlainView(bf, w), ViewUpdate(PlainView(bf, v), id, Ones(bf, node));
    forall x | x in w.p0.file
      ensures ConsistentVec(2, bf, Entry(w, x)) && x in q.file && p.file[x] == q.file[x]
    {
      assert x != id ==> Entry(w, x) == Entry(v, x);
    }
    assert p.file == q.file;
  }

  ghost predicate AllViewOk(v: Trio<View<RepVec>>) {
    ViewOk(v.p0) && ViewOk(v.p1) && ViewOk(v.p2)
  }

  lemma AgreeViewOk<T, U>(v: View<T>, w: View<U>)
    requires Agree(v, w) && ViewOk(v)
    ensures ViewOk(w)
  {
  }

  function RemoveAll(v: Trio<View<RepVec>>, del: nat): Trio<View<RepVec>>
    requires AllAgree(v) && AllViewOk(v) && v.p0.n <= del < 2 * v.p0.n
  {
    Trio(ViewRemove(v.p0, del), ViewRemove(v.p1, del), ViewRemove(v.p2, del))
  }

  lemma RemoveTrio(bf: nat, v: Trio<View<RepVec>>, del: nat)
    requires AllAgree(v) && AllConsistent(bf, v) && AllViewOk(v) && v.p0.n <= del < 2 * v.p0.n
    ensures AllAgree(RemoveAll(v, del)) && AllConsistent(bf, RemoveAll(v, del))
    ensures ViewOk(PlainView(bf, v)) && PlainView(bf, RemoveAll(v, del)) == ViewRemove(PlainView(bf, v), del)
  {
    hide OneAt, ConsistentVec, ViewOk;
    RemoveAgree(v.p0, v.p1, del);
    RemoveAgree(v.p0, v.p2, del);
    AgreeViewOk(v.p0, PlainView(bf, v));
    var w := RemoveAll(v, del);
    RemoveAgree(v.p0, PlainView(bf, v), del);
    var p, q := PlainView(bf, w), ViewRemove(PlainView(bf, v), del);
    forall x | x in w.p0.file
      ensures ConsistentVec(2, bf, Entry(w, x)) && x in q.file && p.file[x] == q.file[x]
    {
      RemovedEntry(v, del, x);
      RemovedPlain(bf, v, del, x);
    }
    assert p.file == q.file;
  }

  lemma RemovedFrom<T>(v: View<T>, del: nat, x: nat)
    requires ViewOk(v) && v.n <= del < 2 * v.n && x in ViewRemove(v, del).file
    ensures RemoveOrigin(v.n, del, x) in v.file && ViewRemove(v, del).file[x] == v.file[RemoveOrigin(v.n, del, x)]
  {
    hide HasDirty;
  }

  lemma RemovedEntry(v: Trio<View<RepVec>>, del: nat, x: nat)
    requires AllAgree(v) && AllViewOk(v) && v.p0.n <= del < 2 * v.p0.n && AllAgree(RemoveAll(v, del))
    requires x in RemoveAll(v, del).p0.file
    ensures x in RemoveAll(v, del).p1.file && x in RemoveAll(v, del).p2.file
    ensures var y := RemoveOrigin(v.p0.n, del, x);
      y in v.p0.file && y in v.p1.file && y in v.p2.file && Entry(RemoveAll(v, del), x) == Entry(v, y)
  {
    hide ViewOk, ViewRemove;
    assert x in RemoveAll(v, del).p0.file.Keys;
    RemovedFrom(v.p0, del, x);
    RemovedFrom(v.p1, del, x);
    RemovedFrom(v.p2, del, x);
  }

  lemma RemovedPlain(bf: nat, v: Trio<View<RepVec>>, del: nat, x: nat)
    requires AllAgree(v) && AllViewOk(v) && v.p0.n <= del < 2 * v.p0.n && AllAgree(RemoveAll(v, del))
    requires x in RemoveAll(v, del).p0.file && ViewOk(PlainView(bf, v))
    ensures x in ViewRemove(PlainView(bf, v), del).file
    ensures PlainView(bf, RemoveAll(v, del)).file[x] == ViewRemove(PlainView(bf, v), del).file[x]
  {
    hide ViewOk, ViewRemove;
    RemoveAgree(v.p0, PlainView(bf, v), del);
    assert x in RemoveAll(v, del).p0.file.Keys;
    RemovedEntry(v, del, x);
    RemovedFrom(PlainView(bf, v), del, x);
  }
}
