/** The joint invariant of the three caches and what each operation, run on all three, does to the plaintext tree and
    to the published root. */
module TrioTree {
  import opened Options
  import opened Aby3
  import opened Aby3Vec
  import opened RingConv
  import opened HeapTree
  import opened CacheState
  import opened UnionTree
  import opened TreeMerge
  import opened TrioView
  import opened TrioMerge

  ghost predicate Joint(bf: nat, c: Trio<Cache>) {
    && Shape(bf, c.p0) && Shape(bf, c.p1) && Shape(bf, c.p2)
    && AllAgree(Views(c)) && AllConsistent(bf, Views(c))
    && ViewOk(PlainView(bf, Views(c))) && Coherent(PlainView(bf, Views(c)))
    && c.p0.rootFile.None? == c.p1.rootFile.None? == c.p2.rootFile.None?
  }

  /** The tree in the clear. */
  function PlainTree(bf: nat, c: Trio<Cache>): (v: View<set<nat>>)
    requires AllAgree(Views(c))
    ensures v.n == c.p0.leafNum && v.dirty == c.p0.dirty
  {
    PlainView(bf, Views(c))
  }

  /** A token and the token of the inner node it may create are new to the cache. */
  predicate Fresh(c: Cache, token: Token, inner: Token) {
    token !in c.phiF && inner !in c.phiF && token != inner
  }

  function InsertCaches(c: Trio<Cache>, token: Trio<Token>, inner: Trio<Token>, node: Trio<RepVec>): Trio<Cache>
    requires Bijective(c.p0) && Bijective(c.p1) && Bijective(c.p2)
  {
    LeafNumbered(c.p0);
    LeafNumbered(c.p1);
    LeafNumbered(c.p2);
    Trio(Insert(c.p0, token.p0, inner.p0, node.p0), Insert(c.p1, token.p1, inner.p1, node.p1),
      Insert(c.p2, token.p2, inner.p2, node.p2))
  }

  lemma JointInsert(bf: nat, c: Trio<Cache>, token: Trio<Token>, inner: Trio<Token>, node: Trio<RepVec>)
    requires Joint(bf, c) && ConsistentVec(2, bf, node)
    requires Fresh(c.p0, token.p0, inner.p0) && Fresh(c.p1, token.p1, inner.p1) && Fresh(c.p2, token.p2, inner.p2)
    ensures var d := InsertCaches(c, token, inner, node);
      Joint(bf, d) && PlainTree(bf, d) == ViewInsert(PlainTree(bf, c), Ones(bf, node))
  {
    var d := InsertCaches(c, token, inner, node);
    assert Sized(bf, node.p0) && Sized(bf, node.p1) && Sized(bf, node.p2);
    assert d.p0.rootFile == c.p0.rootFile && d.p1.rootFile == c.p1.rootFile && d.p2.rootFile == c.p2.rootFile;
    InsertView(c.p0, token.p0, inner.p0, node.p0);
    InsertView(c.p1, token.p1, inner.p1, node.p1);
    InsertView(c.p2, token.p2, inner.p2, node.p2);
    assert Views(d) == InsertAll(Views(c), node);
    hide Insert, InsertCaches, Views, PlainView, AllConsistent, ConsistentVec, Bijective, ViewOk, Coherent, ViewInsert, ViewOf;
    InsertKeepsShape(bf, c.p0, token.p0, inner.p0, node.p0);
    InsertKeepsShape(bf, c.p1, token.p1, inner.p1, node.p1);
    InsertKeepsShape(bf, c.p2, token.p2, inner.p2, node.p2);
    InsertedTrio(c, token, inner, node);
    InsertTrio(bf, Views(c), node);
    InsertCoherent(PlainTree(bf, c), Ones(bf, node));
  }

  lemma InsertedTrio(c: Trio<Cache>, token: Trio<Token>, inner: Trio<Token>, node: Trio<RepVec>)
    requires Bijective(c.p0) && Bijective(c.p1) && Bijective(c.p2)
    ensures var d := InsertCaches(c, token, inner, node);
      && (c.p0.leafNum > 0 ==> c.p0.leafNum in c.p0.phiR) && d.p0 == Insert(c.p0, token.p0, inner.p0, node.p0)
      && (c.p1.leafNum > 0 ==> c.p1.leafNum in c.p1.phiR) && d.p1 == Insert(c.p1, token.p1, inner.p1, node.p1)
      && (c.p2.leafNum > 0 ==> c.p2.leafNum in c.p2.phiR) && d.p2 == Insert(c.p2, token.p2, inner.p2, node.p2)
  {
  }

  ghost predicate SameLeaf(c: Trio<Cache>, token: Trio<Token>) {
    && IsLeaf(c.p0, token.p0) && IsLeaf(c.p1, token.p1) && IsLeaf(c.p2, token.p2)
    && c.p0.phiF[token.p0] == c.p1.phiF[token.p1] == c.p2.phiF[token.p2]
  }

  function UpdateCaches(c: Trio<Cache>, token: Trio<Token>, node: Trio<RepVec>): Trio<Cache>
    requires SameLeaf(c, token)
  {
    Trio(Update(c.p0, token.p0, node.p0), Update(c.p1, token.p1, node.p1), Update(c.p2, token.p2, node.p2))
  }

  lemma LeafId(c: Cache, token: Token)
    requires Bijective(c) && IsLeaf(c, token)
    ensures token in c.phiF && c.leafNum <= c.phiF[token] < 2 * c.leafNum
  {
  }

  lemma JointUpdate(bf: nat, c: Trio<Cache>, token: Trio<Token>, node: Trio<RepVec>)
    requires Joint(bf, c) && ConsistentVec(2, bf, node) && SameLeaf(c, token)
    ensures var d := UpdateCaches(c, token, node);
      Joint(bf, d) && PlainTree(bf, d) == ViewUpdate(PlainTree(bf, c), c.p0.phiF[token.p0], Ones(bf, node))
  {
    var d := UpdateCaches(c, token, node);
    assert Sized(bf, node.p0) && Sized(bf, node.p1) && Sized(bf, node.p2);
    hide PlainView, AllConsistent, ConsistentVec, Bijective, ViewOk, Coherent, ViewUpdate, ViewOf;
    LeafId(c.p0, token.p0);
    UpdateKeepsShape(bf, c.p0, token.p0, node.p0);
    UpdateKeepsShape(bf, c.p1, token.p1, node.p1);
    UpdateKeepsShape(bf, c.p2, token.p2, node.p2);
    var id := c.p0.phiF[token.p0];
    assert Views(d) == UpdateAll(Views(c), id, node);
    UpdateTrio(bf, Views(c), id, node);
    UpdateCoherent(PlainTree(bf, c), id, Ones(bf, node));
  }

  function RemoveCaches(c: Trio<Cache>, token: Trio<Token>): Trio<Cache>
    requires Bijective(c.p0) && Bijective(c.p1) && Bijective(c.p2) && SameLeaf(c, token)
  {
    Trio(Remove(c.p0, token.p0), Remove(c.p1, token.p1), Remove(c.p2, token.p2))
  }

  lemma RemovedViews(bf: nat, c: Trio<Cache>, token: Trio<Token>)
    requires Joint(bf, c) && SameLeaf(c, token)
    ensures c.p0.leafNum <= c.p0.phiF[token.p0] < 2 * c.p0.leafNum && AllViewOk(Views(c)) && Views(c).p0.n == c.p0.leafNum
    ensures var d := RemoveCaches(c, token);
      && Shape(bf, d.p0) && Shape(bf, d.p1) && Shape(bf, d.p2)
      && Views(d) == RemoveAll(Views(c), c.p0.phiF[token.p0])
      && d.p0.rootFile == c.p0.rootFile && d.p1.rootFile == c.p1.rootFile && d.p2.rootFile == c.p2.rootFile
      && d.p0.root == c.p0.root && d.p1.root == c.p1.root && d.p2.root == c.p2.root
  {
    hide PlainView, AllConsistent, Bijective, ViewOk, Coherent, ViewRemove, Remove, ViewOf;
    LeafId(c.p0, token.p0);
    RemoveKeepsShape(bf, c.p0, token.p0);
    RemoveKeepsShape(bf, c.p1, token.p1);
    RemoveKeepsShape(bf, c.p2, token.p2);
    RemovedTokens(c.p0, token.p0);
    RemovedTokens(c.p1, token.p1);
    RemovedTokens(c.p2, token.p2);
    RemovedFields(c.p0, token.p0);
    RemovedFields(c.p1, token.p1);
    RemovedFields(c.p2, token.p2);
  }

  lemma JointRemove(bf: nat, c: Trio<Cache>, token: Trio<Token>)
    requires Joint(bf, c) && SameLeaf(c, token)
    ensures c.p0.leafNum <= c.p0.phiF[token.p0] < 2 * c.p0.leafNum && ViewOk(PlainTree(bf, c))
    ensures var d := RemoveCaches(c, token);
      Joint(bf, d) && PlainTree(bf, d) == ViewRemove(PlainTree(bf, c), c.p0.phiF[token.p0])
  {
    hide PlainView, AllConsistent, Bijective, Coherent, ViewRemove, Remove, ViewOf, Shape, Views;
    RemovedViews(bf, c, token);
    RemoveTrio(bf, Views(c), c.p0.phiF[token.p0]);
    RemoveCoherent(PlainTree(bf, c), c.p0.phiF[token.p0]);
  }

  // ---- the merge and the published root ----

  predicate Ready3(m: nat, bf: nat, c: Trio<Cache>, es: Trio<seq<MergeEnv>>, conv: Trio<ConvEnv>) {
    && |es.p0| == |MergeOrder(c.p0)| && |es.p1| == |MergeOrder(c.p1)| && |es.p2| == |MergeOrder(c.p2)|
    && EnvsOk(bf, es.p0)
    && EnvsOk(bf, es.p1)
    && EnvsOk(bf, es.p2)
    && EnvSized(m, bf, conv.p0) && EnvSized(m, bf, conv.p1) && EnvSized(m, bf, conv.p2)
  }

  /** The replicas recompute the same nodes in the same order. */
  lemma SameOrder(bf: nat, c: Trio<Cache>)
    requires Joint(bf, c)
    ensures MergeOrder(c.p0) == MergeOrder(c.p1) == MergeOrder(c.p2)
  {
    LeafNums(c);
    hide Joint, MergeOrder;
    OrderOf(c.p0, c.p1);
    OrderOf(c.p0, c.p2);
  }

  lemma OrderOf(c: Cache, d: Cache)
    requires c.leafNum == d.leafNum && c.dirty == d.dirty
    ensures MergeOrder(c) == MergeOrder(d)
  {
    hide Schedule;
  }

  lemma MergeableTrio(bf: nat, m: nat, c: Trio<Cache>, es: Trio<seq<MergeEnv>>, conv: Trio<ConvEnv>)
    requires Joint(bf, c) && c.p0.leafNum >= 1 && Ready3(m, bf, c, es, conv)
    ensures AllMergeable(bf, Cleaned(c), MergeOrder(c.p0), es)
  {
    hide Mergeable, Shape, PlainView, AllConsistent, Coherent, ViewOk;
    SameOrder(bf, c);
    MergeOrderMergeable(bf, c.p0, es.p0);
    MergeOrderMergeable(bf, c.p1, es.p1);
    MergeOrderMergeable(bf, c.p2, es.p2);
  }

  function Cleaned(c: Trio<Cache>): Trio<Cache> {
    Trio(c.p0.(dirty := {}), c.p1.(dirty := {}), c.p2.(dirty := {}))
  }

  function MergedAll(bf: nat, m: nat, c: Trio<Cache>, es: Trio<seq<MergeEnv>>, conv: Trio<ConvEnv>): Trio<Cache>
    requires Joint(bf, c) && c.p0.leafNum >= 1 && Ready3(m, bf, c, es, conv)
  {
    Trio(Merged(bf, c.p0, es.p0), Merged(bf, c.p1, es.p1), Merged(bf, c.p2, es.p2))
  }

  lemma CleanedViews(bf: nat, c: Trio<Cache>)
    requires AllAgree(Views(c)) && AllConsistent(bf, Views(c))
    ensures var v := Views(Cleaned(c));
      && AllAgree(v) && AllConsistent(bf, v) && PlainView(bf, v).file == PlainView(bf, Views(c)).file
      && v.p0.file == Views(c).p0.file && v.p1.file == Views(c).p1.file && v.p2.file == Views(c).p2.file
  {
    hide ConsistentVec, Ones;
    var v, w := Views(c), Views(Cleaned(c));
    CleanedView(c.p0);
    CleanedView(c.p1);
    CleanedView(c.p2);
    assert AllAgree(w);
    forall x | x in v.p0.file.Keys && x in v.p1.file.Keys && x in v.p2.file.Keys
      ensures Entry(w, x) == Entry(v, x)
    {
    }
    assert PlainView(bf, w).file == PlainView(bf, v).file;
  }

  lemma CleanedView(c: Cache)
    ensures ViewOf(c.(dirty := {})) == ViewOf(c).(dirty := {})
  {
  }

  /** The three merges together, seen on the plaintext tree. */
  lemma MergedPlain(bf: nat, m: nat, c: Trio<Cache>, es: Trio<seq<MergeEnv>>, conv: Trio<ConvEnv>)
    requires Joint(bf, c) && c.p0.leafNum >= 1 && Ready3(m, bf, c, es, conv)
    requires AllMergeable(bf, Cleaned(c), MergeOrder(c.p0), es) && AllDelivered(bf, Cleaned(c), MergeOrder(c.p0), es)
    ensures var d := MergedAll(bf, m, c, es, conv);
      && AllAgree(Views(d)) && AllConsistent(bf, Views(d))
      && Ready(PlainTree(bf, c).file, MergeOrder(c.p0))
      && PlainTree(bf, d).file == MergeSets(PlainTree(bf, c).file, MergeOrder(c.p0))
  {
    hide Shape, ViewOk, Coherent, AllConsistent, PlainView, Mergeable, MergeNodes, MergeOrder, AllDelivered, Views, MergeSets, Ready, AllAgree;
    SameOrder(bf, c);
    CleanedViews(bf, c);
    MergeTrio(bf, Cleaned(c), MergeOrder(c.p0), es);
    assert MergedAll(bf, m, c, es, conv) == MergeNodesAll(bf, Cleaned(c), MergeOrder(c.p0), es);
  }

  lemma MergedShapes(bf: nat, m: nat, c: Trio<Cache>, es: Trio<seq<MergeEnv>>, conv: Trio<ConvEnv>)
    requires Joint(bf, c) && c.p0.leafNum >= 1 && Ready3(m, bf, c, es, conv)
    ensures var d := MergedAll(bf, m, c, es, conv);
      && Shape(bf, d.p0) && Shape(bf, d.p1) && Shape(bf, d.p2)
      && d.p0 == c.p0.(dirty := {}, files := d.p0.files)
      && d.p1 == c.p1.(dirty := {}, files := d.p1.files)
      && d.p2 == c.p2.(dirty := {}, files := d.p2.files)
      && 1 in Views(d).p0.file && 1 in Views(d).p1.file && 1 in Views(d).p2.file
  {
    hide Shape, ViewOk, Coherent, AllConsistent, PlainView, MergeOrder, Merged, ViewOf;
    assert c.p1.leafNum >= 1 && c.p2.leafNum >= 1 by { LeafNums(c); }
    MergedShape(bf, c.p0, es.p0);
    MergedShape(bf, c.p1, es.p1);
    MergedShape(bf, c.p2, es.p2);
  }

  lemma LeafNums(c: Trio<Cache>)
    requires AllAgree(Views(c))
    ensures c.p0.leafNum == c.p1.leafNum == c.p2.leafNum && c.p0.dirty == c.p1.dirty == c.p2.dirty
  {
  }

  /** After the three merges nothing is dirty, every inner node of the plaintext tree stores the union of its
      children, and the leaves are what they were. */
  lemma MergedJoint(bf: nat, m: nat, c: Trio<Cache>, es: Trio<seq<MergeEnv>>, conv: Trio<ConvEnv>)
    requires Joint(bf, c) && c.p0.leafNum >= 1 && Ready3(m, bf, c, es, conv)
    requires AllMergeable(bf, Cleaned(c), MergeOrder(c.p0), es) && AllDelivered(bf, Cleaned(c), MergeOrder(c.p0), es)
    ensures var d := MergedAll(bf, m, c, es, conv);
      && Joint(bf, d) && PlainTree(bf, d).n == c.p0.leafNum && PlainTree(bf, d).dirty == {}
      && 1 in Views(d).p0.file && 1 in Views(d).p1.file && 1 in Views(d).p2.file
      && ConsistentVec(2, bf, Entry(Views(d), 1))
      && forall leaf :: c.p0.leafNum <= leaf < 2 * c.p0.leafNum ==>
        leaf in PlainTree(bf, d).file && leaf in PlainTree(bf, c).file && PlainTree(bf, d).file[leaf] == PlainTree(bf, c).file[leaf]
  {
    hide Shape, ViewOk, Coherent, PlainView, Merged, MergedAll, AllMergeable, AllDelivered, ConsistentVec, ViewOf, MergeSets, Ready, Schedule;
    var d := MergedAll(bf, m, c, es, conv);
    MergedShapes(bf, m, c, es, conv);
    MergedPlain(bf, m, c, es, conv);
    MergeCoherent(PlainTree(bf, c));
    assert PlainTree(bf, d) == View(c.p0.leafNum, {}, MergeSets(PlainTree(bf, c).file, MergeOrder(c.p0)));
    LeavesStored(PlainTree(bf, c));
  }

  lemma LeavesStored<T>(v: View<T>)
    requires ViewOk(v)
    ensures forall leaf :: v.n <= leaf < 2 * v.n ==> leaf in v.file
  {
  }

  /** The merge rebuilds the published root. */
  predicate Publishes(c: Cache) {
    c.leafNum >= 1 && (c.dirty != {} || (c.leafNum == 1 && c.rootFile.None?))
  }

  /** Every message of the merge arrives: the products of all merges and, when the root is rebuilt, of its
      conversion. */
  ghost predicate SyncDelivered(bf: nat, m: nat, c: Trio<Cache>, es: Trio<seq<MergeEnv>>, conv: Trio<ConvEnv>)
    requires Joint(bf, c) && Ready3(m, bf, c, es, conv) && m > 0
  {
    c.p0.leafNum >= 1 ==>
      (MergeableTrio(bf, m, c, es, conv);
       && AllDelivered(bf, Cleaned(c), MergeOrder(c.p0), es)
       && (MergedJoint(bf, m, c, es, conv);
           Publishes(c.p0) ==> RingDelivered(m, bf, Entry(Views(MergedAll(bf, m, c, es, conv)), 1), conv)))
  }

  function SyncCaches(bf: nat, m: nat, c: Trio<Cache>, es: Trio<seq<MergeEnv>>, conv: Trio<ConvEnv>): Trio<Cache>
    requires Joint(bf, c) && Ready3(m, bf, c, es, conv) && m > 0
  {
    Trio(ExecuteMerge(m, 0, bf, c.p0, es.p0, conv.p0), ExecuteMerge(m, 1, bf, c.p1, es.p1, conv.p1),
      ExecuteMerge(m, 2, bf, c.p2, es.p2, conv.p2))
  }

  function Roots(c: Trio<Cache>): Trio<RepVec> {
    Trio(c.p0.root, c.p1.root, c.p2.root)
  }

  /** The three roots are a sharing over Z_m of the filter with ones exactly at `ones`. */
  ghost predicate RootOpens(m: nat, bf: nat, root: Trio<RepVec>, ones: set<nat>)
    requires m > 0
  {
    ConsistentVec(m, bf, root) && forall i :: 0 <= i < bf ==> Values(m, bf, root)[i] == if i in ones then 1 else 0
  }

  lemma ZeroRoot(m: nat, bf: nat)
    requires m > 0
    ensures RootOpens(m, bf, Trio(Zero(bf), Zero(bf), Zero(bf)), {})
  {
  }

  lemma ConvertedRoot(m: nat, bf: nat, x: Trio<RepVec>, conv: Trio<ConvEnv>)
    requires m > 1 && ConsistentVec(2, bf, x) && RingDelivered(m, bf, x, conv)
    ensures RootOpens(m, bf, ConvVecAll(m, bf, x, conv), Ones(bf, x))
  {
    assert EnvSized(m, bf, conv.p0) && EnvSized(m, bf, conv.p1) && EnvSized(m, bf, conv.p2);
    hide RingDelivered, Values, ConsistentVec, OneAt, ConvVecAll, EnvSized;
    ConvVecCorrect(m, bf, x, conv);
    var z := ConvVecAll(m, bf, x, conv);
    forall i: nat | i < bf
      ensures Values(m, bf, z)[i] == if i in Ones(bf, x) then 1 else 0
    {
      OneIsValue(bf, x, i);
      BitValue(bf, x, i);
    }
  }

  lemma BitValue(bf: nat, x: Trio<RepVec>, i: nat)
    requires ConsistentVec(2, bf, x) && i < bf
    ensures Values(2, bf, x)[i] < 2
  {
  }

  /** Nothing dirty, nothing to merge. */
  lemma NothingToMerge(bf: nat, c: Cache, es: seq<MergeEnv>)
    requires Shape(bf, c) && c.leafNum >= 1 && c.dirty == {}
    requires |es| == |MergeOrder(c)| && EnvsOk(bf, es)
    ensures Merged(bf, c, es) == c
  {
    hide Shape, Mergeable;
    NothingScheduled(c.leafNum - 1);
    assert c.(dirty := {}) == c;
    MergeOrderMergeable(bf, c, es);
  }

  /** A merge that rebuilds the root publishes node 1 of the merged tree. */
  lemma SyncPublishes(bf: nat, m: nat, c: Trio<Cache>, es: Trio<seq<MergeEnv>>, conv: Trio<ConvEnv>, d: Trio<Cache>, e: Trio<Cache>)
    requires m > 1 && Joint(bf, c) && Ready3(m, bf, c, es, conv) && Publishes(c.p0)
    requires d == SyncCaches(bf, m, c, es, conv) && e == MergedAll(bf, m, c, es, conv) && Joint(bf, e)
    requires 1 in Views(e).p0.file && 1 in Views(e).p1.file && 1 in Views(e).p2.file
    requires ConsistentVec(2, bf, Entry(Views(e), 1)) && RingDelivered(m, bf, Entry(Views(e), 1), conv)
    ensures Views(d) == Views(e) && RootOpens(m, bf, Roots(d), Ones(bf, Entry(Views(e), 1)))
    ensures AllSaved(d)
    ensures Shape(bf, d.p0) && Shape(bf, d.p1) && Shape(bf, d.p2)
  {
    hide Shape, PlainView, AllConsistent, Coherent, ViewOk, ConsistentVec, RingDelivered, RootOpens, ConvLocal, Joint, ViewOf;
    hide MergedAll, SyncCaches, Ready3;
    MergedShapesAt(bf, m, c, es, conv);
    PublishedAll(bf, m, c, es, conv, d, e);
    PublishedView(m, 0, bf, e.p0, conv.p0);
    PublishedView(m, 1, bf, e.p1, conv.p1);
    PublishedView(m, 2, bf, e.p2, conv.p2);
    ConvertedRoot(m, bf, Entry(Views(e), 1), conv);
    assert Roots(d) == ConvVecAll(m, bf, Entry(Views(e), 1), conv);
  }

  lemma PublishedAll(bf: nat, m: nat, c: Trio<Cache>, es: Trio<seq<MergeEnv>>, conv: Trio<ConvEnv>, d: Trio<Cache>, e: Trio<Cache>)
    requires m > 1 && Joint(bf, c) && Ready3(m, bf, c, es, conv) && Publishes(c.p0)
    requires d == SyncCaches(bf, m, c, es, conv) && e == MergedAll(bf, m, c, es, conv)
    requires 1 in ViewOf(e.p0).file && Sized(bf, ViewOf(e.p0).file[1])
    requires 1 in ViewOf(e.p1).file && Sized(bf, ViewOf(e.p1).file[1])
    requires 1 in ViewOf(e.p2).file && Sized(bf, ViewOf(e.p2).file[1])
    requires c.p0.rootFile.None? == c.p1.rootFile.None? == c.p2.rootFile.None?
    ensures EnvSized(m, bf, conv.p0) && EnvSized(m, bf, conv.p1) && EnvSized(m, bf, conv.p2)
    ensures d == Trio(Publish(m, 0, bf, e.p0, conv.p0), Publish(m, 1, bf, e.p1, conv.p1), Publish(m, 2, bf, e.p2, conv.p2))
  {
    LeafNums(c);
    hide Shape, PlainView, AllConsistent, Coherent, ViewOk, MergeOrder, Merged, ConvLocal, ViewOf, Publish;
  }

  lemma MergedShapesAt(bf: nat, m: nat, c: Trio<Cache>, es: Trio<seq<MergeEnv>>, conv: Trio<ConvEnv>)
    requires Joint(bf, c) && c.p0.leafNum >= 1 && Ready3(m, bf, c, es, conv)
    ensures var e := MergedAll(bf, m, c, es, conv);
      && Shape(bf, c.p0) && Shape(bf, c.p1) && Shape(bf, c.p2)
      && Shape(bf, e.p0) && Shape(bf, e.p1) && Shape(bf, e.p2)
      && 1 in ViewOf(e.p0).file && Sized(bf, ViewOf(e.p0).file[1])
      && 1 in ViewOf(e.p1).file && Sized(bf, ViewOf(e.p1).file[1])
      && 1 in ViewOf(e.p2).file && Sized(bf, ViewOf(e.p2).file[1])
      && c.p0.rootFile.None? == c.p1.rootFile.None? == c.p2.rootFile.None?
  {
    LeafNums(c);
    hide Shape, PlainView, AllConsistent, Coherent, ViewOk, MergeOrder, Merged, ViewOf;
    MergedShape(bf, c.p0, es.p0);
    MergedShape(bf, c.p1, es.p1);
    MergedShape(bf, c.p2, es.p2);
  }

  lemma PublishedView(m: nat, pid: nat, bf: nat, c: Cache, conv: ConvEnv)
    requires m > 0 && 1 in ViewOf(c).file && Sized(bf, ViewOf(c).file[1]) && EnvSized(m, bf, conv) && Shape(bf, c)
    ensures ViewOf(Publish(m, pid, bf, c, conv)) == ViewOf(c) && Shape(bf, Publish(m, pid, bf, c, conv))
  {
  }

  /** A merge with nothing to do leaves all three caches as they are. */
  lemma SyncKeeps(bf: nat, m: nat, c: Trio<Cache>, es: Trio<seq<MergeEnv>>, conv: Trio<ConvEnv>)
    requires m > 1 && Joint(bf, c) && Ready3(m, bf, c, es, conv) && c.p0.leafNum >= 1 && !Publishes(c.p0)
    ensures SyncCaches(bf, m, c, es, conv) == c
  {
    LeafNums(c);
    hide Shape, PlainView, AllConsistent, Coherent, ViewOk, MergeOrder, Merged;
    NothingToMerge(bf, c.p0, es.p0);
    NothingToMerge(bf, c.p1, es.p1);
    NothingToMerge(bf, c.p2, es.p2);
  }

  lemma PlainRoot(bf: nat, v: Trio<View<RepVec>>)
    requires AllAgree(v) && 1 in v.p0.file && 1 in v.p1.file && 1 in v.p2.file
    ensures 1 in PlainView(bf, v).file && PlainView(bf, v).file[1] == Ones(bf, Entry(v, 1))
  {
  }

  /** The root files hold the roots in memory. */
  predicate AllSaved(c: Trio<Cache>) {
    c.p0.rootFile == Some(c.p0.root) && c.p1.rootFile == Some(c.p1.root) && c.p2.rootFile == Some(c.p2.root)
  }

  /** What one SYNC on all three agents achieves: the tree is clean, the leaves are what they were, and a rebuilt root
      opens to what node 1 of the plaintext tree stores; an empty tree publishes the all-zero root. */
  ghost predicate SyncOutcome(bf: nat, m: nat, c: Trio<Cache>, d: Trio<Cache>)
    requires m > 1 && Joint(bf, c)
  {
    && Joint(bf, d) && PlainTree(bf, d).n == PlainTree(bf, c).n && PlainTree(bf, d).dirty == {}
    && (forall leaf :: c.p0.leafNum <= leaf < 2 * c.p0.leafNum ==>
      leaf in PlainTree(bf, d).file && leaf in PlainTree(bf, c).file && PlainTree(bf, d).file[leaf] == PlainTree(bf, c).file[leaf])
    && (c.p0.leafNum == 0 ==> RootOpens(m, bf, Roots(d), {}))
    && (Publishes(c.p0) ==> 1 in PlainTree(bf, d).file && RootOpens(m, bf, Roots(d), PlainTree(bf, d).file[1]) && AllSaved(d))
    && (c.p0.leafNum >= 1 && !Publishes(c.p0) ==> d == c)
  }

  lemma JointSync(bf: nat, m: nat, c: Trio<Cache>, es: Trio<seq<MergeEnv>>, conv: Trio<ConvEnv>)
    requires m > 1 && Joint(bf, c) && Ready3(m, bf, c, es, conv) && SyncDelivered(bf, m, c, es, conv)
    ensures SyncOutcome(bf, m, c, SyncCaches(bf, m, c, es, conv))
  {
    hide Joint, RootOpens, Ready3, SyncDelivered, SyncCaches, SyncOutcome;
    if c.p0.leafNum == 0 {
      EmptySync(bf, m, c, es, conv);
    } else if Publishes(c.p0) {
      PublishingSync(bf, m, c, es, conv);
    } else {
      IdleSync(bf, m, c, es, conv);
    }
  }

  lemma IdleSync(bf: nat, m: nat, c: Trio<Cache>, es: Trio<seq<MergeEnv>>, conv: Trio<ConvEnv>)
    requires m > 1 && Joint(bf, c) && Ready3(m, bf, c, es, conv) && c.p0.leafNum >= 1 && !Publishes(c.p0)
    ensures SyncOutcome(bf, m, c, SyncCaches(bf, m, c, es, conv))
  {
    hide RootOpens, Ready3, SyncDelivered, SyncCaches, Shape, PlainView, AllConsistent, Coherent;
    SyncKeeps(bf, m, c, es, conv);
    LeavesStored(PlainTree(bf, c));
  }

  lemma PublishingSync(bf: nat, m: nat, c: Trio<Cache>, es: Trio<seq<MergeEnv>>, conv: Trio<ConvEnv>)
    requires m > 1 && Joint(bf, c) && Ready3(m, bf, c, es, conv) && Publishes(c.p0) && SyncDelivered(bf, m, c, es, conv)
    ensures SyncOutcome(bf, m, c, SyncCaches(bf, m, c, es, conv))
  {
    hide Joint, RootOpens, Ready3, SyncCaches, PlainView, PlainTree, AllMergeable, AllDelivered, ConsistentVec, Views, MergedAll, RingDelivered, SyncOutcome;
    MergeableTrio(bf, m, c, es, conv);
    MergedJoint(bf, m, c, es, conv);
    var d, e := SyncCaches(bf, m, c, es, conv), MergedAll(bf, m, c, es, conv);
    SyncPublishes(bf, m, c, es, conv, d, e);
    SameViews(bf, d, e);
    PlainRoot(bf, Views(e));
    NewRoot(bf, m, c, d, e);
  }

  lemma NewRoot(bf: nat, m: nat, c: Trio<Cache>, d: Trio<Cache>, e: Trio<Cache>)
    requires m > 1 && Joint(bf, c) && Joint(bf, d) && Joint(bf, e) && PlainTree(bf, d) == PlainTree(bf, e)
    requires PlainTree(bf, e).n == c.p0.leafNum >= 1 && PlainTree(bf, e).dirty == {} && Publishes(c.p0)
    requires forall leaf :: c.p0.leafNum <= leaf < 2 * c.p0.leafNum ==>
      leaf in PlainTree(bf, e).file && leaf in PlainTree(bf, c).file && PlainTree(bf, e).file[leaf] == PlainTree(bf, c).file[leaf]
    requires 1 in PlainTree(bf, e).file && RootOpens(m, bf, Roots(d), PlainTree(bf, e).file[1]) && AllSaved(d)
    ensures SyncOutcome(bf, m, c, d)
  {
    hide RootOpens, Shape, AllConsistent, Coherent, ViewOk, Views;
  }

  /** The joint invariant sees a cache's view, shape and whether a root file exists. */
  lemma SameViews(bf: nat, d: Trio<Cache>, e: Trio<Cache>)
    requires Joint(bf, e) && Views(d) == Views(e) && Shape(bf, d.p0) && Shape(bf, d.p1) && Shape(bf, d.p2)
    requires d.p0.rootFile.Some? && d.p1.rootFile.Some? && d.p2.rootFile.Some?
    ensures AllAgree(Views(e)) && Joint(bf, d) && PlainTree(bf, d) == PlainTree(bf, e) == PlainView(bf, Views(e))
  {
    hide Shape, AllConsistent, Coherent;
  }

  lemma EmptySync(bf: nat, m: nat, c: Trio<Cache>, es: Trio<seq<MergeEnv>>, conv: Trio<ConvEnv>)
    requires m > 1 && Joint(bf, c) && Ready3(m, bf, c, es, conv) && c.p0.leafNum == 0
    ensures SyncOutcome(bf, m, c, SyncCaches(bf, m, c, es, conv))
  {
    LeafNums(c);
    MergeKeepsShape(m, 0, bf, c.p0, es.p0, conv.p0);
    MergeKeepsShape(m, 1, bf, c.p1, es.p1, conv.p1);
    MergeKeepsShape(m, 2, bf, c.p2, es.p2, conv.p2);
    ZeroRoot(m, bf);
    hide Shape, HasDirty, ConsistentVec, RootOpens, Zero;
    var d := SyncCaches(bf, m, c, es, conv);
    EmptyView(bf, c.p0);
    EmptyView(bf, c.p1);
    EmptyView(bf, c.p2);
    EmptyView(bf, d.p0);
    EmptyView(bf, d.p1);
    EmptyView(bf, d.p2);
  }

  lemma EmptyView(bf: nat, c: Cache)
    requires Shape(bf, c) && c.leafNum == 0
    ensures ViewOf(c) == View(0, {}, map[])
  {
  }
}
