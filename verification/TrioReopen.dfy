/** The three agents restarted on what their caches left on disk.  The root files are there on all three or on none: the
    constructor rebuilds a missing root by a conversion that needs all three. */
module TrioReopen {
  import opened Options
  import opened Aby3
  import opened Aby3Vec
  import opened RingConv
  import opened HeapTree
  import opened CacheState
  import opened CacheReload
  import opened UnionTree
  import opened TrioView
  import opened TrioMerge
  import opened TrioTree

  /** What is left of the root files. */
  function Left(c: Cache, lost: bool): Option<RepVec> {
    if lost then None else c.rootFile
  }

  ghost predicate ReopenReady(bf: nat, m: nat, c: Trio<Cache>, blank: Trio<RepVec>, conv: Trio<ConvEnv>) {
    && m > 0 && Shape(bf, c.p0) && Shape(bf, c.p1) && Shape(bf, c.p2)
    && Sized(bf, blank.p0) && Sized(bf, blank.p1) && Sized(bf, blank.p2)
    && EnvSized(m, bf, conv.p0) && EnvSized(m, bf, conv.p1) && EnvSized(m, bf, conv.p2)
  }

  function ReopenCaches(bf: nat, m: nat, c: Trio<Cache>, lost: bool, blank: Trio<RepVec>, conv: Trio<ConvEnv>): Trio<Cache>
    requires ReopenReady(bf, m, c, blank, conv)
  {
    Trio(Reopen(m, 0, bf, c.p0, Left(c.p0, lost), blank.p0, conv.p0), Reopen(m, 1, bf, c.p1, Left(c.p1, lost), blank.p1, conv.p1),
      Reopen(m, 2, bf, c.p2, Left(c.p2, lost), blank.p2, conv.p2))
  }

  /** The messages of the conversion arrive, if there is one. */
  ghost predicate ReopenDelivered(bf: nat, m: nat, c: Trio<Cache>, lost: bool, conv: Trio<ConvEnv>)
    requires m > 0 && AllAgree(Views(c)) && AllConsistent(bf, Views(c))
  {
    Rebuilds(c.p0, Left(c.p0, lost)) ==> 1 in Views(c).p0.file.Keys && RingDelivered(m, bf, Entry(Views(c), 1), conv)
  }

  /** More dirty leaves leave less to be coherent. */
  lemma MoreDirtCoherent(v: Plain, dirty: set<nat>)
    requires ViewOk(v) && Coherent(v) && v.dirty <= dirty && forall d :: d in dirty ==> v.n <= d < 2 * v.n
    ensures ViewOk(v.(dirty := dirty)) && Coherent(v.(dirty := dirty))
  {
    hide Below, StoresUnion;
    forall x | 1 <= x < v.n && !HasDirty(dirty, x)
      ensures !HasDirty(v.dirty, x)
    {
      CleanNodes(v.dirty, dirty, x);
    }
  }

  lemma SameFiles(c: Cache, d: Cache)
    requires d == c.(root := d.root, rootFile := d.rootFile, dirty := d.dirty)
    ensures ViewOf(d) == ViewOf(c).(dirty := d.dirty)
  {
  }

  lemma SamePlain(bf: nat, v: Trio<View<RepVec>>, w: Trio<View<RepVec>>, dirty: set<nat>)
    requires AllAgree(v) && AllConsistent(bf, v)
    requires w == Trio(v.p0.(dirty := dirty), v.p1.(dirty := dirty), v.p2.(dirty := dirty))
    ensures AllAgree(w) && AllConsistent(bf, w) && PlainView(bf, w) == PlainView(bf, v).(dirty := dirty)
  {
    hide ConsistentVec, Ones;
    forall x | x in v.p0.file.Keys && x in v.p1.file.Keys && x in v.p2.file.Keys
      ensures Entry(w, x) == Entry(v, x)
    {
    }
  }

  /** The replicas agree on whether the root is rebuilt, and on the dirt that follows. */
  lemma ReopenAgrees(bf: nat, m: nat, c: Trio<Cache>, lost: bool, blank: Trio<RepVec>, conv: Trio<ConvEnv>)
    requires Joint(bf, c) && ReopenReady(bf, m, c, blank, conv)
    ensures var d := ReopenCaches(bf, m, c, lost, blank, conv);
      && Shape(bf, d.p0) && Shape(bf, d.p1) && Shape(bf, d.p2)
      && d.p0.dirty == d.p1.dirty == d.p2.dirty && c.p0.dirty <= d.p0.dirty
      && (forall x :: x in d.p0.dirty ==> c.p0.leafNum <= x < 2 * c.p0.leafNum)
      && d.p0.rootFile.None? == d.p1.rootFile.None? == d.p2.rootFile.None?
      && Views(d).p0 == Views(c).p0.(dirty := d.p0.dirty) && Views(d).p1 == Views(c).p1.(dirty := d.p0.dirty)
      && Views(d).p2 == Views(c).p2.(dirty := d.p0.dirty)
  {
    hide Shape, PlainView, AllConsistent, Coherent, ViewOk, Reopen, ConvLocal, LeafIds, EnvSized;
    LeafNums(c);
    var d := ReopenCaches(bf, m, c, lost, blank, conv);
    ReopenIs(m, 0, bf, c.p0, Left(c.p0, lost), blank.p0, conv.p0);
    ReopenIs(m, 1, bf, c.p1, Left(c.p1, lost), blank.p1, conv.p1);
    ReopenIs(m, 2, bf, c.p2, Left(c.p2, lost), blank.p2, conv.p2);
    assert 1 in ViewOf(c.p0).file <==> 1 in ViewOf(c.p0).file.Keys;
    assert 1 in ViewOf(c.p1).file <==> 1 in ViewOf(c.p0).file.Keys;
    assert 1 in ViewOf(c.p2).file <==> 1 in ViewOf(c.p0).file.Keys;
    SameFiles(c.p0, d.p0);
    SameFiles(c.p1, d.p1);
    SameFiles(c.p2, d.p2);
    DirtyIds(bf, d.p0);
  }

  lemma DirtyIds(bf: nat, c: Cache)
    requires Shape(bf, c)
    ensures forall x :: x in c.dirty ==> c.leafNum <= x < 2 * c.leafNum
  {
    hide HasDirty;
    assert ViewOf(c).dirty == c.dirty;
  }

  /** Reopening keeps the joint invariant and every stored node; at most the leaves get dirty. */
  lemma JointReopen(bf: nat, m: nat, c: Trio<Cache>, lost: bool, blank: Trio<RepVec>, conv: Trio<ConvEnv>)
    requires Joint(bf, c) && ReopenReady(bf, m, c, blank, conv)
    ensures var d := ReopenCaches(bf, m, c, lost, blank, conv);
      && Joint(bf, d) && PlainTree(bf, d) == PlainTree(bf, c).(dirty := d.p0.dirty) && c.p0.dirty <= d.p0.dirty
      && d.p0.leafNum == c.p0.leafNum
  {
    hide Shape, PlainView, AllConsistent, Coherent, ViewOk, ReopenCaches, ReopenReady;
    ReopenAgrees(bf, m, c, lost, blank, conv);
    var d := ReopenCaches(bf, m, c, lost, blank, conv);
    SamePlain(bf, Views(c), Views(d), d.p0.dirty);
    MoreDirtCoherent(PlainView(bf, Views(c)), d.p0.dirty);
    SameCount(d.p0, c.p0);
  }

  lemma SameCount(c: Cache, d: Cache)
    requires ViewOf(c).n == ViewOf(d).n
    ensures c.leafNum == d.leafNum
  {
  }

  /** A rebuilt root opens to what node 1 of the plaintext tree stores. */
  lemma RebuiltRoot(bf: nat, m: nat, c: Trio<Cache>, lost: bool, blank: Trio<RepVec>, conv: Trio<ConvEnv>)
    requires m > 1 && Joint(bf, c) && ReopenReady(bf, m, c, blank, conv) && ReopenDelivered(bf, m, c, lost, conv)
    requires Rebuilds(c.p0, Left(c.p0, lost))
    ensures 1 in PlainTree(bf, c).file
    ensures RootOpens(m, bf, Roots(ReopenCaches(bf, m, c, lost, blank, conv)), PlainTree(bf, c).file[1])
  {
    hide Shape, Coherent, ViewOk, Reopen, ConvLocal, LeafIds, RootOpens, RingDelivered, ConsistentVec, Ones;
    LeafNums(c);
    ReopenIs(m, 0, bf, c.p0, Left(c.p0, lost), blank.p0, conv.p0);
    ReopenIs(m, 1, bf, c.p1, Left(c.p1, lost), blank.p1, conv.p1);
    ReopenIs(m, 2, bf, c.p2, Left(c.p2, lost), blank.p2, conv.p2);
    assert 1 in ViewOf(c.p1).file && 1 in ViewOf(c.p2).file by {
      assert 1 in ViewOf(c.p0).file.Keys;
    }
    var x := Entry(Views(c), 1);
    ConvertedRoot(m, bf, x, conv);
    PlainRoot(bf, Views(c));
    assert Roots(ReopenCaches(bf, m, c, lost, blank, conv)) == ConvVecAll(m, bf, x, conv) by {
      assert EnvSized(m, bf, conv.p0) && EnvSized(m, bf, conv.p1) && EnvSized(m, bf, conv.p2);
    }
  }

  /** With root files and leaves, an unchanged in-memory root comes back. */
  lemma SavedRoots(bf: nat, m: nat, c: Trio<Cache>, blank: Trio<RepVec>, conv: Trio<ConvEnv>)
    requires Joint(bf, c) && ReopenReady(bf, m, c, blank, conv) && c.p0.leafNum > 0 && c.p0.rootFile.Some?
    requires c.p0.rootFile == Some(c.p0.root) && c.p1.rootFile == Some(c.p1.root) && c.p2.rootFile == Some(c.p2.root)
    ensures ReopenCaches(bf, m, c, false, blank, conv) == c
  {
    LeafNums(c);
    hide Shape, PlainView, AllConsistent, Coherent, ViewOk, Reopen, ConvLocal, LeafIds, EnvSized;
    ReopenIs(m, 0, bf, c.p0, c.p0.rootFile, blank.p0, conv.p0);
    ReopenIs(m, 1, bf, c.p1, c.p1.rootFile, blank.p1, conv.p1);
    ReopenIs(m, 2, bf, c.p2, c.p2.rootFile, blank.p2, conv.p2);
  }
}
