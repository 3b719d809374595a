/** The merge of one agent's cache: bottom-up over the scheduled nodes, then the conversion of node 1 to the published
    root. */
module TreeMerge {
  import opened Options
  import opened Aby3
  import opened Aby3Vec
  import opened RingConv
  import opened HeapTree
  import opened CacheState
  import opened UnionTree

  predicate EnvOk(bf: nat, e: MergeEnv) {
    |e.draw| == |e.recv| == bf
  }

  predicate EnvsOk(bf: nat, es: seq<MergeEnv>) {
    forall i :: 0 <= i < |es| ==> EnvOk(bf, es[i])
  }

  ghost predicate FilesSized(bf: nat, c: Cache) {
    forall t :: t in c.files ==> t in c.phiF && Sized(bf, c.files[t])
  }

  /** One node: load both children, merge, store under the node's token. */
  ghost predicate NodeReady(bf: nat, c: Cache, x: nat, e: MergeEnv) {
    && Bijective(c) && FilesSized(bf, c) && 1 <= x < c.leafNum && EnvOk(bf, e)
    && 2 * x in ViewOf(c).file && 2 * x + 1 in ViewOf(c).file
  }

  lemma Stored(bf: nat, c: Cache)
    requires FilesSized(bf, c)
    ensures forall x :: x in ViewOf(c).file ==> Sized(bf, ViewOf(c).file[x])
  {
  }

  function MergeNode(bf: nat, c: Cache, x: nat, e: MergeEnv): Cache
    requires NodeReady(bf, c, x, e)
  {
    Stored(bf, c);
    c.(files := c.files[c.phiR[x] := MergeLocal(bf, ViewOf(c).file[2 * x], ViewOf(c).file[2 * x + 1], e)])
  }

  lemma MergedNode(bf: nat, c: Cache, x: nat, e: MergeEnv)
    requires NodeReady(bf, c, x, e)
    ensures Sized(bf, ViewOf(c).file[2 * x]) && Sized(bf, ViewOf(c).file[2 * x + 1])
    ensures var d := MergeNode(bf, c, x, e);
      && d == c.(files := d.files) && Bijective(d) && FilesSized(bf, d)
      && ViewOf(d).file == ViewOf(c).file[x := MergeLocal(bf, ViewOf(c).file[2 * x], ViewOf(c).file[2 * x + 1], e)]
  {
    hide MergeLocal;
    Stored(bf, c);
    LeafNumbered(c);
    var d := MergeNode(bf, c, x, e);
    assert Bijective(d);
    assert ViewOf(d).file == ViewOf(c).file[x := MergeLocal(bf, ViewOf(c).file[2 * x], ViewOf(c).file[2 * x + 1], e)];
  }

  /** The nodes of `s`, in order, can be merged. */
  ghost predicate Mergeable(bf: nat, c: Cache, s: seq<nat>, es: seq<MergeEnv>) {
    && Bijective(c) && FilesSized(bf, c) && |es| == |s|
    && (forall i :: 0 <= i < |s| ==> 1 <= s[i] < c.leafNum && EnvOk(bf, es[i]))
    && Ready(ViewOf(c).file, s)
  }

  lemma MergeableStep(bf: nat, c: Cache, s: seq<nat>, es: seq<MergeEnv>)
    requires s != [] && Mergeable(bf, c, s, es)
    ensures NodeReady(bf, c, s[0], es[0]) && Mergeable(bf, MergeNode(bf, c, s[0], es[0]), s[1..], es[1..])
  {
    hide Ready, MergeNode, ViewOf, FilesSized, Bijective;
    var file := ViewOf(c).file;
    ReadyStep(file, s, RepVec([], []));
    MergedNode(bf, c, s[0], es[0]);
    ReadyStep(file, s, MergeLocal(bf, file[2 * s[0]], file[2 * s[0] + 1], es[0]));
  }

  function MergeNodes(bf: nat, c: Cache, s: seq<nat>, es: seq<MergeEnv>): Cache
    requires Mergeable(bf, c, s, es)
    decreases |s|
  {
    if s == [] then c
    else
      MergeableStep(bf, c, s, es);
      MergeNodes(bf, MergeNode(bf, c, s[0], es[0]), s[1..], es[1..])
  }

  /** Only files of merged nodes change. */
  lemma {:induction false} MergedNodesShape(bf: nat, c: Cache, s: seq<nat>, es: seq<MergeEnv>)
    requires Mergeable(bf, c, s, es)
    ensures var d := MergeNodes(bf, c, s, es);
      && d == c.(files := d.files) && Bijective(d) && FilesSized(bf, d)
      && (forall x :: x in ViewOf(d).file <==> x in ViewOf(c).file || x in s)
      && (forall x :: x in ViewOf(c).file && x !in s ==> ViewOf(d).file[x] == ViewOf(c).file[x])
    decreases |s|
  {
    hide Ready, MergeNode, ViewOf, FilesSized, Bijective;
    if s != [] {
      MergeableStep(bf, c, s, es);
      MergedNode(bf, c, s[0], es[0]);
      MergedNodesShape(bf, MergeNode(bf, c, s[0], es[0]), s[1..], es[1..]);
      assert forall y :: y in s <==> y == s[0] || y in s[1..];
    }
  }

  // ---- execute_merge ----

  function Zero(bf: nat): (z: RepVec)
    ensures Sized(bf, z)
  {
    RepVec(seq(bf, i => 0), seq(bf, i => 0))
  }

  /** The nodes a merge recomputes. */
  function MergeOrder(c: Cache): seq<nat> {
    if c.leafNum == 0 then [] else Schedule(c.dirty, c.leafNum - 1)
  }

  /** Node 1, converted, becomes the root in memory and on disk. */
  function Publish(m: nat, pid: nat, bf: nat, c: Cache, conv: ConvEnv): Cache
    requires m > 0 && 1 in ViewOf(c).file && Sized(bf, ViewOf(c).file[1]) && EnvSized(m, bf, conv)
  {
    var z := ConvLocal(m, pid, bf, ViewOf(c).file[1], conv);
    c.(root := z, rootFile := Some(z))
  }

  lemma MergeOrderMergeable(bf: nat, c: Cache, es: seq<MergeEnv>)
    requires Shape(bf, c) && c.leafNum >= 1
    requires |es| == |MergeOrder(c)| && EnvsOk(bf, es)
    ensures Mergeable(bf, c.(dirty := {}), MergeOrder(c), es)
  {
    hide HasDirty, Ready, ViewOk, ViewOf, Inverse, Schedule;
    SameView(c);
    ScheduleReady(ViewOf(c));
    assert forall i :: 0 <= i < |MergeOrder(c)| ==> MergeOrder(c)[i] in MergeOrder(c);
  }

  lemma SameView(c: Cache)
    ensures ViewOf(c).n == c.leafNum && ViewOf(c).dirty == c.dirty
    ensures ViewOf(c.(dirty := {})).file == ViewOf(c).file
  {
  }

  /** What the merge leaves in the files. */
  function Merged(bf: nat, c: Cache, es: seq<MergeEnv>): Cache
    requires Shape(bf, c) && c.leafNum >= 1
    requires |es| == |MergeOrder(c)| && EnvsOk(bf, es)
  {
    MergeOrderMergeable(bf, c, es);
    MergeNodes(bf, c.(dirty := {}), MergeOrder(c), es)
  }

  lemma MergedShape(bf: nat, c: Cache, es: seq<MergeEnv>)
    requires Shape(bf, c) && c.leafNum >= 1
    requires |es| == |MergeOrder(c)| && EnvsOk(bf, es)
    ensures var d := Merged(bf, c, es);
      && Shape(bf, d) && d == c.(dirty := {}, files := d.files)
      && 1 in ViewOf(d).file && Sized(bf, ViewOf(d).file[1])
      && (forall x :: 1 <= x < 2 * c.leafNum <==> x in ViewOf(d).file)
      && (forall x :: c.leafNum <= x < 2 * c.leafNum ==> x in ViewOf(c).file && ViewOf(d).file[x] == ViewOf(c).file[x])
  {
    hide Below, HasDirty, Mergeable, MergeNodes, Schedule, Bijective;
    var s := MergeOrder(c);
    MergeOrderMergeable(bf, c, es);
    MergedNodesShape(bf, c.(dirty := {}), s, es);
    var d := Merged(bf, c, es);
    assert ViewOf(c.(dirty := {})).file == ViewOf(c).file;
    assert forall x :: 1 <= x < 2 * c.leafNum ==> x in ViewOf(d).file;
    ViewInTree(d);
    Stored(bf, d);
  }

  lemma ViewInTree(c: Cache)
    requires Bijective(c)
    ensures forall x :: x in ViewOf(c).file ==> 1 <= x < 2 * c.leafNum
  {
  }

  function ExecuteMerge(m: nat, pid: nat, bf: nat, c: Cache, es: seq<MergeEnv>, conv: ConvEnv): Cache
    requires Shape(bf, c) && m > 0 && EnvSized(m, bf, conv)
    requires |es| == |MergeOrder(c)| && EnvsOk(bf, es)
  {
    if c.leafNum == 0 then c.(root := Zero(bf), rootFile := None, dirty := {})
    else
      MergedShape(bf, c, es);
      var d := Merged(bf, c, es);
      if c.dirty != {} || (c.leafNum == 1 && c.rootFile.None?) then Publish(m, pid, bf, d, conv) else d
  }

  /** A merge keeps the shape, clears the dirt and moves no token. */
  lemma MergeKeepsShape(m: nat, pid: nat, bf: nat, c: Cache, es: seq<MergeEnv>, conv: ConvEnv)
    requires Shape(bf, c) && m > 0 && EnvSized(m, bf, conv)
    requires |es| == |MergeOrder(c)| && EnvsOk(bf, es)
    ensures var d := ExecuteMerge(m, pid, bf, c, es, conv);
      Shape(bf, d) && d.dirty == {} && d.leafNum == c.leafNum && d.phiF == c.phiF && d.phiR == c.phiR
  {
    hide Bijective, Merged, Below, HasDirty;
    if c.leafNum == 0 {
      var d := ExecuteMerge(m, pid, bf, c, es, conv);
      assert Bijective(d) by { EmptyTree(c, d); }
      assert ViewOf(d).file == ViewOf(c).file;
    } else {
      MergedShape(bf, c, es);
      var d := Merged(bf, c, es);
      PublishShape(m, pid, bf, d, conv);
    }
  }

  lemma EmptyTree(c: Cache, d: Cache)
    requires Bijective(c) && d.phiF == c.phiF && d.phiR == c.phiR && d.leafNum == c.leafNum
    ensures Bijective(d)
  {
  }

  lemma PublishShape(m: nat, pid: nat, bf: nat, c: Cache, conv: ConvEnv)
    requires m > 0 && Shape(bf, c) && 1 in ViewOf(c).file && Sized(bf, ViewOf(c).file[1]) && EnvSized(m, bf, conv)
    ensures Shape(bf, Publish(m, pid, bf, c, conv))
  {
  }
}
