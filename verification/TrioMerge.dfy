/** The three agents merge their caches in lockstep: on the plaintext tree every merge is a union. */
module TrioMerge {
  import opened Aby3
  import opened Aby3Vec
  import opened CacheState
  import opened UnionTree
  import opened TreeMerge
  import opened TrioView

  /** What one merge assumes of the channel and of the correlated generator: each agent receives the next agent's
      local product, and the draws cancel. */
  predicate MergeDelivered(bf: nat, x: Trio<RepVec>, y: Trio<RepVec>, e: Trio<MergeEnv>)
    requires Sized(bf, x.p0) && Sized(bf, x.p1) && Sized(bf, x.p2) && Sized(bf, y.p0) && Sized(bf, y.p1) && Sized(bf, y.p2)
  {
    && EnvOk(bf, e.p0) && EnvOk(bf, e.p1) && EnvOk(bf, e.p2)
    && ZeroSumVec(2, bf, Trio(e.p0.draw, e.p1.draw, e.p2.draw))
    && e.p0.recv == HadamardLocal(2, bf, x.p1, y.p1, e.p1.draw)
    && e.p1.recv == HadamardLocal(2, bf, x.p2, y.p2, e.p2.draw)
    && e.p2.recv == HadamardLocal(2, bf, x.p0, y.p0, e.p0.draw)
  }

  lemma OneIsValue(bf: nat, x: Trio<RepVec>, i: nat)
    requires ConsistentVec(2, bf, x)
    ensures i < bf ==> (OneAt(x, i) <==> Values(2, bf, x)[i] == 1)
  {
  }

  /** The merged share vectors open to the union. */
  lemma MergedOnes(bf: nat, x: Trio<RepVec>, y: Trio<RepVec>, e: Trio<MergeEnv>)
    requires ConsistentVec(2, bf, x) && ConsistentVec(2, bf, y) && MergeDelivered(bf, x, y, e)
    ensures var z := Trio(MergeLocal(bf, x.p0, y.p0, e.p0), MergeLocal(bf, x.p1, y.p1, e.p1), MergeLocal(bf, x.p2, y.p2, e.p2));
      ConsistentVec(2, bf, z) && Ones(bf, z) == Ones(bf, x) + Ones(bf, y)
  {
    assert Sized(bf, x.p0) && Sized(bf, x.p1) && Sized(bf, x.p2) && Sized(bf, y.p0) && Sized(bf, y.p1) && Sized(bf, y.p2);
    hide HadamardLocal, AddLocal, SubLocal, OneAt, Values, ConsistentVec;
    var draws := Trio(e.p0.draw, e.p1.draw, e.p2.draw);
    var z := Trio(MergeLocal(bf, x.p0, y.p0, e.p0), MergeLocal(bf, x.p1, y.p1, e.p1), MergeLocal(bf, x.p2, y.p2, e.p2));
    MergeCorrect(bf, x, y, draws);
    assert z == MergeAll(bf, x, y, draws);
    forall i: nat | i < bf
      ensures OneAt(z, i) <==> OneAt(x, i) || OneAt(y, i)
    {
      OneIsValue(bf, x, i);
      OneIsValue(bf, y, i);
      OneIsValue(bf, z, i);
    }
  }

  function Views(c: Trio<Cache>): Trio<View<RepVec>> {
    Trio(ViewOf(c.p0), ViewOf(c.p1), ViewOf(c.p2))
  }

  ghost predicate NodesReady(bf: nat, c: Trio<Cache>, x: nat, e: Trio<MergeEnv>) {
    NodeReady(bf, c.p0, x, e.p0) && NodeReady(bf, c.p1, x, e.p1) && NodeReady(bf, c.p2, x, e.p2)
  }

  function MergeNodeAll(bf: nat, c: Trio<Cache>, x: nat, e: Trio<MergeEnv>): Trio<Cache>
    requires NodesReady(bf, c, x, e)
  {
    Trio(MergeNode(bf, c.p0, x, e.p0), MergeNode(bf, c.p1, x, e.p1), MergeNode(bf, c.p2, x, e.p2))
  }

  ghost predicate NodeDelivered(bf: nat, c: Trio<Cache>, x: nat, e: Trio<MergeEnv>)
    requires NodesReady(bf, c, x, e)
  {
    Stored(bf, c.p0);
    Stored(bf, c.p1);
    Stored(bf, c.p2);
    MergeDelivered(bf, Entry(Views(c), 2 * x), Entry(Views(c), 2 * x + 1), e)
  }

  lemma MergeNodeTrio(bf: nat, c: Trio<Cache>, x: nat, e: Trio<MergeEnv>)
    requires NodesReady(bf, c, x, e) && NodeDelivered(bf, c, x, e)
    requires AllAgree(Views(c)) && AllConsistent(bf, Views(c))
    ensures var d := MergeNodeAll(bf, c, x, e);
      && AllAgree(Views(d)) && AllConsistent(bf, Views(d))
      && 2 * x in PlainView(bf, Views(c)).file && 2 * x + 1 in PlainView(bf, Views(c)).file
      && PlainView(bf, Views(d)).file
        == PlainView(bf, Views(c)).file[x := PlainView(bf, Views(c)).file[2 * x] + PlainView(bf, Views(c)).file[2 * x + 1]]
  {
    hide MergeNode, MergeLocal, ViewOf, ConsistentVec, MergeDelivered, OneAt, Bijective, FilesSized;
    var v, d := Views(c), MergeNodeAll(bf, c, x, e);
    MergedNode(bf, c.p0, x, e.p0);
    MergedNode(bf, c.p1, x, e.p1);
    MergedNode(bf, c.p2, x, e.p2);
    FieldsInView(c.p0, d.p0);
    FieldsInView(c.p1, d.p1);
    FieldsInView(c.p2, d.p2);
    assert 2 * x in v.p0.file.Keys && 2 * x + 1 in v.p0.file.Keys;
    var l, r := Entry(v, 2 * x), Entry(v, 2 * x + 1);
    MergedOnes(bf, l, r, e);
    MergedTrio(bf, v, Views(d), x, Entry(Views(d), x));
  }

  lemma FieldsInView(c: Cache, d: Cache)
    requires d == c.(files := d.files)
    ensures ViewOf(d).n == ViewOf(c).n && ViewOf(d).dirty == ViewOf(c).dirty
  {
  }

  lemma MergedTrio(bf: nat, v: Trio<View<RepVec>>, w: Trio<View<RepVec>>, x: nat, z: Trio<RepVec>)
    requires AllAgree(v) && AllConsistent(bf, v)
    requires w.p0 == v.p0.(file := v.p0.file[x := z.p0])
    requires w.p1 == v.p1.(file := v.p1.file[x := z.p1])
    requires w.p2 == v.p2.(file := v.p2.file[x := z.p2])
    requires ConsistentVec(2, bf, z)
    ensures AllAgree(w) && AllConsistent(bf, w)
    ensures PlainView(bf, w).file == PlainView(bf, v).file[x := Ones(bf, z)]
  {
    hide ConsistentVec, OneAt;
    assert Agree(w.p0, w.p1) && Agree(w.p0, w.p2);
    var p, q := PlainView(bf, w).file, PlainView(bf, v).file[x := Ones(bf, z)];
    forall y | y in w.p0.file.Keys
      ensures ConsistentVec(2, bf, Entry(w, y)) && y in q && p[y] == q[y]
    {
      assert y in w.p1.file.Keys && y in w.p2.file.Keys;
      assert y != x ==> y in v.p0.file.Keys && Entry(w, y) == Entry(v, y);
    }
    assert p == q;
  }

  // ---- the whole merge ----

  ghost predicate AllMergeable(bf: nat, c: Trio<Cache>, s: seq<nat>, es: Trio<seq<MergeEnv>>) {
    Mergeable(bf, c.p0, s, es.p0) && Mergeable(bf, c.p1, s, es.p1) && Mergeable(bf, c.p2, s, es.p2)
  }

  function Heads(es: Trio<seq<MergeEnv>>): Trio<MergeEnv>
    requires es.p0 != [] && es.p1 != [] && es.p2 != []
  {
    Trio(es.p0[0], es.p1[0], es.p2[0])
  }

  function Tails(es: Trio<seq<MergeEnv>>): Trio<seq<MergeEnv>>
    requires es.p0 != [] && es.p1 != [] && es.p2 != []
  {
    Trio(es.p0[1..], es.p1[1..], es.p2[1..])
  }

  lemma AllMergeableStep(bf: nat, c: Trio<Cache>, s: seq<nat>, es: Trio<seq<MergeEnv>>)
    requires s != [] && AllMergeable(bf, c, s, es)
    ensures es.p0 != [] && es.p1 != [] && es.p2 != [] && NodesReady(bf, c, s[0], Heads(es))
    ensures AllMergeable(bf, MergeNodeAll(bf, c, s[0], Heads(es)), s[1..], Tails(es))
  {
    hide NodeReady, MergeNode;
    MergeableStep(bf, c.p0, s, es.p0);
    MergeableStep(bf, c.p1, s, es.p1);
    MergeableStep(bf, c.p2, s, es.p2);
  }

  /** The channel delivers every product of the merge sequence. */
  ghost predicate AllDelivered(bf: nat, c: Trio<Cache>, s: seq<nat>, es: Trio<seq<MergeEnv>>)
    requires AllMergeable(bf, c, s, es)
    decreases |s|
  {
    if s == [] then true
    else
      AllMergeableStep(bf, c, s, es);
      NodeDelivered(bf, c, s[0], Heads(es)) && AllDelivered(bf, MergeNodeAll(bf, c, s[0], Heads(es)), s[1..], Tails(es))
  }

  function MergeNodesAll(bf: nat, c: Trio<Cache>, s: seq<nat>, es: Trio<seq<MergeEnv>>): Trio<Cache>
    requires AllMergeable(bf, c, s, es)
  {
    Trio(MergeNodes(bf, c.p0, s, es.p0), MergeNodes(bf, c.p1, s, es.p1), MergeNodes(bf, c.p2, s, es.p2))
  }

  lemma MergeNodesAllStep(bf: nat, c: Trio<Cache>, s: seq<nat>, es: Trio<seq<MergeEnv>>)
    requires s != [] && AllMergeable(bf, c, s, es)
    ensures es.p0 != [] && es.p1 != [] && es.p2 != [] && NodesReady(bf, c, s[0], Heads(es))
    ensures AllMergeable(bf, MergeNodeAll(bf, c, s[0], Heads(es)), s[1..], Tails(es))
    ensures AllDelivered(bf, c, s, es) ==> NodeDelivered(bf, c, s[0], Heads(es))
    ensures AllDelivered(bf, c, s, es) ==> AllDelivered(bf, MergeNodeAll(bf, c, s[0], Heads(es)), s[1..], Tails(es))
    ensures MergeNodesAll(bf, c, s, es) == MergeNodesAll(bf, MergeNodeAll(bf, c, s[0], Heads(es)), s[1..], Tails(es))
  {
    hide NodeReady, MergeNode, Mergeable;
    AllMergeableStep(bf, c, s, es);
  }

  /** Merging the three replicas is merging the plaintext tree by unions. */
  lemma {:induction false} MergeTrio(bf: nat, c: Trio<Cache>, s: seq<nat>, es: Trio<seq<MergeEnv>>)
    requires AllMergeable(bf, c, s, es) && AllDelivered(bf, c, s, es)
    requires AllAgree(Views(c)) && AllConsistent(bf, Views(c))
    ensures var d := MergeNodesAll(bf, c, s, es);
      && AllAgree(Views(d)) && AllConsistent(bf, Views(d))
      && Ready(PlainView(bf, Views(c)).file, s)
      && PlainView(bf, Views(d)).file == MergeSets(PlainView(bf, Views(c)).file, s)
    decreases |s|
  {
    hide MergeNodesAll, MergeNodeAll, NodesReady, AllMergeable, AllConsistent, PlainView, Views, NodeDelivered, AllDelivered, Ready, MergeSets;
    var file := PlainView(bf, Views(c)).file;
    if s == [] {
      NothingMerged(bf, c, es, file);
    } else {
      MergeNodesAllStep(bf, c, s, es);
      var next := MergeNodeAll(bf, c, s[0], Heads(es));
      MergeNodeTrio(bf, c, s[0], Heads(es));
      MergeTrio(bf, next, s[1..], Tails(es));
      ReadyBefore(file, s, file[2 * s[0]] + file[2 * s[0] + 1]);
      MergeSetsStep(file, s);
    }
  }

  lemma NothingMerged(bf: nat, c: Trio<Cache>, es: Trio<seq<MergeEnv>>, file: map<nat, set<nat>>)
    requires AllMergeable(bf, c, [], es)
    ensures MergeNodesAll(bf, c, [], es) == c && Ready(file, []) && MergeSets(file, []) == file
  {
  }

  lemma MergeSetsStep(file: map<nat, set<nat>>, s: seq<nat>)
    requires s != [] && Ready(file, s)
    ensures 2 * s[0] in file && 2 * s[0] + 1 in file
    ensures var next := file[s[0] := file[2 * s[0]] + file[2 * s[0] + 1]];
      Ready(next, s[1..]) && MergeSets(file, s) == MergeSets(next, s[1..])
  {
    ReadyStep(file, s, {});
    ReadyStep(file, s, file[2 * s[0]] + file[2 * s[0] + 1]);
  }

  lemma ReadyBefore<T>(file: map<nat, T>, s: seq<nat>, val: T)
    requires s != [] && 2 * s[0] in file && 2 * s[0] + 1 in file && Ready(file[s[0] := val], s[1..])
    ensures Ready(file, s)
  {
  }
}
