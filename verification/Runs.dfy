/** Every run of joins, updates, quits, SYNCs and restarts of the three agents. */
module Runs {
  import opened Options
  import opened Aby3
  import opened Aby3Vec
  import opened RingConv
  import opened CacheState
  import opened CacheReload
  import opened UnionTree
  import opened TreeMerge
  import opened TrioView
  import opened TrioMerge
  import opened TrioTree
  import opened TrioReopen
  import opened Federation

  datatype Step =
    | Join(h: Holder, bits: seq<nat>, draws: Trio<seq<nat>>, token: Trio<Token>, inner: Trio<Token>)
    | Refresh(h: Holder, bits: seq<nat>, draws: Trio<seq<nat>>)
    | Quit(h: Holder)
    | Sync(es: Trio<seq<MergeEnv>>, conv: Trio<ConvEnv>)
    | Restart(lost: bool, blank: Trio<RepVec>, conv: Trio<ConvEnv>)

  function Caches(s: Sys): Trio<Cache> {
    Trio(s.r.p0.cache, s.r.p1.cache, s.r.p2.cache)
  }

  /** The replicas place every holder at the same node. */
  ghost predicate SamePlaces(r: Trio<Replica>) {
    && ReplicaOk(r.p0) && ReplicaOk(r.p1) && ReplicaOk(r.p2)
    && Places(r.p0) == Places(r.p1) == Places(r.p2)
  }

  ghost predicate RootOk(bf: nat, m: nat, s: Sys)
    requires m > 0
  {
    && (s.published.Some? ==> RootOpens(m, bf, Roots(Caches(s)), s.published.value))
    && (s.r.p0.cache.dirty == {} && s.r.p0.cache.leafNum > 0 ==> s.published == Some(Union(s.live)) && AllSaved(Caches(s)))
  }

  ghost predicate Inv(bf: nat, m: nat, s: Sys)
    requires m > 0
  {
    && Joint(bf, Caches(s)) && SamePlaces(s.r)
    && LiveLeaves(PlainTree(bf, Caches(s)), Places(s.r.p0), s.live)
    && RootOk(bf, m, s)
  }

  /** Three empty caches; their in-memory roots hold whatever the allocator left. */
  ghost predicate Initial(bf: nat, s: Sys) {
    && Empty(bf, s.r.p0) && Empty(bf, s.r.p1) && Empty(bf, s.r.p2)
    && s.live == map[] && s.published == None
  }

  ghost predicate Empty(bf: nat, r: Replica) {
    r.tokens == map[] && Sized(bf, r.cache.root) && r.cache == EmptyCache(r.cache.root)
  }

  predicate Dealt(bf: nat, bits: seq<nat>, draws: Trio<seq<nat>>) {
    |bits| == bf && ZeroSumVec(2, bf, draws) && forall i :: 0 <= i < bf ==> bits[i] < 2
  }

  function BitsOf(bits: seq<nat>): (s: set<nat>)
    ensures forall i :: i in s <==> 0 <= i < |bits| && bits[i] == 1
  {
    set i: nat | i < |bits| && bits[i] == 1
  }

  /** A new holder, whose filter is dealt, and tokens that are new to the caches. */
  ghost predicate CanJoin(bf: nat, s: Sys, h: Holder, bits: seq<nat>, draws: Trio<seq<nat>>, token: Trio<Token>,
                          inner: Trio<Token>) {
    && h !in s.live && Dealt(bf, bits, draws)
    && Fresh(s.r.p0.cache, token.p0, inner.p0) && Fresh(s.r.p1.cache, token.p1, inner.p1)
    && Fresh(s.r.p2.cache, token.p2, inner.p2)
  }

  ghost predicate CanRefresh(bf: nat, s: Sys, h: Holder, bits: seq<nat>, draws: Trio<seq<nat>>) {
    h in s.live && Dealt(bf, bits, draws)
  }

  /** The messages of the merges and of the conversion arrive. */
  ghost predicate CanSync(bf: nat, m: nat, s: Sys, es: Trio<seq<MergeEnv>>, conv: Trio<ConvEnv>)
    requires m > 1 && Inv(bf, m, s)
  {
    Ready3(m, bf, Caches(s), es, conv) && SyncDelivered(bf, m, Caches(s), es, conv)
  }

  ghost predicate CanRestart(bf: nat, m: nat, s: Sys, lost: bool, blank: Trio<RepVec>, conv: Trio<ConvEnv>)
    requires m > 1 && Inv(bf, m, s)
  {
    ReopenReady(bf, m, Caches(s), blank, conv) && ReopenDelivered(bf, m, Caches(s), lost, conv)
  }

  ghost predicate Enabled(bf: nat, m: nat, s: Sys, step: Step)
    requires m > 1 && Inv(bf, m, s)
  {
    match step
    case Join(h, bits, draws, token, inner) => CanJoin(bf, s, h, bits, draws, token, inner)
    case Refresh(h, bits, draws) => CanRefresh(bf, s, h, bits, draws)
    case Quit(h) => h in s.live
    case Sync(es, conv) => CanSync(bf, m, s, es, conv)
    case Restart(lost, blank, conv) => CanRestart(bf, m, s, lost, blank, conv)
  }

  lemma HolderTokens(bf: nat, m: nat, s: Sys, h: Holder)
    requires m > 0 && Inv(bf, m, s) && h in s.live
    ensures h in s.r.p0.tokens && h in s.r.p1.tokens && h in s.r.p2.tokens && h in Places(s.r.p0)
    ensures SameLeaf(Caches(s), Trio(s.r.p0.tokens[h], s.r.p1.tokens[h], s.r.p2.tokens[h]))
    ensures Places(s.r.p0)[h] == s.r.p0.cache.phiF[s.r.p0.tokens[h]]
  {
  }

  function ApplyJoin(bf: nat, s: Sys, h: Holder, bits: seq<nat>, node: Trio<RepVec>, token: Trio<Token>, inner: Trio<Token>): Sys
    requires Bijective(s.r.p0.cache) && Bijective(s.r.p1.cache) && Bijective(s.r.p2.cache)
  {
    Sys(Trio(JoinReplica(s.r.p0, h, token.p0, inner.p0, node.p0), JoinReplica(s.r.p1, h, token.p1, inner.p1, node.p1),
      JoinReplica(s.r.p2, h, token.p2, inner.p2, node.p2)), s.live[h := BitsOf(bits)], s.published)
  }

  ghost predicate HasLeaf(r: Replica, h: Holder) {
    h in r.tokens && IsLeaf(r.cache, r.tokens[h])
  }

  function ApplyUpdate(s: Sys, h: Holder, bits: seq<nat>, node: Trio<RepVec>): Sys
    requires HasLeaf(s.r.p0, h) && HasLeaf(s.r.p1, h) && HasLeaf(s.r.p2, h)
  {
    Sys(Trio(UpdateReplica(s.r.p0, h, node.p0), UpdateReplica(s.r.p1, h, node.p1), UpdateReplica(s.r.p2, h, node.p2)),
      s.live[h := BitsOf(bits)], s.published)
  }

  function ApplyQuit(s: Sys, h: Holder): Sys
    requires HasLeaf(s.r.p0, h) && HasLeaf(s.r.p1, h) && HasLeaf(s.r.p2, h)
    requires Bijective(s.r.p0.cache) && Bijective(s.r.p1.cache) && Bijective(s.r.p2.cache)
  {
    Sys(Trio(QuitReplica(s.r.p0, h), QuitReplica(s.r.p1, h), QuitReplica(s.r.p2, h)), s.live - {h}, s.published)
  }

  function ApplySync(bf: nat, m: nat, s: Sys, es: Trio<seq<MergeEnv>>, conv: Trio<ConvEnv>): Sys
    requires m > 0 && Joint(bf, Caches(s)) && Ready3(m, bf, Caches(s), es, conv)
  {
    var d := SyncCaches(bf, m, Caches(s), es, conv);
    Sys(Trio(s.r.p0.(cache := d.p0), s.r.p1.(cache := d.p1), s.r.p2.(cache := d.p2)), s.live, Some(Union(s.live)))
  }

  /** After a restart the tree is what it was.  The roots in memory are those of the last SYNC, or newly converted from
      node 1, or unknown. */
  function ApplyRestart(bf: nat, m: nat, s: Sys, lost: bool, blank: Trio<RepVec>, conv: Trio<ConvEnv>): Sys
    requires Joint(bf, Caches(s)) && ReopenReady(bf, m, Caches(s), blank, conv)
  {
    var d := ReopenCaches(bf, m, Caches(s), lost, blank, conv);
    var file := PlainTree(bf, Caches(s)).file;
    Sys(Trio(s.r.p0.(cache := d.p0), s.r.p1.(cache := d.p1), s.r.p2.(cache := d.p2)), s.live,
      if Rebuilds(s.r.p0.cache, Left(s.r.p0.cache, lost)) && 1 in file then Some(file[1])
      else if Roots(d) == Roots(Caches(s)) then s.published
      else None)
  }

  function TakeJoin(bf: nat, m: nat, s: Sys, h: Holder, bits: seq<nat>, draws: Trio<seq<nat>>, token: Trio<Token>,
                    inner: Trio<Token>): Sys
    requires m > 1 && Inv(bf, m, s) && CanJoin(bf, s, h, bits, draws, token, inner)
  {
    JointOf(bf, m, s);
    SameSizes(bf, Caches(s));
    ApplyJoin(bf, s, h, bits, DealVec(2, bf, bits, draws), token, inner)
  }

  function TakeRefresh(bf: nat, m: nat, s: Sys, h: Holder, bits: seq<nat>, draws: Trio<seq<nat>>): Sys
    requires m > 1 && Inv(bf, m, s) && CanRefresh(bf, s, h, bits, draws)
  {
    HolderTokens(bf, m, s, h);
    ApplyUpdate(s, h, bits, DealVec(2, bf, bits, draws))
  }

  function TakeQuit(bf: nat, m: nat, s: Sys, h: Holder): Sys
    requires m > 1 && Inv(bf, m, s) && h in s.live
  {
    JointOf(bf, m, s);
    SameSizes(bf, Caches(s));
    HolderTokens(bf, m, s, h);
    ApplyQuit(s, h)
  }

  function TakeSync(bf: nat, m: nat, s: Sys, es: Trio<seq<MergeEnv>>, conv: Trio<ConvEnv>): Sys
    requires m > 1 && Inv(bf, m, s) && CanSync(bf, m, s, es, conv)
  {
    JointOf(bf, m, s);
    ApplySync(bf, m, s, es, conv)
  }

  function TakeRestart(bf: nat, m: nat, s: Sys, lost: bool, blank: Trio<RepVec>, conv: Trio<ConvEnv>): Sys
    requires m > 1 && Inv(bf, m, s) && CanRestart(bf, m, s, lost, blank, conv)
  {
    JointOf(bf, m, s);
    ApplyRestart(bf, m, s, lost, blank, conv)
  }

  /** A step that is not enabled is not taken. */
  ghost function Apply(bf: nat, m: nat, s: Sys, step: Step): Sys
    requires m > 1 && Inv(bf, m, s)
  {
    match step
    case Join(h, bits, draws, token, inner) =>
      if CanJoin(bf, s, h, bits, draws, token, inner) then TakeJoin(bf, m, s, h, bits, draws, token, inner) else s
    case Refresh(h, bits, draws) => if CanRefresh(bf, s, h, bits, draws) then TakeRefresh(bf, m, s, h, bits, draws) else s
    case Quit(h) => if h in s.live then TakeQuit(bf, m, s, h) else s
    case Sync(es, conv) => if CanSync(bf, m, s, es, conv) then TakeSync(bf, m, s, es, conv) else s
    case Restart(lost, blank, conv) =>
      if CanRestart(bf, m, s, lost, blank, conv) then TakeRestart(bf, m, s, lost, blank, conv) else s
  }

  lemma DealtOnes(bf: nat, bits: seq<nat>, draws: Trio<seq<nat>>)
    requires Dealt(bf, bits, draws)
    ensures ConsistentVec(2, bf, DealVec(2, bf, bits, draws)) && Ones(bf, DealVec(2, bf, bits, draws)) == BitsOf(bits)
  {
    hide OneAt, Values, ConsistentVec, DealVec, ZeroSumVec;
    var z := DealVec(2, bf, bits, draws);
    DealCorrect(2, bf, bits, draws);
    forall i: nat | i < bf
      ensures OneAt(z, i) <==> bits[i] == 1
    {
      OneIsValue(bf, z, i);
    }
  }

  lemma InitialInv(bf: nat, m: nat, s: Sys)
    requires m > 0 && Initial(bf, s)
    ensures Inv(bf, m, s)
  {
    hide HeapTree.HasDirty;
    assert Shape(bf, s.r.p0.cache) && Shape(bf, s.r.p1.cache) && Shape(bf, s.r.p2.cache);
    assert ViewOf(s.r.p0.cache) == ViewOf(s.r.p1.cache) == ViewOf(s.r.p2.cache) == View(0, {}, map[]);
    assert Places(s.r.p0) == Places(s.r.p1) == Places(s.r.p2) == map[];
  }

  lemma NotHolder(bf: nat, m: nat, s: Sys, h: Holder)
    requires m > 0 && Inv(bf, m, s) && h !in s.live
    ensures h !in s.r.p0.tokens && h !in s.r.p1.tokens && h !in s.r.p2.tokens
  {
    hide Joint, RootOk, Placed;
    PlacesOf(s.r.p0);
    PlacesOf(s.r.p1);
    PlacesOf(s.r.p2);
    assert h !in Places(s.r.p0).Keys;
  }

  lemma SameSizes(bf: nat, c: Trio<Cache>)
    requires Joint(bf, c)
    ensures Bijective(c.p0) && Bijective(c.p1) && Bijective(c.p2)
    ensures c.p0.leafNum == c.p1.leafNum == c.p2.leafNum
  {
  }

  lemma JoinedPlaces(bf: nat, m: nat, s: Sys, step: Step)
    requires m > 1 && Inv(bf, m, s) && Enabled(bf, m, s, step) && step.Join?
    ensures var t := Apply(bf, m, s, step);
      SamePlaces(t.r) && Places(t.r.p0) == PlaceInsert(s.r.p0.cache.leafNum, Places(s.r.p0), step.h)
  {
    var t := Apply(bf, m, s, step);
    NotHolder(bf, m, s, step.h);
    SameSizes(bf, Caches(s));
    hide LiveLeaves, RootOk, Bijective, Joint, PlaceInsert, ReplicaOk, Places, JoinReplica, Dealt, DealVec;
    var node := DealVec(2, bf, step.bits, step.draws);
    JoinPlaces(s.r.p0, step.h, step.token.p0, step.inner.p0, node.p0);
    JoinPlaces(s.r.p1, step.h, step.token.p1, step.inner.p1, node.p1);
    JoinPlaces(s.r.p2, step.h, step.token.p2, step.inner.p2, node.p2);
  }

  lemma JoinedCaches(bf: nat, m: nat, s: Sys, step: Step)
    requires m > 1 && Inv(bf, m, s) && Enabled(bf, m, s, step) && step.Join?
    ensures Bijective(s.r.p0.cache) && Bijective(s.r.p1.cache) && Bijective(s.r.p2.cache)
    ensures Caches(Apply(bf, m, s, step))
      == InsertCaches(Caches(s), step.token, step.inner, DealVec(2, bf, step.bits, step.draws))
    ensures Roots(Caches(Apply(bf, m, s, step))) == Roots(Caches(s))
    ensures Apply(bf, m, s, step).r.p0.cache.dirty != {}
  {
    SameSizes(bf, Caches(s));
    hide LiveLeaves, RootOk, Bijective, Joint, SamePlaces, DealVec, Dealt;
  }

  lemma JoinInv(bf: nat, m: nat, s: Sys, step: Step)
    requires m > 1 && Inv(bf, m, s) && Enabled(bf, m, s, step) && step.Join?
    ensures Inv(bf, m, Apply(bf, m, s, step))
  {
    var t := Apply(bf, m, s, step);
    assert t.live == s.live[step.h := BitsOf(step.bits)] && t.published == s.published;
    hide LiveLeaves, RootOpens, Bijective, Joint, PlainTree, PlaceInsert, ReplicaOk, ViewInsert, ViewOk, Apply, InsertCaches, DealVec;
    JoinedCaches(bf, m, s, step);
    JoinedPlaces(bf, m, s, step);
    DealtOnes(bf, step.bits, step.draws);
    JointInsert(bf, Caches(s), step.token, step.inner, DealVec(2, bf, step.bits, step.draws));
    PlacedTree(bf, s);
    InsertLeaves(PlainTree(bf, Caches(s)), Places(s.r.p0), s.live, step.h, BitsOf(step.bits));
  }

  lemma PlacedTree(bf: nat, s: Sys)
    requires Joint(bf, Caches(s)) && SamePlaces(s.r)
    ensures AllAgree(Views(Caches(s))) && ViewOk(PlainTree(bf, Caches(s))) && Coherent(PlainTree(bf, Caches(s)))
    ensures PlainTree(bf, Caches(s)).n == s.r.p0.cache.leafNum && Placed(PlainTree(bf, Caches(s)).n, Places(s.r.p0))
  {
    hide ViewOk, Coherent, Placed;
  }

  lemma UpdateInv(bf: nat, m: nat, s: Sys, h: Holder, bits: seq<nat>, draws: Trio<seq<nat>>)
    requires m > 1 && Inv(bf, m, s) && h in s.live && Dealt(bf, bits, draws)
    requires HasLeaf(s.r.p0, h) && HasLeaf(s.r.p1, h) && HasLeaf(s.r.p2, h)
    ensures Inv(bf, m, ApplyUpdate(s, h, bits, DealVec(2, bf, bits, draws)))
  {
    var node := DealVec(2, bf, bits, draws);
    var t := ApplyUpdate(s, h, bits, node);
    HolderTokens(bf, m, s, h);
    hide LiveLeaves, RootOpens, Joint, PlainTree, ReplicaOk, ViewUpdate, ViewOk, UpdateCaches, DealVec, Places, Placed, SameLeaf, HasLeaf, ApplyUpdate;
    UpdatedSys(s, h, bits, node);
    var tokens := Trio(s.r.p0.tokens[h], s.r.p1.tokens[h], s.r.p2.tokens[h]);
    DealtOnes(bf, bits, draws);
    JointUpdate(bf, Caches(s), tokens, node);
    PlacedTree(bf, s);
    UpdateLeaves(PlainTree(bf, Caches(s)), Places(s.r.p0), s.live, h, BitsOf(bits));
  }

  lemma UpdatedSys(s: Sys, h: Holder, bits: seq<nat>, node: Trio<RepVec>)
    requires HasLeaf(s.r.p0, h) && HasLeaf(s.r.p1, h) && HasLeaf(s.r.p2, h) && SamePlaces(s.r)
    requires SameLeaf(Caches(s), Trio(s.r.p0.tokens[h], s.r.p1.tokens[h], s.r.p2.tokens[h]))
    ensures var t := ApplyUpdate(s, h, bits, node);
      && Caches(t) == UpdateCaches(Caches(s), Trio(s.r.p0.tokens[h], s.r.p1.tokens[h], s.r.p2.tokens[h]), node)
      && t.live == s.live[h := BitsOf(bits)] && t.published == s.published
      && t.r.p0.cache.dirty != {} && Roots(Caches(t)) == Roots(Caches(s))
      && SamePlaces(t.r) && Places(t.r.p0) == Places(s.r.p0)
  {
  }

  lemma QuitInv(bf: nat, m: nat, s: Sys, h: Holder)
    requires m > 1 && Inv(bf, m, s) && h in s.live
    requires HasLeaf(s.r.p0, h) && HasLeaf(s.r.p1, h) && HasLeaf(s.r.p2, h)
    requires Bijective(s.r.p0.cache) && Bijective(s.r.p1.cache) && Bijective(s.r.p2.cache)
    ensures Inv(bf, m, ApplyQuit(s, h))
  {
    hide LiveLeaves, RootOpens, Joint, PlainTree, ReplicaOk, ViewRemove, ViewOk, PlaceRemove, Places, Remove, Placed, Bijective, SameLeaf;
    var t := ApplyQuit(s, h);
    HolderTokens(bf, m, s, h);
    SameSizes(bf, Caches(s));
    var tokens := Trio(s.r.p0.tokens[h], s.r.p1.tokens[h], s.r.p2.tokens[h]);
    assert Caches(t) == RemoveCaches(Caches(s), tokens);
    RemovedRoot(s.r.p0.cache, tokens.p0);
    RemovedRoot(s.r.p1.cache, tokens.p1);
    RemovedRoot(s.r.p2.cache, tokens.p2);
    QuitPlaces(s.r.p0, h);
    QuitPlaces(s.r.p1, h);
    QuitPlaces(s.r.p2, h);
    JointRemove(bf, Caches(s), tokens);
    PlacedTree(bf, s);
    RemoveLeaves(PlainTree(bf, Caches(s)), Places(s.r.p0), s.live, h);
  }

  lemma RemovedRoot(c: Cache, token: Token)
    requires Bijective(c) && IsLeaf(c, token)
    ensures Remove(c, token).root == c.root && (Remove(c, token).leafNum > 0 ==> Remove(c, token).dirty != {})
  {
    hide Bijective;
  }

  lemma SyncInv(bf: nat, m: nat, s: Sys, es: Trio<seq<MergeEnv>>, conv: Trio<ConvEnv>)
    requires m > 1 && Inv(bf, m, s) && Ready3(m, bf, Caches(s), es, conv) && SyncDelivered(bf, m, Caches(s), es, conv)
    ensures Inv(bf, m, ApplySync(bf, m, s, es, conv))
  {
    var t := ApplySync(bf, m, s, es, conv);
    var c, d := Caches(s), SyncCaches(bf, m, Caches(s), es, conv);
    assert Caches(t) == d && t.live == s.live && t.published == Some(Union(s.live));
    JointSync(bf, m, c, es, conv);
    SyncedPlaces(bf, m, s, es, conv);
    PlacedTree(bf, s);
    hide SyncDelivered, Ready3, SyncCaches, ApplySync, ReplicaOk, Places, LiveLeaves, RootOpens, Placed, PlainTree, Joint;
    SyncedLeaves(bf, m, s, t);
    SyncedRoot(bf, m, s, t);
  }

  lemma SyncedPlaces(bf: nat, m: nat, s: Sys, es: Trio<seq<MergeEnv>>, conv: Trio<ConvEnv>)
    requires m > 1 && Joint(bf, Caches(s)) && SamePlaces(s.r) && Ready3(m, bf, Caches(s), es, conv)
    ensures var t := ApplySync(bf, m, s, es, conv);
      SamePlaces(t.r) && Places(t.r.p0) == Places(s.r.p0)
  {
    MergeKeepsShape(m, 0, bf, s.r.p0.cache, es.p0, conv.p0);
    MergeKeepsShape(m, 1, bf, s.r.p1.cache, es.p1, conv.p1);
    MergeKeepsShape(m, 2, bf, s.r.p2.cache, es.p2, conv.p2);
    hide Shape, Placed, ExecuteMerge;
    var t := ApplySync(bf, m, s, es, conv);
    SameTokens(s.r.p0, t.r.p0);
    SameTokens(s.r.p1, t.r.p1);
    SameTokens(s.r.p2, t.r.p2);
  }

  lemma SameTokens(r: Replica, q: Replica)
    requires ReplicaOk(r) && q.tokens == r.tokens && q.cache.phiF == r.cache.phiF && q.cache.leafNum == r.cache.leafNum
    ensures ReplicaOk(q) && Places(q) == Places(r)
  {
  }

  lemma SyncedLeaves(bf: nat, m: nat, s: Sys, t: Sys)
    requires m > 1 && Inv(bf, m, s) && SyncOutcome(bf, m, Caches(s), Caches(t)) && t.live == s.live
    requires SamePlaces(t.r) && Places(t.r.p0) == Places(s.r.p0)
    ensures LiveLeaves(PlainTree(bf, Caches(t)), Places(t.r.p0), t.live)
  {
    hide ReplicaOk, Places, LiveLeaves, RootOpens, Placed, Joint, RootOk, AllAgree;
    PlacedTree(bf, s);
    PlacedTree(bf, t);
    KeepLeaves(PlainTree(bf, Caches(s)), PlainTree(bf, Caches(t)), Places(s.r.p0), s.live);
  }

  lemma SyncedRoot(bf: nat, m: nat, s: Sys, t: Sys)
    requires m > 1 && Inv(bf, m, s) && SyncOutcome(bf, m, Caches(s), Caches(t)) && t.live == s.live
    requires SamePlaces(t.r) && Places(t.r.p0) == Places(s.r.p0) && t.published == Some(Union(t.live))
    requires LiveLeaves(PlainTree(bf, Caches(t)), Places(t.r.p0), t.live)
    ensures RootOk(bf, m, t)
  {
    hide ReplicaOk, Places, LiveLeaves, RootOpens, Placed, Joint, ViewOk, Coherent, PlainTree, AllAgree;
    PlacedTree(bf, s);
    PlacedTree(bf, t);
    if s.r.p0.cache.leafNum == 0 {
      NobodyLive(Places(s.r.p0), PlainTree(bf, Caches(t)), s.live);
    } else if Publishes(s.r.p0.cache) {
      RootIsLiveUnion(PlainTree(bf, Caches(t)), Places(t.r.p0), t.live);
    }
  }

  lemma NobodyLive(places: map<Holder, nat>, v: View<set<nat>>, live: map<Holder, set<nat>>)
    requires Placed(0, places) && LiveLeaves(v, places, live)
    ensures Union(live) == {}
  {
  }

  lemma RestartInv(bf: nat, m: nat, s: Sys, lost: bool, blank: Trio<RepVec>, conv: Trio<ConvEnv>)
    requires m > 1 && Inv(bf, m, s) && ReopenReady(bf, m, Caches(s), blank, conv) && ReopenDelivered(bf, m, Caches(s), lost, conv)
    ensures Inv(bf, m, ApplyRestart(bf, m, s, lost, blank, conv))
  {
    hide ReopenReady, ReopenCaches, ReopenDelivered, ReplicaOk, Places, LiveLeaves, RootOpens, Placed, PlainTree, Joint, Rebuilds;
    var t := ApplyRestart(bf, m, s, lost, blank, conv);
    JointReopen(bf, m, Caches(s), lost, blank, conv);
    RestartPlaces(bf, m, s, lost, blank, conv);
    PlacedTree(bf, s);
    PlacedTree(bf, t);
    LeavesOfTree(PlainTree(bf, Caches(s)));
    KeepLeaves(PlainTree(bf, Caches(s)), PlainTree(bf, Caches(t)), Places(s.r.p0), s.live);
    RestartRoot(bf, m, s, lost, blank, conv);
  }

  lemma LeavesOfTree(v: View<set<nat>>)
    requires ViewOk(v)
    ensures forall leaf :: v.n <= leaf < 2 * v.n ==> leaf in v.file
  {
  }

  lemma RestartPlaces(bf: nat, m: nat, s: Sys, lost: bool, blank: Trio<RepVec>, conv: Trio<ConvEnv>)
    requires Joint(bf, Caches(s)) && SamePlaces(s.r) && ReopenReady(bf, m, Caches(s), blank, conv)
    ensures var t := ApplyRestart(bf, m, s, lost, blank, conv);
      SamePlaces(t.r) && Places(t.r.p0) == Places(s.r.p0)
  {
    hide Shape, Placed, Reopen, Joint, PlainTree;
    var t, c := ApplyRestart(bf, m, s, lost, blank, conv), Caches(s);
    ReopenIs(m, 0, bf, c.p0, Left(c.p0, lost), blank.p0, conv.p0);
    ReopenIs(m, 1, bf, c.p1, Left(c.p1, lost), blank.p1, conv.p1);
    ReopenIs(m, 2, bf, c.p2, Left(c.p2, lost), blank.p2, conv.p2);
    SameTokens(s.r.p0, t.r.p0);
    SameTokens(s.r.p1, t.r.p1);
    SameTokens(s.r.p2, t.r.p2);
  }

  lemma RestartRoot(bf: nat, m: nat, s: Sys, lost: bool, blank: Trio<RepVec>, conv: Trio<ConvEnv>)
    requires m > 1 && Inv(bf, m, s) && ReopenReady(bf, m, Caches(s), blank, conv) && ReopenDelivered(bf, m, Caches(s), lost, conv)
    ensures RootOk(bf, m, ApplyRestart(bf, m, s, lost, blank, conv))
  {
    hide ReopenReady, ReopenCaches, ReopenDelivered, SamePlaces, LiveLeaves, RootOpens, PlainTree, Joint, Rebuilds;
    var t, c := ApplyRestart(bf, m, s, lost, blank, conv), Caches(s);
    JointReopen(bf, m, c, lost, blank, conv);
    PlacedTree(bf, s);
    if Rebuilds(c.p0, Left(c.p0, lost)) {
      RebuiltRoot(bf, m, c, lost, blank, conv);
      RebuiltSaved(bf, m, c, lost, blank, conv);
      if t.r.p0.cache.dirty == {} {
        RootIsLiveUnion(PlainTree(bf, c), Places(s.r.p0), s.live);
      }
    } else if t.r.p0.cache.dirty == {} && t.r.p0.cache.leafNum > 0 {
      RootsLeft(bf, m, c, lost, blank, conv);
      SavedRoots(bf, m, c, blank, conv);
    }
  }

  /** Without a rebuilt root a clean tree means that the root files are there. */
  lemma RootsLeft(bf: nat, m: nat, c: Trio<Cache>, lost: bool, blank: Trio<RepVec>, conv: Trio<ConvEnv>)
    requires Joint(bf, c) && ReopenReady(bf, m, c, blank, conv) && c.p0.leafNum > 0 && !Rebuilds(c.p0, Left(c.p0, lost))
    requires ReopenCaches(bf, m, c, lost, blank, conv).p0.dirty == {}
    ensures !lost && c.p0.rootFile.Some?
  {
    hide Shape, Reopen, Joint, PlainTree;
    ReopenIs(m, 0, bf, c.p0, Left(c.p0, lost), blank.p0, conv.p0);
    assert c.p0.leafNum in LeafIds(c.p0.leafNum);
  }

  lemma RebuiltSaved(bf: nat, m: nat, c: Trio<Cache>, lost: bool, blank: Trio<RepVec>, conv: Trio<ConvEnv>)
    requires Joint(bf, c) && ReopenReady(bf, m, c, blank, conv) && Rebuilds(c.p0, Left(c.p0, lost))
    ensures AllSaved(ReopenCaches(bf, m, c, lost, blank, conv))
    ensures ReopenCaches(bf, m, c, lost, blank, conv).p0.dirty == c.p0.dirty
  {
    hide Shape, Reopen, PlainTree, ConvLocal, AllConsistent, Coherent;
    LeafNums(c);
    ReopenIs(m, 0, bf, c.p0, Left(c.p0, lost), blank.p0, conv.p0);
    ReopenIs(m, 1, bf, c.p1, Left(c.p1, lost), blank.p1, conv.p1);
    ReopenIs(m, 2, bf, c.p2, Left(c.p2, lost), blank.p2, conv.p2);
    assert 1 in ViewOf(c.p1).file && 1 in ViewOf(c.p2).file by {
      assert 1 in ViewOf(c.p0).file.Keys;
    }
  }

  // ---- all runs ----

  lemma StepKeepsInv(bf: nat, m: nat, s: Sys, step: Step)
    requires m > 1 && Inv(bf, m, s) && Enabled(bf, m, s, step)
    ensures Inv(bf, m, Apply(bf, m, s, step))
    ensures step.Sync? ==> Apply(bf, m, s, step).published == Some(Union(Apply(bf, m, s, step).live))
  {
    hide Inv, CanJoin, CanRefresh, CanSync, CanRestart, TakeJoin, TakeRefresh, TakeQuit, TakeSync, TakeRestart;
    match step
    case Join(_, _, _, _, _) => JoinInv(bf, m, s, step);
    case Refresh(h, bits, draws) => RefreshTaken(bf, m, s, h, bits, draws);
    case Quit(h) => QuitTaken(bf, m, s, h);
    case Sync(es, conv) => SyncTaken(bf, m, s, es, conv);
    case Restart(lost, blank, conv) => RestartTaken(bf, m, s, lost, blank, conv);
  }

  lemma RefreshTaken(bf: nat, m: nat, s: Sys, h: Holder, bits: seq<nat>, draws: Trio<seq<nat>>)
    requires m > 1 && Inv(bf, m, s) && CanRefresh(bf, s, h, bits, draws)
    ensures Inv(bf, m, TakeRefresh(bf, m, s, h, bits, draws))
  {
    hide Inv, Dealt, ApplyUpdate, SameLeaf;
    HolderTokens(bf, m, s, h);
    TokensOfLeaf(s, h);
    UpdateInv(bf, m, s, h, bits, draws);
  }

  lemma TokensOfLeaf(s: Sys, h: Holder)
    requires h in s.r.p0.tokens && h in s.r.p1.tokens && h in s.r.p2.tokens
    requires SameLeaf(Caches(s), Trio(s.r.p0.tokens[h], s.r.p1.tokens[h], s.r.p2.tokens[h]))
    ensures HasLeaf(s.r.p0, h) && HasLeaf(s.r.p1, h) && HasLeaf(s.r.p2, h)
  {
  }

  lemma QuitTaken(bf: nat, m: nat, s: Sys, h: Holder)
    requires m > 1 && Inv(bf, m, s) && h in s.live
    ensures Inv(bf, m, TakeQuit(bf, m, s, h))
  {
    hide Inv, Joint, Bijective, ApplyQuit, SameLeaf;
    JointOf(bf, m, s);
    SameSizes(bf, Caches(s));
    HolderTokens(bf, m, s, h);
    TokensOfLeaf(s, h);
    QuitInv(bf, m, s, h);
  }

  lemma SyncTaken(bf: nat, m: nat, s: Sys, es: Trio<seq<MergeEnv>>, conv: Trio<ConvEnv>)
    requires m > 1 && Inv(bf, m, s) && CanSync(bf, m, s, es, conv)
    ensures var t := TakeSync(bf, m, s, es, conv);
      Inv(bf, m, t) && t.published == Some(Union(t.live))
  {
    hide Inv, Joint, Ready3, SyncDelivered;
    JointOf(bf, m, s);
    SyncInv(bf, m, s, es, conv);
  }

  lemma RestartTaken(bf: nat, m: nat, s: Sys, lost: bool, blank: Trio<RepVec>, conv: Trio<ConvEnv>)
    requires m > 1 && Inv(bf, m, s) && CanRestart(bf, m, s, lost, blank, conv)
    ensures Inv(bf, m, TakeRestart(bf, m, s, lost, blank, conv))
  {
    hide Inv, Joint, ReopenReady, ReopenDelivered, ApplyRestart;
    JointOf(bf, m, s);
    RestartInv(bf, m, s, lost, blank, conv);
  }

  lemma JointOf(bf: nat, m: nat, s: Sys)
    requires m > 0 && Inv(bf, m, s)
    ensures Joint(bf, Caches(s))
  {
  }

  /** t is reached from s by the steps, each enabled when it is taken. */
  ghost predicate Run(bf: nat, m: nat, s: Sys, steps: seq<Step>, t: Sys)
    requires m > 1 && Inv(bf, m, s)
    decreases |steps|
  {
    if steps == [] then t == s
    else
      && Enabled(bf, m, s, steps[0])
      && (StepKeepsInv(bf, m, s, steps[0]);
          Run(bf, m, Apply(bf, m, s, steps[0]), steps[1..], t))
  }

  /** Every reachable state satisfies the invariant, and right after a SYNC the three published roots are a consistent
      sharing over Z_m of the union of the live holders' filters. */
  lemma {:induction false} RunPublishesUnion(bf: nat, m: nat, s: Sys, steps: seq<Step>, t: Sys)
    requires m > 1 && Inv(bf, m, s) && Run(bf, m, s, steps, t)
    ensures Inv(bf, m, t)
    ensures steps != [] && steps[|steps| - 1].Sync? ==> RootOpens(m, bf, Roots(Caches(t)), Union(t.live))
    decreases |steps|
  {
    hide Inv, Enabled, Apply, RootOpens, Run;
    if steps == [] {
      RunDone(bf, m, s, t);
    } else {
      RunStep(bf, m, s, steps, t);
      StepKeepsInv(bf, m, s, steps[0]);
      var next := Apply(bf, m, s, steps[0]);
      RunPublishesUnion(bf, m, next, steps[1..], t);
      if |steps| == 1 && steps[0].Sync? {
        RunDone(bf, m, next, t);
        PublishedRoot(bf, m, t);
      }
    }
  }

  lemma RunDone(bf: nat, m: nat, s: Sys, t: Sys)
    requires m > 1 && Inv(bf, m, s) && Run(bf, m, s, [], t)
    ensures t == s
  {
  }

  lemma RunStep(bf: nat, m: nat, s: Sys, steps: seq<Step>, t: Sys)
    requires m > 1 && Inv(bf, m, s) && steps != [] && Run(bf, m, s, steps, t)
    ensures Enabled(bf, m, s, steps[0]) && Inv(bf, m, Apply(bf, m, s, steps[0]))
    ensures Run(bf, m, Apply(bf, m, s, steps[0]), steps[1..], t)
  {
    hide Inv, Enabled, Apply;
    StepKeepsInv(bf, m, s, steps[0]);
  }

  lemma PublishedRoot(bf: nat, m: nat, s: Sys)
    requires m > 0 && Inv(bf, m, s) && s.published.Some?
    ensures RootOpens(m, bf, Roots(Caches(s)), s.published.value)
  {
  }

  /** From three empty caches on. */
  lemma FromEmpty(bf: nat, m: nat, s: Sys, steps: seq<Step>, t: Sys)
    requires m > 1 && Initial(bf, s)
    ensures Inv(bf, m, s)
    ensures Run(bf, m, s, steps, t) && steps != [] && steps[|steps| - 1].Sync? ==>
      RootOpens(m, bf, Roots(Caches(t)), Union(t.live))
  {
    InitialInv(bf, m, s);
    if Run(bf, m, s, steps, t) {
      RunPublishesUnion(bf, m, s, steps, t);
    }
  }

  /** The replicas stay in lockstep: whatever tokens they drew, they hold the holders at the same nodes, have the same
      dirty leaves and would merge the same nodes in the same order. */
  lemma Lockstep(bf: nat, m: nat, s: Sys, steps: seq<Step>, t: Sys)
    requires m > 1 && Inv(bf, m, s) && Run(bf, m, s, steps, t)
    ensures Places(t.r.p0) == Places(t.r.p1) == Places(t.r.p2)
    ensures t.r.p0.cache.dirty == t.r.p1.cache.dirty == t.r.p2.cache.dirty
    ensures MergeOrder(t.r.p0.cache) == MergeOrder(t.r.p1.cache) == MergeOrder(t.r.p2.cache)
  {
    hide Run;
    RunPublishesUnion(bf, m, s, steps, t);
    SameOrder(bf, Caches(t));
    LeafNums(Caches(t));
  }
}
