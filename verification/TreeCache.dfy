/** The tree cache of one agent as the object that updates itself in place.  Every method is proved equal to the
    function of the whole state in CacheState and TreeMerge; a step that stops part-way leaves the cache marked
    corrupted. */
module TreeCache {
  import opened Options
  import opened Aby3
  import opened Aby3Vec
  import opened Rvector
  import opened RingConv
  import opened HeapTree
  import opened CacheState
  import opened MergeOrdering
  import opened TreeMerge

  /** What meta.json records. */
  datatype Saved = Saved(valid: bool, leafNum: nat, phiF: map<Token, nat>, phiR: map<nat, Token>, dirty: set<nat>)

  datatype Result = Done | Corrupted | UnknownToken | InternalNode

  /** The root file, when there is one, holds the root in memory. */
  predicate RootSaved(c: Cache) {
    c.rootFile.Some? ==> c.rootFile.value == c.root
  }

  function SavedOf(valid: bool, c: Cache): Saved {
    Saved(valid, c.leafNum, c.phiF, c.phiR, c.dirty)
  }

  class Store {
    const bf: nat
    const m: nat
    const pid: nat
    const rootNode: ShareVec
    var leafNum: nat
    var phiF: map<Token, nat>
    var phiR: map<nat, Token>
    var dirtyLeaf: set<nat>
    var files: map<Token, RepVec>
    var rootFile: Option<RepVec>
    var corrupted: bool
    var meta: Option<Saved>

    ghost function State(): Cache
      reads this, rootNode.thisShare, rootNode.nxtShare
    {
      Cache(leafNum, phiF, phiR, dirtyLeaf, files, rootNode.Val(), rootFile)
    }

    ghost predicate Valid()
      reads this, rootNode.thisShare, rootNode.nxtShare
    {
      && rootNode.Valid(bf) && m > 1 && pid < 3
      && (!corrupted ==> Shape(bf, State()) && RootSaved(State()))
    }

    /** The last completed step is on disk. */
    ghost predicate Settled()
      reads this, rootNode.thisShare, rootNode.nxtShare
    {
      Valid() && !corrupted && meta == Some(SavedOf(true, State()))
    }

    /** A cache in an empty directory; the root buffer is not initialised. */
    constructor (bf: nat, m: nat, pid: nat)
      requires m > 1 && pid < 3
      ensures Valid() && !corrupted && meta == None && State() == EmptyCache(rootNode.Val())
      ensures this.bf == bf && this.m == m && this.pid == pid
      ensures fresh(rootNode.thisShare) && fresh(rootNode.nxtShare)
    {
      this.bf := bf;
      this.m := m;
      this.pid := pid;
      rootNode := new ShareVec(bf);
      leafNum := 0;
      phiF := map[];
      phiR := map[];
      dirtyLeaf := {};
      files := map[];
      rootFile := None;
      corrupted := false;
      meta := None;
      new;
      EmptyShape(bf, rootNode.Val());
    }

    method MarkCorrupted()
      modifies `corrupted, `meta
      ensures corrupted && meta == Some(SavedOf(false, State())) && State() == old(State())
    {
      corrupted := true;
      meta := Some(Saved(false, leafNum, phiF, phiR, dirtyLeaf));
    }

    method MarkValid()
      modifies `corrupted, `meta
      ensures !corrupted && meta == Some(SavedOf(true, State())) && State() == old(State())
    {
      meta := Some(Saved(true, leafNum, phiF, phiR, dirtyLeaf));
      corrupted := false;
    }

    /** A step that stops part-way, by an exception or with the process: the record was marked first, and the fields and
        files hold whatever the step had got to. */
    method StopPartWay()
      requires Valid() && !corrupted
      modifies this, rootNode.thisShare, rootNode.nxtShare
      ensures Valid() && corrupted && meta == Some(SavedOf(false, old(State())))
    {
      MarkCorrupted();
      modify `leafNum, `phiF, `phiR, `dirtyLeaf, `files, `rootFile, rootNode.thisShare, rootNode.nxtShare;
    }

    /** A usable cache says yes exactly to the tokens that number one of the nodes n to 2n - 1. */
    method HasInserted(token: Token) returns (yes: bool)
      ensures yes <==> token in LeafTokens(State())
      ensures Valid() && !corrupted ==> (yes <==> exists id :: leafNum <= id < 2 * leafNum && id in phiR && phiR[id] == token)
    {
      hide ViewOk, ViewOf;
      yes := token in phiF && phiF[token] >= leafNum;
    }

    /** Renumbering for a new leaf. */
    method PlaceLeaf(token: Token, inner: Token)
      requires leafNum > 0 ==> leafNum in phiR
      modifies `leafNum, `phiF, `phiR, `dirtyLeaf
      ensures token != inner && (old(leafNum) > 0 ==> old(phiR)[old(leafNum)] != token) ==>
        var want := CacheState.Insert(old(State()), token, inner, RepVec([], []));
        leafNum == want.leafNum && phiF == want.phiF && phiR == want.phiR && dirtyLeaf == want.dirty
    {
      if leafNum == 0 {
        leafNum := 1;
        phiR := phiR[1 := token];
        phiF := phiF[token := 1];
      } else {
        var oldLeaf := leafNum;
        var lc := oldLeaf * 2;
        var rc := lc + 1;
        var ori := phiR[oldLeaf];
        phiR := phiR[rc := token];
        phiF := phiF[token := rc];
        phiR := phiR[oldLeaf := inner];
        phiF := phiF[inner := oldLeaf];
        phiR := phiR[lc := ori];
        phiF := phiF[ori := lc];
        if oldLeaf in dirtyLeaf {
          dirtyLeaf := dirtyLeaf - {oldLeaf};
          dirtyLeaf := dirtyLeaf + {lc};
        }
        leafNum := leafNum + 1;
      }
      dirtyLeaf := dirtyLeaf + {phiF[token]};
    }

    /** A new leaf under a token that is not in use; an inner node may need a second one. */
    method Insert(node: ShareVec, token: Token, inner: Token) returns (res: Option<Token>)
      requires Valid() && node.Valid(bf) && token !in phiF && inner !in phiF && token != inner
      modifies `leafNum, `phiF, `phiR, `dirtyLeaf, `files, `corrupted, `meta
      ensures res == if old(corrupted) then None else Some(token)
      ensures res.None? ==> corrupted && State() == old(State())
      ensures res.Some? && old(leafNum) > 0 ==> old(leafNum) in old(phiR)
      ensures res.Some? ==> Settled() && State() == CacheState.Insert(old(State()), token, inner, old(node.Val()))
    {
      hide Shape, CacheState.Insert;
      if corrupted {
        return None;
      }
      InsertStep(bf, State(), token, inner, node.Val());
      MarkCorrupted();
      files := files[token := RepVec(node.thisShare[..], node.nxtShare[..])];
      PlaceLeaf(token, inner);
      MarkValid();
      InsertParts(old(State()), token, inner, old(node.Val()));
      assert State() == CacheState.Insert(old(State()), token, inner, old(node.Val()));
      return Some(token);
    }

    method Update(token: Token, node: ShareVec) returns (res: Result)
      requires Valid() && node.Valid(bf)
      modifies `dirtyLeaf, `files, `corrupted, `meta
      ensures res == if old(corrupted) then Corrupted else if token !in phiF then UnknownToken
        else if phiF[token] < leafNum then InternalNode else Done
      ensures !res.Done? ==> State() == old(State()) && corrupted == old(corrupted)
      ensures res.Done? ==> Settled() && State() == CacheState.Update(old(State()), token, old(node.Val()))
    {
      if corrupted {
        return Corrupted;
      }
      if token !in phiF {
        return UnknownToken;
      }
      var id := phiF[token];
      if id < leafNum {
        return InternalNode;
      }
      UpdateKeepsShape(bf, State(), token, node.Val());
      MarkCorrupted();
      files := files[token := RepVec(node.thisShare[..], node.nxtShare[..])];
      dirtyLeaf := dirtyLeaf + {id};
      MarkValid();
      return Done;
    }

    /** Renumbering for a leaf that goes. */
    method DropLeaf(token: Token)
      requires Bijective(State()) && IsLeaf(State(), token)
      modifies `leafNum, `phiF, `phiR, `dirtyLeaf, `files
      ensures State() == CacheState.Remove(old(State()), token)
    {
      hide Bijective;
      CollapsedNodes(State());
      LeafBounds(State(), token);
      var del := phiF[token];
      var oldLeafNum := leafNum;
      if oldLeafNum == 1 {
        phiF := phiF - {token};
        phiR := phiR - {1};
        leafNum := 0;
        dirtyLeaf := {};
        files := files - {token};
      } else {
        var collapse := oldLeafNum - 1;
        var left := collapse * 2;
        var right := left + 1;
        var innerToken, leftToken, rightToken := phiR[collapse], phiR[left], phiR[right];
        var promoted := leftToken;
        if del == left {
          promoted := rightToken;
        } else if del != right {
          phiR := phiR[del := rightToken];
          phiF := phiF[rightToken := del];
          dirtyLeaf := dirtyLeaf + {del};
        }
        phiR := phiR[collapse := promoted];
        phiF := phiF[promoted := collapse];
        Forget(left, right, collapse, innerToken, token);
      }
    }

    /** The collapsed pair, its inner token and the token of the leaf go. */
    method Forget(left: nat, right: nat, collapse: nat, innerToken: Token, token: Token)
      modifies `leafNum, `phiF, `phiR, `dirtyLeaf, `files
      ensures leafNum == collapse && phiR == old(phiR) - {left, right} && phiF == old(phiF) - {innerToken, token}
      ensures dirtyLeaf == old(dirtyLeaf) - {left, right} + {collapse} && files == old(files) - {token, innerToken}
    {
      MinusTwice(phiR, left, right);
      phiR := phiR - {left};
      phiR := phiR - {right};
      MinusTwice(phiF, innerToken, token);
      phiF := phiF - {innerToken};
      phiF := phiF - {token};
      leafNum := collapse;
      LeaveOut(dirtyLeaf, left, right);
      dirtyLeaf := dirtyLeaf - {left};
      dirtyLeaf := dirtyLeaf - {right};
      dirtyLeaf := dirtyLeaf + {collapse};
      MinusTwice(files, token, innerToken);
      files := files - {token};
      files := files - {innerToken};
    }

    /** An unknown token is ignored, an inner node is refused. */
    method Remove(token: Token) returns (res: Result)
      requires Valid()
      modifies `leafNum, `phiF, `phiR, `dirtyLeaf, `files, `corrupted, `meta
      ensures res == if old(corrupted) then Corrupted else if token !in old(phiF) then Done
        else if old(phiF)[token] < old(leafNum) then InternalNode else Done
      ensures old(corrupted) || !IsLeaf(old(State()), token) ==> State() == old(State()) && corrupted == old(corrupted)
      ensures !old(corrupted) && IsLeaf(old(State()), token) ==> Bijective(old(State()))
      ensures !old(corrupted) && IsLeaf(old(State()), token) ==> Settled() && State() == CacheState.Remove(old(State()), token)
    {
      hide Shape, Bijective, CacheState.Remove;
      if corrupted {
        return Corrupted;
      }
      if token !in phiF {
        return Done;
      }
      if phiF[token] < leafNum {
        return InternalNode;
      }
      RemoveStep(bf, State(), token);
      MarkCorrupted();
      DropLeaf(token);
      MarkValid();
      return Done;
    }

    // ---- execute_merge ----

    ghost predicate Scratch(buf: ShareVec)
    {
      && buf.Valid(bf)
      && buf.thisShare != rootNode.thisShare && buf.thisShare != rootNode.nxtShare
      && buf.nxtShare != rootNode.thisShare && buf.nxtShare != rootNode.nxtShare
    }

    ghost predicate Buffers(left: ShareVec, right: ShareVec, result: ShareVec, mergeBuf: ShareVec) {
      && Scratch(left) && Scratch(right) && Scratch(result) && Scratch(mergeBuf)
      && left != right && left != result && left != mergeBuf && right != result && right != mergeBuf && result != mergeBuf
      && Apart(left, right) && Apart(left, result) && Apart(left, mergeBuf)
      && Apart(right, result) && Apart(right, mergeBuf) && Apart(result, mergeBuf)
    }

    static method Load(buf: ShareVec, n: nat, val: RepVec)
      requires buf.Valid(n) && Sized(n, val)
      modifies buf.thisShare, buf.nxtShare
      ensures buf.Val() == val
    {
      Receive(buf.thisShare, val.thisShare);
      Receive(buf.nxtShare, val.nxtShare);
    }

    /** The converted vector goes to the root buffer and to the root files. */
    method PublishRoot(buf: ShareVec, conv: ConvEnv)
      requires rootNode.Valid(bf) && m > 1 && pid < 3 && Scratch(buf) && EnvSized(m, bf, conv)
      modifies `rootFile, rootNode.thisShare, rootNode.nxtShare
      ensures rootNode.Val() == ConvLocal(m, pid, bf, buf.Val(), conv) && rootFile == Some(rootNode.Val())
    {
      hide ConvLocal, Sent1, Sent2;
      var _, _ := ConvVector(m, pid, buf.thisShare, buf.nxtShare, rootNode.thisShare, rootNode.nxtShare, conv);
      rootFile := Some(RepVec(rootNode.thisShare[..], rootNode.nxtShare[..]));
    }

    /** One node: load the children, merge, save. */
    method MergeOne(x: nat, e: MergeEnv, left: ShareVec, right: ShareVec, result: ShareVec, mergeBuf: ShareVec)
      requires NodeReady(bf, State(), x, e)
      requires Buffers(left, right, result, mergeBuf)
      modifies `files, left.thisShare, left.nxtShare, right.thisShare, right.nxtShare
      modifies result.thisShare, result.nxtShare, mergeBuf.thisShare, mergeBuf.nxtShare
      ensures State() == MergeNode(bf, old(State()), x, e)
      ensures x in phiR && phiR[x] in files && result.Val() == files[phiR[x]]
    {
      hide MergeLocal, HadamardLocal;
      LeafNumbered(State());
      Stored(bf, State());
      ghost var c := State();
      Load(left, bf, files[phiR[2 * x]]);
      Load(right, bf, files[phiR[2 * x + 1]]);
      var _ := Merge(bf, left, right, result, mergeBuf, e);
      files := files[phiR[x] := RepVec(result.thisShare[..], result.nxtShare[..])];
    }

    ghost predicate Progress(c: Cache, s: seq<nat>, es: seq<MergeEnv>, cur: Cache, i: nat)
      requires Mergeable(bf, c, s, es) && i <= |s|
    {
      && Mergeable(bf, cur, s[i..], es[i..])
      && MergeNodes(bf, cur, s[i..], es[i..]) == MergeNodes(bf, c, s, es)
    }

    lemma ProgressStart(c: Cache, s: seq<nat>, es: seq<MergeEnv>)
      requires Mergeable(bf, c, s, es)
      ensures Progress(c, s, es, c, 0)
    {
    }

    lemma ProgressStep(c: Cache, s: seq<nat>, es: seq<MergeEnv>, cur: Cache, i: nat)
      requires Mergeable(bf, c, s, es) && i < |s| && Progress(c, s, es, cur, i)
      ensures NodeReady(bf, cur, s[i], es[i]) && Progress(c, s, es, MergeNode(bf, cur, s[i], es[i]), i + 1)
    {
      hide NodeReady, MergeNode;
      MergeableStep(bf, cur, s[i..], es[i..]);
      assert s[i..][1..] == s[i + 1..] && es[i..][1..] == es[i + 1..];
    }

    lemma PublishedState(c: Cache, d: Cache, conv: ConvEnv)
      requires m > 1 && 1 in ViewOf(c).file && Sized(bf, ViewOf(c).file[1]) && EnvSized(m, bf, conv)
      requires d == c.(root := d.root, rootFile := Some(d.root)) && d.root == ConvLocal(m, pid, bf, ViewOf(c).file[1], conv)
      ensures d == Published(c, conv)
    {
    }

    lemma FileOne(c: Cache)
      requires 1 in ViewOf(c).file
      ensures 1 in c.phiR && c.phiR[1] in c.files && ViewOf(c).file[1] == c.files[c.phiR[1]]
    {
    }

    lemma ProgressDone(c: Cache, s: seq<nat>, es: seq<MergeEnv>, cur: Cache)
      requires Mergeable(bf, c, s, es) && Progress(c, s, es, cur, |s|)
      ensures cur == MergeNodes(bf, c, s, es)
    {
    }

    lemma RootReady(c: Cache, x: nat, e: MergeEnv)
      requires NodeReady(bf, c, x, e) && x == 1
      ensures 1 in ViewOf(MergeNode(bf, c, x, e)).file && Sized(bf, ViewOf(MergeNode(bf, c, x, e)).file[1])
    {
    }

    /** Publishing does not look at what it overwrites. */
    ghost function Published(c: Cache, conv: ConvEnv): Cache
      requires m > 1 && 1 in ViewOf(c).file && Sized(bf, ViewOf(c).file[1]) && EnvSized(m, bf, conv)
    {
      Publish(m, pid, bf, c, conv)
    }

    /** One turn of the merge loop; node 1 is also converted and published. */
    method MergeTurn(x: nat, e: MergeEnv, conv: ConvEnv, left: ShareVec, right: ShareVec, result: ShareVec, mergeBuf: ShareVec)
      requires rootNode.Valid(bf) && m > 1 && pid < 3 && EnvSized(m, bf, conv)
      requires NodeReady(bf, State(), x, e) && Buffers(left, right, result, mergeBuf)
      modifies `files, `rootFile, rootNode.thisShare, rootNode.nxtShare, left.thisShare, left.nxtShare
      modifies right.thisShare, right.nxtShare, result.thisShare, result.nxtShare, mergeBuf.thisShare, mergeBuf.nxtShare
      ensures var d := MergeNode(bf, old(State()), x, e);
        if x == 1 then 1 in ViewOf(d).file && Sized(bf, ViewOf(d).file[1]) && State() == Published(d, conv)
        else State() == d
    {
      hide MergeNode, NodeReady, Publish, Published, ViewOf;
      ghost var c := State();
      MergeOne(x, e, left, right, result, mergeBuf);
      if x == 1 {
        RootReady(c, x, e);
        FileOne(State());
        ghost var d := State();
        PublishRoot(result, conv);
        PublishedState(d, State(), conv);
      }
    }

    /** The merge loop; the root is published when node 1 has been merged. */
    method MergeTree(s: seq<nat>, es: seq<MergeEnv>, conv: ConvEnv, mergeBuf: ShareVec)
      requires rootNode.Valid(bf) && m > 1 && pid < 3 && Mergeable(bf, State(), s, es) && EnvSized(m, bf, conv)
      requires s != [] && forall i :: 0 <= i < |s| ==> (s[i] == 1 <==> i == |s| - 1)
      requires Scratch(mergeBuf)
      modifies `files, `rootFile, rootNode.thisShare, rootNode.nxtShare, mergeBuf.thisShare, mergeBuf.nxtShare
      ensures var d := MergeNodes(bf, old(State()), s, es);
        1 in ViewOf(d).file && Sized(bf, ViewOf(d).file[1]) && State() == Published(d, conv)
    {
      hide Mergeable, MergeNodes, MergeNode, NodeReady, Publish, Published, Progress, ViewOf;
      var result := new ShareVec(bf);
      var left := new ShareVec(bf);
      var right := new ShareVec(bf);
      ghost var c := State();
      ghost var cur := c;
      EnvsOf(bf, c, s, es);
      ProgressStart(c, s, es);
      var i := 0;
      while i < |s|
        invariant 0 <= i <= |s| && Progress(c, s, es, cur, i)
        invariant i < |s| ==> State() == cur
        invariant i == |s| ==> 1 in ViewOf(cur).file && Sized(bf, ViewOf(cur).file[1]) && State() == Published(cur, conv)
        modifies `files, `rootFile, rootNode.thisShare, rootNode.nxtShare, mergeBuf.thisShare, mergeBuf.nxtShare
        modifies result.thisShare, result.nxtShare, left.thisShare, left.nxtShare, right.thisShare, right.nxtShare
      {
        ProgressStep(c, s, es, cur, i);
        MergeTurn(s[i], es[i], conv, left, right, result, mergeBuf);
        cur := MergeNode(bf, cur, s[i], es[i]);
        i := i + 1;
      }
      ProgressDone(c, s, es, cur);
    }

    /** The last holder left: an explicit all-zero root, and no root file. */
    method ClearRoot()
      requires rootNode.Valid(bf)
      modifies `rootFile, `dirtyLeaf, rootNode.thisShare, rootNode.nxtShare
      ensures State() == old(State()).(root := Zero(bf), rootFile := None, dirty := {})
    {
      Fill(rootNode.thisShare, 0);
      Fill(rootNode.nxtShare, 0);
      assert rootNode.thisShare[..] == Zero(bf).thisShare && rootNode.nxtShare[..] == Zero(bf).nxtShare;
      rootFile := None;
      dirtyLeaf := {};
    }

    /** A single leaf is converted as it is. */
    method MergeOnlyLeaf(conv: ConvEnv)
      requires rootNode.Valid(bf) && m > 1 && pid < 3 && EnvSized(m, bf, conv)
      requires 1 in ViewOf(State()).file && Sized(bf, ViewOf(State()).file[1])
      modifies `rootFile, `dirtyLeaf, rootNode.thisShare, rootNode.nxtShare
      ensures State() == if old(dirtyLeaf) != {} || old(rootFile).None? then Published(old(State()), conv).(dirty := {})
        else old(State()).(dirty := {})
    {
      hide Publish, Published, ViewOf;
      FileOne(State());
      if dirtyLeaf != {} || rootFile.None? {
        ghost var c := State();
        var leafBuf := new ShareVec(bf);
        Load(leafBuf, bf, files[phiR[1]]);
        PublishRoot(leafBuf, conv);
        PublishedState(c, State(), conv);
      }
      dirtyLeaf := {};
    }

    method ExecuteMerge(es: seq<MergeEnv>, conv: ConvEnv, mergeBuf: ShareVec) returns (ok: bool)
      requires Valid() && Scratch(mergeBuf) && EnvSized(m, bf, conv)
      requires !corrupted ==> |es| == |MergeOrder(State())| && EnvsOk(bf, es)
      modifies `dirtyLeaf, `files, `rootFile, `corrupted, `meta, rootNode.thisShare, rootNode.nxtShare
      modifies mergeBuf.thisShare, mergeBuf.nxtShare
      ensures ok == !old(corrupted)
      ensures !ok ==> State() == old(State()) && corrupted
      ensures ok ==> Shape(bf, old(State())) && Settled()
      ensures ok ==> State() == TreeMerge.ExecuteMerge(m, pid, bf, old(State()), es, conv)
    {
      hide Shape, TreeMerge.ExecuteMerge;
      if corrupted {
        return false;
      }
      ghost var c := State();
      MarkCorrupted();
      if leafNum == 0 {
        ClearRoot();
        MergeOfNone(m, pid, bf, c, es, conv);
      } else if leafNum == 1 {
        MergeOfOne(m, pid, bf, c, es, conv);
        MergeOnlyLeaf(conv);
      } else {
        DirtyLeaves(bf, c);
        var s := MergeSequence(leafNum, dirtyLeaf);
        dirtyLeaf := {};
        MergeOfMany(m, pid, bf, c, es, conv);
        if s != [] {
          MergeTree(s, es, conv, mergeBuf);
        }
      }
      MergeStep(m, pid, bf, c, es, conv);
      MarkValid();
      return true;
    }
  }

  lemma MergeOfNone(m: nat, pid: nat, bf: nat, c: Cache, es: seq<MergeEnv>, conv: ConvEnv)
    requires m > 1 && Shape(bf, c) && EnvSized(m, bf, conv) && c.leafNum == 0
    requires |es| == |MergeOrder(c)| && EnvsOk(bf, es)
    ensures TreeMerge.ExecuteMerge(m, pid, bf, c, es, conv) == c.(root := Zero(bf), rootFile := None, dirty := {})
  {
    hide Shape;
  }

  lemma MergeOfOne(m: nat, pid: nat, bf: nat, c: Cache, es: seq<MergeEnv>, conv: ConvEnv)
    requires m > 1 && Shape(bf, c) && EnvSized(m, bf, conv) && c.leafNum == 1
    requires |es| == |MergeOrder(c)| && EnvsOk(bf, es)
    ensures 1 in ViewOf(c).file && Sized(bf, ViewOf(c).file[1])
    ensures TreeMerge.ExecuteMerge(m, pid, bf, c, es, conv)
      == if c.dirty != {} || c.rootFile.None? then Publish(m, pid, bf, c, conv).(dirty := {}) else c.(dirty := {})
  {
  }

  lemma MergeOfMany(m: nat, pid: nat, bf: nat, c: Cache, es: seq<MergeEnv>, conv: ConvEnv)
    requires m > 1 && Shape(bf, c) && EnvSized(m, bf, conv) && c.leafNum > 1
    requires |es| == |MergeOrder(c)| && EnvsOk(bf, es)
    ensures var s := Schedule(c.dirty, c.leafNum - 1);
      && Mergeable(bf, c.(dirty := {}), s, es)
      && (s == [] ==> TreeMerge.ExecuteMerge(m, pid, bf, c, es, conv) == c.(dirty := {}))
      && (s != [] ==>
        && (forall i :: 0 <= i < |s| ==> (s[i] == 1 <==> i == |s| - 1))
        && 1 in ViewOf(MergeNodes(bf, c.(dirty := {}), s, es)).file
        && Sized(bf, ViewOf(MergeNodes(bf, c.(dirty := {}), s, es)).file[1])
        && TreeMerge.ExecuteMerge(m, pid, bf, c, es, conv) == Publish(m, pid, bf, MergeNodes(bf, c.(dirty := {}), s, es), conv))
  {
    hide Mergeable, MergeNodes, Publish, ViewOf, Shape, Schedule, Merged;
    DirtyLeaves(bf, c);
    MergeOrderMergeable(bf, c, es);
    MergedShape(bf, c, es);
    ScheduleEnds(c.dirty, c.leafNum);
    MergedIs(bf, c, es);
    if Schedule(c.dirty, c.leafNum - 1) == [] {
      NothingMerged(bf, c.(dirty := {}), es);
    }
  }

  lemma MergedIs(bf: nat, c: Cache, es: seq<MergeEnv>)
    requires Shape(bf, c) && c.leafNum > 1 && |es| == |MergeOrder(c)| && EnvsOk(bf, es)
    ensures Mergeable(bf, c.(dirty := {}), Schedule(c.dirty, c.leafNum - 1), es)
    ensures Merged(bf, c, es) == MergeNodes(bf, c.(dirty := {}), Schedule(c.dirty, c.leafNum - 1), es)
  {
    hide Mergeable, MergeNodes, Shape, Schedule;
    MergeOrderMergeable(bf, c, es);
  }

  lemma NothingMerged(bf: nat, c: Cache, es: seq<MergeEnv>)
    requires Mergeable(bf, c, [], es)
    ensures MergeNodes(bf, c, [], es) == c
  {
  }

  /** The schedule is empty when nothing is dirty and otherwise ends with the root. */
  lemma ScheduleEnds(dirty: set<nat>, n: nat)
    requires n > 1 && forall d :: d in dirty ==> n <= d < 2 * n
    ensures var s := Schedule(dirty, n - 1);
      (s == [] <==> dirty == {}) && forall i :: 0 <= i < |s| ==> (s[i] == 1 <==> i == |s| - 1)
  {
    var s := Schedule(dirty, n - 1);
    hide Schedule;
    forall d | d in dirty
      ensures 1 in s
    {
      RootAbove(d);
      assert HasDirty(dirty, 1);
    }
    forall i | 0 <= i < |s|
      ensures HasDirty(dirty, s[i]) && s[i] >= 1 && dirty != {}
    {
      assert s[i] in s;
    }
    hide HasDirty;
    if dirty != {} {
      var d :| d in dirty;
      OneIsLast(s);
    } else {
      NothingScheduled(n - 1);
    }
  }

  lemma OneIsLast(s: seq<nat>)
    requires 1 in s && (forall i :: 0 <= i < |s| ==> s[i] >= 1) && forall i, k :: 0 <= i < k < |s| ==> s[i] > s[k]
    ensures forall i :: 0 <= i < |s| ==> (s[i] == 1 <==> i == |s| - 1)
  {
    var j :| 0 <= j < |s| && s[j] == 1;
    assert s[|s| - 1] <= s[j];
    assert j == |s| - 1;
  }

  lemma DirtyLeaves(bf: nat, c: Cache)
    requires Shape(bf, c)
    ensures forall d :: d in c.dirty ==> c.leafNum <= d < 2 * c.leafNum
  {
  }

  lemma MergeStep(m: nat, pid: nat, bf: nat, c: Cache, es: seq<MergeEnv>, conv: ConvEnv)
    requires m > 1 && Shape(bf, c) && RootSaved(c) && EnvSized(m, bf, conv)
    requires |es| == |MergeOrder(c)| && EnvsOk(bf, es)
    ensures var d := TreeMerge.ExecuteMerge(m, pid, bf, c, es, conv);
      Shape(bf, d) && RootSaved(d) && d.dirty == {} && d.leafNum == c.leafNum && d.phiF == c.phiF && d.phiR == c.phiR
  {
    MergeKeepsShape(m, pid, bf, c, es, conv);
    if c.leafNum > 0 {
      MergedShape(bf, c, es);
    }
    hide Shape, Merged;
  }

  lemma EnvsOf(bf: nat, c: Cache, s: seq<nat>, es: seq<MergeEnv>)
    requires Mergeable(bf, c, s, es)
    ensures |es| == |s|
  {
  }

  lemma MinusTwice<K, V>(m: map<K, V>, a: K, b: K)
    ensures m - {a} - {b} == m - {a, b}
  {
  }

  lemma LeaveOut(s: set<nat>, a: nat, b: nat)
    ensures s - {a} - {b} == s - {a, b}
  {
  }

  lemma CollapsedNodes(c: Cache)
    requires Bijective(c)
    ensures c.leafNum > 1 ==> c.leafNum - 1 in c.phiR && 2 * c.leafNum - 2 in c.phiR && 2 * c.leafNum - 1 in c.phiR
    ensures c.leafNum > 1 ==> c.phiR[2 * c.leafNum - 2] in c.phiF && c.phiR[2 * c.leafNum - 1] in c.phiF
  {
  }

  lemma LeafBounds(c: Cache, token: Token)
    requires Bijective(c) && IsLeaf(c, token)
    ensures 1 <= c.leafNum <= c.phiF[token] < 2 * c.leafNum
  {
  }

  lemma InsertStep(bf: nat, c: Cache, token: Token, inner: Token, node: RepVec)
    requires Shape(bf, c) && RootSaved(c) && Sized(bf, node) && token !in c.phiF && inner !in c.phiF && token != inner
    ensures c.leafNum > 0 ==> c.leafNum in c.phiR && c.phiR[c.leafNum] in c.phiF
    ensures Shape(bf, CacheState.Insert(c, token, inner, node)) && RootSaved(CacheState.Insert(c, token, inner, node))
  {
    LeafNumbered(c);
    InsertKeepsShape(bf, c, token, inner, node);
    hide Shape;
  }

  /** Only the files of the result depend on the vector and on the files before. */
  lemma InsertParts(c: Cache, token: Token, inner: Token, node: RepVec)
    requires c.leafNum > 0 ==> c.leafNum in c.phiR
    ensures var d, e := CacheState.Insert(c, token, inner, node), CacheState.Insert(c.(files := c.files[token := node]), token, inner, RepVec([], []));
      && d == c.(leafNum := e.leafNum, phiF := e.phiF, phiR := e.phiR, dirty := e.dirty, files := c.files[token := node])
  {
  }

  lemma RemoveStep(bf: nat, c: Cache, token: Token)
    requires Shape(bf, c) && RootSaved(c) && IsLeaf(c, token)
    ensures Bijective(c) && Shape(bf, CacheState.Remove(c, token)) && RootSaved(CacheState.Remove(c, token))
  {
    RemoveKeepsShape(bf, c, token);
    hide Shape;
  }

  lemma EmptyShape(bf: nat, root: RepVec)
    requires Sized(bf, root)
    ensures Shape(bf, EmptyCache(root)) && RootSaved(EmptyCache(root))
  {
  }
}
