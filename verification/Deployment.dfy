/** The manager and the three agents together.  The manager's machine says when the agents run an operation and for whom;
    the federation's says what it does to their trees.  Every run of the manager in which no outcome is uncertain is, on
    the agents, a run of the federation: each operation is possible when it is ordered, and the tokens in the manager's
    tables are the ones under which the agents know the leaves. */
module Deployment {
  import opened Options
  import opened Aby3
  import opened Aby3Vec
  import opened RingConv
  import opened CacheState
  import opened TrioTree
  import opened Federation
  import opened Ledger
  import opened Membership
  import F = Runs
  import M = ManagerRuns
  import S = Scheduler

  datatype Whole = Whole(w: S.World, s: Sys)

  /** A step of the manager, with what the agents do if it is the end of an operation or of a SYNC; or a restart of the
      agents, of which the manager learns nothing. */
  datatype Step = Manager(m: S.Step, f: Option<F.Step>) | Agents(lost: bool, blank: Trio<RepVec>, conv: Trio<ConvEnv>)

  function Named(token: Trio<Token>): map<Role, Token> {
    map[Steward := token.p0, Peer0 := token.p1, Peer1 := token.p2]
  }

  /** The agents know the user's leaf by these tokens. */
  predicate KnownAs(s: Sys, u: User, tokens: map<Role, Token>) {
    && u in s.r.p0.tokens && u in s.r.p1.tokens && u in s.r.p2.tokens
    && tokens == Named(Trio(s.r.p0.tokens[u], s.r.p1.tokens[u], s.r.p2.tokens[u]))
  }

  ghost predicate Linked(w: S.World, s: Sys) {
    w.leaves.Keys == s.live.Keys && forall u :: u in w.leaves ==> KnownAs(s, u, w.leaves[u])
  }

  predicate Cracking(pc: S.Pc) {
    pc.CrackFlag? || pc.CrackFailOp? || pc.CrackFailAll?
  }

  ghost predicate NoCrack(w: S.World) {
    !w.cracked && forall tid :: tid in w.threads ==> !Cracking(w.threads[tid])
  }

  ghost predicate Good(bf: nat, m: nat, x: Whole) {
    m > 1 && M.Inv(x.w) && F.Inv(bf, m, x.s) && Linked(x.w, x.s) && NoCrack(x.w)
  }

  /** Which step of the federation the agents take for this user and kind, and the tokens they answer with. */
  predicate Serves(user: User, kind: Kind, tokens: map<Role, Token>, f: Option<F.Step>) {
    match kind
    case JOIN => f.Some? && f.value.Join? && f.value.h == user && tokens == Named(f.value.token)
    case UPDATE => f.Some? && f.value.Refresh? && f.value.h == user
    case QUIT => f == Some(F.Quit(user))
    case QUERY => f == None
  }

  ghost predicate Matches(w: S.World, m: S.Step, f: Option<F.Step>) {
    match m
    case AgentsDone(tid, tokens) =>
      && tid in w.threads && w.threads[tid].Dispatched? && w.threads[tid].op in w.t.rows
      && Serves(w.t.rows[w.threads[tid].op].user, w.t.rows[w.threads[tid].op].kind, tokens, f)
    case SyncFinish(_) => f.Some? && f.value.Sync?
    case CrackBegin(_) => false
    case _ => f == None
  }

  /** What the holders, the channels and the token generators contribute: dealt filters, tokens not in use, delivered
      messages.  That the user has a leaf, or has none, is not among it. */
  ghost predicate Supplied(bf: nat, m: nat, s: Sys, f: F.Step)
    requires m > 1 && F.Inv(bf, m, s)
  {
    match f
    case Join(_, bits, draws, token, inner) =>
      && F.Dealt(bf, bits, draws) && Fresh(s.r.p0.cache, token.p0, inner.p0) && Fresh(s.r.p1.cache, token.p1, inner.p1)
      && Fresh(s.r.p2.cache, token.p2, inner.p2)
    case Refresh(_, bits, draws) => F.Dealt(bf, bits, draws)
    case Quit(_) => true
    case Sync(es, conv) => F.CanSync(bf, m, s, es, conv)
    case Restart(lost, blank, conv) => F.CanRestart(bf, m, s, lost, blank, conv)
  }

  ghost predicate CanTake(bf: nat, m: nat, x: Whole, step: Step)
    requires Good(bf, m, x)
  {
    match step
    case Manager(ms, f) => S.Enabled(x.w, ms) && Matches(x.w, ms, f) && (f.Some? ==> Supplied(bf, m, x.s, f.value))
    case Agents(lost, blank, conv) => F.CanRestart(bf, m, x.s, lost, blank, conv)
  }

  ghost function Take(bf: nat, m: nat, x: Whole, step: Step): Whole
    requires Good(bf, m, x) && CanTake(bf, m, x, step)
  {
    match step
    case Manager(ms, f) => Whole(S.Apply(x.w, ms), if f.Some? then F.Apply(bf, m, x.s, f.value) else x.s)
    case Agents(lost, blank, conv) => Whole(x.w, F.Apply(bf, m, x.s, F.Restart(lost, blank, conv)))
  }

  // ---- the ordered operation is possible ----

  /** The federation's precondition on the holder holds whenever the manager has the agents finish an operation, and an
      UPDATE or a QUIT was sent to each agent with that agent's token for the user's leaf. */
  lemma Induced(bf: nat, m: nat, x: Whole, ms: S.Step, f: F.Step)
    requires Good(bf, m, x) && S.Enabled(x.w, ms) && Matches(x.w, ms, Some(f)) && Supplied(bf, m, x.s, f)
    ensures F.Enabled(bf, m, x.s, f)
    ensures f.Refresh? || f.Quit? ==> KnownAs(x.s, f.h, x.w.threads[ms.tid].sent)
  {
    hide F.Inv, F.CanSync, F.CanRestart, F.Dealt, Fresh, M.Inv, KnownAs;
    if ms.AgentsDone? {
      var op := x.w.threads[ms.tid].op;
      M.DispatchedWork(x.w, ms.tid, op, x.w.threads[ms.tid].sent);
      assert x.w.t.rows[op].user in x.w.leaves <==> x.w.t.rows[op].user in x.s.live.Keys;
    }
  }

  // ---- the agents' side of a step ----

  lemma JoinMembers(bf: nat, m: nat, s: Sys, f: F.Step)
    requires m > 1 && F.Inv(bf, m, s) && F.Enabled(bf, m, s, f) && f.Join?
    ensures var t := F.Apply(bf, m, s, f);
      && t.live.Keys == s.live.Keys + {f.h}
      && t.r.p0.tokens == s.r.p0.tokens[f.h := f.token.p0] && t.r.p1.tokens == s.r.p1.tokens[f.h := f.token.p1]
      && t.r.p2.tokens == s.r.p2.tokens[f.h := f.token.p2]
  {
    hide F.Inv, F.CanJoin;
  }

  lemma RefreshMembers(bf: nat, m: nat, s: Sys, f: F.Step)
    requires m > 1 && F.Inv(bf, m, s) && F.Enabled(bf, m, s, f) && f.Refresh?
    ensures var t := F.Apply(bf, m, s, f);
      && t.live.Keys == s.live.Keys
      && t.r.p0.tokens == s.r.p0.tokens && t.r.p1.tokens == s.r.p1.tokens && t.r.p2.tokens == s.r.p2.tokens
  {
    hide F.Inv, F.ApplyUpdate, DealVec, SameLeaf, Places, IsLeaf;
    F.HolderTokens(bf, m, s, f.h);
    F.TokensOfLeaf(s, f.h);
    UpdateMembers(s, f.h, f.bits, DealVec(2, bf, f.bits, f.draws));
  }

  lemma UpdateMembers(s: Sys, h: Holder, bits: seq<nat>, node: Trio<RepVec>)
    requires h in s.live && F.HasLeaf(s.r.p0, h) && F.HasLeaf(s.r.p1, h) && F.HasLeaf(s.r.p2, h)
    ensures var t := F.ApplyUpdate(s, h, bits, node);
      && t.live.Keys == s.live.Keys
      && t.r.p0.tokens == s.r.p0.tokens && t.r.p1.tokens == s.r.p1.tokens && t.r.p2.tokens == s.r.p2.tokens
  {
    hide Update;
  }

  lemma QuitMembers(bf: nat, m: nat, s: Sys, f: F.Step)
    requires m > 1 && F.Inv(bf, m, s) && F.Enabled(bf, m, s, f) && f.Quit?
    ensures var t := F.Apply(bf, m, s, f);
      && t.live.Keys == s.live.Keys - {f.h}
      && t.r.p0.tokens == s.r.p0.tokens - {f.h} && t.r.p1.tokens == s.r.p1.tokens - {f.h} && t.r.p2.tokens == s.r.p2.tokens - {f.h}
  {
    hide F.Inv, SameLeaf;
  }

  lemma KeptMembers(bf: nat, m: nat, s: Sys, f: F.Step)
    requires m > 1 && F.Inv(bf, m, s) && F.Enabled(bf, m, s, f) && (f.Sync? || f.Restart?)
    ensures var t := F.Apply(bf, m, s, f);
      && t.live == s.live && t.r.p0.tokens == s.r.p0.tokens && t.r.p1.tokens == s.r.p1.tokens && t.r.p2.tokens == s.r.p2.tokens
  {
    hide F.Inv, F.CanSync, F.CanRestart;
  }

  // ---- the link ----

  lemma SameLink(w: S.World, v: S.World, s: Sys, t: Sys)
    requires Linked(w, s) && v.leaves == w.leaves && t.live.Keys == s.live.Keys
    requires t.r.p0.tokens == s.r.p0.tokens && t.r.p1.tokens == s.r.p1.tokens && t.r.p2.tokens == s.r.p2.tokens
    ensures Linked(v, t)
  {
  }

  lemma JoinLink(w: S.World, v: S.World, s: Sys, t: Sys, u: User, token: Trio<Token>)
    requires Linked(w, s) && v.leaves == w.leaves[u := Named(token)] && t.live.Keys == s.live.Keys + {u}
    requires t.r.p0.tokens == s.r.p0.tokens[u := token.p0] && t.r.p1.tokens == s.r.p1.tokens[u := token.p1]
    requires t.r.p2.tokens == s.r.p2.tokens[u := token.p2]
    ensures Linked(v, t)
  {
    hide Named;
    forall g | g in v.leaves
      ensures KnownAs(t, g, v.leaves[g])
    {
      assert g != u ==> KnownAs(s, g, w.leaves[g]);
    }
  }

  lemma QuitLink(w: S.World, v: S.World, s: Sys, t: Sys, u: User)
    requires Linked(w, s) && v.leaves == w.leaves - {u} && t.live.Keys == s.live.Keys - {u}
    requires t.r.p0.tokens == s.r.p0.tokens - {u} && t.r.p1.tokens == s.r.p1.tokens - {u} && t.r.p2.tokens == s.r.p2.tokens - {u}
    ensures Linked(v, t)
  {
    hide Named;
    forall g | g in v.leaves
      ensures KnownAs(t, g, v.leaves[g])
    {
      assert KnownAs(s, g, w.leaves[g]);
    }
  }

  /** The agents finish an operation: both sides record the same leaf under the same tokens. */
  lemma ServedLink(bf: nat, m: nat, x: Whole, tid: S.Tid, tokens: map<Role, Token>, f: Option<F.Step>)
    requires Good(bf, m, x) && S.Enabled(x.w, S.AgentsDone(tid, tokens)) && Matches(x.w, S.AgentsDone(tid, tokens), f)
    requires f.Some? ==> F.Enabled(bf, m, x.s, f.value)
    ensures Linked(S.Apply(x.w, S.AgentsDone(tid, tokens)), if f.Some? then F.Apply(bf, m, x.s, f.value) else x.s)
  {
    hide F.Inv, F.Enabled, F.Apply, M.Inv, Linked, S.DoAgentsDone;
    var w, op := x.w, x.w.threads[tid].op;
    var v, row := S.DoAgentsDone(w, tid, op, tokens), w.t.rows[op];
    M.AgentsDoneTables(w, tid, op, tokens);
    match row.kind
    case JOIN =>
      JoinMembers(bf, m, x.s, f.value);
      JoinLink(w, v, x.s, F.Apply(bf, m, x.s, f.value), row.user, f.value.token);
    case UPDATE =>
      RefreshMembers(bf, m, x.s, f.value);
      SameLink(w, v, x.s, F.Apply(bf, m, x.s, f.value));
    case QUIT =>
      QuitMembers(bf, m, x.s, f.value);
      QuitLink(w, v, x.s, F.Apply(bf, m, x.s, f.value), row.user);
    case QUERY => SameLink(w, v, x.s, x.s);
  }

  lemma LeavesKept(w: S.World, ms: S.Step)
    requires S.Enabled(w, ms) && !ms.AgentsDone?
    ensures S.Apply(w, ms).leaves == w.leaves
  {
    if ms.Commit? {
      CommitUsers(w, ms.tid, w.threads[ms.tid].op, w.threads[ms.tid].tokens);
      hide S.DoCommit;
    } else {
      UsersKept(w, ms);
      hide S.Apply;
    }
  }

  lemma StepLink(bf: nat, m: nat, x: Whole, ms: S.Step, f: Option<F.Step>)
    requires Good(bf, m, x) && S.Enabled(x.w, ms) && Matches(x.w, ms, f) && (f.Some? ==> F.Enabled(bf, m, x.s, f.value))
    ensures Linked(S.Apply(x.w, ms), if f.Some? then F.Apply(bf, m, x.s, f.value) else x.s)
  {
    hide F.Inv, F.Enabled, F.Apply, M.Inv, Linked, S.Apply, S.Enabled;
    if ms.AgentsDone? {
      ServedLink(bf, m, x, ms.tid, ms.tokens, f);
    } else {
      LeavesKept(x.w, ms);
      if f.Some? {
        KeptMembers(bf, m, x.s, f.value);
        SameLink(x.w, S.Apply(x.w, ms), x.s, F.Apply(bf, m, x.s, f.value));
      } else {
        SameLink(x.w, S.Apply(x.w, ms), x.s, x.s);
      }
    }
  }

  // ---- no crack begins ----

  /** Whatever is recorded for a JOIN came with all three tokens. */
  lemma AllTokens(w: S.World, s: Sys, tid: S.Tid)
    requires M.Inv(w) && Linked(w, s) && NoCrack(w) && tid in w.threads && w.threads[tid].Committing?
    requires w.threads[tid].op in w.t.rows && w.t.rows[w.threads[tid].op].kind == JOIN
    ensures w.threads[tid].tokens.Keys == AllRoles()
  {
    hide S.Control, Pending, JoinsOk, WorkOk, SentOk, LeavesOk, TokensOk, M.CrackOk;
    assert !Uncertain(w);
    var u := w.t.rows[w.threads[tid].op].user;
    assert InRows(w.t, w.threads[tid].op, JOIN);
    assert KnownAs(s, u, w.leaves[u]);
  }

  /** A thread leaves or moves to a stage that is not a crack, or one more starts. */
  lemma CalmMove(w: S.World, v: S.World, tid: S.Tid)
    requires NoCrack(w) && v.cracked == w.cracked && (tid in v.threads ==> !Cracking(v.threads[tid]))
    requires forall o :: o in v.threads && o != tid ==> (o in w.threads && v.threads[o] == w.threads[o]) || !Cracking(v.threads[o])
    ensures NoCrack(v)
  {
  }

  lemma CalmStep(x: Whole, ms: S.Step)
    requires M.Inv(x.w) && Linked(x.w, x.s) && NoCrack(x.w) && S.Enabled(x.w, ms) && !ms.CrackBegin?
    ensures NoCrack(S.Apply(x.w, ms))
  {
    hide M.Inv, Linked, S.DoReserve, S.DoPrecheck, S.DoEnqueue, S.DoPoll, S.DoPromote, S.DoStart, S.DoCmdSync, S.DoSyncStart;
    hide S.DoCheckTokens, S.DoAgentsDone, S.DoCommit, S.SameMembers, QueueOk;
    var w, v, tid := x.w, S.Apply(x.w, ms), M.Actor(ms);
    if ms.Precheck? {
      PrecheckKnows(w, tid, w.threads[tid].op, w.threads[tid].seen);
    } else if ms.Enqueue? {
      EnqueuedParts(w, tid, w.threads[tid].op);
    } else if ms.Poll? {
      PolledThreads(w, tid, w.threads[tid].op);
    } else if ms.Promote? {
      M.PromotedThreads(w, tid, w.threads[tid].op, ms.stale);
    } else if ms.Start? {
      StartedParts(w, tid, w.threads[tid].op, ms.worker, ms.reserved);
    } else if ms.SyncStart? {
      SyncThreads(w, tid);
    } else if ms.CheckTokens? {
      CheckTokensThreads(w, tid, w.threads[tid].op);
    } else if ms.AgentsDone? {
      M.AgentsDoneTables(w, tid, w.threads[tid].op, ms.tokens);
    } else if ms.Commit? {
      CommitIs(w, tid, w.threads[tid].op, w.threads[tid].tokens);
      if w.t.rows[w.threads[tid].op].kind == JOIN {
        AllTokens(w, x.s, tid);
      }
    }
    CalmMove(w, v, tid);
  }

  lemma PolledThreads(w: S.World, tid: S.Tid, op: OpId)
    requires op in w.t.rows
    ensures var v := S.DoPoll(w, tid, op);
      v.threads == w.threads - {tid} || v.threads == w.threads[tid := S.Promoting(op)] || v.threads == w.threads[tid := S.Starting(op)]
  {
    hide S.SameMembers;
  }

  lemma SyncThreads(w: S.World, tid: S.Tid)
    ensures var v := S.DoSyncStart(w, tid);
      v.threads == w.threads || v.threads == w.threads[tid := S.SyncRunning]
  {
    hide S.SameMembers, S.NoneActive;
  }

  // ---- every joint run ----

  lemma TakeGood(bf: nat, m: nat, x: Whole, step: Step)
    requires Good(bf, m, x) && CanTake(bf, m, x, step)
    ensures Good(bf, m, Take(bf, m, x, step))
    ensures step.Manager? && step.f.Some? ==> F.Enabled(bf, m, x.s, step.f.value)
    ensures step.Agents? ==> F.Enabled(bf, m, x.s, F.Restart(step.lost, step.blank, step.conv))
  {
    hide M.Inv, F.Inv, Linked, NoCrack, S.Enabled, S.Apply, F.Apply, F.CanRestart, Matches, Supplied;
    match step
    case Manager(ms, f) =>
      if f.Some? {
        Induced(bf, m, x, ms, f.value);
        F.StepKeepsInv(bf, m, x.s, f.value);
      }
      M.StepInv(x.w, ms);
      StepLink(bf, m, x, ms, f);
      NotCrackBegin(x.w, ms, f);
      CalmStep(x, ms);
    case Agents(lost, blank, conv) =>
      var f := F.Restart(lost, blank, conv);
      F.StepKeepsInv(bf, m, x.s, f);
      KeptMembers(bf, m, x.s, f);
      SameLink(x.w, x.w, x.s, F.Apply(bf, m, x.s, f));
  }

  lemma NotCrackBegin(w: S.World, ms: S.Step, f: Option<F.Step>)
    requires Matches(w, ms, f)
    ensures !ms.CrackBegin?
  {
  }

  ghost predicate Run(bf: nat, m: nat, x: Whole, steps: seq<Step>, y: Whole)
    requires Good(bf, m, x)
    decreases |steps|
  {
    if steps == [] then y == x
    else
      && CanTake(bf, m, x, steps[0])
      && (TakeGood(bf, m, x, steps[0]);
          Run(bf, m, Take(bf, m, x, steps[0]), steps[1..], y))
  }

  /** What the agents did, in order. */
  function OnAgents(steps: seq<Step>): seq<F.Step> {
    if steps == [] then []
    else
      (match steps[0]
       case Manager(_, f) => if f.Some? then [f.value] else []
       case Agents(lost, blank, conv) => [F.Restart(lost, blank, conv)])
      + OnAgents(steps[1..])
  }

  /** What the manager did, in order. */
  function OnManager(steps: seq<Step>): seq<S.Step> {
    if steps == [] then [] else (if steps[0].Manager? then [steps[0].m] else []) + OnManager(steps[1..])
  }

  /** A joint run is a run of the manager and, on the agents, a run of the federation; the tables and the trees stay
      linked. */
  lemma {:induction false} RunInduces(bf: nat, m: nat, x: Whole, steps: seq<Step>, y: Whole)
    requires Good(bf, m, x) && Run(bf, m, x, steps, y)
    ensures Good(bf, m, y) && M.Run(x.w, OnManager(steps), y.w) && F.Run(bf, m, x.s, OnAgents(steps), y.s)
    decreases |steps|
  {
    hide Linked, NoCrack, M.Inv, F.Inv, CanTake, Run, S.Enabled, S.Apply, F.Enabled, F.Apply, F.Run, M.Run;
    if steps == [] {
      RunOver(bf, m, x, y);
    } else {
      RunOn(bf, m, x, steps, y);
      TakeGood(bf, m, x, steps[0]);
      var z := Take(bf, m, x, steps[0]);
      RunInduces(bf, m, z, steps[1..], y);
      ManagerOn(bf, m, x, steps, y);
      AgentsOn(bf, m, x, steps, y);
    }
  }

  lemma RunOver(bf: nat, m: nat, x: Whole, y: Whole)
    requires Good(bf, m, x) && Run(bf, m, x, [], y)
    ensures y == x && M.Run(x.w, [], y.w) && F.Run(bf, m, x.s, [], y.s)
  {
    hide M.Inv, F.Inv, Linked, NoCrack;
  }

  lemma RunOn(bf: nat, m: nat, x: Whole, steps: seq<Step>, y: Whole)
    requires Good(bf, m, x) && steps != [] && Run(bf, m, x, steps, y)
    ensures CanTake(bf, m, x, steps[0]) && Good(bf, m, Take(bf, m, x, steps[0]))
    ensures Run(bf, m, Take(bf, m, x, steps[0]), steps[1..], y)
  {
    hide Good, CanTake, Take;
    TakeGood(bf, m, x, steps[0]);
  }

  lemma ManagerOn(bf: nat, m: nat, x: Whole, steps: seq<Step>, y: Whole)
    requires Good(bf, m, x) && steps != [] && CanTake(bf, m, x, steps[0])
    requires M.Run(Take(bf, m, x, steps[0]).w, OnManager(steps[1..]), y.w)
    ensures M.Run(x.w, OnManager(steps), y.w)
  {
    hide M.Inv, F.Inv, Linked, NoCrack, S.Enabled, S.Apply, F.CanRestart, Matches, Supplied;
    if steps[0].Manager? {
      ManagerCons(x.w, steps[0].m, OnManager(steps[1..]), y.w);
    } else {
      assert OnManager(steps) == OnManager(steps[1..]);
    }
  }

  lemma ManagerCons(w: S.World, ms: S.Step, rest: seq<S.Step>, v: S.World)
    requires S.Enabled(w, ms) && M.Run(S.Apply(w, ms), rest, v)
    ensures M.Run(w, [ms] + rest, v)
  {
    hide S.Enabled, S.Apply;
    assert ([ms] + rest)[1..] == rest;
  }

  lemma AgentsOn(bf: nat, m: nat, x: Whole, steps: seq<Step>, y: Whole)
    requires Good(bf, m, x) && steps != [] && CanTake(bf, m, x, steps[0]) && Good(bf, m, Take(bf, m, x, steps[0]))
    requires F.Run(bf, m, Take(bf, m, x, steps[0]).s, OnAgents(steps[1..]), y.s)
    ensures F.Run(bf, m, x.s, OnAgents(steps), y.s)
  {
    hide M.Inv, F.Inv, Linked, NoCrack, S.Enabled, S.Apply, F.Enabled, F.Apply, F.CanRestart, Matches, Supplied, F.Run;
    TakeGood(bf, m, x, steps[0]);
    match steps[0]
    case Manager(_, f) =>
      if f.Some? {
        AgentsCons(bf, m, x.s, f.value, OnAgents(steps[1..]), y.s);
      } else {
        assert OnAgents(steps) == OnAgents(steps[1..]);
      }
    case Agents(lost, blank, conv) => AgentsCons(bf, m, x.s, F.Restart(lost, blank, conv), OnAgents(steps[1..]), y.s);
  }

  lemma AgentsCons(bf: nat, m: nat, s: Sys, f: F.Step, rest: seq<F.Step>, t: Sys)
    requires m > 1 && F.Inv(bf, m, s) && F.Enabled(bf, m, s, f) && F.Inv(bf, m, F.Apply(bf, m, s, f))
    requires F.Run(bf, m, F.Apply(bf, m, s, f), rest, t)
    ensures F.Run(bf, m, s, [f] + rest, t)
  {
    hide F.Inv, F.Enabled, F.Apply;
    F.StepKeepsInv(bf, m, s, f);
    assert ([f] + rest)[1..] == rest;
  }

  /** A fresh database and three empty caches. */
  ghost predicate Initial(bf: nat, x: Whole) {
    M.Initial(x.w) && F.Initial(bf, x.s)
  }

  lemma InitialGood(bf: nat, m: nat, x: Whole)
    requires m > 1 && Initial(bf, x)
    ensures Good(bf, m, x)
  {
    M.InitialInv(x.w);
    F.InitialInv(bf, m, x.s);
    hide M.Inv, F.Inv;
  }

  lemma AgentsAtFirst(bf: nat, m: nat, x: Whole)
    requires Initial(bf, x) && Good(bf, m, x)
    ensures m > 1 && F.Initial(bf, x.s) && F.Inv(bf, m, x.s)
  {
    hide M.Inv, F.Inv, F.Initial, M.Initial, Linked;
  }

  /** No operation is in progress. */
  ghost predicate Quiet(x: Whole) {
    forall tid :: tid in x.w.threads ==> !S.IsService(x.w.threads[tid])
  }

  ghost predicate EndsInSync(steps: seq<Step>) {
    var acts := OnAgents(steps);
    acts != [] && acts[|acts| - 1].Sync?
  }

  /** Whenever no operation is in progress, the users the manager calls JOINED are exactly the holders whose leaves the
      agents have, under the tokens the manager has stored; and if the agents' last action was a SYNC, the three published
      roots are a sharing of the union of these users' filters. */
  lemma JoinedUsersAreServed(bf: nat, m: nat, x: Whole, steps: seq<Step>, y: Whole)
    requires Initial(bf, x) && Good(bf, m, x) && Run(bf, m, x, steps, y) && Quiet(y)
    ensures forall u :: u in y.s.live <==> u in y.w.t.users && y.w.t.users[u] == Joined
    ensures forall u :: u in y.s.live ==> u in y.w.t.tokens && KnownAs(y.s, u, y.w.t.tokens[u])
    ensures EndsInSync(steps) ==> RootOpens(m, bf, Roots(F.Caches(y.s)), Union(y.s.live))
  {
    hide Run, M.Inv, F.Inv, M.Run, F.Run, RootOpens, F.Initial, KnownAs;
    RunInduces(bf, m, x, steps, y);
    M.MembersHaveLeaves(x.w, OnManager(steps), y.w);
    F.RunPublishesUnion(bf, m, x.s, OnAgents(steps), y.s);
    assert forall u :: u in y.w.leaves <==> u in y.s.live.Keys;
  }
}
