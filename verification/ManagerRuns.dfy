/** All runs of the manager. */
module ManagerRuns {
  import opened Options
  import opened Ledger
  import opened Scheduler
  import opened SchedulerSafety
  import opened Membership

  // ---- operations on the agents ----

  lemma WorkStep(w: World, step: Step)
    requires Control(w) && TokensOk(w.t) && WorkOk(w) && Enabled(w, step)
    ensures WorkOk(Apply(w, step))
  {
    if step.CheckTokens? {
      CheckTokensWork(w, step.tid, w.threads[step.tid].op);
    } else if step.AgentsDone? {
      AgentsDoneWork(w, step);
    } else if step.Commit? {
      CommitWork(w, step.tid, w.threads[step.tid].op, w.threads[step.tid].tokens);
    } else {
      OtherWork(w, step);
    }
  }

  lemma CheckTokensWork(w: World, tid: Tid, op: OpId)
    requires Control(w) && TokensOk(w.t) && WorkOk(w) && tid in w.threads && w.threads[tid] == Preflight(op) && op in w.t.rows
    ensures WorkOk(DoCheckTokens(w, tid, op))
  {
    ServiceAlone(w, tid);
    UserOf(w, op);
    hide Control;
    var x := DoCheckTokens(w, tid, op);
    assert forall o :: o in x.threads && OnAgents(x.threads[o]) ==> o == tid;
    if tid in x.threads {
      assert w.t.rows[op].kind == UPDATE || w.t.rows[op].kind == QUIT ==> Steward in TokensOf(w.t, w.t.rows[op].user);
      assert WorkFits(w.t, op);
    }
  }

  lemma AgentsDoneWork(w: World, step: Step)
    requires Control(w) && WorkOk(w) && Enabled(w, step) && step.AgentsDone?
    ensures WorkOk(Apply(w, step))
  {
    hide Control;
    var x := Apply(w, step);
    assert x.t == w.t;
    assert OnAgents(w.threads[step.tid]);
  }

  lemma CommitWork(w: World, tid: Tid, op: OpId, tokens: map<Role, Token>)
    requires Control(w) && tid in w.threads && w.threads[tid] == Committing(op, tokens) && op in w.t.rows
    ensures WorkOk(DoCommit(w, tid, op, tokens))
  {
    ServiceAlone(w, tid);
    CommitUsers(w, tid, op, tokens);
    hide Control, DoCommit;
    var x := DoCommit(w, tid, op, tokens);
    assert forall o :: o in x.threads && OnAgents(x.threads[o]) ==> o == tid;
  }

  lemma OtherWork(w: World, step: Step)
    requires Control(w) && WorkOk(w) && Enabled(w, step) && !step.CheckTokens? && !step.AgentsDone? && !step.Commit?
    ensures WorkOk(Apply(w, step))
  {
    StepForward(w, step);
    SameUsers(w, step);
    AgentsBefore(w, step);
    hide Apply;
    var x := Apply(w, step);
    forall tid | tid in x.threads && OnAgents(x.threads[tid]) && x.threads[tid].op in x.t.rows
      ensures WorkFits(x.t, x.threads[tid].op)
    {
      var op := x.threads[tid].op;
      assert Serves(w.threads[tid], op);
      assert HasStatus(w.t, op, BUSY);
      assert RowForward(w.t.rows[op], x.t.rows[op]);
    }
  }

  lemma AgentsBefore(w: World, step: Step)
    requires Enabled(w, step) && !step.CheckTokens? && !step.AgentsDone?
    ensures forall tid :: tid in Apply(w, step).threads && OnAgents(Apply(w, step).threads[tid]) ==> At(w, tid, Apply(w, step).threads[tid])
  {
    if step.Reserve? || step.Resolve? || step.CheckCracked? || step.Precheck? {
    } else {
      StepNothingNew(w, step);
      hide Apply;
      var x := Apply(w, step);
      forall tid | tid in x.threads && OnAgents(x.threads[tid])
        ensures At(w, tid, x.threads[tid])
      {
        assert Tracked(x.threads[tid]);
      }
    }
  }

  // ---- leaves ----

  lemma LeavesStep(w: World, step: Step)
    requires Control(w) && TokensOk(w.t) && LeavesOk(w) && Enabled(w, step)
    ensures LeavesOk(Apply(w, step))
  {
    if step.AgentsDone? {
      AgentsDoneLeaves(w, step.tid, w.threads[step.tid].op, step.tokens);
    } else if step.Commit? {
      CommitLeaves(w, step.tid, w.threads[step.tid].op, w.threads[step.tid].tokens);
    } else if step.CrackBegin? {
      CrackBeginLeaves(w, step);
    } else {
      OtherLeaves(w, step);
    }
  }

  lemma AloneNotPending(w: World, tid: Tid)
    requires Control(w) && tid in w.threads && IsService(w.threads[tid])
    ensures forall u: User, kind: Kind :: Pending(w, u, kind) <==> w.threads[tid].Committing? && IsFor(w.t, w.threads[tid].op, u, kind)
  {
  }

  lemma AgentsDoneLeaves(w: World, tid: Tid, op: OpId, tokens: map<Role, Token>)
    requires Control(w) && LeavesOk(w) && tid in w.threads && w.threads[tid].Dispatched? && w.threads[tid].op == op && op in w.t.rows
    ensures LeavesOk(DoAgentsDone(w, tid, op, tokens))
  {
    hide Control, LeavesOk, Pending, DoAgentsDone;
    AgentsDoneControl(w, tid, tokens);
    var x := DoAgentsDone(w, tid, op, tokens);
    AloneNotPending(w, tid);
    AloneNotPending(x, tid);
    CertainWith(w, tid);
    UserOf(w, op);
    AgentsDoneTables(w, tid, op, tokens);
    FinishedLeaves(w, x, op);
  }

  /** While a service thread has not begun to crack the task nothing is uncertain. */
  lemma CertainWith(w: World, tid: Tid)
    requires Control(w) && tid in w.threads && OnAgents(w.threads[tid])
    ensures !Uncertain(w)
  {
    hide Control;
    ServiceAlone(w, tid);
  }

  lemma AgentsDoneTables(w: World, tid: Tid, op: OpId, tokens: map<Role, Token>)
    requires op in w.t.rows
    ensures var x, row := DoAgentsDone(w, tid, op, tokens), w.t.rows[op];
      && x.t == w.t && x.threads == w.threads[tid := Committing(op, tokens)]
      && x.leaves == if row.kind == JOIN then w.leaves[row.user := tokens]
                     else if row.kind == QUIT then w.leaves - {row.user} else w.leaves
  {
  }

  lemma FinishedLeaves(w: World, x: World, op: OpId)
    requires LeavesOk(w) && !Uncertain(w) && op in w.t.rows && w.t.rows[op].user in w.t.users && x.t == w.t
    requires forall u: User, kind: Kind :: !Pending(w, u, kind)
    requires forall u: User, kind: Kind :: Pending(x, u, kind) <==> IsFor(w.t, op, u, kind)
    requires var row := w.t.rows[op];
      x.leaves.Keys == if row.kind == JOIN then w.leaves.Keys + {row.user}
                       else if row.kind == QUIT then w.leaves.Keys - {row.user} else w.leaves.Keys
    ensures LeavesOk(x)
  {
    hide Pending, Uncertain;
  }

  lemma CommitLeaves(w: World, tid: Tid, op: OpId, tokens: map<Role, Token>)
    requires Control(w) && LeavesOk(w) && tid in w.threads && w.threads[tid] == Committing(op, tokens) && op in w.t.rows
    ensures LeavesOk(DoCommit(w, tid, op, tokens))
  {
    hide Control, DoCommit, LeavesOk, Pending, TokensOf;
    AloneNotPending(w, tid);
    CertainWith(w, tid);
    UserOf(w, op);
    CommitUsers(w, tid, op, tokens);
    var x := DoCommit(w, tid, op, tokens);
    if tid in x.threads {
      assert AboutToCrack(x.threads[tid]);
      UncertainLeaves(w, x);
    } else {
      NonePending(w, x, tid);
      RecordedLeaves(w, x, op);
    }
  }

  lemma UncertainLeaves(w: World, x: World)
    requires LeavesOk(w) && Uncertain(x) && x.leaves == w.leaves && x.t.users == w.t.users
    ensures LeavesOk(x)
  {
    hide Pending, Uncertain;
  }

  /** With the one service thread gone nothing is being recorded. */
  lemma NonePending(w: World, x: World, tid: Tid)
    requires Control(w) && tid in w.threads && IsService(w.threads[tid]) && x.threads == w.threads - {tid}
    ensures forall u: User, kind: Kind :: !Pending(x, u, kind)
    ensures forall o :: o in x.threads ==> !IsService(x.threads[o])
  {
    ServiceAlone(w, tid);
    hide Control;
  }

  lemma RecordedLeaves(w: World, x: World, op: OpId)
    requires LeavesOk(w) && !Uncertain(w) && op in w.t.rows && w.t.rows[op].user in w.t.users && x.leaves == w.leaves
    requires forall u: User, kind: Kind :: Pending(w, u, kind) <==> IsFor(w.t, op, u, kind)
    requires forall u: User, kind: Kind :: !Pending(x, u, kind)
    requires var row := w.t.rows[op];
      x.t.users == if row.kind == JOIN then w.t.users[row.user := Joined]
                   else if row.kind == QUIT then w.t.users[row.user := Quitted] else w.t.users
    ensures LeavesOk(x)
  {
    hide Pending, Uncertain;
  }

  lemma CrackBeginLeaves(w: World, step: Step)
    requires Control(w) && LeavesOk(w) && Enabled(w, step) && step.CrackBegin?
    ensures LeavesOk(Apply(w, step))
  {
    hide Control, LeavesOk;
    ServiceAlone(w, step.tid);
    var x := Apply(w, step);
    if w.threads[step.tid].SyncRunning? {
      assert !Uncertain(w);
      NotCommitting(w);
      NotCommitting(x);
      SameLeaves(w, x);
    } else {
      assert AboutToCrack(x.threads[step.tid]);
      UncertainLeaves(w, x);
    }
  }

  lemma NotCommitting(w: World)
    requires forall o :: o in w.threads ==> !w.threads[o].Committing?
    ensures forall u: User, kind: Kind :: !Pending(w, u, kind)
  {
  }

  lemma SameLeaves(w: World, x: World)
    requires LeavesOk(w) && !Uncertain(w) && x.leaves == w.leaves && x.t.users == w.t.users
    requires forall u: User, kind: Kind :: !Pending(w, u, kind) && !Pending(x, u, kind)
    ensures LeavesOk(x)
  {
    hide Pending, Uncertain;
  }

  /** The thread that takes the step; a reservation or a SYNC command is no thread of the model. */
  function Actor(step: Step): Tid {
    match step
    case Reserve(_, _, _) => 0
    case CmdSync(_) => 0
    case Resolve(tid, _) => tid
    case CheckCracked(tid) => tid
    case Precheck(tid) => tid
    case Enqueue(tid) => tid
    case Poll(tid) => tid
    case Promote(tid, _) => tid
    case Start(tid, _, _) => tid
    case StartFails(tid) => tid
    case Abandon(tid) => tid
    case SyncStart(tid) => tid
    case SyncFinish(tid) => tid
    case CheckTokens(tid) => tid
    case AgentsDone(tid, _) => tid
    case Commit(tid) => tid
    case CrackBegin(tid) => tid
    case CrackSetFlag(tid) => tid
    case CrackFailOne(tid) => tid
    case CrackFailRest(tid) => tid
  }

  ghost predicate KeptExcept(w: World, x: World, tid: Tid) {
    forall o :: o in w.threads && o != tid ==> At(x, o, w.threads[o])
  }

  lemma RequestKept(w: World, step: Step)
    requires Enabled(w, step)
    requires step.Reserve? || step.Resolve? || step.CheckCracked? || step.Precheck? || step.Enqueue? || step.Poll? || step.Abandon? || step.CmdSync?
    ensures KeptExcept(w, Apply(w, step), Actor(step)) && Apply(w, step).cracked == w.cracked
    ensures step.Reserve? || step.CmdSync? ==> Apply(w, step).threads == w.threads
  {
    hide BusinessOk, Rivals, Ledger.Enqueue, SameMembers, DoEnqueue, DoPoll, DoPrecheck;
    match step
    case Precheck(tid) => PrecheckKept(w, tid, w.threads[tid].op, w.threads[tid].seen);
    case Enqueue(tid) => EnqueueKept(w, tid, w.threads[tid].op);
    case Poll(tid) => PollKept(w, tid, w.threads[tid].op);
    case _ =>
  }

  lemma PrecheckKept(w: World, tid: Tid, op: OpId, seen: Status)
    requires op in w.t.rows
    ensures KeptExcept(w, DoPrecheck(w, tid, op, seen), tid) && DoPrecheck(w, tid, op, seen).cracked == w.cracked
  {
    hide BusinessOk, SameMembers;
  }

  lemma EnqueueKept(w: World, tid: Tid, op: OpId)
    requires op in w.t.rows
    ensures KeptExcept(w, DoEnqueue(w, tid, op), tid) && DoEnqueue(w, tid, op).cracked == w.cracked
  {
    hide Ledger.Enqueue, SameMembers;
  }

  lemma PollKept(w: World, tid: Tid, op: OpId)
    requires op in w.t.rows
    ensures KeptExcept(w, DoPoll(w, tid, op), tid) && DoPoll(w, tid, op).cracked == w.cracked
  {
    hide SameMembers;
  }

  lemma ActivationKept(w: World, step: Step)
    requires Enabled(w, step) && (step.Promote? || step.Start? || step.StartFails? || step.SyncStart?)
    ensures KeptExcept(w, Apply(w, step), Actor(step)) && Apply(w, step).cracked == w.cracked
  {
    hide QueueOk, KeptExcept, DoPromote, DoStart, SameMembers, NoneActive;
    var x, tid := Apply(w, step), Actor(step);
    if step.Promote? {
      PromotedThreads(w, tid, w.threads[tid].op, step.stale);
      MovedKept(w, x, tid);
    } else if step.Start? {
      StartedParts(w, tid, w.threads[tid].op, step.worker, step.reserved);
      StartedKept(w, x, tid, step.worker, w.threads[tid].op);
    } else {
      MovedKept(w, x, tid);
    }
  }

  lemma PromotedThreads(w: World, tid: Tid, op: OpId, stale: nat)
    requires QueueOk(w.t)
    ensures var x := DoPromote(w, tid, op, stale);
      x.threads == w.threads - {tid} || x.threads == w.threads[tid := Starting(op)]
  {
    hide QueueOk, Evicted, NoneActive, Ledger.Promote, SameMembers;
  }

  /** A thread leaves or moves, and no other. */
  lemma MovedKept(w: World, x: World, tid: Tid)
    requires x.threads == w.threads || x.threads == w.threads - {tid} || (tid in x.threads && x.threads == w.threads[tid := x.threads[tid]])
    ensures KeptExcept(w, x, tid)
  {
  }

  lemma StartedKept(w: World, x: World, tid: Tid, worker: Tid, op: OpId)
    requires worker !in w.threads
    requires x.threads == w.threads - {tid} || x.threads == (w.threads - {tid})[worker := Preflight(op)]
    ensures KeptExcept(w, x, tid)
  {
  }

  lemma WorkKept(w: World, step: Step)
    requires Enabled(w, step) && (step.SyncFinish? || step.CheckTokens? || step.AgentsDone? || step.Commit? || step.CrackBegin?)
    ensures KeptExcept(w, Apply(w, step), Actor(step)) && Apply(w, step).cracked == w.cracked
  {
    hide KeptExcept, DoCheckTokens, DoAgentsDone, DoCommit, SameMembers, TokensOf;
    var x, tid := Apply(w, step), Actor(step);
    if step.CheckTokens? {
      CheckTokensThreads(w, tid, w.threads[tid].op);
    } else if step.Commit? {
      CommitUsers(w, tid, w.threads[tid].op, w.threads[tid].tokens);
    }
    MovedKept(w, x, tid);
  }

  lemma CrackKept(w: World, step: Step)
    requires Enabled(w, step) && (step.CrackSetFlag? || step.CrackFailOne? || step.CrackFailRest?)
    ensures KeptExcept(w, Apply(w, step), Actor(step)) && (w.cracked ==> Apply(w, step).cracked)
  {
    hide Finish, FailAllLive, KeptExcept, SameMembers;
    MovedKept(w, Apply(w, step), Actor(step));
  }

  /** A step moves no thread but the one that takes it, and only a crack sets the flag. */
  lemma StepKept(w: World, step: Step)
    requires Enabled(w, step)
    ensures KeptExcept(w, Apply(w, step), Actor(step)) && (w.cracked ==> Apply(w, step).cracked)
    ensures step.Reserve? || step.CmdSync? ==> Apply(w, step).threads == w.threads
    ensures !step.CrackSetFlag? && !step.CrackFailOne? && !step.CrackFailRest? ==> Apply(w, step).cracked == w.cracked
  {
    hide KeptExcept, Apply;
    if step.Promote? || step.Start? || step.StartFails? || step.SyncStart? {
      ActivationKept(w, step);
    } else if step.SyncFinish? || step.CheckTokens? || step.AgentsDone? || step.Commit? || step.CrackBegin? {
      WorkKept(w, step);
    } else if step.CrackSetFlag? || step.CrackFailOne? || step.CrackFailRest? {
      CrackKept(w, step);
    } else {
      RequestKept(w, step);
    }
  }

  /** Operations being recorded and uncertain outcomes stay what they are. */
  lemma PendingKept(w: World, step: Step)
    requires Enabled(w, step) && !step.AgentsDone? && !step.Commit? && !step.CrackBegin?
    ensures forall tid :: tid in w.threads && w.threads[tid].Committing? ==> At(Apply(w, step), tid, w.threads[tid])
    ensures Uncertain(w) ==> Uncertain(Apply(w, step))
  {
    StepKept(w, step);
    if !step.CrackSetFlag? {
      hide Apply;
    }
  }

  lemma OtherLeaves(w: World, step: Step)
    requires Control(w) && LeavesOk(w) && Enabled(w, step) && !step.AgentsDone? && !step.Commit? && !step.CrackBegin?
    ensures LeavesOk(Apply(w, step))
  {
    UsersKept(w, step);
    StepForward(w, step);
    PendingKept(w, step);
    CommittingBefore(w, step);
    hide Apply, Pending, Forward;
    SamePendings(w, Apply(w, step));
    hide Control;
  }

  lemma CommittingBefore(w: World, step: Step)
    requires Enabled(w, step) && !step.AgentsDone?
    ensures forall tid :: tid in Apply(w, step).threads && Apply(w, step).threads[tid].Committing? ==> At(w, tid, Apply(w, step).threads[tid])
  {
    if step.CheckTokens? {
    } else {
      AgentsBefore(w, step);
      hide Apply;
      forall tid | tid in Apply(w, step).threads && Apply(w, step).threads[tid].Committing?
        ensures At(w, tid, Apply(w, step).threads[tid])
      {
        assert OnAgents(Apply(w, step).threads[tid]);
      }
    }
  }

  lemma SamePending(w: World, x: World, u: User, kind: Kind)
    requires ServiceOk(w) && Forward(w.t, x.t)
    requires forall tid :: tid in w.threads && w.threads[tid].Committing? ==> At(x, tid, w.threads[tid])
    requires forall tid :: tid in x.threads && x.threads[tid].Committing? ==> At(w, tid, x.threads[tid])
    ensures Pending(x, u, kind) <==> Pending(w, u, kind)
  {
    forall tid | tid in w.threads && w.threads[tid].Committing?
      ensures IsFor(x.t, w.threads[tid].op, u, kind) <==> IsFor(w.t, w.threads[tid].op, u, kind)
    {
      assert Serves(w.threads[tid], w.threads[tid].op);
      assert HasStatus(w.t, w.threads[tid].op, BUSY);
      assert RowForward(w.t.rows[w.threads[tid].op], x.t.rows[w.threads[tid].op]);
    }
  }

  // ---- tokens on the agents and in the tables ----

  lemma SentStep(w: World, step: Step)
    requires Control(w) && SentOk(w) && Enabled(w, step)
    ensures SentOk(Apply(w, step))
  {
    hide Control, SentFits;
    if step.CheckTokens? {
      CheckTokensSent(w, step.tid, w.threads[step.tid].op);
    } else if step.AgentsDone? {
    } else if step.Commit? {
      hide Apply;
      CommitSent(w, step);
    } else {
      hide Apply;
      OtherSent(w, step);
    }
  }

  lemma CheckTokensSent(w: World, tid: Tid, op: OpId)
    requires Control(w) && tid in w.threads && w.threads[tid] == Preflight(op) && op in w.t.rows
    ensures SentOk(DoCheckTokens(w, tid, op))
  {
    hide Control;
    ServiceAlone(w, tid);
    var x := DoCheckTokens(w, tid, op);
    assert forall o :: o in x.threads && x.threads[o].Dispatched? ==> o == tid;
    if tid in x.threads {
      assert InRows(w.t, op, UPDATE) || InRows(w.t, op, QUIT) ==> Steward in TokensOf(w.t, w.t.rows[op].user);
    }
  }

  /** While an operation is being recorded none is on the agents. */
  lemma CommitSent(w: World, step: Step)
    requires Control(w) && Enabled(w, step) && step.Commit?
    ensures SentOk(Apply(w, step))
  {
    ServiceAlone(w, step.tid) by { hide Control; }
    AgentsBefore(w, step);
    hide Control, Apply;
    var x := Apply(w, step);
    assert forall o :: o in x.threads && OnAgents(x.threads[o]) ==> At(w, o, x.threads[o]);
    assert forall o :: o in x.threads ==> !x.threads[o].Dispatched?;
  }

  lemma OtherSent(w: World, step: Step)
    requires Control(w) && SentOk(w) && Enabled(w, step) && !step.CheckTokens? && !step.AgentsDone? && !step.Commit?
    ensures SentOk(Apply(w, step))
  {
    hide Control, Apply;
    StepForward(w, step);
    UsersKept(w, step);
    AgentsBefore(w, step);
    var x := Apply(w, step);
    forall tid | tid in x.threads && x.threads[tid].Dispatched?
      ensures SentFits(x.t, x.threads[tid].op, x.threads[tid].sent)
    {
      var op := x.threads[tid].op;
      assert OnAgents(x.threads[tid]);
      ServedBusy(w, tid, op);
      assert RowForward(w.t.rows[op], x.t.rows[op]);
    }
  }

  lemma NamesStep(w: World, step: Step)
    requires Control(w) && TokensOk(w.t) && JoinsOk(w) && LeavesOk(w) && NamesOk(w) && Enabled(w, step)
    ensures NamesOk(Apply(w, step))
  {
    hide Control, TokensOk, JoinsOk, LeavesOk, NamesOk, DoAgentsDone, DoCommit;
    if step.AgentsDone? {
      AgentsDoneNames(w, step.tid, w.threads[step.tid].op, step.tokens);
    } else if step.Commit? {
      CommitNames(w, step.tid, w.threads[step.tid].op, w.threads[step.tid].tokens);
    } else if step.CrackBegin? {
      hide Apply;
      CrackBeginNames(w, step);
    } else {
      hide Apply, Enabled;
      OtherNames(w, step);
    }
  }

  lemma AgentsDoneNames(w: World, tid: Tid, op: OpId, tokens: map<Role, Token>)
    requires Control(w) && NamesOk(w) && tid in w.threads && w.threads[tid].Dispatched? && w.threads[tid].op == op && op in w.t.rows
    ensures NamesOk(DoAgentsDone(w, tid, op, tokens))
  {
    hide Control, NamesOk, Pending, DoAgentsDone;
    AgentsDoneControl(w, tid, tokens);
    var x := DoAgentsDone(w, tid, op, tokens);
    AloneNotPending(w, tid);
    AloneNotPending(x, tid);
    ServiceAlone(w, tid);
    CertainWith(w, tid);
    AgentsDoneTables(w, tid, op, tokens);
    assert forall o :: o in x.threads && x.threads[o].Committing? ==> o == tid;
    FinishedNames(w, x, tid, op, tokens);
  }

  lemma FinishedNames(w: World, x: World, tid: Tid, op: OpId, tokens: map<Role, Token>)
    requires NamesOk(w) && !Uncertain(w) && op in w.t.rows && x.t == w.t
    requires forall u: User, kind: Kind :: !Pending(w, u, kind)
    requires forall u: User, kind: Kind :: Pending(x, u, kind) <==> IsFor(w.t, op, u, kind)
    requires tid in x.threads && x.threads[tid] == Committing(op, tokens)
    requires forall o :: o in x.threads && x.threads[o].Committing? ==> o == tid
    requires var row := w.t.rows[op];
      x.leaves == if row.kind == JOIN then w.leaves[row.user := tokens]
                  else if row.kind == QUIT then w.leaves - {row.user} else w.leaves
    ensures NamesOk(x)
  {
    hide Pending, Uncertain;
  }

  lemma CommitNames(w: World, tid: Tid, op: OpId, tokens: map<Role, Token>)
    requires Control(w) && TokensOk(w.t) && JoinsOk(w) && LeavesOk(w) && NamesOk(w)
    requires tid in w.threads && w.threads[tid] == Committing(op, tokens) && op in w.t.rows
    ensures NamesOk(DoCommit(w, tid, op, tokens))
  {
    hide Control, DoCommit;
    AloneNotPending(w, tid);
    ServiceAlone(w, tid);
    UserOf(w, op);
    CommitUsers(w, tid, op, tokens);
    CommitFresh(w, tid, op);
    var x := DoCommit(w, tid, op, tokens);
    if tid in x.threads {
      assert AboutToCrack(x.threads[tid]);
    } else {
      hide JoinsOk;
      assert !Uncertain(w);
      RecordedNames(w, x, tid, op, tokens);
    }
  }

  lemma RecordedNames(w: World, x: World, tid: Tid, op: OpId, tokens: map<Role, Token>)
    requires TokensOk(w.t) && LeavesOk(w) && NamesOk(w) && !Uncertain(w) && op in w.t.rows && w.t.rows[op].user in w.t.users
    requires tid in w.threads && w.threads[tid] == Committing(op, tokens) && x.threads == w.threads - {tid} && x.leaves == w.leaves
    requires forall u: User, kind: Kind :: Pending(w, u, kind) <==> IsFor(w.t, op, u, kind)
    requires forall o :: o in x.threads ==> !x.threads[o].Committing?
    requires w.t.rows[op].kind == JOIN ==> !IsJoined(w.t, op)
    requires var row := w.t.rows[op];
      x.t.tokens == if row.kind == JOIN then w.t.tokens[row.user := TokensOf(w.t, row.user) + tokens]
                    else if row.kind == QUIT then w.t.tokens - {row.user} else w.t.tokens
    ensures NamesOk(x)
  {
    hide Pending, Uncertain, LeavesOk, TokensOk, TokensOf;
    var u := w.t.rows[op].user;
    if w.t.rows[op].kind == JOIN {
      FirstTokens(w.t, u, tokens);
      assert InRows(w.t, op, JOIN) && w.leaves[u] == tokens;
    } else if w.t.rows[op].kind == QUIT {
      LeafGone(w, u);
    }
    forall v | v in x.leaves
      ensures v in x.t.tokens && x.t.tokens[v] == x.leaves[v]
    {
      assert Pending(w, v, JOIN) ==> v == u && w.t.rows[op].kind == JOIN;
    }
  }

  /** Nothing was stored for a user before it joined. */
  lemma FirstTokens(t: Tables, u: User, tokens: map<Role, Token>)
    requires TokensOk(t) && u in t.users && t.users[u] != Joined
    ensures TokensOf(t, u) + tokens == tokens
  {
  }

  lemma LeafGone(w: World, u: User)
    requires LeavesOk(w) && !Uncertain(w) && u in w.t.users && Pending(w, u, QUIT) && !Pending(w, u, JOIN)
    ensures u !in w.leaves
  {
    hide Pending, Uncertain;
  }

  lemma CrackBeginNames(w: World, step: Step)
    requires Control(w) && NamesOk(w) && Enabled(w, step) && step.CrackBegin?
    ensures NamesOk(Apply(w, step))
  {
    hide Control;
    AloneNotPending(w, step.tid);
    ServiceAlone(w, step.tid);
    var x := Apply(w, step);
    if w.threads[step.tid].SyncRunning? {
      assert forall o :: o in x.threads ==> !x.threads[o].Committing?;
      assert !Uncertain(w);
    } else {
      assert AboutToCrack(x.threads[step.tid]);
    }
  }

  lemma OtherNames(w: World, step: Step)
    requires Control(w) && NamesOk(w) && Enabled(w, step) && !step.AgentsDone? && !step.Commit? && !step.CrackBegin?
    ensures NamesOk(Apply(w, step))
  {
    hide Apply, Enabled, Pending;
    UsersKept(w, step);
    StepForward(w, step);
    PendingKept(w, step);
    CommittingBefore(w, step);
    var x := Apply(w, step);
    SamePendings(w, x);
    hide Forward;
    forall tid | tid in x.threads && x.threads[tid].Committing? && InRows(x.t, x.threads[tid].op, JOIN)
      ensures At(w, tid, x.threads[tid]) && InRows(w.t, x.threads[tid].op, JOIN)
      ensures w.t.rows[x.threads[tid].op].user == x.t.rows[x.threads[tid].op].user
    {
      SameRow(w, step, tid, x.threads[tid].op);
    }
    hide Control;
  }

  /** The row of an operation a thread serves keeps its user and kind. */
  lemma SameRow(w: World, step: Step, tid: Tid, op: OpId)
    requires Control(w) && Enabled(w, step) && tid in w.threads && Serves(w.threads[tid], op)
    ensures op in w.t.rows && op in Apply(w, step).t.rows
    ensures Apply(w, step).t.rows[op].user == w.t.rows[op].user && Apply(w, step).t.rows[op].kind == w.t.rows[op].kind
  {
    hide Apply, Enabled, Control;
    ServedBusy(w, tid, op);
    StepForward(w, step);
    assert RowForward(w.t.rows[op], Apply(w, step).t.rows[op]);
  }

  lemma SamePendings(w: World, x: World)
    requires Control(w) && Forward(w.t, x.t)
    requires forall tid :: tid in w.threads && w.threads[tid].Committing? ==> At(x, tid, w.threads[tid])
    requires forall tid :: tid in x.threads && x.threads[tid].Committing? ==> At(w, tid, x.threads[tid])
    ensures forall u: User, kind: Kind :: Pending(x, u, kind) <==> Pending(w, u, kind)
  {
    hide Forward, Pending, RowsOk, LockOk, ActiveOk, ServiceOk;
    forall u: User, kind: Kind
      ensures Pending(x, u, kind) <==> Pending(w, u, kind)
    {
      SamePending(w, x, u, kind);
    }
  }

  // ---- after a crack ----

  /** Once a crack is cleaned up, nothing is queued, active or on its way into the queue. */
  ghost predicate CrackOk(w: World) {
    w.cracked && (forall tid :: tid in w.threads ==> !PastCrack(w.threads[tid])) ==>
      && (forall op :: op in w.t.rows ==> !InQueueOrActive(w.t.rows[op].status))
      && (forall tid :: tid in w.threads && MayQueue(w.threads[tid]) && w.threads[tid].op in w.t.rows ==>
        !Live(w.t.rows[w.threads[tid].op].status))
  }

  predicate MayQueue(pc: Pc) {
    pc.CrackChecked? || pc.Prechecked?
  }

  lemma CrackStep(w: World, step: Step)
    requires Control(w) && OpsOk(w) && CrackOk(w) && Enabled(w, step)
    ensures CrackOk(Apply(w, step))
  {
    hide Control, CrackOk, DoCrackFailOne, DoCrackFailRest, SameMembers;
    var x := Apply(w, step);
    if step.CrackFailRest? {
      CrackCleaned(w, step.tid, w.threads[step.tid].failed);
    } else if step.CrackSetFlag? {
      StillCracking(x, step.tid);
    } else if step.CrackFailOne? {
      CrackOneStage(w, step.tid, w.threads[step.tid].failed);
      StillCracking(x, step.tid);
    } else {
      hide Apply, Enabled;
      OtherCrack(w, step);
    }
  }

  lemma StillCracking(x: World, tid: Tid)
    requires tid in x.threads && PastCrack(x.threads[tid])
    ensures CrackOk(x)
  {
  }

  lemma CrackOneStage(w: World, tid: Tid, failed: Option<OpId>)
    ensures var x := DoCrackFailOne(w, tid, failed);
      tid in x.threads && PastCrack(x.threads[tid])
  {
    hide Finish, SameMembers;
  }

  lemma CrackCleaned(w: World, tid: Tid, failed: Option<OpId>)
    requires Control(w)
    ensures CrackOk(DoCrackFailRest(w, tid, failed))
  {
    hide Control, RowsOk, SameMembers;
    TablesOf(w);
    NothingLive(w.t);
    hide FailAllLive;
  }

  lemma NothingLive(t: Tables)
    requires RowsOk(t)
    ensures forall op :: op in FailAllLive(t).rows ==> !Live(FailAllLive(t).rows[op].status)
  {
    FailAllKeeps(t);
  }

  lemma OtherCrack(w: World, step: Step)
    requires Control(w) && OpsOk(w) && CrackOk(w) && Enabled(w, step)
    requires !step.CrackSetFlag? && !step.CrackFailOne? && !step.CrackFailRest?
    ensures CrackOk(Apply(w, step))
  {
    hide Control, Apply, Enabled;
    CrackedOnly(w, step);
    var x := Apply(w, step);
    if x.cracked && forall tid :: tid in x.threads ==> !PastCrack(x.threads[tid]) {
      StayCracked(w, step);
    }
  }

  lemma CrackedOnly(w: World, step: Step)
    requires Control(w) && Enabled(w, step) && !step.CrackSetFlag? && !step.CrackFailOne? && !step.CrackFailRest?
    ensures Apply(w, step).cracked == w.cracked
    ensures forall tid :: tid in w.threads && PastCrack(w.threads[tid]) ==> At(Apply(w, step), tid, w.threads[tid])
  {
    StepKept(w, step);
    hide Apply, Control;
  }

  lemma StayCracked(w: World, step: Step)
    requires Control(w) && OpsOk(w) && CrackOk(w) && Enabled(w, step) && w.cracked
    requires forall tid :: tid in w.threads ==> !PastCrack(w.threads[tid])
    ensures CrackOk(Apply(w, step))
  {
    hide Control, Apply, Enabled, OpsOk, Forward, InQueueOrActive;
    StepForward(w, step);
    CrackedRows(w, step);
    MayQueueBefore(w, step);
    StillNotLive(w, Apply(w, step));
  }

  lemma CrackedRows(w: World, step: Step)
    requires Control(w) && CrackOk(w) && Enabled(w, step) && w.cracked
    requires forall tid :: tid in w.threads ==> !PastCrack(w.threads[tid])
    ensures forall op :: op in Apply(w, step).t.rows ==> !InQueueOrActive(Apply(w, step).t.rows[op].status)
  {
    hide Control;
    if step.Enqueue? {
      var op := w.threads[step.tid].op;
      assert !HasStatus(w.t, op, RESERVED);
    } else {
      QueuedBefore(w, step);
      hide Apply, Enabled;
    }
  }

  lemma StillNotLive(w: World, x: World)
    requires Forward(w.t, x.t)
    requires forall tid :: tid in w.threads && MayQueue(w.threads[tid]) && w.threads[tid].op in w.t.rows ==>
      !Live(w.t.rows[w.threads[tid].op].status)
    requires forall tid :: tid in x.threads && MayQueue(x.threads[tid]) ==>
      tid in w.threads && MayQueue(w.threads[tid]) && w.threads[tid].op == x.threads[tid].op && w.threads[tid].op in w.t.rows
    ensures forall tid :: tid in x.threads && MayQueue(x.threads[tid]) && x.threads[tid].op in x.t.rows ==>
      !Live(x.t.rows[x.threads[tid].op].status)
  {
    forall tid | tid in x.threads && MayQueue(x.threads[tid]) && x.threads[tid].op in x.t.rows
      ensures !Live(x.t.rows[x.threads[tid].op].status)
    {
      var op := x.threads[tid].op;
      assert op in w.t.rows && !Live(w.t.rows[op].status);
      assert RowForward(w.t.rows[op], x.t.rows[op]);
    }
  }

  lemma MayQueueBefore(w: World, step: Step)
    requires OpsOk(w) && Enabled(w, step) && w.cracked
    ensures forall tid :: tid in Apply(w, step).threads && MayQueue(Apply(w, step).threads[tid]) ==>
      tid in w.threads && MayQueue(w.threads[tid]) && w.threads[tid].op == Apply(w, step).threads[tid].op && w.threads[tid].op in w.t.rows
  {
    if step.Reserve? || step.Resolve? || step.CheckCracked? || step.Precheck? || step.CheckTokens? || step.AgentsDone? {
      hide QueueOk, DoReserve, DoPrecheck, DoCheckTokens, DoAgentsDone, SameMembers;
      if step.Precheck? {
        PrecheckKnows(w, step.tid, w.threads[step.tid].op, w.threads[step.tid].seen);
      } else if step.CheckTokens? {
        CheckTokensThreads(w, step.tid, w.threads[step.tid].op);
      }
    } else {
      hide Apply, Enabled;
      StepNothingNew(w, step);
      forall tid | tid in Apply(w, step).threads && MayQueue(Apply(w, step).threads[tid])
        ensures At(w, tid, Apply(w, step).threads[tid])
      {
        assert Tracked(Apply(w, step).threads[tid]);
      }
    }
  }

  // ---- every run ----

  ghost predicate Inv(w: World) {
    && Control(w) && SyncOk(w) && PortsOk(w) && FifoOk(w)
    && TokensOk(w.t) && JoinsOk(w) && OpsOk(w) && WorkOk(w) && SentOk(w) && LeavesOk(w) && NamesOk(w) && CrackOk(w)
  }

  /** A fresh database with its users seeded, and nothing running. */
  ghost predicate Initial(w: World) {
    && w == World(Tables(map[], [], w.t.users, map[]), false, false, false, None, map[], [], map[], [], 0, map[])
    && forall u :: u in w.t.users ==> w.t.users[u] != Joined
  }

  lemma InitialInv(w: World)
    requires Initial(w)
    ensures Inv(w)
  {
    InitialControl(w);
    InitialMembers(w);
    hide Control, LeavesOk, NamesOk, TokensOk, JoinsOk;
  }

  lemma InitialMembers(w: World)
    requires Initial(w)
    ensures TokensOk(w.t) && JoinsOk(w) && LeavesOk(w) && NamesOk(w)
  {
    assert forall u: User, kind: Kind :: !Pending(w, u, kind);
    hide Uncertain;
  }

  lemma InitialControl(w: World)
    requires Initial(w)
    ensures Control(w)
  {
    assert RowsOk(w.t);
    hide RowsOk;
  }

  lemma StepInv(w: World, step: Step)
    requires Inv(w) && Enabled(w, step)
    ensures Inv(Apply(w, step))
  {
    hide Control, SyncOk, PortsOk, FifoOk, TokensOk, JoinsOk, OpsOk, WorkOk, SentOk, LeavesOk, NamesOk, CrackOk, Apply;
    ControlStep(w, step);
    SyncStep(w, step);
    PortsStep(w, step);
    FifoStep(w, step);
    TokensStep(w, step);
    JoinsStep(w, step);
    OpsStep(w, step);
    WorkStep(w, step);
    SentStep(w, step);
    LeavesStep(w, step);
    NamesStep(w, step);
    CrackStep(w, step);
  }

  ghost predicate Run(w: World, steps: seq<Step>, x: World)
    decreases |steps|
  {
    if steps == [] then x == w
    else Enabled(w, steps[0]) && Run(Apply(w, steps[0]), steps[1..], x)
  }

  /** The invariant holds in every state that any interleaving reaches. */
  lemma {:induction false} RunInv(w: World, steps: seq<Step>, x: World)
    requires Inv(w) && Run(w, steps, x)
    ensures Inv(x)
    decreases |steps|
  {
    hide Inv, Enabled, Apply;
    if steps != [] {
      StepInv(w, steps[0]);
      RunInv(Apply(w, steps[0]), steps[1..], x);
    }
  }

  /** At most one operation is ACTIVE or BUSY and none beside a running SYNC; ports are handed out once; promotions
      happen in the order of queueing. */
  lemma SafeScheduling(w: World, steps: seq<Step>, x: World)
    requires Initial(w) && Run(w, steps, x)
    ensures forall a, b :: a in x.t.rows && b in x.t.rows && Active(x.t.rows[a].status) && Active(x.t.rows[b].status) ==> a == b
    ensures x.syncActive ==> forall a :: a in x.t.rows ==> !Active(x.t.rows[a].status)
    ensures Distinct(x.handed) && Ascending(x.ticket, x.promoted)
    ensures x.syncQueued ==> !x.syncActive && x.sinceSync <= 1
  {
    InitialInv(w);
    RunInv(w, steps, x);
    Exclusive(x);
    hide Run, Control, LeavesOk, JoinsOk, CrackOk, WorkOk, TokensOk, Ascending;
  }

  /** In every state with no operation in progress and no crack, the JOINED users are exactly those with all three
      tokens, and exactly those with a leaf in the agents' trees; and the tokens stored for a user are the ones the
      agents gave out for that leaf. */
  lemma MembersHaveLeaves(w: World, steps: seq<Step>, x: World)
    requires Initial(w) && Run(w, steps, x) && !x.cracked
    requires forall tid :: tid in x.threads ==> !IsService(x.threads[tid])
    ensures forall u :: u in x.t.users ==> (x.t.users[u] == Joined <==> u in x.t.tokens && x.t.tokens[u].Keys == AllRoles())
    ensures forall u :: u in x.t.users ==> (x.t.users[u] == Joined <==> u in x.leaves)
    ensures forall u :: u in x.leaves ==> u in x.t.users && u in x.t.tokens && x.t.tokens[u] == x.leaves[u]
  {
    InitialInv(w);
    RunInv(w, steps, x);
    hide Run, Control, JoinsOk, CrackOk, WorkOk, SentOk, PortsOk, FifoOk, SyncOk;
    assert !Uncertain(x);
    assert forall u: User, kind: Kind :: !Pending(x, u, kind);
  }

  /** When the agents run a JOIN its user has no leaf; when they run an UPDATE or a QUIT it has one, and the tokens they
      were sent are those of that leaf. */
  lemma AgentsActOnTheRightLeaf(w: World, steps: seq<Step>, x: World, tid: Tid, op: OpId, sent: map<Role, Token>)
    requires Initial(w) && Run(w, steps, x) && At(x, tid, Dispatched(op, sent))
    ensures op in x.t.rows && x.t.rows[op].user in x.t.users && !x.cracked
    ensures x.t.rows[op].kind == JOIN ==> x.t.rows[op].user !in x.leaves
    ensures x.t.rows[op].kind == UPDATE || x.t.rows[op].kind == QUIT ==>
      x.t.rows[op].user in x.leaves && sent == x.leaves[x.t.rows[op].user]
  {
    InitialInv(w);
    RunInv(w, steps, x);
    hide Initial, Run, Inv;
    DispatchedWork(x, tid, op, sent);
  }

  lemma DispatchedWork(x: World, tid: Tid, op: OpId, sent: map<Role, Token>)
    requires Inv(x) && At(x, tid, Dispatched(op, sent))
    ensures op in x.t.rows && x.t.rows[op].user in x.t.users && !x.cracked
    ensures x.t.rows[op].kind == JOIN ==> x.t.rows[op].user !in x.leaves
    ensures x.t.rows[op].kind == UPDATE || x.t.rows[op].kind == QUIT ==>
      x.t.rows[op].user in x.leaves && sent == x.leaves[x.t.rows[op].user]
  {
    ServedBusy(x, tid, op);
    ServiceAlone(x, tid);
    AloneNotPending(x, tid);
    UserOf(x, op);
    hide Control, CrackOk, PortsOk, FifoOk, SyncOk, Pending;
    assert !Uncertain(x);
    assert WorkFits(x.t, op) by { assert OnAgents(x.threads[tid]); }
    assert !(x.t.rows[op].kind == JOIN) || !IsJoined(x.t, op);
    assert SentFits(x.t, op, sent) by { assert x.threads[tid].Dispatched?; }
  }

  /** After a crack has been cleaned up no operation is queued, active or busy, however the remaining threads go on;
      only fresh reservations can appear. */
  lemma CrackedStaysQuiet(w: World, steps: seq<Step>, x: World)
    requires Initial(w) && Run(w, steps, x) && x.cracked
    requires forall tid :: tid in x.threads ==> !PastCrack(x.threads[tid])
    ensures forall op :: op in x.t.rows ==> !InQueueOrActive(x.t.rows[op].status)
  {
    InitialInv(w);
    RunInv(w, steps, x);
    hide Run, Control, JoinsOk, WorkOk, SentOk, PortsOk, FifoOk, SyncOk, LeavesOk, NamesOk;
  }

  // ---- restart ----

  /** The manager started again on the tables a stopped one left: no thread, no lock, no SYNC. */
  function Restarted(x: World): World {
    World(FailActive(x.t), false, false, false, None, map[], x.handed, x.ticket, x.promoted, 0, x.leaves)
  }

  /** Wherever an uncracked manager stops, the reconciled tables satisfy the invariant again unless an operation was
      BUSY, which is exactly when the restart is refused. */
  lemma RestartInv(x: World)
    requires Inv(x) && !x.cracked && forall op :: op in x.t.rows ==> x.t.rows[op].status != BUSY
    ensures Inv(Restarted(x))
  {
    TablesOf(x);
    NothingBusy(x);
    RestartControl(x);
    RestartRest(x);
    hide Control, RowsOk, PortsOk, Fifo, JoinsOk, LeavesOk, NamesOk, SyncOk, OpsOk, WorkOk, SentOk, CrackOk, TokensOk, Uncertain, Pending;
    RestartHistory(x);
    RestartMembers(x);
  }

  lemma RestartRest(x: World)
    requires TokensOk(x.t)
    ensures SyncOk(Restarted(x)) && OpsOk(Restarted(x)) && WorkOk(Restarted(x)) && SentOk(Restarted(x)) && CrackOk(Restarted(x))
    ensures TokensOk(Restarted(x).t)
  {
  }

  lemma RestartHistory(x: World)
    requires RowsOk(x.t) && PortsOk(x) && FifoOk(x)
    ensures PortsOk(Restarted(x)) && FifoOk(Restarted(x))
  {
    FailActiveForward(x.t);
    hide RowsOk;
    var y := Restarted(x);
    assert x.t.queue[0..] == x.t.queue;
    FifoForward(x.t, y.t, 0, x.ticket, x.promoted);
    hide Fifo;
    forall op | op in y.handed
      ensures op in y.t.rows && Rank(y.t.rows[op].status) >= 3
    {
      assert RowForward(x.t.rows[op], y.t.rows[op]);
    }
  }

  lemma RestartMembers(x: World)
    requires JoinsOk(x) && LeavesOk(x) && NamesOk(x) && !Uncertain(x) && forall u: User, kind: Kind :: !Pending(x, u, kind)
    ensures JoinsOk(Restarted(x)) && LeavesOk(Restarted(x)) && NamesOk(Restarted(x))
  {
  }

  lemma FailActiveForward(t: Tables)
    ensures Forward(t, FailActive(t))
  {
  }

  lemma RestartControl(x: World)
    requires RowsOk(x.t)
    ensures Control(Restarted(x))
  {
    FailActiveKeeps(x.t);
    assert RowsOk(FailActive(x.t));
    hide RowsOk, FailActive;
  }

  /** Without a BUSY operation nothing is being recorded and no operation's outcome is uncertain. */
  lemma NothingBusy(x: World)
    requires Control(x) && forall op :: op in x.t.rows ==> x.t.rows[op].status != BUSY
    ensures forall u: User, kind: Kind :: !Pending(x, u, kind)
    ensures !x.cracked ==> !Uncertain(x)
  {
    forall tid | tid in x.threads
      ensures !x.threads[tid].Committing? && !AboutToCrack(x.threads[tid])
    {
      var pc := x.threads[tid];
      if pc.Committing? {
        ServedBusy(x, tid, pc.op);
      } else if AboutToCrack(pc) {
        ServedBusy(x, tid, pc.failed.value);
      }
    }
  }
}
