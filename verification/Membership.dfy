/** Users, tokens and the leaves on the agents over all runs of the manager, and what a crack leaves behind. */
module Membership {
  import opened Options
  import opened Ledger
  import opened Scheduler
  import opened SchedulerSafety

  /** A user is JOINED exactly when all three agent tokens are stored, and otherwise none is. */
  ghost predicate TokensOk(t: Tables) {
    && (forall u :: u in t.tokens ==> u in t.users)
    && (forall u :: u in t.users ==> (t.users[u] == Joined <==> u in t.tokens && t.tokens[u].Keys == AllRoles()))
    && (forall u :: u in t.users && t.users[u] != Joined ==> u !in t.tokens)
  }

  predicate InQueueOrActive(s: Status) {
    s == QUEUED || s == ACTIVE || s == BUSY
  }

  /** The user of a queued or active JOIN is not JOINED, nor is that of one about to be queued. */
  ghost predicate JoinsOk(w: World) {
    && (forall op :: op in w.t.rows && w.t.rows[op].kind == JOIN && InQueueOrActive(w.t.rows[op].status) ==> !IsJoined(w.t, op))
    && (forall tid, op :: At(w, tid, Prechecked(op)) && op in w.t.rows && w.t.rows[op].kind == JOIN && w.t.rows[op].status == RESERVED ==>
      !IsJoined(w.t, op))
  }

  predicate IsJoined(t: Tables, op: OpId)
    requires op in t.rows
  {
    t.rows[op].user in t.users && t.users[t.rows[op].user] == Joined
  }

  predicate OnAgents(pc: Pc) {
    pc.Dispatched? || pc.Committing?
  }

  /** An UPDATE or QUIT is on the agents only for a JOINED user. */
  ghost predicate WorkOk(w: World) {
    forall tid :: tid in w.threads && OnAgents(w.threads[tid]) && w.threads[tid].op in w.t.rows ==>
      WorkFits(w.t, w.threads[tid].op)
  }

  predicate WorkFits(t: Tables, op: OpId)
    requires op in t.rows
  {
    t.rows[op].kind == UPDATE || t.rows[op].kind == QUIT ==> IsJoined(t, op)
  }

  /** The agents have finished this user's operation of the given kind but the tables do not know yet. */
  ghost predicate Pending(w: World, u: User, kind: Kind) {
    exists tid :: tid in w.threads && w.threads[tid].Committing? && IsFor(w.t, w.threads[tid].op, u, kind)
  }

  predicate IsFor(t: Tables, op: OpId, u: User, kind: Kind) {
    op in t.rows && t.rows[op].user == u && t.rows[op].kind == kind
  }

  /** An operation with an uncertain outcome whose thread has not yet set the crack flag. */
  predicate AboutToCrack(pc: Pc) {
    pc.CrackFlag? && pc.failed.Some?
  }

  ghost predicate Uncertain(w: World) {
    w.cracked || exists tid :: tid in w.threads && AboutToCrack(w.threads[tid])
  }

  /** As long as no outcome is uncertain the leaves on the agents are those of the JOINED users, but for an operation
      the agents have finished and the tables are about to record. */
  ghost predicate LeavesOk(w: World) {
    && (forall u :: u in w.leaves ==> u in w.t.users)
    && (!Uncertain(w) ==> forall u :: u in w.t.users ==> (u in w.leaves <==> ExpectedLeaf(w, u)))
  }

  ghost predicate ExpectedLeaf(w: World, u: User)
    requires u in w.t.users
  {
    if Pending(w, u, JOIN) then true else if Pending(w, u, QUIT) then false else w.t.users[u] == Joined
  }

  /** The tokens stored for a user are those its leaf has on the agents; those of a JOIN that is being recorded are still
      with its thread. */
  ghost predicate NamesOk(w: World) {
    !Uncertain(w) ==>
      && (forall u :: u in w.leaves && !Pending(w, u, JOIN) ==> u in w.t.tokens && w.t.tokens[u] == w.leaves[u])
      && (forall tid :: tid in w.threads && w.threads[tid].Committing? && InRows(w.t, w.threads[tid].op, JOIN) ==>
        w.t.rows[w.threads[tid].op].user in w.leaves && w.leaves[w.t.rows[w.threads[tid].op].user] == w.threads[tid].tokens)
  }

  predicate InRows(t: Tables, op: OpId, kind: Kind) {
    op in t.rows && t.rows[op].kind == kind
  }

  /** An UPDATE or QUIT sends the agents the tokens that are stored for its user. */
  ghost predicate SentOk(w: World) {
    forall tid :: tid in w.threads && w.threads[tid].Dispatched? ==> SentFits(w.t, w.threads[tid].op, w.threads[tid].sent)
  }

  predicate SentFits(t: Tables, op: OpId, sent: map<Role, Token>) {
    InRows(t, op, UPDATE) || InRows(t, op, QUIT) ==> t.rows[op].user in t.tokens && sent == t.tokens[t.rows[op].user]
  }

  // ---- users and tokens change only when an operation is recorded ----

  lemma UsersKept(w: World, step: Step)
    requires Enabled(w, step) && !step.Commit? && !step.AgentsDone?
    ensures SameMembers(w, Apply(w, step))
  {
    if step.Reserve? || step.Precheck? || step.Enqueue? || step.Poll? || step.Promote? || step.Start? || step.CmdSync?
      || step.SyncStart? || step.CheckTokens? || step.CrackFailOne? || step.CrackFailRest? {
      hide QueueOk, DoReserve, DoPrecheck, DoEnqueue, DoPoll, DoPromote, DoStart, DoCmdSync, DoSyncStart, SameMembers;
      hide DoCheckTokens, DoCrackFailOne, DoCrackFailRest;
    } else {
      hide Apply, Enabled, SameMembers;
      StageMembers(w, step);
    }
  }

  /** Steps that move a thread or set a flag, and no more. */
  lemma StageMembers(w: World, step: Step)
    requires Enabled(w, step)
    requires step.Resolve? || step.CheckCracked? || step.StartFails? || step.Abandon? || step.SyncFinish? || step.CrackBegin?
      || step.CrackSetFlag?
    ensures SameMembers(w, Apply(w, step))
  {
    hide QueueOk;
  }

  lemma CommitUsers(w: World, tid: Tid, op: OpId, tokens: map<Role, Token>)
    requires op in w.t.rows
    ensures var x, row := DoCommit(w, tid, op, tokens), w.t.rows[op];
      && x.t.users == (if tid in x.threads then w.t.users else if row.kind == JOIN then w.t.users[row.user := Joined]
                       else if row.kind == QUIT then w.t.users[row.user := Quitted] else w.t.users)
      && x.t.tokens == (if tid in x.threads then w.t.tokens
                        else if row.kind == JOIN then w.t.tokens[row.user := TokensOf(w.t, row.user) + tokens]
                        else if row.kind == QUIT then w.t.tokens - {row.user} else w.t.tokens)
      && (tid in x.threads ==> x.threads == w.threads[tid := CrackFlag(Some(op))] && x.t == w.t)
      && (tid !in x.threads ==> x.threads == w.threads - {tid} && x.t.rows == w.t.rows[op := row.(status := DONE)])
      && (tid !in x.threads && row.kind == JOIN ==> tokens.Keys == AllRoles())
      && x.leaves == w.leaves && x.cracked == w.cracked
  {
    CompletedParts(w.t, op, tokens);
    CommitIs(w, tid, op, tokens);
    hide CompleteJoin, CompleteQuit, Finish, TokensOf, AllRoles, DoCommit;
  }

  /** The three ways an operation is recorded. */
  lemma CommitIs(w: World, tid: Tid, op: OpId, tokens: map<Role, Token>)
    requires op in w.t.rows
    ensures var x, row := DoCommit(w, tid, op, tokens), w.t.rows[op];
      if row.kind == JOIN && tokens.Keys != AllRoles() then x == w.(threads := w.threads[tid := CrackFlag(Some(op))])
      else x == w.(threads := w.threads - {tid}, t := if row.kind == JOIN then CompleteJoin(w.t, op, row.user, tokens)
        else if row.kind == QUIT then CompleteQuit(w.t, op, row.user) else Finish(w.t, op, DONE))
  {
    hide CompleteJoin, CompleteQuit, Finish, AllRoles;
  }

  lemma CompletedParts(t: Tables, op: OpId, tokens: map<Role, Token>)
    requires op in t.rows
    ensures var u := t.rows[op].user;
      && CompleteJoin(t, op, u, tokens).users == t.users[u := Joined]
      && CompleteJoin(t, op, u, tokens).tokens == t.tokens[u := TokensOf(t, u) + tokens]
      && CompleteQuit(t, op, u).users == t.users[u := Quitted] && CompleteQuit(t, op, u).tokens == t.tokens - {u}
      && Finish(t, op, DONE).users == t.users && Finish(t, op, DONE).tokens == t.tokens
      && CompleteJoin(t, op, u, tokens).rows == CompleteQuit(t, op, u).rows
        == Finish(t, op, DONE).rows == t.rows[op := t.rows[op].(status := DONE)]
  {
    hide TokensOf;
  }

  lemma TokensStep(w: World, step: Step)
    requires Control(w) && TokensOk(w.t) && JoinsOk(w) && Enabled(w, step)
    ensures TokensOk(Apply(w, step).t)
  {
    hide Control, JoinsOk, DoCommit;
    if step.Commit? {
      CommitTokens(w, step.tid, w.threads[step.tid].op, w.threads[step.tid].tokens);
    } else if step.AgentsDone? {
    } else {
      UsersKept(w, step);
      hide Apply;
    }
  }

  lemma TokensJoin(t: Tables, u: User, tokens: map<Role, Token>, users: map<User, UserStatus>, stored: map<User, map<Role, Token>>)
    requires TokensOk(t) && u in t.users && t.users[u] != Joined && tokens.Keys == AllRoles()
    requires users == t.users[u := Joined] && stored == t.tokens[u := TokensOf(t, u) + tokens]
    ensures TokensOk(t.(users := users, tokens := stored))
  {
  }

  lemma TokensQuit(t: Tables, u: User)
    requires TokensOk(t) && u in t.users
    ensures TokensOk(t.(users := t.users[u := Quitted], tokens := t.tokens - {u}))
  {
  }

  lemma CommitTokens(w: World, tid: Tid, op: OpId, tokens: map<Role, Token>)
    requires Control(w) && TokensOk(w.t) && JoinsOk(w)
    requires tid in w.threads && w.threads[tid] == Committing(op, tokens) && op in w.t.rows
    ensures TokensOk(DoCommit(w, tid, op, tokens).t)
  {
    UserOf(w, op);
    CommitUsers(w, tid, op, tokens);
    CommitFresh(w, tid, op);
    hide Control, DoCommit, JoinsOk, TokensOk, TokensOf;
    var x, u := DoCommit(w, tid, op, tokens), w.t.rows[op].user;
    if tid !in x.threads && w.t.rows[op].kind == JOIN {
      TokensJoin(w.t, u, tokens, x.t.users, x.t.tokens);
      SameTokens(w.t.(users := x.t.users, tokens := x.t.tokens), x.t);
    } else if tid !in x.threads && w.t.rows[op].kind == QUIT {
      TokensQuit(w.t, u);
      SameTokens(w.t.(users := x.t.users, tokens := x.t.tokens), x.t);
    } else {
      SameTokens(w.t, x.t);
    }
  }

  lemma SameTokens(t: Tables, u: Tables)
    requires TokensOk(t) && u.users == t.users && u.tokens == t.tokens
    ensures TokensOk(u)
  {
  }

  /** The user of a JOIN that is being recorded is not JOINED yet. */
  lemma CommitFresh(w: World, tid: Tid, op: OpId)
    requires Control(w) && JoinsOk(w) && tid in w.threads && w.threads[tid].Committing? && w.threads[tid].op == op && op in w.t.rows
    ensures w.t.rows[op].kind == JOIN ==> !IsJoined(w.t, op)
  {
    ServedBusy(w, tid, op);
    hide Control;
  }

  lemma UserOf(w: World, op: OpId)
    requires Control(w) && op in w.t.rows
    ensures w.t.rows[op].user in w.t.users
  {
  }

  // ---- where threads and operations come from ----

  /** Stages that later steps rely on. */
  predicate Tracked(pc: Pc) {
    pc.Resolved? || pc.CrackChecked? || pc.Prechecked? || pc.Dispatched? || pc.Committing?
  }

  /** No thread enters a tracked stage and no operation appears. */
  ghost predicate NothingNew(w: World, x: World) {
    && (forall tid :: tid in x.threads && Tracked(x.threads[tid]) ==> At(w, tid, x.threads[tid]))
    && x.t.rows.Keys == w.t.rows.Keys
  }

  lemma KeysKept(t: Tables, op: OpId, s: Status)
    ensures op in t.rows ==> Finish(t, op, s).rows.Keys == t.rows.Keys && SetStatus(t, op, s).rows.Keys == t.rows.Keys
    ensures FailAllLive(t).rows.Keys == t.rows.Keys
  {
  }

  lemma EnqueueNothingNew(w: World, tid: Tid, op: OpId)
    requires op in w.t.rows
    ensures NothingNew(w, DoEnqueue(w, tid, op))
  {
    EnqueuedParts(w, tid, op);
    hide NothingNew, DoEnqueue, SameMembers;
    GotoNothingNew(w, DoEnqueue(w, tid, op), tid);
  }

  lemma EnqueuedParts(w: World, tid: Tid, op: OpId)
    requires op in w.t.rows
    ensures var x := DoEnqueue(w, tid, op);
      x.threads == w.threads[tid := Polling(op)] && x.t.rows.Keys == w.t.rows.Keys
  {
    EnqueuedStatus(w.t, op);
    hide Ledger.Enqueue, SameMembers;
  }

  lemma PollNothingNew(w: World, tid: Tid, op: OpId)
    requires op in w.t.rows
    ensures NothingNew(w, DoPoll(w, tid, op))
  {
    hide NothingNew, SameMembers;
    var x := DoPoll(w, tid, op);
    if x.threads == w.threads - {tid} {
      LeaveNothingNew(w, x, tid);
    } else {
      GotoNothingNew(w, x, tid);
    }
  }

  lemma PromoteKeys(t: Tables)
    requires QueueOk(t) && t.queue != []
    ensures t.queue[0] in t.rows && Ledger.Promote(t).rows.Keys == t.rows.Keys
  {
    assert t.queue[0] in t.queue;
  }

  lemma LeaveNothingNew(w: World, x: World, tid: Tid)
    requires x.threads == w.threads - {tid} && x.t.rows.Keys == w.t.rows.Keys
    ensures NothingNew(w, x)
  {
  }

  lemma GotoNothingNew(w: World, x: World, tid: Tid)
    requires tid in x.threads && !Tracked(x.threads[tid]) && x.threads == w.threads[tid := x.threads[tid]]
    requires x.t.rows.Keys == w.t.rows.Keys
    ensures NothingNew(w, x)
  {
  }

  lemma PromoteNothingNew(w: World, tid: Tid, op: OpId, stale: nat)
    requires QueueOk(w.t)
    ensures NothingNew(w, DoPromote(w, tid, op, stale))
  {
    hide QueueOk, NothingNew, AfterEviction, NoneActive;
    EvictedKeepsQueue(w.t, stale);
    var x := DoPromote(w, tid, op, stale);
    if NoneActive(w.t) {
      AfterNothingNew(w, tid, op, Evicted(w.t, stale));
    } else {
      LeaveNothingNew(w, x, tid);
    }
  }

  lemma AfterNothingNew(w: World, tid: Tid, op: OpId, t: Tables)
    requires QueueOk(t) && t.rows.Keys == w.t.rows.Keys
    ensures NothingNew(w, AfterEviction(w, tid, op, t))
  {
    hide QueueOk, NothingNew, Ledger.Promote;
    var x := AfterEviction(w, tid, op, t);
    assert x.t.rows.Keys == w.t.rows.Keys by {
      if t.queue != [] {
        PromoteKeys(t);
      }
    }
    if tid in x.threads && x.threads != w.threads - {tid} {
      GotoNothingNew(w, x, tid);
    } else {
      LeaveNothingNew(w, x, tid);
    }
  }

  lemma StartNothingNew(w: World, tid: Tid, op: OpId, worker: Tid, reserved: bool)
    requires op in w.t.rows
    ensures NothingNew(w, DoStart(w, tid, op, worker, reserved))
  {
    StartedParts(w, tid, op, worker, reserved);
    hide NothingNew, SameMembers, DoStart;
    var x := DoStart(w, tid, op, worker, reserved);
    if x.threads == w.threads - {tid} {
      LeaveNothingNew(w, x, tid);
    } else {
      var y := Leave(w, tid);
      LeaveNothingNew(w, y, tid);
      GotoNothingNew(y, x, worker);
      NothingNewTwice(w, y, x);
    }
  }

  lemma StartedParts(w: World, tid: Tid, op: OpId, worker: Tid, reserved: bool)
    requires op in w.t.rows
    ensures var x := DoStart(w, tid, op, worker, reserved);
      && x.t.rows.Keys == w.t.rows.Keys
      && (x.threads == w.threads - {tid} || x.threads == (w.threads - {tid})[worker := Preflight(op)])
  {
    KeysKept(w.t, op, BUSY);
    KeysKept(w.t, op, FAILED);
    hide SameMembers, Finish, SetStatus;
  }

  lemma NothingNewTwice(w: World, x: World, y: World)
    requires NothingNew(w, x) && NothingNew(x, y)
    ensures NothingNew(w, y)
  {
  }

  lemma CrackNothingNew(w: World, tid: Tid, failed: Option<OpId>)
    ensures NothingNew(w, DoCrackFailOne(w, tid, failed)) && NothingNew(w, DoCrackFailRest(w, tid, failed))
  {
    KeysKept(w.t, if failed.Some? then failed.value else 0, FAILED);
    hide NothingNew, SameMembers, Finish, FailAllLive;
    GotoNothingNew(w, DoCrackFailOne(w, tid, failed), tid);
    LeaveNothingNew(w, DoCrackFailRest(w, tid, failed), tid);
  }

  lemma CommitNothingNew(w: World, tid: Tid, op: OpId, tokens: map<Role, Token>)
    requires op in w.t.rows
    ensures NothingNew(w, DoCommit(w, tid, op, tokens))
  {
    hide NothingNew, DoCommit, TokensOf;
    CommitUsers(w, tid, op, tokens);
    var x := DoCommit(w, tid, op, tokens);
    assert x.t.rows.Keys == w.t.rows.Keys;
    if tid in x.threads {
      GotoNothingNew(w, x, tid);
    } else {
      LeaveNothingNew(w, x, tid);
    }
  }

  /** A step that brings nothing new: all but reservations and the five that advance to a tracked stage. */
  lemma StepNothingNew(w: World, step: Step)
    requires Enabled(w, step)
    requires !step.Reserve? && !step.Resolve? && !step.CheckCracked? && !step.Precheck? && !step.CheckTokens? && !step.AgentsDone?
    ensures NothingNew(w, Apply(w, step))
  {
    hide QueueOk, DoEnqueue, DoPoll, DoPromote, DoStart, DoCommit, DoCrackFailOne, DoCrackFailRest, SameMembers, NoneActive;
    match step
    case Enqueue(tid) => EnqueueNothingNew(w, tid, w.threads[tid].op);
    case Poll(tid) => PollNothingNew(w, tid, w.threads[tid].op);
    case Promote(tid, stale) => PromoteNothingNew(w, tid, w.threads[tid].op, stale);
    case Start(tid, worker, reserved) => StartNothingNew(w, tid, w.threads[tid].op, worker, reserved);
    case Commit(tid) => CommitNothingNew(w, tid, w.threads[tid].op, w.threads[tid].tokens);
    case CrackFailOne(tid) => CrackNothingNew(w, tid, w.threads[tid].failed);
    case CrackFailRest(tid) => CrackNothingNew(w, tid, w.threads[tid].failed);
    case _ =>
  }

  // ---- JOINs ----

  /** Whatever is queued or active was so before, unless it has just been queued. */
  lemma QueuedBefore(w: World, step: Step)
    requires Control(w) && Enabled(w, step) && !step.Enqueue?
    ensures var x := Apply(w, step);
      forall op :: op in x.t.rows && InQueueOrActive(x.t.rows[op].status) ==>
        op in w.t.rows && InQueueOrActive(w.t.rows[op].status) && RowForward(w.t.rows[op], x.t.rows[op])
  {
    hide Apply, Control, Enabled, Forward;
    StepForward(w, step);
    ControlStep(w, step);
    QueueShrinks(w, step);
    NewReserved(w, step);
    var x := Apply(w, step);
    QueueIs(w);
    QueueIs(x);
    QueuedOnly(w.t, x.t);
  }

  lemma QueuedOnly(t: Tables, u: Tables)
    requires Forward(t, u) && forall op :: op in u.queue ==> op in t.queue
    requires forall op :: op in t.queue <==> HasStatus(t, op, QUEUED)
    requires forall op :: op in u.queue <==> HasStatus(u, op, QUEUED)
    requires forall op :: op in u.rows && op !in t.rows ==> u.rows[op].status == RESERVED
    ensures forall op :: op in u.rows && InQueueOrActive(u.rows[op].status) ==>
      op in t.rows && InQueueOrActive(t.rows[op].status) && RowForward(t.rows[op], u.rows[op])
  {
    forall op | op in u.rows && InQueueOrActive(u.rows[op].status)
      ensures op in t.rows && InQueueOrActive(t.rows[op].status)
    {
      assert op in t.rows;
      assert RowForward(t.rows[op], u.rows[op]);
      if t.rows[op].status == RESERVED {
        assert HasStatus(u, op, QUEUED) && HasStatus(t, op, QUEUED);
      }
    }
  }

  lemma QueueIs(w: World)
    requires Control(w)
    ensures forall op :: op in w.t.queue <==> HasStatus(w.t, op, QUEUED)
  {
    hide OneLive, UsersOk, LockOk, ServiceOk, ActiveOk;
  }

  lemma QueueShrinks(w: World, step: Step)
    requires Control(w) && Enabled(w, step) && !step.Enqueue?
    ensures forall op :: op in Apply(w, step).t.queue ==> op in w.t.queue
  {
    hide Control, DoPromote, DoCrackFailRest, SameMembers, QueueOk;
    if step.Promote? {
      TablesOf(w);
      PromotedQueue(w, step.tid, w.threads[step.tid].op, step.stale);
    } else if step.CrackFailRest? {
      CrackedQueue(w, step.tid, w.threads[step.tid].failed);
    } else {
      hide Apply, Enabled;
      QueueKept(w, step);
    }
  }

  lemma PromotedQueue(w: World, tid: Tid, op: OpId, stale: nat)
    requires RowsOk(w.t)
    ensures forall a :: a in DoPromote(w, tid, op, stale).t.queue ==> a in w.t.queue
  {
    EvictedRows(w.t, stale);
    hide RowsOk, Evicted, NoneActive, SameMembers;
  }

  lemma CrackedQueue(w: World, tid: Tid, failed: Option<OpId>)
    ensures DoCrackFailRest(w, tid, failed).t.queue == []
  {
  }

  lemma NewReserved(w: World, step: Step)
    requires Enabled(w, step)
    ensures forall op :: op in Apply(w, step).t.rows && op !in w.t.rows ==> Apply(w, step).t.rows[op].status == RESERVED
  {
    if step.Reserve? {
    } else if step.Resolve? || step.CheckCracked? || step.Precheck? || step.AgentsDone? || step.CheckTokens? {
      StageKeys(w, step);
    } else {
      StepNothingNew(w, step);
    }
  }

  lemma StageKeys(w: World, step: Step)
    requires Enabled(w, step) && (step.Resolve? || step.CheckCracked? || step.Precheck? || step.AgentsDone? || step.CheckTokens?)
    ensures Apply(w, step).t.rows.Keys == w.t.rows.Keys
  {
    hide QueueOk, BusinessOk, SameMembers, DoPrecheck, DoAgentsDone, DoCheckTokens;
    if step.CheckTokens? {
      CheckTokensKeys(w, step.tid, w.threads[step.tid].op);
    }
  }

  lemma CheckTokensKeys(w: World, tid: Tid, op: OpId)
    requires op in w.t.rows
    ensures DoCheckTokens(w, tid, op).t.rows.Keys == w.t.rows.Keys
  {
    KeysKept(w.t, op, FAILED);
    hide Finish, SameMembers, TokensOf;
  }

  /** A request past its first read knows an existing operation. */
  ghost predicate OpsOk(w: World) {
    forall tid :: tid in w.threads && Knows(w.threads[tid]) ==> w.threads[tid].op in w.t.rows
  }

  predicate Knows(pc: Pc) {
    pc.Resolved? || pc.CrackChecked? || pc.Prechecked?
  }

  lemma OpsStep(w: World, step: Step)
    requires Control(w) && OpsOk(w) && Enabled(w, step)
    ensures OpsOk(Apply(w, step))
  {
    StepForward(w, step);
    KnowsBefore(w, step);
    hide Control, Apply;
    var x := Apply(w, step);
    forall tid | tid in x.threads && Knows(x.threads[tid])
      ensures x.threads[tid].op in x.t.rows
    {
      if tid in w.threads && Knows(w.threads[tid]) && w.threads[tid].op == x.threads[tid].op {
        assert RowForward(w.t.rows[w.threads[tid].op], x.t.rows[x.threads[tid].op]);
      }
    }
  }

  /** A thread that knows an operation knew it before, or has just read it. */
  lemma KnowsBefore(w: World, step: Step)
    requires Enabled(w, step)
    ensures var x := Apply(w, step);
      forall tid :: tid in x.threads && Knows(x.threads[tid]) ==>
        || (tid in w.threads && Knows(w.threads[tid]) && w.threads[tid].op == x.threads[tid].op)
        || x.threads[tid].op in x.t.rows
  {
    if step.Reserve? || step.Resolve? || step.CheckCracked? || step.Precheck? || step.AgentsDone? || step.CheckTokens? {
      hide Apply, Enabled;
      StageKnows(w, step);
    } else {
      StepNothingNew(w, step);
      hide Apply, Enabled;
      var x := Apply(w, step);
      forall tid | tid in x.threads && Knows(x.threads[tid])
        ensures tid in w.threads && w.threads[tid] == x.threads[tid]
      {
        assert Tracked(x.threads[tid]);
      }
    }
  }

  lemma StageKnows(w: World, step: Step)
    requires Enabled(w, step)
    requires step.Reserve? || step.Resolve? || step.CheckCracked? || step.Precheck? || step.AgentsDone? || step.CheckTokens?
    ensures var x := Apply(w, step);
      forall tid :: tid in x.threads && Knows(x.threads[tid]) ==>
        || (tid in w.threads && Knows(w.threads[tid]) && w.threads[tid].op == x.threads[tid].op)
        || x.threads[tid].op in x.t.rows
  {
    hide QueueOk, DoReserve, DoPrecheck, DoCheckTokens, DoAgentsDone, SameMembers;
    if step.Precheck? {
      PrecheckKnows(w, step.tid, w.threads[step.tid].op, w.threads[step.tid].seen);
    } else if step.CheckTokens? {
      CheckTokensThreads(w, step.tid, w.threads[step.tid].op);
    }
  }

  lemma PrecheckKnows(w: World, tid: Tid, op: OpId, seen: Status)
    requires op in w.t.rows
    ensures var x := DoPrecheck(w, tid, op, seen);
      x.threads == w.threads - {tid} || x.threads == w.threads[tid := Polling(op)] || x.threads == w.threads[tid := Prechecked(op)]
  {
    hide BusinessOk, SameMembers;
  }

  lemma CheckTokensThreads(w: World, tid: Tid, op: OpId)
    requires op in w.t.rows
    ensures var x := DoCheckTokens(w, tid, op);
      x.threads == w.threads - {tid} || (tid in x.threads && x.threads[tid].Dispatched? && x.threads[tid].op == op
        && x.threads == w.threads[tid := x.threads[tid]])
  {
    hide TokensOf, Finish, SameMembers;
  }

  lemma JoinsStep(w: World, step: Step)
    requires Control(w) && JoinsOk(w) && OpsOk(w) && Enabled(w, step)
    ensures JoinsOk(Apply(w, step))
  {
    if step.Enqueue? {
      EnqueueJoins(w, step.tid, w.threads[step.tid].op);
    } else if step.Commit? {
      CommitJoins(w, step.tid, w.threads[step.tid].op, w.threads[step.tid].tokens);
    } else if step.Precheck? {
      PrecheckJoins(w, step.tid, w.threads[step.tid].op, w.threads[step.tid].seen);
    } else {
      OtherJoins(w, step);
    }
  }

  lemma EnqueueJoins(w: World, tid: Tid, op: OpId)
    requires JoinsOk(w) && tid in w.threads && w.threads[tid] == Prechecked(op) && op in w.t.rows
    ensures JoinsOk(DoEnqueue(w, tid, op))
  {
    assert At(w, tid, Prechecked(op));
    var x := DoEnqueue(w, tid, op);
    EnqueuedStages(w, x, tid, op);
    EnqueuedStatus(w.t, op);
    assert x.t == w.t || (w.t.rows[op].status == RESERVED && x.t == Ledger.Enqueue(w.t, op));
    hide SameMembers, DoEnqueue, Ledger.Enqueue;
    forall p | p in x.t.rows && x.t.rows[p].kind == JOIN && InQueueOrActive(x.t.rows[p].status)
      ensures !IsJoined(x.t, p)
    {
      assert !IsJoined(w.t, p);
    }
  }

  lemma EnqueuedStages(w: World, x: World, tid: Tid, op: OpId)
    requires x.threads == w.threads[tid := Polling(op)]
    ensures forall o: Tid, p: OpId :: At(x, o, Prechecked(p)) ==> At(w, o, Prechecked(p))
  {
  }

  lemma EnqueuedStatus(t: Tables, op: OpId)
    requires op in t.rows
    ensures var u := Ledger.Enqueue(t, op);
      u.users == t.users && u.rows == t.rows[op := t.rows[op].(status := QUEUED)]
  {
  }

  lemma PrecheckJoins(w: World, tid: Tid, op: OpId, seen: Status)
    requires JoinsOk(w) && tid in w.threads && op in w.t.rows
    ensures JoinsOk(DoPrecheck(w, tid, op, seen))
  {
    var x := DoPrecheck(w, tid, op, seen);
    forall o: Tid, p: OpId | At(x, o, Prechecked(p)) && p in x.t.rows && x.t.rows[p].kind == JOIN
      ensures At(w, o, Prechecked(p)) || !IsJoined(x.t, p)
    {
    }
  }

  lemma OtherJoins(w: World, step: Step)
    requires Control(w) && JoinsOk(w) && OpsOk(w) && Enabled(w, step)
    requires !step.Enqueue? && !step.Commit? && !step.Precheck?
    ensures JoinsOk(Apply(w, step))
  {
    hide Control, Apply, Enabled;
    QueuedBefore(w, step);
    StepForward(w, step);
    PrecheckedBefore(w, step);
    SameUsers(w, step);
    var x := Apply(w, step);
    forall op | op in x.t.rows && x.t.rows[op].kind == JOIN && InQueueOrActive(x.t.rows[op].status)
      ensures !IsJoined(x.t, op)
    {
      assert RowForward(w.t.rows[op], x.t.rows[op]);
    }
    forall tid: Tid, op: OpId | At(x, tid, Prechecked(op)) && op in x.t.rows && x.t.rows[op].kind == JOIN && x.t.rows[op].status == RESERVED
      ensures !IsJoined(x.t, op)
    {
      assert At(w, tid, Prechecked(op)) && op in w.t.rows;
      assert RowForward(w.t.rows[op], x.t.rows[op]);
    }
  }

  lemma SameUsers(w: World, step: Step)
    requires Enabled(w, step) && !step.Commit?
    ensures Apply(w, step).t.users == w.t.users
  {
    if !step.AgentsDone? {
      UsersKept(w, step);
      hide Apply;
    }
  }

  lemma PrecheckedBefore(w: World, step: Step)
    requires Enabled(w, step) && !step.Precheck?
    ensures forall tid: Tid, op: OpId :: At(Apply(w, step), tid, Prechecked(op)) ==> At(w, tid, Prechecked(op))
  {
    if step.Reserve? || step.Resolve? || step.CheckCracked? || step.AgentsDone? || step.CheckTokens? {
    } else {
      StepNothingNew(w, step);
      hide Apply;
      var x := Apply(w, step);
      forall tid: Tid, op: OpId | At(x, tid, Prechecked(op))
        ensures At(w, tid, Prechecked(op))
      {
        assert Tracked(x.threads[tid]);
      }
    }
  }

  lemma CommitJoins(w: World, tid: Tid, op: OpId, tokens: map<Role, Token>)
    requires Control(w) && JoinsOk(w)
    requires tid in w.threads && w.threads[tid] == Committing(op, tokens) && op in w.t.rows
    ensures JoinsOk(DoCommit(w, tid, op, tokens))
  {
    hide Control, DoCommit, TokensOf;
    ServedBusy(w, tid, op);
    CommitUsers(w, tid, op, tokens);
    Unrivalled(w, op);
    var x := DoCommit(w, tid, op, tokens);
    CommitPrechecked(w, x, tid, op);
    forall p | p in x.t.rows && p != op && x.t.rows[p].kind == JOIN && Live(x.t.rows[p].status) && !IsJoined(w.t, p)
      ensures !IsJoined(x.t, p)
    {
      assert p in w.t.rows && x.t.rows[p] == w.t.rows[p];
      assert w.t.rows[op].kind == JOIN ==> w.t.rows[p].user != w.t.rows[op].user;
    }
    forall p | p in x.t.rows && x.t.rows[p].kind == JOIN && InQueueOrActive(x.t.rows[p].status)
      ensures !IsJoined(x.t, p)
    {
    }
  }

  lemma CommitPrechecked(w: World, x: World, tid: Tid, op: OpId)
    requires x.threads == w.threads[tid := CrackFlag(Some(op))] || x.threads == w.threads - {tid}
    ensures forall o: Tid, p: OpId :: At(x, o, Prechecked(p)) ==> At(w, o, Prechecked(p))
  {
  }

  /** No other live operation of the same user and service. */
  lemma Unrivalled(w: World, op: OpId)
    requires Control(w) && HasStatus(w.t, op, BUSY)
    ensures forall a :: a in w.t.rows && IsFor(w.t, a, w.t.rows[op].user, w.t.rows[op].kind) && Live(w.t.rows[a].status) ==> a == op
  {
  }
}
