/** The manager as a state machine.  Every request thread, operation thread and SYNC thread advances one step at a time,
    a step being what happens between two points where other threads can interfere: one critical section, one database
    transaction, or one unlocked read.  All interleavings of these steps are runs of the machine. */
module Scheduler {
  import opened Options
  import opened Ledger

  type Tid = nat

  /** Where a thread stands.  `Promoting` and `Starting` are inside the critical section of an execute request; the
      operation thread of a BUSY operation goes Preflight, Dispatched, Committing; a thread that meets an uncertain
      outcome cracks the task in three steps. */
  datatype Pc =
    | Resolved(op: OpId, seen: Status)
    | CrackChecked(op: OpId, seen: Status)
    | Prechecked(op: OpId)
    | Polling(op: OpId)
    | Promoting(op: OpId)
    | Starting(op: OpId)
    | Preflight(op: OpId)
    | Dispatched(op: OpId, sent: map<Role, Token>)
    | Committing(op: OpId, tokens: map<Role, Token>)
    | SyncRunning
    | CrackFlag(failed: Option<OpId>)
    | CrackFailOp(failed: Option<OpId>)
    | CrackFailAll(failed: Option<OpId>)

  /** Ghost history beside the manager's state: who received ports, the ticket each operation drew when it was queued,
      the promotions so far, the promotions since the SYNC was queued, and the holders that have a leaf on the agents
      with the three tokens the agents gave out for it. */
  datatype World = World(
    t: Tables,
    cracked: bool,
    syncQueued: bool,
    syncActive: bool,
    lock: Option<Tid>,
    threads: map<Tid, Pc>,
    handed: seq<OpId>,
    ticket: map<OpId, nat>,
    promoted: seq<OpId>,
    sinceSync: nat,
    leaves: map<User, map<Role, Token>>)

  datatype Step =
    | Reserve(op: OpId, user: User, kind: Kind)
    | Resolve(tid: Tid, op: OpId)
    | CheckCracked(tid: Tid)
    | Precheck(tid: Tid)
    | Enqueue(tid: Tid)
    | Poll(tid: Tid)
    | Promote(tid: Tid, stale: nat)
    | Start(tid: Tid, worker: Tid, reserved: bool)
    | StartFails(tid: Tid)
    | Abandon(tid: Tid)
    | CmdSync(sawCrack: bool)
    | SyncStart(tid: Tid)
    | SyncFinish(tid: Tid)
    | CheckTokens(tid: Tid)
    | AgentsDone(tid: Tid, tokens: map<Role, Token>)
    | Commit(tid: Tid)
    | CrackBegin(tid: Tid)
    | CrackSetFlag(tid: Tid)
    | CrackFailOne(tid: Tid)
    | CrackFailRest(tid: Tid)

  predicate At(w: World, tid: Tid, pc: Pc) {
    tid in w.threads && w.threads[tid] == pc
  }

  /** A request thread outside every critical section. */
  predicate IsRequest(pc: Pc) {
    pc.Resolved? || pc.CrackChecked? || pc.Prechecked? || pc.Polling?
  }

  /** A thread that runs an operation or a SYNC on the agents, or is cracking the task after one. */
  predicate IsService(pc: Pc) {
    pc.Preflight? || pc.Dispatched? || pc.Committing? || pc.SyncRunning? || pc.CrackFlag? || pc.CrackFailOp? || pc.CrackFailAll?
  }

  predicate HoldsLock(pc: Pc) {
    pc.Promoting? || pc.Starting?
  }

  predicate NoneActive(t: Tables) {
    forall op :: op in t.rows ==> !Active(t.rows[op].status)
  }

  /** The business precondition of an execute request, read without a lock. */
  predicate BusinessOk(t: Tables, op: OpId)
    requires op in t.rows
  {
    var row := t.rows[op];
    row.user in t.users
    && (row.kind == JOIN ==> t.users[row.user] != Joined)
    && (row.kind == UPDATE || row.kind == QUIT ==> t.users[row.user] == Joined)
  }

  /** The eviction of `stale` expired heads before a promotion. */
  function Evicted(t: Tables, stale: nat): Tables
    requires QueueOk(t)
    decreases stale
  {
    if stale == 0 || t.queue == [] then t
    else
      assert t.queue[0] in t.queue;
      FinishKeepsQueue(t, t.queue[0]);
      Evicted(Finish(t, t.queue[0], REMOVED), stale - 1)
  }

  lemma FinishKeepsQueue(t: Tables, op: OpId)
    requires QueueOk(t) && op in t.rows
    ensures QueueOk(Finish(t, op, REMOVED))
  {
  }

  // ---- the steps ----

  ghost predicate Enabled(w: World, step: Step) {
    match step
    case Reserve(op, user, kind) => w.lock.None? && op !in w.t.rows && user in w.t.users
    case Resolve(tid, op) => tid !in w.threads && op in w.t.rows && Live(w.t.rows[op].status)
    case CheckCracked(tid) => tid in w.threads && w.threads[tid].Resolved?
    case Precheck(tid) => tid in w.threads && w.threads[tid].CrackChecked? && w.threads[tid].op in w.t.rows
    case Enqueue(tid) => w.lock.None? && tid in w.threads && w.threads[tid].Prechecked? && w.threads[tid].op in w.t.rows
    case Poll(tid) => w.lock.None? && tid in w.threads && w.threads[tid].Polling? && w.threads[tid].op in w.t.rows
    case Promote(tid, stale) => tid in w.threads && w.threads[tid].Promoting? && QueueOk(w.t)
    case Start(tid, worker, reserved) =>
      tid in w.threads && w.threads[tid].Starting? && worker !in w.threads && w.threads[tid].op in w.t.rows
    case StartFails(tid) => tid in w.threads && w.threads[tid].Starting?
    case Abandon(tid) => tid in w.threads && IsRequest(w.threads[tid])
    case CmdSync(sawCrack) => sawCrack ==> w.cracked
    case SyncStart(tid) => w.lock.None? && tid !in w.threads
    case SyncFinish(tid) => At(w, tid, SyncRunning)
    case CheckTokens(tid) => tid in w.threads && w.threads[tid].Preflight? && w.threads[tid].op in w.t.rows
    case AgentsDone(tid, tokens) => tid in w.threads && w.threads[tid].Dispatched? && w.threads[tid].op in w.t.rows
    case Commit(tid) => tid in w.threads && w.threads[tid].Committing? && w.threads[tid].op in w.t.rows
    case CrackBegin(tid) =>
      tid in w.threads && (w.threads[tid].Dispatched? || w.threads[tid].Committing? || w.threads[tid].SyncRunning?)
    case CrackSetFlag(tid) => w.lock.None? && tid in w.threads && w.threads[tid].CrackFlag?
    case CrackFailOne(tid) => tid in w.threads && w.threads[tid].CrackFailOp?
    case CrackFailRest(tid) => tid in w.threads && w.threads[tid].CrackFailAll?
  }

  function Goto(w: World, tid: Tid, pc: Pc): World {
    w.(threads := w.threads[tid := pc])
  }

  function Leave(w: World, tid: Tid): World {
    w.(threads := w.threads - {tid})
  }

  /** Users, tokens and leaves stay. */
  predicate SameMembers(w: World, x: World) {
    x.t.users == w.t.users && x.t.tokens == w.t.tokens && x.leaves == w.leaves
  }

  /** The next free ticket. */
  function NextTicket(w: World): nat {
    |w.ticket|
  }

  /** reserve_*: under the lock; the crack flag was read before and is not read again. */
  function DoReserve(w: World, op: OpId, user: User, kind: Kind): (x: World)
    ensures SameMembers(w, x)
    ensures x == w.(t := x.t)
  {
    if exists a :: a in w.t.rows && Rivals(w.t.rows[a], Row(user, kind, RESERVED)) then w
    else w.(t := Ledger.Reserve(w.t, op, user, kind))
  }

  /** The status read when the request was resolved decides whether there is a precondition to check. */
  function DoPrecheck(w: World, tid: Tid, op: OpId, seen: Status): (x: World)
    requires op in w.t.rows
    ensures SameMembers(w, x)
    ensures x == w.(threads := x.threads)
  {
    if seen != RESERVED then Goto(w, tid, Polling(op))
    else if BusinessOk(w.t, op) then Goto(w, tid, Prechecked(op))
    else Leave(w, tid)
  }

  /** Under the lock: RESERVED goes to the end of the queue. */
  function DoEnqueue(w: World, tid: Tid, op: OpId): (x: World)
    requires op in w.t.rows
    ensures SameMembers(w, x)
    ensures x == w.(t := x.t, threads := x.threads, ticket := x.ticket)
  {
    if w.t.rows[op].status == RESERVED then
      Goto(w, tid, Polling(op)).(t := Ledger.Enqueue(w.t, op), ticket := w.ticket[op := NextTicket(w)])
    else Goto(w, tid, Polling(op))
  }

  /** The critical section of an execute request up to the SYNC check of its activation; the lock stays held when there
      is more to do. */
  function DoPoll(w: World, tid: Tid, op: OpId): (x: World)
    requires op in w.t.rows
    ensures SameMembers(w, x)
    ensures x == w.(threads := x.threads, lock := x.lock)
  {
    if w.cracked then Leave(w, tid)
    else if w.t.rows[op].status == QUEUED then
      if w.syncQueued || w.syncActive then Leave(w, tid)
      else Goto(w, tid, Promoting(op)).(lock := Some(tid))
    else if w.t.rows[op].status == ACTIVE then Goto(w, tid, Starting(op)).(lock := Some(tid))
    else Leave(w, tid)
  }

  /** The rest of the activation: no other ACTIVE or BUSY operation, expired heads evicted, and the operation at the
      head. */
  function DoPromote(w: World, tid: Tid, op: OpId, stale: nat): (x: World)
    requires QueueOk(w.t)
    ensures SameMembers(w, x)
    ensures x == w.(t := x.t, threads := x.threads, lock := x.lock, promoted := x.promoted, sinceSync := x.sinceSync)
  {
    if !NoneActive(w.t) then Leave(w, tid).(lock := None)
    else
      EvictedKeepsQueue(w.t, stale);
      AfterEviction(w, tid, op, Evicted(w.t, stale))
  }

  function AfterEviction(w: World, tid: Tid, op: OpId, t: Tables): (x: World)
    requires QueueOk(t)
    ensures t.users == w.t.users && t.tokens == w.t.tokens ==> SameMembers(w, x)
    ensures x == w.(t := x.t, threads := x.threads, lock := x.lock, promoted := x.promoted, sinceSync := x.sinceSync)
  {
    if t.queue == [] || t.queue[0] != op then Leave(w, tid).(t := t, lock := None)
    else
      assert t.queue[0] in t.queue;
      Goto(w, tid, Starting(op)).(t := Ledger.Promote(t), promoted := w.promoted + [op], sinceSync := w.sinceSync + 1)
  }

  lemma {:induction false} EvictedKeepsQueue(t: Tables, stale: nat)
    requires QueueOk(t)
    ensures QueueOk(Evicted(t, stale))
    ensures Evicted(t, stale).users == t.users && Evicted(t, stale).tokens == t.tokens
    ensures Evicted(t, stale).rows.Keys == t.rows.Keys
    decreases stale
  {
    if stale != 0 && t.queue != [] {
      assert t.queue[0] in t.queue;
      FinishKeepsQueue(t, t.queue[0]);
      EvictedKeepsQueue(Finish(t, t.queue[0], REMOVED), stale - 1);
    }
  }

  /** The ports are reserved on the agents, except for QUIT, and handed to the caller with the one BUSY answer; the
      operation thread starts. */
  function DoStart(w: World, tid: Tid, op: OpId, worker: Tid, reserved: bool): (x: World)
    requires op in w.t.rows
    ensures SameMembers(w, x)
    ensures x == w.(t := x.t, threads := x.threads, lock := x.lock, handed := x.handed)
  {
    var free := Leave(w, tid).(lock := None);
    if w.t.rows[op].kind == QUIT then Goto(free, worker, Preflight(op)).(t := SetStatus(w.t, op, BUSY))
    else if !reserved then free.(t := Finish(w.t, op, FAILED))
    else Goto(free, worker, Preflight(op)).(t := SetStatus(w.t, op, BUSY), handed := w.handed + [op])
  }

  /** The crack flag is read without a lock, so it may have been set since. */
  function DoCmdSync(w: World, sawCrack: bool): (x: World)
    ensures SameMembers(w, x)
    ensures x == w.(syncQueued := x.syncQueued, sinceSync := x.sinceSync)
  {
    if sawCrack || w.syncQueued || w.syncActive then w else w.(syncQueued := true, sinceSync := 0)
  }

  function DoSyncStart(w: World, tid: Tid): (x: World)
    ensures SameMembers(w, x)
    ensures x == w.(threads := x.threads, syncQueued := x.syncQueued, syncActive := x.syncActive)
  {
    if w.cracked || !NoneActive(w.t) || w.syncActive || !w.syncQueued then w
    else Goto(w, tid, SyncRunning).(syncQueued := false, syncActive := true)
  }

  /** UPDATE and QUIT need all three tokens, which are then sent to the agents. */
  function DoCheckTokens(w: World, tid: Tid, op: OpId): (x: World)
    requires op in w.t.rows
    ensures SameMembers(w, x)
    ensures x == w.(t := x.t, threads := x.threads)
  {
    var row := w.t.rows[op];
    if row.kind != UPDATE && row.kind != QUIT then Goto(w, tid, Dispatched(op, map[]))
    else if TokensOf(w.t, row.user).Keys != AllRoles() then Leave(w, tid).(t := Finish(w.t, op, FAILED))
    else Goto(w, tid, Dispatched(op, TokensOf(w.t, row.user)))
  }

  /** All three agents have finished: the leaf is in their trees under the tokens they answered, or out of them. */
  function DoAgentsDone(w: World, tid: Tid, op: OpId, tokens: map<Role, Token>): (x: World)
    requires op in w.t.rows
    ensures x == w.(threads := w.threads[tid := Committing(op, tokens)], leaves := x.leaves)
  {
    var row := w.t.rows[op];
    Goto(w, tid, Committing(op, tokens)).(leaves :=
      if row.kind == JOIN then w.leaves[row.user := tokens] else if row.kind == QUIT then w.leaves - {row.user} else w.leaves)
  }

  /** A JOIN without all three tokens cracks the task. */
  function DoCommit(w: World, tid: Tid, op: OpId, tokens: map<Role, Token>): (x: World)
    requires op in w.t.rows
    ensures x == w.(t := x.t, threads := x.threads)
  {
    var row := w.t.rows[op];
    if row.kind == JOIN then
      if tokens.Keys != AllRoles() then Goto(w, tid, CrackFlag(Some(op)))
      else Leave(w, tid).(t := CompleteJoin(w.t, op, row.user, tokens))
    else if row.kind == QUIT then Leave(w, tid).(t := CompleteQuit(w.t, op, row.user))
    else Leave(w, tid).(t := Finish(w.t, op, DONE))
  }

  function DoCrackFailOne(w: World, tid: Tid, failed: Option<OpId>): (x: World)
    ensures SameMembers(w, x)
    ensures x == w.(t := x.t, threads := x.threads)
  {
    if failed.Some? && failed.value in w.t.rows then Goto(w, tid, CrackFailAll(failed)).(t := Finish(w.t, failed.value, FAILED))
    else Goto(w, tid, CrackFailAll(failed))
  }

  /** The last step; a SYNC thread then gives up its slot. */
  function DoCrackFailRest(w: World, tid: Tid, failed: Option<OpId>): (x: World)
    ensures SameMembers(w, x)
    ensures x == w.(t := x.t, threads := x.threads, syncActive := x.syncActive)
  {
    var y := Leave(w, tid).(t := FailAllLive(w.t));
    if failed.None? then y.(syncActive := false) else y
  }

  function Apply(w: World, step: Step): World
    requires Enabled(w, step)
  {
    match step
    case Reserve(op, user, kind) => DoReserve(w, op, user, kind)
    case Resolve(tid, op) => Goto(w, tid, Resolved(op, w.t.rows[op].status))
    case CheckCracked(tid) => if w.cracked then Leave(w, tid) else Goto(w, tid, CrackChecked(w.threads[tid].op, w.threads[tid].seen))
    case Precheck(tid) => DoPrecheck(w, tid, w.threads[tid].op, w.threads[tid].seen)
    case Enqueue(tid) => DoEnqueue(w, tid, w.threads[tid].op)
    case Poll(tid) => DoPoll(w, tid, w.threads[tid].op)
    case Promote(tid, stale) => DoPromote(w, tid, w.threads[tid].op, stale)
    case Start(tid, worker, reserved) => DoStart(w, tid, w.threads[tid].op, worker, reserved)
    case StartFails(tid) => Leave(w, tid).(lock := None)
    case Abandon(tid) => Leave(w, tid)
    case CmdSync(sawCrack) => DoCmdSync(w, sawCrack)
    case SyncStart(tid) => DoSyncStart(w, tid)
    case SyncFinish(tid) => Leave(w, tid).(syncActive := false)
    case CheckTokens(tid) => DoCheckTokens(w, tid, w.threads[tid].op)
    case AgentsDone(tid, tokens) => DoAgentsDone(w, tid, w.threads[tid].op, tokens)
    case Commit(tid) => DoCommit(w, tid, w.threads[tid].op, w.threads[tid].tokens)
    case CrackBegin(tid) =>
      Goto(w, tid, CrackFlag(if w.threads[tid].SyncRunning? then None else Some(w.threads[tid].op)))
    case CrackSetFlag(tid) => Goto(w, tid, CrackFailOp(w.threads[tid].failed)).(cracked := true)
    case CrackFailOne(tid) => DoCrackFailOne(w, tid, w.threads[tid].failed)
    case CrackFailRest(tid) => DoCrackFailRest(w, tid, w.threads[tid].failed)
  }

  // ---- what holds in every reachable state ----

  ghost predicate TablesOk(w: World) {
    RowsOk(w.t)
  }

  /** One holder of the lock at most, and while it is held nothing has cracked and no SYNC runs. */
  ghost predicate LockOk(w: World) {
    && (forall tid :: tid in w.threads && HoldsLock(w.threads[tid]) ==> w.lock == Some(tid))
    && (w.lock.Some? ==> w.lock.value in w.threads && HoldsLock(w.threads[w.lock.value]) && !w.cracked && !w.syncActive)
  }

  /** The operation a service thread answers for. */
  predicate Serves(pc: Pc, op: OpId) {
    || pc == Preflight(op) || (pc.Dispatched? && pc.op == op) || (pc.Committing? && pc.op == op)
    || pc == CrackFlag(Some(op)) || pc == CrackFailOp(Some(op))
  }

  predicate ServesSync(pc: Pc) {
    pc.SyncRunning? || pc == CrackFlag(None) || pc == CrackFailOp(None) || pc == CrackFailAll(None)
  }

  predicate PastCrack(pc: Pc) {
    pc.CrackFailOp? || pc.CrackFailAll?
  }

  /** One service thread at most; it has a BUSY operation or the running SYNC, and it is what cracks the task. */
  ghost predicate ServiceOk(w: World) {
    && (forall a, b :: a in w.threads && b in w.threads && IsService(w.threads[a]) && IsService(w.threads[b]) ==> a == b)
    && (forall tid, op :: tid in w.threads && Serves(w.threads[tid], op) ==> HasStatus(w.t, op, BUSY))
    && (forall tid :: tid in w.threads && ServesSync(w.threads[tid]) ==> w.syncActive)
    && (forall tid :: tid in w.threads && IsService(w.threads[tid]) ==> (w.cracked <==> PastCrack(w.threads[tid])))
    && (forall op :: HasStatus(w.t, op, BUSY) ==> exists tid :: tid in w.threads && Serves(w.threads[tid], op))
    && (w.syncActive ==> exists tid :: tid in w.threads && ServesSync(w.threads[tid]))
  }

  /** At most one operation is ACTIVE or BUSY, and none while a SYNC runs.  An operation whose start failed stays ACTIVE
      with the lock free until its next poll starts it. */
  ghost predicate ActiveOk(w: World) {
    && (forall a, b :: a in w.t.rows && b in w.t.rows && Active(w.t.rows[a].status) && Active(w.t.rows[b].status) ==> a == b)
    && (w.syncActive ==> NoneActive(w.t))
    && (forall tid, op :: At(w, tid, Starting(op)) ==> HasStatus(w.t, op, ACTIVE))
  }

  ghost predicate Control(w: World) {
    TablesOk(w) && LockOk(w) && ServiceOk(w) && ActiveOk(w)
  }

  /** A service thread has a BUSY operation, the SYNC slot, or a cracked task behind it. */
  lemma ServiceHas(w: World, tid: Tid)
    requires ServiceOk(w) && tid in w.threads && IsService(w.threads[tid])
    ensures w.cracked || w.syncActive || exists op :: HasStatus(w.t, op, BUSY)
  {
    var pc := w.threads[tid];
    if !PastCrack(pc) && !ServesSync(pc) {
      var op := if pc.CrackFlag? then pc.failed.value else pc.op;
      assert Serves(w.threads[tid], op);
      assert HasStatus(w.t, op, BUSY);
    }
  }

  lemma Quiet(w: World)
    requires Control(w) && !w.cracked && !w.syncActive && forall op :: !HasStatus(w.t, op, BUSY)
    ensures forall tid :: tid in w.threads ==> !IsService(w.threads[tid])
  {
    forall tid | tid in w.threads
      ensures !IsService(w.threads[tid])
    {
      if IsService(w.threads[tid]) {
        ServiceHas(w, tid);
      }
    }
  }

  // ---- every step keeps the tables ----

  ghost predicate UsersOk(t: Tables) {
    forall op :: op in t.rows ==> t.rows[op].user in t.users
  }

  ghost predicate RowsOk(t: Tables) {
    QueueOk(t) && OneLive(t) && UsersOk(t)
  }

  lemma FinishRows(t: Tables, op: OpId, s: Status)
    requires RowsOk(t) && op in t.rows && s != QUEUED && (Live(s) ==> Live(t.rows[op].status))
    ensures RowsOk(Finish(t, op, s)) && Finish(t, op, s).rows == t.rows[op := t.rows[op].(status := s)]
    ensures Finish(t, op, s).users == t.users && Finish(t, op, s).tokens == t.tokens
  {
  }

  /** Marking an operation that is not queued leaves the queue alone. */
  lemma MarkRows(t: Tables, op: OpId, s: Status)
    requires RowsOk(t) && op in t.rows && s != QUEUED && t.rows[op].status != QUEUED && (Live(s) ==> Live(t.rows[op].status))
    ensures RowsOk(SetStatus(t, op, s)) && Finish(t, op, s) == SetStatus(t, op, s)
  {
    assert op !in t.queue;
    WithoutStranger(t.queue, op);
    FinishRows(t, op, s);
  }

  predicate SameOrEvicted(a: Row, b: Row) {
    b == a || (a.status == QUEUED && b == a.(status := REMOVED))
  }

  lemma {:induction false} EvictedRows(t: Tables, stale: nat)
    requires RowsOk(t)
    ensures RowsOk(Evicted(t, stale)) && Evicted(t, stale).users == t.users && Evicted(t, stale).tokens == t.tokens
    ensures forall a :: a in Evicted(t, stale).rows <==> a in t.rows
    ensures forall a :: a in t.rows ==> SameOrEvicted(t.rows[a], Evicted(t, stale).rows[a])
    ensures |Evicted(t, stale).queue| <= |t.queue| && Evicted(t, stale).queue == t.queue[|t.queue| - |Evicted(t, stale).queue|..]
    decreases stale
  {
    hide Without, OneLive;
    if stale != 0 && t.queue != [] {
      assert t.queue[0] in t.queue;
      FinishKeepsQueue(t, t.queue[0]);
      FinishRows(t, t.queue[0], REMOVED);
      HeadGone(t.queue);
      var next := Finish(t, t.queue[0], REMOVED);
      EvictedRows(next, stale - 1);
      assert next.queue == t.queue[1..];
    }
  }

  lemma HeadGone(q: seq<OpId>)
    requires q != [] && Distinct(q)
    ensures Without(q, q[0]) == q[1..]
  {
    assert q[0] !in q[1..];
    WithoutStranger(q[1..], q[0]);
  }

  lemma PromotedRows(t: Tables)
    requires RowsOk(t) && t.queue != []
    ensures HasStatus(t, t.queue[0], QUEUED) && RowsOk(Ledger.Promote(t))
  {
    PromoteKeeps(t);
  }

  lemma ReservedRows(t: Tables, op: OpId, user: User, kind: Kind)
    requires RowsOk(t) && op !in t.rows && user in t.users
    ensures (forall a :: a in t.rows ==> !Rivals(t.rows[a], Row(user, kind, RESERVED))) ==> RowsOk(Ledger.Reserve(t, op, user, kind))
  {
  }

  lemma EnqueuedRows(t: Tables, op: OpId)
    requires RowsOk(t)
    ensures HasStatus(t, op, RESERVED) ==> RowsOk(Ledger.Enqueue(t, op))
  {
    if HasStatus(t, op, RESERVED) {
      EnqueueKeeps(t, op);
    }
  }

  lemma CommittedRows(t: Tables, op: OpId, tokens: map<Role, Token>)
    requires RowsOk(t) && op in t.rows
    ensures RowsOk(CompleteJoin(t, op, t.rows[op].user, tokens)) && RowsOk(CompleteQuit(t, op, t.rows[op].user))
    ensures RowsOk(Finish(t, op, DONE))
    ensures CompleteJoin(t, op, t.rows[op].user, tokens).rows == CompleteQuit(t, op, t.rows[op].user).rows
      == Finish(t, op, DONE).rows == t.rows[op := t.rows[op].(status := DONE)]
  {
    FinishRows(t, op, DONE);
    hide Without;
  }

  lemma FailAllRows(t: Tables)
    requires RowsOk(t)
    ensures RowsOk(FailAllLive(t))
  {
  }

  // ---- every step keeps the control invariant ----

  /** All threads but one are where they were. */
  ghost predicate Others(w: World, x: World, tid: Tid) {
    forall o :: o != tid ==> (o in x.threads <==> o in w.threads) && (o in w.threads ==> x.threads[o] == w.threads[o])
  }

  ghost predicate SameActive(t: Tables, u: Tables) {
    && (forall op :: HasStatus(t, op, ACTIVE) <==> HasStatus(u, op, ACTIVE))
    && (forall op :: HasStatus(t, op, BUSY) <==> HasStatus(u, op, BUSY))
  }

  lemma SameActiveRows(t: Tables, u: Tables)
    requires SameActive(t, u)
    ensures forall a :: a in u.rows && Active(u.rows[a].status) ==> a in t.rows && t.rows[a].status == u.rows[a].status
    ensures NoneActive(t) ==> NoneActive(u)
  {
    forall a | a in u.rows && Active(u.rows[a].status)
      ensures a in t.rows && t.rows[a].status == u.rows[a].status
    {
      assert HasStatus(u, a, ACTIVE) || HasStatus(u, a, BUSY);
      assert HasStatus(t, a, ACTIVE) || HasStatus(t, a, BUSY);
    }
  }

  /** No service thread is touched. */
  lemma ServiceKept(w: World, x: World, tid: Tid)
    requires ServiceOk(w) && Others(w, x, tid) && SameActive(w.t, x.t)
    requires x.cracked == w.cracked && x.syncActive == w.syncActive
    requires tid in w.threads ==> !IsService(w.threads[tid])
    requires tid in x.threads ==> !IsService(x.threads[tid])
    ensures ServiceOk(x)
  {
    forall op | HasStatus(x.t, op, BUSY)
      ensures exists o :: o in x.threads && Serves(x.threads[o], op)
    {
      assert HasStatus(w.t, op, BUSY);
      var o :| o in w.threads && Serves(w.threads[o], op);
      assert x.threads[o] == w.threads[o];
    }
    if w.syncActive {
      var o :| o in w.threads && ServesSync(w.threads[o]);
      assert x.threads[o] == w.threads[o];
    }
    forall o, op | o in x.threads && Serves(x.threads[o], op)
      ensures HasStatus(x.t, op, BUSY)
    {
      assert Serves(w.threads[o], op);
      assert HasStatus(w.t, op, BUSY);
    }
  }

  /** A thread that does not hold the lock is touched, or none. */
  lemma LockKept(w: World, x: World, tid: Tid)
    requires LockOk(w) && Others(w, x, tid) && x.lock == w.lock
    requires w.lock.Some? ==> x.cracked == w.cracked && x.syncActive == w.syncActive
    requires tid in w.threads ==> !HoldsLock(w.threads[tid])
    requires tid in x.threads ==> !HoldsLock(x.threads[tid])
    ensures LockOk(x)
  {
  }

  lemma ActiveKept(w: World, x: World, tid: Tid)
    requires LockOk(w) && ActiveOk(w) && Others(w, x, tid) && x.lock == w.lock && SameActive(w.t, x.t)
    requires x.syncActive == w.syncActive
    requires tid in w.threads ==> !HoldsLock(w.threads[tid])
    requires tid in x.threads ==> !HoldsLock(x.threads[tid])
    ensures ActiveOk(x)
  {
    SameActiveRows(w.t, x.t);
    forall o, op | At(x, o, Starting(op))
      ensures HasStatus(x.t, op, ACTIVE)
    {
      assert At(w, o, Starting(op));
    }
  }

  /** A request thread appears, moves between its stages or goes; no operation becomes or stops being ACTIVE or
      BUSY. */
  lemma RequestKeepsControl(w: World, x: World, tid: Tid)
    requires Control(w) && RowsOk(x.t) && Others(w, x, tid) && SameActive(w.t, x.t)
    requires x.lock == w.lock && x.cracked == w.cracked && x.syncActive == w.syncActive
    requires tid in w.threads ==> IsRequest(w.threads[tid])
    requires tid in x.threads ==> IsRequest(x.threads[tid])
    ensures Control(x)
  {
    hide LockOk, ServiceOk, ActiveOk, RowsOk, Others, SameActive;
    LockKept(w, x, tid);
    ServiceKept(w, x, tid);
    ActiveKept(w, x, tid);
  }

  lemma {:induction false} FreshTid(used: set<Tid>) returns (tid: Tid)
    ensures forall o :: o in used ==> o < tid
    decreases used
  {
    if used == {} {
      tid := 0;
    } else {
      var o :| o in used;
      var below := FreshTid(used - {o});
      tid := if o < below then below else o + 1;
      forall p | p in used
        ensures p < tid
      {
        assert p == o || p in used - {o};
      }
    }
  }

  // ---- reserve and the request stages ----

  /** Only one row changes, between two statuses that are not ACTIVE or BUSY. */
  lemma SameActiveUpdate(t: Tables, u: Tables, op: OpId)
    requires u.rows == t.rows || (op in u.rows && u.rows == t.rows[op := u.rows[op]])
    requires (op in t.rows ==> !Active(t.rows[op].status)) || u.rows == t.rows
    requires (op in u.rows ==> !Active(u.rows[op].status)) || u.rows == t.rows
    ensures SameActive(t, u)
  {
  }

  lemma StartingLock(w: World)
    requires LockOk(w)
    ensures forall o: Tid, p: OpId :: At(w, o, Starting(p)) ==> w.lock == Some(o)
  {
  }

  lemma ReserveControl(w: World, op: OpId, user: User, kind: Kind)
    requires Control(w) && w.lock.None? && op !in w.t.rows && user in w.t.users
    ensures Control(DoReserve(w, op, user, kind))
  {
    TablesOf(w);
    ReservedTables(w, op, user, kind);
    var tid := FreshTid(w.threads.Keys);
    hide Control, RowsOk, SameActive, SameMembers, DoReserve;
    RequestKeepsControl(w, DoReserve(w, op, user, kind), tid);
  }

  lemma ReservedTables(w: World, op: OpId, user: User, kind: Kind)
    requires RowsOk(w.t) && op !in w.t.rows && user in w.t.users
    ensures var x := DoReserve(w, op, user, kind);
      RowsOk(x.t) && SameActive(w.t, x.t)
  {
    ReservedRows(w.t, op, user, kind);
    hide RowsOk, SameActive, SameMembers, Rivals;
    SameActiveUpdate(w.t, DoReserve(w, op, user, kind).t, op);
  }

  lemma GotoOthers(w: World, x: World, tid: Tid)
    requires tid in x.threads && x.threads == w.threads[tid := x.threads[tid]]
    ensures Others(w, x, tid)
  {
  }

  lemma EnqueueControl(w: World, tid: Tid, op: OpId)
    requires Control(w) && tid in w.threads && w.threads[tid] == Prechecked(op) && op in w.t.rows
    ensures Control(DoEnqueue(w, tid, op))
  {
    hide Control, RowsOk, SameMembers, SameActive, Others, Ledger.Enqueue;
    var x := DoEnqueue(w, tid, op);
    TablesOf(w);
    EnqueuedRows(w.t, op);
    EnqueueActive(w.t, op);
    GotoOthers(w, x, tid);
    RequestKeepsControl(w, x, tid);
  }

  lemma EnqueueActive(t: Tables, op: OpId)
    requires op in t.rows
    ensures t.rows[op].status == RESERVED ==> SameActive(t, Ledger.Enqueue(t, op))
    ensures SameActive(t, t)
  {
  }

  /** A request that only changes its own stage, or a SYNC command. */
  lemma StageControl(w: World, x: World, tid: Tid)
    requires Control(w) && x.t == w.t && x.lock == w.lock && x.cracked == w.cracked && x.syncActive == w.syncActive
    requires x.threads == w.threads || (x.threads == w.threads - {tid}) || (tid in x.threads && x.threads == w.threads[tid := x.threads[tid]])
    requires tid in w.threads ==> IsRequest(w.threads[tid])
    requires tid in x.threads ==> IsRequest(x.threads[tid])
    ensures Control(x)
  {
    hide LockOk, ServiceOk, ActiveOk, RowsOk;
    RequestKeepsControl(w, x, tid);
  }

  lemma SyncCommandControl(w: World, sawCrack: bool)
    requires Control(w)
    ensures Control(DoCmdSync(w, sawCrack))
  {
    var tid := FreshTid(w.threads.Keys);
    StageControl(w, DoCmdSync(w, sawCrack), tid);
  }

  // ---- the critical section of an activation ----

  lemma PollControl(w: World, tid: Tid, op: OpId)
    requires Control(w) && w.lock.None? && tid in w.threads && w.threads[tid] == Polling(op) && op in w.t.rows
    ensures Control(DoPoll(w, tid, op))
  {
    ActiveNoSync(w, op);
    hide Control, RowsOk, SameMembers;
    var x := DoPoll(w, tid, op);
    if x.lock == w.lock {
      StageControl(w, x, tid);
    } else {
      LockControl(w, x, tid, op);
    }
  }

  lemma ActiveNoSync(w: World, op: OpId)
    requires Control(w)
    ensures HasStatus(w.t, op, ACTIVE) ==> !w.syncActive
  {
    hide RowsOk, LockOk, ServiceOk;
  }

  lemma LockControl(w: World, x: World, tid: Tid, op: OpId)
    requires Control(w) && w.lock.None? && tid in w.threads && w.threads[tid] == Polling(op) && !w.cracked && !w.syncActive
    requires tid in x.threads && x.t == w.t && x.threads == w.threads[tid := x.threads[tid]] && x.lock == Some(tid)
    requires x.threads[tid] == Promoting(op) || (x.threads[tid] == Starting(op) && HasStatus(w.t, op, ACTIVE))
    requires x.cracked == w.cracked && x.syncActive == w.syncActive
    ensures Control(x)
  {
    hide ServiceOk, RowsOk, SameActive;
    assert SameActive(w.t, x.t) by { SameTables(w.t); }
    ServiceKept(w, x, tid);
    FreeLock(w);
    StartingLock(w);
    LockTaken(w, x, tid, op);
  }

  lemma SameTables(t: Tables)
    ensures SameActive(t, t)
  {
  }

  lemma FreeLock(w: World)
    requires LockOk(w) && w.lock.None?
    ensures forall o :: o in w.threads ==> !HoldsLock(w.threads[o])
  {
  }

  lemma LockTaken(w: World, x: World, tid: Tid, op: OpId)
    requires ActiveOk(w) && forall o :: o in w.threads ==> !HoldsLock(w.threads[o])
    requires tid in x.threads && x.t == w.t && x.threads == w.threads[tid := x.threads[tid]] && x.lock == Some(tid)
    requires x.threads[tid] == Promoting(op) || (x.threads[tid] == Starting(op) && HasStatus(w.t, op, ACTIVE))
    requires !x.cracked && !x.syncActive && x.syncActive == w.syncActive
    ensures LockOk(x) && ActiveOk(x)
  {
    forall o, p | At(x, o, Starting(p))
      ensures HasStatus(x.t, p, ACTIVE)
    {
      if o != tid {
        assert HoldsLock(w.threads[o]);
      }
    }
  }

  lemma EvictedActive(t: Tables, stale: nat)
    requires RowsOk(t)
    ensures SameActive(t, Evicted(t, stale))
  {
    hide RowsOk;
    EvictedRows(t, stale);
  }

  /** The lock is given back without a promotion. */
  lemma ReleaseControl(w: World, x: World, tid: Tid, op: OpId)
    requires Control(w) && tid in w.threads && w.threads[tid] == Promoting(op) && RowsOk(x.t) && SameActive(w.t, x.t)
    requires x.threads == w.threads - {tid} && x.lock == None && x.cracked == w.cracked && x.syncActive == w.syncActive
    ensures Control(x)
  {
    hide QueueOk, OneLive;
    assert Others(w, x, tid);
    ServiceKept(w, x, tid);
    SameActiveRows(w.t, x.t);
    hide ServiceOk, SameActive;
    StartingLock(w);
    assert forall o: Tid, p: OpId :: At(x, o, Starting(p)) ==> At(w, o, Starting(p));
  }

  /** The start raises: the lock is given back and the operation stays ACTIVE. */
  lemma StartFailsControl(w: World, tid: Tid, op: OpId)
    requires Control(w) && tid in w.threads && w.threads[tid] == Starting(op)
    ensures Control(Leave(w, tid).(lock := None))
  {
    StartFacts(w, tid, op);
    var x := Leave(w, tid).(lock := None);
    assert Others(w, x, tid);
    ServiceKept(w, x, tid) by { hide RowsOk, LockOk; }
    hide RowsOk, ServiceOk;
    StartingLock(w);
    assert forall o: Tid, p: OpId :: At(x, o, Starting(p)) ==> At(w, o, Starting(p));
  }

  /** The operation becomes the only active one. */
  lemma ActivateControl(w: World, x: World, tid: Tid, op: OpId)
    requires Control(w) && tid in w.threads && w.threads[tid] == Promoting(op) && RowsOk(x.t) && NoneActive(w.t)
    requires HasStatus(x.t, op, ACTIVE) && forall a :: a in x.t.rows && a != op ==> !Active(x.t.rows[a].status)
    requires x.threads == w.threads[tid := Starting(op)] && x.lock == w.lock && x.cracked == w.cracked && x.syncActive == w.syncActive
    ensures Control(x)
  {
    ControlParts(w);
    NoneBusy(w);
    assert w.lock == Some(tid) && !w.cracked && !w.syncActive by { hide RowsOk, ServiceOk, ActiveOk; }
    Quiet(w);
    hide Control, RowsOk, NoneActive;
    OnlyActive(w, x, tid, op);
  }

  lemma OnlyActive(w: World, x: World, tid: Tid, op: OpId)
    requires LockOk(w) && RowsOk(x.t) && w.lock == Some(tid) && !w.cracked && !w.syncActive && tid in w.threads
    requires forall o :: o in w.threads ==> !IsService(w.threads[o])
    requires HasStatus(x.t, op, ACTIVE) && forall a :: a in x.t.rows && a != op ==> !Active(x.t.rows[a].status)
    requires x.threads == w.threads[tid := Starting(op)] && x.lock == w.lock && x.cracked == w.cracked && x.syncActive == w.syncActive
    ensures Control(x)
  {
    hide RowsOk;
    assert forall o :: o in x.threads ==> !IsService(x.threads[o]);
    StartingLock(x);
  }

  lemma PromoteControl(w: World, tid: Tid, op: OpId, stale: nat)
    requires Control(w) && tid in w.threads && w.threads[tid] == Promoting(op)
    ensures Control(DoPromote(w, tid, op, stale))
  {
    var x := DoPromote(w, tid, op, stale);
    EvictedRows(w.t, stale);
    EvictedActive(w.t, stale);
    hide LockOk, ServiceOk, ActiveOk, QueueOk, OneLive, Evicted;
    var t := Evicted(w.t, stale);
    if !NoneActive(w.t) {
      ReleaseControl(w, x, tid, op);
    } else if t.queue == [] || t.queue[0] != op {
      ReleaseControl(w, x, tid, op);
    } else {
      PromotedRows(t);
      SameActiveRows(w.t, t);
      ActivateControl(w, x, tid, op);
    }
  }

  lemma StartControl(w: World, tid: Tid, op: OpId, worker: Tid, reserved: bool)
    requires Control(w) && tid in w.threads && w.threads[tid] == Starting(op) && worker !in w.threads && op in w.t.rows
    ensures Control(DoStart(w, tid, op, worker, reserved))
  {
    hide Control, RowsOk, Finish;
    var x := DoStart(w, tid, op, worker, reserved);
    StartFacts(w, tid, op);
    MarkRows(w.t, op, BUSY);
    FinishRows(w.t, op, FAILED);
    if worker in x.threads {
      SpawnControl(w, x, tid, op, worker);
    } else {
      NoStartControl(w, x, tid, op);
    }
  }

  lemma StartFacts(w: World, tid: Tid, op: OpId)
    requires Control(w) && tid in w.threads && w.threads[tid] == Starting(op)
    ensures LockOk(w) && RowsOk(w.t) && HasStatus(w.t, op, ACTIVE) && !w.cracked && !w.syncActive
    ensures forall a :: a in w.t.rows && a != op ==> !Active(w.t.rows[a].status)
    ensures forall o :: o in w.threads ==> !IsService(w.threads[o])
  {
    hide RowsOk;
    assert At(w, tid, Starting(op));
    Quiet(w);
  }

  lemma SpawnControl(w: World, x: World, tid: Tid, op: OpId, worker: Tid)
    requires LockOk(w) && RowsOk(x.t) && tid in w.threads && w.threads[tid] == Starting(op) && worker !in w.threads
    requires x.threads == (w.threads - {tid})[worker := Preflight(op)] && x.lock == None && !x.cracked && !x.syncActive
    requires forall o :: o in w.threads ==> !IsService(w.threads[o])
    requires HasStatus(x.t, op, BUSY) && forall a :: a in x.t.rows && a != op ==> !Active(x.t.rows[a].status)
    ensures Control(x)
  {
    hide RowsOk;
    assert LockOk(x);
    assert Serves(x.threads[worker], op);
    assert ServiceOk(x);
    StartingLock(x);
  }

  lemma NoStartControl(w: World, x: World, tid: Tid, op: OpId)
    requires LockOk(w) && RowsOk(x.t) && tid in w.threads && w.threads[tid] == Starting(op)
    requires x.threads == w.threads - {tid} && x.lock == None && !x.cracked && !x.syncActive
    requires forall o :: o in w.threads ==> !IsService(w.threads[o])
    requires forall a :: a in x.t.rows ==> !Active(x.t.rows[a].status)
    ensures Control(x)
  {
  }

  // ---- SYNC and operation threads ----

  lemma SyncStartControl(w: World, tid: Tid)
    requires Control(w) && w.lock.None? && tid !in w.threads
    ensures Control(DoSyncStart(w, tid))
  {
    hide RowsOk, Control, NoneActive, SameMembers;
    var x := DoSyncStart(w, tid);
    if x != w {
      NoneBusy(w);
      Quiet(w);
      ControlParts(w);
      SyncTaken(w, x, tid);
    }
  }

  lemma NoneBusy(w: World)
    requires NoneActive(w.t)
    ensures forall op :: !HasStatus(w.t, op, BUSY) && !HasStatus(w.t, op, ACTIVE)
  {
  }

  lemma ControlParts(w: World)
    requires Control(w)
    ensures LockOk(w) && RowsOk(w.t)
  {
    hide RowsOk, LockOk, ServiceOk, ActiveOk;
  }

  lemma SyncTaken(w: World, x: World, tid: Tid)
    requires LockOk(w) && RowsOk(w.t) && NoneActive(w.t) && w.lock.None? && tid !in w.threads && !w.cracked
    requires forall o :: o in w.threads ==> !IsService(w.threads[o])
    requires x.threads == w.threads[tid := SyncRunning] && x.syncActive && x.t == w.t && x.lock == w.lock && x.cracked == w.cracked
    ensures Control(x)
  {
    NoneBusy(w);
    ServiceThere(x, tid);
    hide RowsOk, ServiceOk;
    assert forall o :: o in x.threads ==> !HoldsLock(x.threads[o]);
  }

  /** What is known while the service thread is at work before any crack. */
  lemma ServiceAlone(w: World, tid: Tid)
    requires Control(w) && tid in w.threads && IsService(w.threads[tid])
    ensures forall o :: o in w.threads && o != tid ==> !IsService(w.threads[o])
    ensures forall op :: HasStatus(w.t, op, BUSY) ==> Serves(w.threads[tid], op)
    ensures w.syncActive <==> ServesSync(w.threads[tid])
    ensures w.cracked <==> PastCrack(w.threads[tid])
    ensures forall op :: Serves(w.threads[tid], op) ==> HasStatus(w.t, op, BUSY)
  {
  }

  /** The service thread moves on and still answers for the same. */
  lemma ServiceMoves(w: World, x: World, tid: Tid)
    requires Control(w) && tid in w.threads && IsService(w.threads[tid]) && tid in x.threads && IsService(x.threads[tid])
    requires x.threads == w.threads[tid := x.threads[tid]] && x.t == w.t && x.lock == w.lock && x.syncActive == w.syncActive
    requires x.cracked <==> PastCrack(x.threads[tid])
    requires x.cracked != w.cracked ==> w.lock.None?
    requires forall op :: Serves(x.threads[tid], op) <==> Serves(w.threads[tid], op)
    requires ServesSync(x.threads[tid]) <==> ServesSync(w.threads[tid])
    ensures Control(x)
  {
    ServiceAlone(w, tid);
    hide RowsOk;
    ServiceRest(w, x, tid);
    ServiceThere(x, tid);
  }

  /** Lock holders are untouched by a service thread. */
  lemma ServiceRest(w: World, x: World, tid: Tid)
    requires Control(w) && tid in w.threads && IsService(w.threads[tid]) && x.lock == w.lock
    requires Others(w, x, tid) && (tid in x.threads ==> IsService(x.threads[tid]))
    requires x.cracked != w.cracked ==> w.lock.None?
    requires x.syncActive ==> w.syncActive
    requires forall op :: HasStatus(x.t, op, ACTIVE) <==> HasStatus(w.t, op, ACTIVE)
    requires forall a :: a in x.t.rows && Active(x.t.rows[a].status) ==> a in w.t.rows && Active(w.t.rows[a].status)
    ensures LockOk(x) && ActiveOk(x)
  {
    hide RowsOk, ServiceOk;
    StartingLock(w);
    assert LockOk(x);
    StartingLock(x);
    assert forall o: Tid, p: OpId :: At(x, o, Starting(p)) <==> At(w, o, Starting(p));
  }

  lemma ServiceThere(x: World, tid: Tid)
    requires tid in x.threads && IsService(x.threads[tid])
    requires forall o :: o in x.threads && o != tid ==> !IsService(x.threads[o])
    requires forall op :: HasStatus(x.t, op, BUSY) <==> Serves(x.threads[tid], op)
    requires x.syncActive <==> ServesSync(x.threads[tid])
    requires x.cracked <==> PastCrack(x.threads[tid])
    ensures ServiceOk(x)
  {
  }

  /** The service thread ends and nothing is BUSY any more. */
  lemma ServiceEnds(w: World, x: World, tid: Tid)
    requires Control(w) && tid in w.threads && IsService(w.threads[tid]) && RowsOk(x.t)
    requires x.threads == w.threads - {tid} && x.lock == w.lock && x.cracked == w.cracked && !x.syncActive
    requires forall op :: !HasStatus(x.t, op, BUSY)
    requires forall op :: HasStatus(x.t, op, ACTIVE) <==> HasStatus(w.t, op, ACTIVE)
    ensures Control(x)
  {
    ServiceAlone(w, tid);
    hide RowsOk;
    forall a | a in x.t.rows && Active(x.t.rows[a].status)
      ensures a in w.t.rows && Active(w.t.rows[a].status)
    {
      assert HasStatus(x.t, a, ACTIVE) || HasStatus(x.t, a, BUSY);
      assert HasStatus(w.t, a, ACTIVE);
    }
    ServiceRest(w, x, tid);
    assert ServiceOk(x);
  }

  /** The operation of the service thread ends with it. */
  lemma DoneControl(w: World, x: World, tid: Tid, op: OpId)
    requires Control(w) && tid in w.threads && Serves(w.threads[tid], op) && !ServesSync(w.threads[tid]) && RowsOk(x.t)
    requires x.threads == w.threads - {tid} && x.lock == w.lock && x.cracked == w.cracked && x.syncActive == w.syncActive
    requires op in x.t.rows && !Active(x.t.rows[op].status) && x.t.rows == w.t.rows[op := x.t.rows[op]]
    ensures Control(x)
  {
    ServiceAlone(w, tid);
    hide Control, RowsOk;
    forall a
      ensures !HasStatus(x.t, a, BUSY)
      ensures HasStatus(x.t, a, ACTIVE) <==> HasStatus(w.t, a, ACTIVE)
    {
      assert HasStatus(w.t, a, BUSY) ==> Serves(w.threads[tid], a);
      assert HasStatus(w.t, op, BUSY);
    }
    ServiceEnds(w, x, tid);
  }

  lemma CheckTokensControl(w: World, tid: Tid, op: OpId)
    requires Control(w) && tid in w.threads && w.threads[tid] == Preflight(op) && op in w.t.rows
    ensures Control(DoCheckTokens(w, tid, op))
  {
    hide Control, RowsOk, Finish;
    var x := DoCheckTokens(w, tid, op);
    ServiceAlone(w, tid);
    if tid in x.threads {
      ServiceMoves(w, x, tid);
    } else {
      TablesOf(w);
      FinishRows(w.t, op, FAILED);
      DoneControl(w, x, tid, op);
    }
  }

  lemma CommitControl(w: World, tid: Tid, op: OpId, tokens: map<Role, Token>)
    requires Control(w) && tid in w.threads && w.threads[tid] == Committing(op, tokens) && op in w.t.rows
    ensures Control(DoCommit(w, tid, op, tokens))
  {
    hide Control, RowsOk, Finish, CompleteJoin, CompleteQuit;
    var x := DoCommit(w, tid, op, tokens);
    ServiceAlone(w, tid);
    if tid in x.threads {
      ServiceMoves(w, x, tid);
    } else {
      TablesOf(w);
      CommittedRows(w.t, op, tokens);
      DoneControl(w, x, tid, op);
    }
  }

  lemma CrackFlagControl(w: World, tid: Tid, failed: Option<OpId>)
    requires Control(w) && w.lock.None? && tid in w.threads && w.threads[tid] == CrackFlag(failed)
    ensures Control(Goto(w, tid, CrackFailOp(failed)).(cracked := true))
  {
    hide Control, RowsOk;
    ServiceMoves(w, Goto(w, tid, CrackFailOp(failed)).(cracked := true), tid);
  }

  lemma CrackFailOneControl(w: World, tid: Tid, failed: Option<OpId>)
    requires Control(w) && tid in w.threads && w.threads[tid] == CrackFailOp(failed)
    ensures Control(DoCrackFailOne(w, tid, failed))
  {
    hide Control, RowsOk, Finish;
    var x := DoCrackFailOne(w, tid, failed);
    ServiceAlone(w, tid);
    TablesOf(w);
    if failed.Some? {
      assert Serves(w.threads[tid], failed.value) && HasStatus(w.t, failed.value, BUSY);
      FinishRows(w.t, failed.value, FAILED);
      OnlyBusyGone(w.t, x.t, failed.value);
    }
    CrackedOn(w, x, tid);
  }

  lemma OnlyBusyGone(t: Tables, u: Tables, op: OpId)
    requires HasStatus(t, op, BUSY) && u.rows == t.rows[op := t.rows[op].(status := FAILED)]
    requires forall a :: HasStatus(t, a, BUSY) ==> a == op
    ensures forall a :: !HasStatus(u, a, BUSY)
    ensures forall a :: HasStatus(u, a, ACTIVE) <==> HasStatus(t, a, ACTIVE)
    ensures forall a :: a in u.rows && Active(u.rows[a].status) ==> a in t.rows && Active(t.rows[a].status)
  {
    forall a
      ensures !HasStatus(u, a, BUSY)
      ensures HasStatus(u, a, ACTIVE) <==> HasStatus(t, a, ACTIVE)
    {
      assert HasStatus(t, a, BUSY) ==> a == op;
    }
    forall a | a in u.rows && Active(u.rows[a].status)
      ensures a in t.rows && Active(t.rows[a].status)
    {
    }
  }

  lemma CrackedOn(w: World, x: World, tid: Tid)
    requires Control(w) && tid in w.threads && w.threads[tid].CrackFailOp? && RowsOk(x.t)
    requires x.threads == w.threads[tid := CrackFailAll(w.threads[tid].failed)]
    requires x.lock == w.lock && x.cracked == w.cracked && x.syncActive == w.syncActive
    requires forall a :: !HasStatus(x.t, a, BUSY)
    requires forall a :: HasStatus(x.t, a, ACTIVE) <==> HasStatus(w.t, a, ACTIVE)
    requires forall a :: a in x.t.rows && Active(x.t.rows[a].status) ==> a in w.t.rows && Active(w.t.rows[a].status)
    ensures Control(x)
  {
    ServiceAlone(w, tid);
    hide RowsOk, LockOk, ActiveOk, ServiceOk;
    ServiceRest(w, x, tid);
    ServiceThere(x, tid);
  }

  lemma CrackFailRestControl(w: World, tid: Tid, failed: Option<OpId>)
    requires Control(w) && tid in w.threads && w.threads[tid] == CrackFailAll(failed)
    ensures Control(DoCrackFailRest(w, tid, failed))
  {
    var x := DoCrackFailRest(w, tid, failed);
    ServiceAlone(w, tid);
    FailAllKeeps(w.t) by { hide ServiceOk, ActiveOk, LockOk; }
    FailAllRows(w.t);
    hide RowsOk, SameMembers, FailAllLive;
    assert x.threads == w.threads - {tid} && x.t == FailAllLive(w.t) && !x.syncActive;
    hide DoCrackFailRest;
    NobodyServes(w, x, tid);
  }

  /** With the last service thread gone and nothing active the control invariant holds. */
  lemma NobodyServes(w: World, x: World, tid: Tid)
    requires LockOk(w) && RowsOk(x.t) && tid in w.threads && !HoldsLock(w.threads[tid])
    requires x.threads == w.threads - {tid} && x.lock == w.lock && x.cracked == w.cracked && !x.syncActive && w.lock.None?
    requires forall o :: o in x.threads ==> !IsService(x.threads[o])
    requires forall op :: op in x.t.rows ==> !Live(x.t.rows[op].status)
    ensures Control(x)
  {
    hide RowsOk;
    assert forall o :: o in x.threads ==> !HoldsLock(x.threads[o]);
  }

  /** Whatever steps next, the control invariant is kept. */
  lemma ControlStep(w: World, step: Step)
    requires Control(w) && Enabled(w, step)
    ensures Control(Apply(w, step))
  {
    if step.SyncFinish? || step.CheckTokens? || step.AgentsDone? || step.Commit? || step.CrackBegin? || step.CrackSetFlag?
      || step.CrackFailOne? || step.CrackFailRest? {
      hide Control, Apply, Enabled;
      ServiceStepControl(w, step);
    } else {
      hide Control, Apply, Enabled;
      RequestStepControl(w, step);
    }
  }

  /** A step of a request, of an activation or of a SYNC that begins. */
  lemma RequestStepControl(w: World, step: Step)
    requires Control(w) && Enabled(w, step)
    requires !step.SyncFinish? && !step.CheckTokens? && !step.AgentsDone? && !step.Commit? && !step.CrackBegin?
    requires !step.CrackSetFlag? && !step.CrackFailOne? && !step.CrackFailRest?
    ensures Control(Apply(w, step))
  {
    hide Control, DoReserve, DoEnqueue, DoPoll, DoPromote, DoStart, DoSyncStart, DoCmdSync, RowsOk, QueueOk, SameMembers;
    match step
    case Reserve(op, user, kind) => ReserveControl(w, op, user, kind);
    case Resolve(tid, op) => StageControl(w, Apply(w, step), tid);
    case CheckCracked(tid) => StageControl(w, Apply(w, step), tid);
    case Precheck(tid) => StageControl(w, Apply(w, step), tid);
    case Enqueue(tid) => EnqueueControl(w, tid, w.threads[tid].op);
    case Poll(tid) => PollControl(w, tid, w.threads[tid].op);
    case Promote(tid, stale) => PromoteControl(w, tid, w.threads[tid].op, stale);
    case Start(tid, worker, reserved) => StartControl(w, tid, w.threads[tid].op, worker, reserved);
    case StartFails(tid) => StartFailsControl(w, tid, w.threads[tid].op);
    case Abandon(tid) => StageControl(w, Apply(w, step), tid);
    case CmdSync(sawCrack) => SyncCommandControl(w, sawCrack);
    case SyncStart(tid) => SyncStartControl(w, tid);
  }

  /** A step of a thread that serves an operation or a SYNC. */
  lemma ServiceStepControl(w: World, step: Step)
    requires Control(w) && Enabled(w, step)
    requires step.SyncFinish? || step.CheckTokens? || step.AgentsDone? || step.Commit? || step.CrackBegin? || step.CrackSetFlag?
      || step.CrackFailOne? || step.CrackFailRest?
    ensures Control(Apply(w, step))
  {
    hide Control, DoCheckTokens, DoCommit, DoCrackFailOne, DoCrackFailRest, RowsOk, QueueOk, SameMembers;
    match step
    case SyncFinish(tid) => SyncFinishControl(w, tid);
    case CheckTokens(tid) => CheckTokensControl(w, tid, w.threads[tid].op);
    case AgentsDone(tid, tokens) => AgentsDoneControl(w, tid, tokens);
    case Commit(tid) => CommitControl(w, tid, w.threads[tid].op, w.threads[tid].tokens);
    case CrackBegin(tid) => CrackBeginControl(w, tid);
    case CrackSetFlag(tid) => CrackFlagControl(w, tid, w.threads[tid].failed);
    case CrackFailOne(tid) => CrackFailOneControl(w, tid, w.threads[tid].failed);
    case CrackFailRest(tid) => CrackFailRestControl(w, tid, w.threads[tid].failed);
  }

  lemma SyncFinishControl(w: World, tid: Tid)
    requires Control(w) && At(w, tid, SyncRunning)
    ensures Control(Leave(w, tid).(syncActive := false))
  {
    ServiceAlone(w, tid);
    hide Control, RowsOk;
    assert RowsOk(w.t) by { TablesOf(w); }
    ServiceEnds(w, Leave(w, tid).(syncActive := false), tid);
  }

  lemma AgentsDoneControl(w: World, tid: Tid, tokens: map<Role, Token>)
    requires Control(w) && Enabled(w, AgentsDone(tid, tokens))
    ensures Control(Apply(w, AgentsDone(tid, tokens)))
  {
    ServiceAlone(w, tid);
    hide Control, RowsOk;
    ServiceMoves(w, Apply(w, AgentsDone(tid, tokens)), tid);
  }

  lemma TablesOf(w: World)
    requires Control(w)
    ensures RowsOk(w.t)
  {
  }

  lemma CrackBeginControl(w: World, tid: Tid)
    requires Control(w) && Enabled(w, CrackBegin(tid))
    ensures Control(Apply(w, CrackBegin(tid)))
  {
    ServiceAlone(w, tid);
    hide Control, RowsOk;
    ServiceMoves(w, Apply(w, CrackBegin(tid)), tid);
  }
}
