/** What the manager guarantees over all interleavings: mutual exclusion, SYNC priority, one hand-out of ports, FIFO
    promotion, and the agreement of users, tokens and tree leaves. */
module SchedulerSafety {
  import opened Options
  import opened Ledger
  import opened Scheduler

  function Rank(s: Status): nat {
    match s
    case RESERVED => 0
    case QUEUED => 1
    case ACTIVE => 2
    case BUSY => 3
    case _ => 4
  }

  /** Operations are never deleted or changed but for their status, which only moves forward. */
  ghost predicate Forward(t: Tables, u: Tables) {
    forall op :: op in t.rows ==> op in u.rows && RowForward(t.rows[op], u.rows[op])
  }

  predicate RowForward(a: Row, b: Row) {
    && b.user == a.user && b.kind == a.kind && Rank(a.status) <= Rank(b.status) && (Rank(a.status) == 4 ==> b == a)
    && (a.status == RESERVED ==> b.status == RESERVED || b.status == QUEUED || Rank(b.status) == 4)
  }

  lemma ForwardTrans(t: Tables, u: Tables, v: Tables)
    requires Forward(t, u) && Forward(u, v)
    requires forall op :: op in t.rows && op in u.rows && t.rows[op].status == RESERVED ==> u.rows[op].status == RESERVED
    ensures Forward(t, v)
  {
  }

  lemma EvictedForward(t: Tables, stale: nat)
    requires RowsOk(t)
    ensures Forward(t, Evicted(t, stale))
  {
    EvictedRows(t, stale);
    hide RowsOk, Evicted;
    forall op | op in t.rows
      ensures RowForward(t.rows[op], Evicted(t, stale).rows[op])
    {
      assert SameOrEvicted(t.rows[op], Evicted(t, stale).rows[op]);
    }
  }

  lemma PromotedForward(t: Tables)
    requires RowsOk(t) && t.queue != []
    ensures t.queue[0] in t.rows && Forward(t, Ledger.Promote(t))
  {
    PromotedRows(t);
    hide RowsOk;
  }

  /** An operation can only be finished by the thread that serves it, while it is BUSY. */
  lemma ServedBusy(w: World, tid: Tid, op: OpId)
    requires Control(w) && tid in w.threads && Serves(w.threads[tid], op)
    ensures HasStatus(w.t, op, BUSY) && op !in w.t.queue
  {
  }

  lemma StartingActive(w: World, tid: Tid, op: OpId)
    requires Control(w) && tid in w.threads && w.threads[tid] == Starting(op)
    ensures HasStatus(w.t, op, ACTIVE) && op !in w.t.queue && w.lock == Some(tid)
  {
    assert At(w, tid, Starting(op));
  }

  predicate ForwardOne(t: Tables, u: Tables, op: OpId) {
    op in t.rows && op in u.rows && u.rows == t.rows[op := u.rows[op]] && RowForward(t.rows[op], u.rows[op])
  }

  lemma OneForward(t: Tables, u: Tables, op: OpId)
    requires u.rows == t.rows || ForwardOne(t, u, op)
    ensures Forward(t, u)
  {
  }

  lemma StartForward(w: World, tid: Tid, op: OpId, worker: Tid, reserved: bool)
    requires Control(w) && tid in w.threads && w.threads[tid] == Starting(op) && op in w.t.rows
    ensures Forward(w.t, DoStart(w, tid, op, worker, reserved).t)
  {
    hide Control, RowsOk, Forward, DoStart, SameMembers;
    TablesOf(w);
    StartingActive(w, tid, op);
    StartedRow(w, tid, op, worker, reserved);
    OneForward(w.t, DoStart(w, tid, op, worker, reserved).t, op);
  }

  lemma StartedRow(w: World, tid: Tid, op: OpId, worker: Tid, reserved: bool)
    requires RowsOk(w.t) && op in w.t.rows
    ensures var t := DoStart(w, tid, op, worker, reserved).t;
      t.rows == w.t.rows[op := w.t.rows[op].(status := BUSY)] || t.rows == w.t.rows[op := w.t.rows[op].(status := FAILED)]
  {
    hide RowsOk, Finish, SameMembers;
    FinishRows(w.t, op, FAILED);
  }

  lemma CheckTokensForward(w: World, tid: Tid, op: OpId)
    requires Control(w) && tid in w.threads && w.threads[tid] == Preflight(op) && op in w.t.rows
    ensures Forward(w.t, DoCheckTokens(w, tid, op).t)
  {
    TablesOf(w);
    ServedBusy(w, tid, op);
    FinishRows(w.t, op, FAILED);
    hide Control, RowsOk, Finish, Forward;
    OneForward(w.t, DoCheckTokens(w, tid, op).t, op);
  }

  lemma CommitForward(w: World, tid: Tid, op: OpId, tokens: map<Role, Token>)
    requires Control(w) && tid in w.threads && w.threads[tid] == Committing(op, tokens) && op in w.t.rows
    ensures Forward(w.t, DoCommit(w, tid, op, tokens).t)
  {
    hide Control, RowsOk, Forward, DoCommit;
    TablesOf(w);
    ServedBusy(w, tid, op);
    CommittedRow(w, tid, op, tokens);
    OneForward(w.t, DoCommit(w, tid, op, tokens).t, op);
  }

  lemma CommittedRow(w: World, tid: Tid, op: OpId, tokens: map<Role, Token>)
    requires RowsOk(w.t) && op in w.t.rows
    ensures var t := DoCommit(w, tid, op, tokens).t;
      t.rows == w.t.rows || t.rows == w.t.rows[op := w.t.rows[op].(status := DONE)]
  {
    hide RowsOk, Finish, CompleteJoin, CompleteQuit;
    CommittedRows(w.t, op, tokens);
  }

  lemma CrackFailOneForward(w: World, tid: Tid, failed: Option<OpId>)
    requires Control(w) && tid in w.threads && w.threads[tid] == CrackFailOp(failed)
    ensures Forward(w.t, DoCrackFailOne(w, tid, failed).t)
  {
    TablesOf(w);
    hide Control, RowsOk, Finish, Forward;
    var x := DoCrackFailOne(w, tid, failed);
    if failed.Some? {
      ServedBusy(w, tid, failed.value);
      FinishRows(w.t, failed.value, FAILED);
      OneForward(w.t, x.t, failed.value);
    } else {
      OneForward(w.t, x.t, 0);
    }
  }

  lemma FailAllForward(t: Tables)
    ensures Forward(t, FailAllLive(t))
  {
  }

  lemma CrackFailRestForward(w: World, tid: Tid, failed: Option<OpId>)
    ensures Forward(w.t, DoCrackFailRest(w, tid, failed).t)
  {
    hide Forward, SameMembers, FailAllLive;
    FailAllForward(w.t);
  }

  lemma EnqueueForward(w: World, tid: Tid, op: OpId)
    requires op in w.t.rows
    ensures Forward(w.t, DoEnqueue(w, tid, op).t)
  {
  }

  lemma AddedForward(t: Tables, u: Tables, op: OpId)
    requires op !in t.rows && op in u.rows && u.rows == t.rows[op := u.rows[op]]
    ensures Forward(t, u)
  {
  }

  lemma ReserveForward(w: World, op: OpId, user: User, kind: Kind)
    requires op !in w.t.rows
    ensures Forward(w.t, DoReserve(w, op, user, kind).t)
  {
    hide Forward, Rivals;
    var x := DoReserve(w, op, user, kind);
    SameForward(w.t);
    if x.t != w.t {
      AddedForward(w.t, x.t, op);
    }
  }

  lemma SameForward(t: Tables)
    ensures Forward(t, t)
  {
  }

  /** No step moves an operation backwards. */
  lemma StepForward(w: World, step: Step)
    requires Control(w) && Enabled(w, step)
    ensures Forward(w.t, Apply(w, step).t)
  {
    TablesOf(w);
    hide Control, RowsOk, Forward, QueueOk, DoReserve, DoEnqueue, DoPromote, DoStart;
    if step.Reserve? {
      ReserveForward(w, step.op, step.user, step.kind);
    } else if step.Enqueue? {
      EnqueueForward(w, step.tid, w.threads[step.tid].op);
    } else if step.Promote? {
      PromoteForward(w, step.tid, w.threads[step.tid].op, step.stale);
    } else if step.Start? {
      StartForward(w, step.tid, w.threads[step.tid].op, step.worker, step.reserved);
    } else {
      hide Apply, Enabled;
      ServiceStepForward(w, step);
    }
  }

  lemma ServiceStepForward(w: World, step: Step)
    requires Control(w) && Enabled(w, step)
    requires !step.Reserve? && !step.Enqueue? && !step.Promote? && !step.Start?
    ensures Forward(w.t, Apply(w, step).t)
  {
    TablesOf(w);
    SameForward(w.t);
    hide Control, RowsOk, Forward, QueueOk, Apply;
    if step.CheckTokens? || step.Commit? || step.CrackFailOne? || step.CrackFailRest? {
      FinishingForward(w, step);
    } else {
      hide Enabled;
      SameTables(w, step);
    }
  }

  lemma FinishingForward(w: World, step: Step)
    requires Control(w) && Enabled(w, step)
    requires step.CheckTokens? || step.Commit? || step.CrackFailOne? || step.CrackFailRest?
    ensures Forward(w.t, Apply(w, step).t)
  {
    hide Control, RowsOk, Forward, QueueOk, DoCheckTokens, DoCommit, DoCrackFailOne, DoCrackFailRest, SameMembers;
    match step
    case CheckTokens(tid) => CheckTokensForward(w, tid, w.threads[tid].op);
    case Commit(tid) => CommitForward(w, tid, w.threads[tid].op, w.threads[tid].tokens);
    case CrackFailOne(tid) => CrackFailOneForward(w, tid, w.threads[tid].failed);
    case CrackFailRest(tid) => CrackFailRestForward(w, tid, w.threads[tid].failed);
  }

  lemma SameTables(w: World, step: Step)
    requires Enabled(w, step)
    requires !step.Reserve? && !step.Enqueue? && !step.Promote? && !step.Start? && !step.CheckTokens? && !step.Commit?
    requires !step.CrackFailOne? && !step.CrackFailRest?
    ensures Apply(w, step).t == w.t
  {
    hide QueueOk, SameMembers, DoPrecheck, DoPoll, DoCmdSync, DoSyncStart, DoAgentsDone;
  }

  lemma PromoteForward(w: World, tid: Tid, op: OpId, stale: nat)
    requires RowsOk(w.t)
    ensures Forward(w.t, DoPromote(w, tid, op, stale).t)
  {
    SameForward(w.t);
    EvictedForward(w.t, stale);
    EvictedRows(w.t, stale);
    var t := Evicted(w.t, stale);
    hide RowsOk, Evicted, NoneActive, SameMembers, Ledger.Promote;
    if t.queue != [] {
      PromotedForward(t);
      EvictedThenPromoted(w.t, t);
    }
    hide Forward;
  }

  lemma EvictedThenPromoted(s: Tables, t: Tables)
    requires RowsOk(t) && t.queue != [] && t.queue[0] in t.rows && Forward(s, t) && Forward(t, Ledger.Promote(t))
    requires forall a :: a in s.rows && a in t.rows ==> SameOrEvicted(s.rows[a], t.rows[a])
    ensures Forward(s, Ledger.Promote(t))
  {
    hide RowsOk, Ledger.Promote;
    ForwardTrans(s, t, Ledger.Promote(t));
  }

  // ---- mutual exclusion and SYNC priority ----

  /** At most one operation is ACTIVE or BUSY, and none while a SYNC runs. */
  lemma Exclusive(w: World)
    requires Control(w)
    ensures forall a, b :: a in w.t.rows && b in w.t.rows && Active(w.t.rows[a].status) && Active(w.t.rows[b].status) ==> a == b
    ensures w.syncActive ==> forall a :: a in w.t.rows ==> !Active(w.t.rows[a].status)
  {
    hide RowsOk, LockOk, ServiceOk;
  }

  predicate PromotingNow(w: World) {
    w.lock.Some? && w.lock.value in w.threads && w.threads[w.lock.value].Promoting?
  }

  /** One SYNC at a time, and while it waits at most the activation that was past its SYNC check goes through. */
  ghost predicate SyncOk(w: World) {
    && !(w.syncQueued && w.syncActive)
    && (w.syncQueued ==> w.sinceSync + (if PromotingNow(w) then 1 else 0) <= 1)
  }

  lemma SyncStep(w: World, step: Step)
    requires Control(w) && SyncOk(w) && Enabled(w, step)
    ensures SyncOk(Apply(w, step))
  {
    hide RowsOk, ServiceOk, ActiveOk, QueueOk, Evicted, NoneActive, Finish;
    hide FailAllLive, CompleteJoin, CompleteQuit, SameMembers, BusinessOk, Rivals, Ledger.Enqueue, Ledger.Promote;
    var x := Apply(w, step);
    if step.Promote? {
      assert w.lock == Some(step.tid) && !w.syncActive;
    } else if step.Start? {
      assert w.lock == Some(step.tid);
    } else if w.lock.Some? {
      assert w.lock.value in w.threads && HoldsLock(w.threads[w.lock.value]);
    }
  }

  // ---- ports ----

  /** Ports are handed out once for an operation, and then it is BUSY or over. */
  ghost predicate PortsOk(w: World) {
    Distinct(w.handed) && forall op :: op in w.handed ==> op in w.t.rows && Rank(w.t.rows[op].status) >= 3
  }

  lemma HistoryKept(w: World, step: Step)
    requires Enabled(w, step)
    ensures !step.Start? ==> Apply(w, step).handed == w.handed
    ensures !step.Promote? ==> Apply(w, step).promoted == w.promoted
    ensures !step.Enqueue? ==> Apply(w, step).ticket == w.ticket
  {
    hide QueueOk, SameMembers, DoReserve, DoPrecheck, DoEnqueue, DoPoll, DoPromote, DoStart, DoCmdSync, DoSyncStart;
    hide DoCheckTokens, DoAgentsDone, DoCommit, DoCrackFailOne, DoCrackFailRest;
  }

  lemma PortsStep(w: World, step: Step)
    requires Control(w) && PortsOk(w) && Enabled(w, step)
    ensures PortsOk(Apply(w, step))
  {
    StepForward(w, step);
    if step.Start? {
      StartPorts(w, step.tid, w.threads[step.tid].op, step.worker, step.reserved);
    } else {
      HistoryKept(w, step);
      hide Control, Apply;
      var x := Apply(w, step);
      forall op | op in x.handed
        ensures op in x.t.rows && Rank(x.t.rows[op].status) >= 3
      {
        assert RowForward(w.t.rows[op], x.t.rows[op]);
      }
    }
  }

  lemma StartedBusy(w: World, tid: Tid, op: OpId, worker: Tid, reserved: bool)
    requires op in w.t.rows
    ensures var x := DoStart(w, tid, op, worker, reserved);
      x.handed == w.handed || (x.handed == w.handed + [op] && HasStatus(x.t, op, BUSY))
  {
    hide Finish, SameMembers;
  }

  lemma StartPorts(w: World, tid: Tid, op: OpId, worker: Tid, reserved: bool)
    requires Control(w) && PortsOk(w) && tid in w.threads && w.threads[tid] == Starting(op) && op in w.t.rows
    ensures PortsOk(DoStart(w, tid, op, worker, reserved))
  {
    hide Control, DoStart, SameMembers;
    StartForward(w, tid, op, worker, reserved);
    StartingActive(w, tid, op);
    StartedBusy(w, tid, op, worker, reserved);
    var x := DoStart(w, tid, op, worker, reserved);
    assert op !in w.handed;
    forall o | o in x.handed
      ensures o in x.t.rows && Rank(x.t.rows[o].status) >= 3
    {
      assert o in w.handed || o == op;
      assert RowForward(w.t.rows[o], x.t.rows[o]);
    }
  }

  // ---- FIFO ----

  /** Tickets are drawn in the order of queueing; the queue stands in ticket order, promotions happened in ticket
      order, and whatever is still queued came later than whatever was promoted. */
  ghost predicate FifoOk(w: World) {
    Fifo(w.t, w.ticket, w.promoted)
  }

  ghost predicate Fifo(t: Tables, ticket: map<OpId, nat>, promoted: seq<OpId>) {
    && (forall op :: op in ticket ==> op in t.rows && Rank(t.rows[op].status) >= 1 && ticket[op] < |ticket|)
    && (forall op :: op in t.queue ==> op in ticket)
    && (forall op :: op in promoted ==> op in ticket)
    && Ascending(ticket, t.queue) && Ascending(ticket, promoted)
    && (forall a, b :: a in promoted && b in t.queue ==> ticket[a] < ticket[b])
  }

  ghost predicate Ascending(ticket: map<OpId, nat>, s: seq<OpId>) {
    forall i, k :: 0 <= i < k < |s| ==> s[i] in ticket && s[k] in ticket && ticket[s[i]] < ticket[s[k]]
  }

  lemma AscendingAppend(ticket: map<OpId, nat>, s: seq<OpId>, op: OpId)
    requires Ascending(ticket, s) && op in ticket && forall a :: a in s ==> a in ticket && ticket[a] < ticket[op]
    ensures Ascending(ticket, s + [op])
  {
  }

  lemma FifoEnqueue(t: Tables, op: OpId, ticket: map<OpId, nat>, promoted: seq<OpId>)
    requires Fifo(t, ticket, promoted) && HasStatus(t, op, RESERVED)
    ensures Fifo(Ledger.Enqueue(t, op), ticket[op := |ticket|], promoted)
  {
    assert op !in ticket;
    NewTicketLast(ticket, t.queue, promoted, op);
    hide Ascending;
    var u, more := Ledger.Enqueue(t, op), ticket[op := |ticket|];
    assert u.queue == t.queue + [op];
    assert forall a :: a in more ==> a in u.rows && Rank(u.rows[a].status) >= 1 && more[a] < |more|;
  }

  lemma NewTicketLast(ticket: map<OpId, nat>, q: seq<OpId>, promoted: seq<OpId>, op: OpId)
    requires op !in ticket && forall a :: a in ticket ==> ticket[a] < |ticket|
    requires Ascending(ticket, q) && Ascending(ticket, promoted)
    requires forall a :: a in q ==> a in ticket
    requires forall a :: a in promoted ==> a in ticket
    requires forall a, b :: a in promoted && b in q ==> ticket[a] < ticket[b]
    ensures var more := ticket[op := |ticket|];
      && |more| == |ticket| + 1 && Ascending(more, q + [op]) && Ascending(more, promoted)
      && (forall a :: a in q + [op] ==> a in more)
      && (forall a, b :: a in promoted && b in q + [op] ==> more[a] < more[b])
  {
  }

  /** Losing a front part of the queue and moving operations forward. */
  lemma FifoForward(t: Tables, u: Tables, from: nat, ticket: map<OpId, nat>, promoted: seq<OpId>)
    requires Fifo(t, ticket, promoted) && Forward(t, u) && from <= |t.queue| && u.queue == t.queue[from..]
    ensures Fifo(u, ticket, promoted)
  {
  }

  lemma FifoPromote(t: Tables, ticket: map<OpId, nat>, promoted: seq<OpId>)
    requires Fifo(t, ticket, promoted) && RowsOk(t) && t.queue != []
    ensures t.queue[0] in t.rows && Fifo(Ledger.Promote(t), ticket, promoted + [t.queue[0]])
  {
    PromotedForward(t);
    FifoForward(t, Ledger.Promote(t), 1, ticket, promoted);
    var op := t.queue[0];
    assert op in t.queue;
    AscendingAppend(ticket, promoted, op);
    HeadFirst(ticket, t.queue);
    hide Ascending, RowsOk;
    assert forall a :: a in promoted + [op] <==> a in promoted || a == op;
  }

  lemma HeadFirst(ticket: map<OpId, nat>, q: seq<OpId>)
    requires Ascending(ticket, q) && q != []
    ensures forall a :: a in q[1..] ==> q[0] in ticket && a in ticket && ticket[q[0]] < ticket[a]
  {
  }

  lemma PromoteFifo(w: World, tid: Tid, op: OpId, stale: nat)
    requires RowsOk(w.t) && FifoOk(w) && tid in w.threads && w.threads[tid] == Promoting(op)
    ensures FifoOk(DoPromote(w, tid, op, stale))
  {
    hide OneLive, UsersOk, QueueOk, Evicted, Fifo, NoneActive, Ledger.Promote;
    EvictedFifo(w.t, stale, w.ticket, w.promoted);
    var t := Evicted(w.t, stale);
    if t.queue != [] {
      FifoPromote(t, w.ticket, w.promoted);
    }
  }

  lemma EvictedFifo(t: Tables, stale: nat, ticket: map<OpId, nat>, promoted: seq<OpId>)
    requires RowsOk(t) && Fifo(t, ticket, promoted)
    ensures RowsOk(Evicted(t, stale)) && Fifo(Evicted(t, stale), ticket, promoted)
  {
    hide OneLive, UsersOk, QueueOk, Evicted, Fifo, Forward;
    EvictedForward(t, stale);
    EvictedRows(t, stale);
    FifoForward(t, Evicted(t, stale), |t.queue| - |Evicted(t, stale).queue|, ticket, promoted);
  }

  lemma StartQueue(w: World, tid: Tid, op: OpId, worker: Tid, reserved: bool)
    requires Control(w) && tid in w.threads && w.threads[tid] == Starting(op) && op in w.t.rows
    ensures DoStart(w, tid, op, worker, reserved).t.queue == w.t.queue
  {
    StartingActive(w, tid, op);
    hide Control;
    WithoutStranger(w.t.queue, op);
  }

  lemma ServiceQueue(w: World, tid: Tid, op: OpId)
    requires Control(w) && tid in w.threads && Serves(w.threads[tid], op)
    ensures op in w.t.rows && forall s :: Finish(w.t, op, s).queue == w.t.queue
  {
    ServedBusy(w, tid, op);
    hide Control;
    WithoutStranger(w.t.queue, op);
  }

  /** Only queueing, promotion and a crack change the queue. */
  lemma QueueKept(w: World, step: Step)
    requires Control(w) && Enabled(w, step) && !step.Enqueue? && !step.Promote? && !step.CrackFailRest?
    ensures Apply(w, step).t.queue == w.t.queue
  {
    hide Control, DoStart, Finish, QueueOk, Rivals, BusinessOk, NoneActive;
    match step
    case Start(tid, worker, reserved) => StartQueue(w, tid, w.threads[tid].op, worker, reserved);
    case CheckTokens(tid) => ServiceQueue(w, tid, w.threads[tid].op);
    case Commit(tid) => ServiceQueue(w, tid, w.threads[tid].op);
    case CrackFailOne(tid) =>
      if w.threads[tid].failed.Some? {
        ServiceQueue(w, tid, w.threads[tid].failed.value);
      }
    case _ =>
  }

  lemma FifoStep(w: World, step: Step)
    requires Control(w) && FifoOk(w) && Enabled(w, step)
    ensures FifoOk(Apply(w, step))
  {
    TablesOf(w);
    hide Control, FifoOk, RowsOk, QueueOk, DoEnqueue, DoPromote, DoCrackFailRest, SameMembers;
    if step.Enqueue? {
      EnqueueFifo(w, step.tid, w.threads[step.tid].op);
    } else if step.Promote? {
      PromoteFifo(w, step.tid, w.threads[step.tid].op, step.stale);
    } else if step.CrackFailRest? {
      CrackedFifo(w, step.tid, w.threads[step.tid].failed);
    } else {
      hide Apply, Enabled;
      OtherFifo(w, step);
    }
  }

  lemma CrackedFifo(w: World, tid: Tid, failed: Option<OpId>)
    requires FifoOk(w)
    ensures FifoOk(DoCrackFailRest(w, tid, failed))
  {
    hide Fifo, Forward, SameMembers;
    FailAllForward(w.t);
    FifoForward(w.t, FailAllLive(w.t), |w.t.queue|, w.ticket, w.promoted);
  }

  lemma EnqueueFifo(w: World, tid: Tid, op: OpId)
    requires FifoOk(w) && op in w.t.rows
    ensures FifoOk(DoEnqueue(w, tid, op))
  {
    hide Fifo, Ledger.Enqueue;
    if w.t.rows[op].status == RESERVED {
      FifoEnqueue(w.t, op, w.ticket, w.promoted);
    }
  }

  lemma OtherFifo(w: World, step: Step)
    requires Control(w) && FifoOk(w) && Enabled(w, step) && !step.Enqueue? && !step.Promote? && !step.CrackFailRest?
    ensures FifoOk(Apply(w, step))
  {
    hide Control, Apply, Fifo, Forward;
    HistoryKept(w, step);
    QueueKept(w, step);
    StepForward(w, step);
    assert w.t.queue[0..] == w.t.queue;
    FifoForward(w.t, Apply(w, step).t, 0, w.ticket, w.promoted);
  }
}
