/** What the manager's tables record, and what each database operation does to them.  The queue is the list of QUEUED
    operations in the order of their queue positions. */
module Ledger {

  type User = string
  type Token = string
  type OpId = nat

  datatype Kind = JOIN | UPDATE | QUERY | QUIT

  datatype Status = RESERVED | QUEUED | ACTIVE | BUSY | DONE | FAILED | REMOVED

  datatype UserStatus = NotJoined | Joined | Quitted | Querier

  datatype Role = Steward | Peer0 | Peer1

  datatype Row = Row(user: User, kind: Kind, status: Status)

  datatype Tables = Tables(rows: map<OpId, Row>, queue: seq<OpId>, users: map<User, UserStatus>,
    tokens: map<User, map<Role, Token>>)

  predicate Live(s: Status) {
    s == RESERVED || s == QUEUED || s == ACTIVE || s == BUSY
  }

  predicate Active(s: Status) {
    s == ACTIVE || s == BUSY
  }

  function AllRoles(): set<Role> {
    {Steward, Peer0, Peer1}
  }

  predicate Distinct<T(==)>(s: seq<T>) {
    forall i, k :: 0 <= i < k < |s| ==> s[i] != s[k]
  }

  predicate HasStatus(l: Tables, op: OpId, s: Status) {
    op in l.rows && l.rows[op].status == s
  }

  /** The queue lists exactly the QUEUED operations, each once. */
  ghost predicate QueueOk(l: Tables) {
    && Distinct(l.queue)
    && (forall op :: op in l.queue ==> HasStatus(l, op, QUEUED))
    && (forall op :: HasStatus(l, op, QUEUED) ==> op in l.queue)
  }

  /** Two live operations for one user and service. */
  predicate Rivals(a: Row, b: Row) {
    Live(a.status) && Live(b.status) && a.user == b.user && a.kind == b.kind
  }

  /** At most one live operation per user and service. */
  ghost predicate OneLive(l: Tables) {
    forall a, b :: a in l.rows && b in l.rows && Rivals(l.rows[a], l.rows[b]) ==> a == b
  }

  function Without(q: seq<OpId>, op: OpId): (r: seq<OpId>)
    ensures forall x :: x in r <==> x in q && x != op
    ensures Distinct(q) ==> Distinct(r)
  {
    if q == [] then []
    else
      var rest := Without(q[1..], op);
      assert Distinct(q) ==> Distinct(q[1..]) && q[0] !in q[1..];
      assert forall k :: 0 <= k < |rest| ==> rest[k] in rest;
      if q[0] == op then rest else [q[0]] + rest
  }

  // ---- operations on the tables ----

  function Reserve(l: Tables, op: OpId, user: User, kind: Kind): Tables {
    l.(rows := l.rows[op := Row(user, kind, RESERVED)])
  }

  function SetStatus(l: Tables, op: OpId, s: Status): Tables
    requires op in l.rows
  {
    l.(rows := l.rows[op := l.rows[op].(status := s)])
  }

  /** RESERVED to the end of the queue. */
  function Enqueue(l: Tables, op: OpId): Tables
    requires op in l.rows
  {
    SetStatus(l, op, QUEUED).(queue := l.queue + [op])
  }

  /** The head of the queue becomes ACTIVE. */
  function Promote(l: Tables): Tables
    requires l.queue != [] && l.queue[0] in l.rows
  {
    SetStatus(l, l.queue[0], ACTIVE).(queue := l.queue[1..])
  }

  /** Any other end of an operation; it leaves the queue if it was there. */
  function Finish(l: Tables, op: OpId, s: Status): Tables
    requires op in l.rows
  {
    SetStatus(l, op, s).(queue := Without(l.queue, op))
  }

  function FailAllLive(l: Tables): Tables {
    l.(rows := map op | op in l.rows :: if Live(l.rows[op].status) then l.rows[op].(status := FAILED) else l.rows[op],
      queue := [])
  }

  /** What a restart does to operations that were ACTIVE or BUSY. */
  function FailActive(l: Tables): Tables {
    l.(rows := map op | op in l.rows :: if Active(l.rows[op].status) then l.rows[op].(status := FAILED) else l.rows[op])
  }

  function TokensOf(l: Tables, user: User): map<Role, Token> {
    if user in l.tokens then l.tokens[user] else map[]
  }

  /** One transaction: operation DONE, tokens stored, user JOINED. */
  function CompleteJoin(l: Tables, op: OpId, user: User, tokens: map<Role, Token>): Tables
    requires op in l.rows
  {
    Finish(l, op, DONE).(tokens := l.tokens[user := TokensOf(l, user) + tokens], users := l.users[user := Joined])
  }

  /** One transaction: operation DONE, tokens deleted, user QUITTED. */
  function CompleteQuit(l: Tables, op: OpId, user: User): Tables
    requires op in l.rows
  {
    Finish(l, op, DONE).(tokens := l.tokens - {user}, users := l.users[user := Quitted])
  }

  // ---- what they keep ----

  lemma ReserveKeeps(l: Tables, op: OpId, user: User, kind: Kind)
    requires QueueOk(l) && OneLive(l) && op !in l.rows
    requires forall a :: a in l.rows && l.rows[a].user == user && l.rows[a].kind == kind ==> !Live(l.rows[a].status)
    ensures QueueOk(Reserve(l, op, user, kind)) && OneLive(Reserve(l, op, user, kind))
  {
  }

  lemma EnqueueKeeps(l: Tables, op: OpId)
    requires QueueOk(l) && OneLive(l) && HasStatus(l, op, RESERVED)
    ensures QueueOk(Enqueue(l, op)) && OneLive(Enqueue(l, op))
  {
    var m := Enqueue(l, op);
    assert op !in l.queue;
    forall x
      ensures x in m.queue <==> HasStatus(m, x, QUEUED)
    {
      assert x in m.queue <==> x in l.queue || x == op;
    }
  }

  lemma PromoteKeeps(l: Tables)
    requires QueueOk(l) && OneLive(l) && l.queue != []
    ensures HasStatus(l, l.queue[0], QUEUED)
    ensures QueueOk(Promote(l)) && OneLive(Promote(l))
  {
    var op := l.queue[0];
    assert op in l.queue && HasStatus(l, op, QUEUED);
    assert l.queue == [op] + l.queue[1..];
    var m := Promote(l);
    forall x
      ensures x in m.queue <==> HasStatus(m, x, QUEUED)
    {
      assert x in l.queue <==> x == op || x in m.queue;
    }
  }

  lemma FinishKeeps(l: Tables, op: OpId, s: Status)
    requires QueueOk(l) && OneLive(l) && op in l.rows && s != QUEUED && (Live(s) ==> Live(l.rows[op].status))
    ensures QueueOk(Finish(l, op, s)) && OneLive(Finish(l, op, s))
  {
  }

  /** An operation that is not queued finishes without touching the queue. */
  lemma {:induction false} WithoutStranger(q: seq<OpId>, op: OpId)
    requires op !in q
    ensures Without(q, op) == q
  {
    if q != [] {
      WithoutStranger(q[1..], op);
    }
  }

  lemma FailAllKeeps(l: Tables)
    requires QueueOk(l) && OneLive(l)
    ensures QueueOk(FailAllLive(l)) && OneLive(FailAllLive(l))
    ensures forall op :: op in FailAllLive(l).rows ==> !Live(FailAllLive(l).rows[op].status)
  {
  }

  lemma FailActiveKeeps(l: Tables)
    requires QueueOk(l) && OneLive(l)
    ensures QueueOk(FailActive(l)) && OneLive(FailActive(l))
    ensures forall op :: op in FailActive(l).rows ==> !Active(FailActive(l).rows[op].status)
  {
  }
}
