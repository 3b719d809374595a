/** The manager's database: rows with queue positions, updated in place.  The positions are renumbered again and again;
    what every method does is the ledger's operation on the FIFO queue the positions stand for. */
module ManagerDb {
  import opened Options
  import opened Ledger

  /** The operations of `q` have increasing queue positions. */
  ghost predicate Positions(pos: map<OpId, nat>, q: seq<OpId>) {
    && (forall op :: op in q ==> op in pos)
    && (forall i, k :: 0 <= i < k < |q| ==> q[i] in pos && q[k] in pos && pos[q[i]] < pos[q[k]])
  }

  /** The operation with the smallest position among the given ones. */
  method Smallest(pos: map<OpId, nat>, among: set<OpId>) returns (op: OpId)
    requires among != {} && forall a :: a in among ==> a in pos
    ensures op in among && forall a :: a in among ==> pos[op] <= pos[a]
  {
    op :| op in among;
    var todo := among - {op};
    while todo != {}
      invariant todo <= among && op in among
      invariant forall a :: a in among && a !in todo ==> pos[op] <= pos[a]
      decreases |todo|
    {
      var a :| a in todo;
      if pos[a] < pos[op] {
        op := a;
      }
      todo := todo - {a};
    }
  }

  /** The given operations by position. */
  method SortedByPosition(pos: map<OpId, nat>, queued: set<OpId>, ghost q: seq<OpId>) returns (ids: seq<OpId>)
    requires Positions(pos, q) && Distinct(q) && Rest(queued, q, 0)
    ensures ids == q
  {
    hide Rest;
    var todo := queued;
    ids := [];
    RestHead(todo, q, 0);
    while todo != {}
      invariant |ids| <= |q| && ids == q[..|ids|] && Rest(todo, q, |ids|)
      decreases |todo|
    {
      RestHead(todo, q, |ids|);
      var op := Smallest(pos, todo);
      HeadIsSmallest(pos, q, todo, |ids|, op);
      RestStep(todo, q, |ids|);
      todo := todo - {op};
      ids := ids + [op];
    }
    RestHead(todo, q, |ids|);
  }

  class Db {
    var rows: map<OpId, Row>
    var pos: map<OpId, nat>
    var users: map<User, UserStatus>
    var tokens: map<User, map<Role, Token>>
    var nextId: nat
    ghost var queue: seq<OpId>

    ghost function State(): Tables
      reads this
    {
      Tables(rows, queue, users, tokens)
    }

    ghost predicate Valid()
      reads this
    {
      && QueueOk(State()) && OneLive(State()) && Positions(pos, queue)
      && (forall op :: op in rows ==> op < nextId)
      && (forall op :: op in pos ==> op in rows)
    }

    constructor (users: map<User, UserStatus>)
      ensures Valid() && State() == Tables(map[], [], users, map[])
    {
      rows, pos, this.users, tokens, nextId := map[], map[], users, map[], 0;
      queue := [];
    }

    /** The row is inserted unless the unique index on live operations forbids it. */
    method CreateReserved(user: User, kind: Kind) returns (op: Option<OpId>)
      requires Valid()
      modifies this
      ensures Valid()
      ensures op.None? <==> exists a :: a in old(rows) && Rivals(old(rows)[a], Row(user, kind, RESERVED))
      ensures op.None? ==> State() == old(State())
      ensures op.Some? ==> op.value !in old(rows) && State() == Ledger.Reserve(old(State()), op.value, user, kind)
    {
      var todo := rows.Keys;
      while todo != {}
        invariant todo <= rows.Keys && Valid() && State() == old(State()) && nextId == old(nextId)
        invariant forall a :: a in rows && a !in todo ==> !Rivals(rows[a], Row(user, kind, RESERVED))
        decreases |todo|
      {
        var a :| a in todo;
        if Rivals(rows[a], Row(user, kind, RESERVED)) {
          return None;
        }
        todo := todo - {a};
      }
      var id := nextId;
      ReserveKeeps(State(), id, user, kind);
      rows := rows[id := Row(user, kind, RESERVED)];
      nextId := nextId + 1;
      return Some(id);
    }

    /** COALESCE(MAX(queue_pos), 0) + 1 over the QUEUED, ACTIVE and BUSY rows. */
    method NextQueuePos() returns (p: nat)
      ensures forall op :: op in pos && op in rows && (rows[op].status == QUEUED || Active(rows[op].status)) ==> pos[op] < p
    {
      p := 1;
      var todo := pos.Keys;
      while todo != {}
        invariant todo <= pos.Keys
        invariant forall op :: op in pos && op in rows && op !in todo && (rows[op].status == QUEUED || Active(rows[op].status)) ==> pos[op] < p
        decreases |todo|
      {
        var op :| op in todo;
        if op in rows && (rows[op].status == QUEUED || Active(rows[op].status)) && pos[op] + 1 > p {
          p := pos[op] + 1;
        }
        todo := todo - {op};
      }
    }

    method EnqueueReserved(op: OpId) returns (moved: bool)
      requires Valid()
      modifies this
      ensures Valid()
      ensures moved <==> HasStatus(old(State()), op, RESERVED)
      ensures State() == if moved then Ledger.Enqueue(old(State()), op) else old(State())
    {
      if op !in rows || rows[op].status != RESERVED {
        return false;
      }
      var p := NextQueuePos();
      EnqueueKeeps(State(), op);
      AppendPosition(State(), pos, op, p);
      rows := rows[op := rows[op].(status := QUEUED)];
      pos := pos[op := p];
      queue := queue + [op];
      return true;
    }

    /** SELECT .. WHERE status IN ('ACTIVE','BUSY'). */
    method GetActive() returns (op: Option<OpId>)
      ensures op.Some? ==> op.value in rows && Active(rows[op.value].status)
      ensures op.None? ==> forall a :: a in rows ==> !Active(rows[a].status)
    {
      var todo := rows.Keys;
      while todo != {}
        invariant todo <= rows.Keys
        invariant forall a :: a in rows && a !in todo ==> !Active(rows[a].status)
        decreases |todo|
      {
        var a :| a in todo;
        if Active(rows[a].status) {
          return Some(a);
        }
        todo := todo - {a};
      }
      return None;
    }

    /** SELECT op_id WHERE status = 'QUEUED' ORDER BY queue_pos. */
    method SelectQueued() returns (ids: seq<OpId>)
      requires Valid()
      ensures ids == queue
    {
      var todo := set op | op in rows && rows[op].status == QUEUED;
      RestStart(State(), todo);
      ids := SortedByPosition(pos, todo, queue);
    }

    /** Positions become 1 .. N; the order stays. */
    method ReorderQueue()
      requires Valid()
      modifies `pos
      ensures Valid() && State() == old(State())
      ensures forall i :: 0 <= i < |queue| ==> queue[i] in pos && pos[queue[i]] == i + 1
    {
      var ids := SelectQueued();
      assert forall op :: op in queue ==> HasStatus(State(), op, QUEUED);
      assert Distinct(ids);
      hide QueueOk, OneLive, Positions;
      for i := 0 to |ids|
        invariant forall k :: 0 <= k < i ==> ids[k] in pos && pos[ids[k]] == k + 1
        invariant forall op :: op in pos ==> op in rows
      {
        assert forall k :: 0 <= k < i ==> ids[k] != ids[i];
        assert ids[i] in queue && HasStatus(State(), ids[i], QUEUED);
        pos := pos[ids[i] := i + 1];
      }
      Renumbered(pos, queue);
    }

    /** The head becomes ACTIVE and the others move up. */
    method PromoteFirstQueued() returns (op: Option<OpId>)
      requires Valid()
      modifies this
      ensures Valid()
      ensures op == if old(queue) == [] then None else Some(old(queue)[0])
      ensures op.None? ==> State() == old(State())
      ensures op.Some? ==> op.value in old(rows) && State() == Ledger.Promote(old(State()))
    {
      var ids := SelectQueued();
      if ids == [] {
        return None;
      }
      var head := ids[0];
      PromoteKeeps(State());
      TailPositions(State(), pos);
      rows := rows[head := rows[head].(status := ACTIVE)];
      queue := queue[1..];
      ReorderQueue();
      return Some(head);
    }

    /** An update that ends an operation or moves it on outside the queue; the position is cleared when the operation
        ends. */
    method SetStatus(op: OpId, s: Status)
      requires Valid() && op in rows && s != QUEUED && s != RESERVED && (Live(s) ==> Live(rows[op].status))
      modifies this
      ensures Valid() && State() == Finish(old(State()), op, s) && nextId == old(nextId)
    {
      FinishKeeps(State(), op, s);
      WithoutPositions(pos, queue, op);
      rows := rows[op := rows[op].(status := s)];
      queue := Without(queue, op);
      if !Live(s) {
        pos := pos - {op};
      }
    }

    method RemoveFromQueue(op: OpId)
      requires Valid() && op in rows
      modifies this
      ensures Valid() && State() == Finish(old(State()), op, REMOVED)
    {
      SetStatus(op, REMOVED);
      ReorderQueue();
    }

    method CompleteJoin(op: OpId, user: User, agentTokens: map<Role, Token>)
      requires Valid() && op in rows
      modifies this
      ensures Valid() && State() == Ledger.CompleteJoin(old(State()), op, user, agentTokens)
    {
      SetStatus(op, DONE);
      tokens := tokens[user := (if user in tokens then tokens[user] else map[]) + agentTokens];
      users := users[user := Joined];
    }

    method CompleteQuit(op: OpId, user: User)
      requires Valid() && op in rows
      modifies this
      ensures Valid() && State() == Ledger.CompleteQuit(old(State()), op, user)
    {
      SetStatus(op, DONE);
      tokens := tokens - {user};
      users := users[user := Quitted];
    }

    method FailAllLive()
      requires Valid()
      modifies this
      ensures Valid() && State() == Ledger.FailAllLive(old(State()))
    {
      FailAllKeeps(State());
      pos := map op | op in pos && op in rows && !Live(rows[op].status) :: pos[op];
      rows := map op | op in rows :: if Live(rows[op].status) then rows[op].(status := FAILED) else rows[op];
      queue := [];
    }

    /** Before serving, operations a crash left ACTIVE or BUSY are failed; a BUSY one means that a protocol was in
        flight. */
    method ReconcileOnStartup() returns (count: nat, uncertain: bool)
      requires Valid()
      modifies this
      ensures Valid()
      ensures uncertain <==> exists op :: op in old(rows) && old(rows)[op].status == BUSY
      ensures State() == FailActive(old(State()))
    {
      hide QueueOk, OneLive, Positions;
      var active := set op | op in rows && Active(rows[op].status);
      count := |active|;
      uncertain := AnyBusy(active);
      assert uncertain <==> exists op :: op in rows && rows[op].status == BUSY;
      FailActiveKeeps(State());
      QueuedNotActive(State());
      KeptPositions(pos, queue, active);
      pos := map op | op in pos && op !in active :: pos[op];
      rows := map op | op in rows :: if Active(rows[op].status) then rows[op].(status := FAILED) else rows[op];
    }

    method AnyBusy(active: set<OpId>) returns (yes: bool)
      requires forall op :: op in active ==> op in rows
      ensures yes <==> exists op :: op in active && rows[op].status == BUSY
    {
      var todo := active;
      while todo != {}
        invariant todo <= active
        invariant forall op :: op in active && op !in todo ==> rows[op].status != BUSY
        decreases |todo|
      {
        var op :| op in todo;
        if rows[op].status == BUSY {
          return true;
        }
        todo := todo - {op};
      }
      return false;
    }
  }

  lemma QueuedNotActive(l: Tables)
    requires QueueOk(l)
    ensures forall op :: op in l.queue ==> op in l.rows && !Active(l.rows[op].status)
  {
  }

  /** `todo` is what is left of the queue from position n on. */
  ghost predicate Rest(todo: set<OpId>, q: seq<OpId>, n: nat) {
    n <= |q| && forall op :: op in todo <==> op in q[n..]
  }

  lemma RestStart(l: Tables, todo: set<OpId>)
    requires QueueOk(l) && forall op :: op in todo <==> HasStatus(l, op, QUEUED)
    ensures Rest(todo, l.queue, 0)
  {
  }

  lemma RestHead(todo: set<OpId>, q: seq<OpId>, n: nat)
    requires Rest(todo, q, n)
    ensures todo == {} <==> n == |q|
    ensures forall op :: op in todo ==> op in q
  {
    assert n < |q| ==> q[n] in q[n..];
  }

  lemma RestStep(todo: set<OpId>, q: seq<OpId>, n: nat)
    requires Rest(todo, q, n) && Distinct(q) && n < |q|
    ensures Rest(todo - {q[n]}, q, n + 1)
  {
  }

  lemma AppendPosition(l: Tables, pos: map<OpId, nat>, op: OpId, p: nat)
    requires QueueOk(l) && Positions(pos, l.queue) && op !in l.queue && op in l.rows
    requires forall a :: a in l.queue && a in pos ==> pos[a] < p
    ensures Positions(pos[op := p], l.queue + [op])
  {
  }

  lemma HeadIsSmallest(pos: map<OpId, nat>, q: seq<OpId>, todo: set<OpId>, at: nat, op: OpId)
    requires Positions(pos, q) && Rest(todo, q, at) && at < |q| && op in todo
    requires forall a :: a in todo ==> a in pos && op in pos && pos[op] <= pos[a]
    ensures op == q[at]
  {
  }

  lemma TailPositions(l: Tables, pos: map<OpId, nat>)
    requires QueueOk(l) && Positions(pos, l.queue) && l.queue != [] && l.queue[0] in l.rows
    ensures Positions(pos, l.queue[1..])
  {
  }

  lemma {:induction false} WithoutPositions(pos: map<OpId, nat>, q: seq<OpId>, op: OpId)
    requires Positions(pos, q)
    ensures Positions(pos, Without(q, op)) && Positions(pos - {op}, Without(q, op))
  {
    if q != [] {
      assert Positions(pos, q[1..]);
      WithoutPositions(pos, q[1..], op);
      FrontPosition(pos, q, Without(q[1..], op));
    }
    FewerPositions(pos, Without(q, op), op);
    hide Positions;
  }

  lemma FrontPosition(pos: map<OpId, nat>, q: seq<OpId>, rest: seq<OpId>)
    requires q != [] && Positions(pos, q) && Positions(pos, rest) && forall x :: x in rest ==> x in q[1..]
    ensures Positions(pos, [q[0]] + rest)
  {
    forall k | 0 <= k < |rest|
      ensures q[0] in pos && rest[k] in pos && pos[q[0]] < pos[rest[k]]
    {
      assert rest[k] in q[1..];
      var i :| 0 <= i < |q[1..]| && q[1..][i] == rest[k];
      assert q[i + 1] == rest[k];
    }
  }

  lemma Renumbered(pos: map<OpId, nat>, q: seq<OpId>)
    requires forall k :: 0 <= k < |q| ==> q[k] in pos && pos[q[k]] == k + 1
    ensures Positions(pos, q)
  {
  }

  lemma FewerPositions(pos: map<OpId, nat>, q: seq<OpId>, op: OpId)
    requires Positions(pos, q) && op !in q
    ensures Positions(pos - {op}, q)
  {
    assert forall i :: 0 <= i < |q| ==> q[i] in q;
  }

  lemma KeptPositions(pos: map<OpId, nat>, q: seq<OpId>, gone: set<OpId>)
    requires Positions(pos, q) && forall op :: op in q ==> op !in gone
    ensures Positions(map op | op in pos && op !in gone :: pos[op], q)
  {
    assert forall i :: 0 <= i < |q| ==> q[i] in q;
  }
}
