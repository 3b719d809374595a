/** The transport under every resharing.  Each party has a calling thread, a send worker and a receive worker that hand
    work to each other through ready and done flags; the workers move bytes over three FIFO channels that form a ring
    and hold only so much.  Every interleaving of the nine threads' steps, for any sequence of resharing calls, delivers
    to each party exactly the next party's message of the same call, never gets stuck and always ends. */
module ReshareRing {
  const CHUNK: nat := 0x1_0000

  /** The calling thread: between two calls; the send posted; both posted; the send confirmed. */
  datatype CallPc = Idle | Posted | WaitSend | WaitRecv

  /** A worker waits for work or is at an offset of its buffer. */
  datatype Worker = Asleep | Busy(off: nat)

  /** The flags of one direction and its worker. */
  datatype Side = Side(ready: bool, done: bool, worker: Worker)

  const REST: Side := Side(false, false, Asleep)

  /** `msgs` are the buffers this party sends, one a call; `got` what it received in the completed calls; `buf` what has
      arrived in the current one; `outbox` the channel to the previous party; `sent` and `recvd` all bytes so far. */
  datatype Party = Party(msgs: seq<seq<nat>>, round: nat, call: CallPc, snd: Side, rcv: Side, buf: seq<nat>,
                         got: seq<seq<nat>>, outbox: seq<nat>, sent: seq<nat>, recvd: seq<nat>)

  datatype Act = PostSend | PostRecv | WakeSend | SendSome(k: nat) | SendEnd | TakeSendDone
               | WakeRecv | RecvSome(k: nat) | RecvEnd | TakeRecvDone

  datatype Step = Step(i: nat, act: Act)

  function NextOf(i: nat): nat {
    if i == 2 then 0 else i + 1
  }

  function PrevOf(i: nat): nat {
    if i == 0 then 2 else i - 1
  }

  /** totalBytes of the current call, for both directions. */
  function Total(p: Party): nat {
    if p.round < |p.msgs| then |p.msgs[p.round]| else 0
  }

  // ---- the steps ----

  /** A worker moves bytes inside its current chunk only. */
  predicate InChunk(off: nat, k: nat) {
    k > 0 && off % CHUNK + k <= CHUNK
  }

  predicate Can(cap: nat, p: Party, incoming: seq<nat>, act: Act) {
    match act
    case PostSend => p.call == Idle && p.round < |p.msgs|
    case PostRecv => p.call == Posted
    case WakeSend => p.snd.worker == Asleep && p.snd.ready
    case SendSome(k) =>
      && p.snd.worker.Busy? && InChunk(p.snd.worker.off, k) && p.snd.worker.off + k <= Total(p)
      && |p.outbox| + k <= cap
    case SendEnd => p.snd.worker.Busy? && p.snd.worker.off >= Total(p)
    case TakeSendDone => p.call == WaitSend && p.snd.done
    case WakeRecv => p.rcv.worker == Asleep && p.rcv.ready
    case RecvSome(k) =>
      && p.rcv.worker.Busy? && InChunk(p.rcv.worker.off, k) && p.rcv.worker.off + k <= Total(p)
      && k <= |incoming|
    case RecvEnd => p.rcv.worker.Busy? && p.rcv.worker.off >= Total(p)
    case TakeRecvDone => p.call == WaitRecv && p.rcv.done
  }

  /** What the step does to the party that takes it. */
  function Do(p: Party, incoming: seq<nat>, act: Act): Party {
    match act
    case PostSend => p.(call := Posted, snd := p.snd.(ready := true))
    case PostRecv => p.(call := WaitSend, rcv := p.rcv.(ready := true), buf := [])
    case WakeSend => p.(snd := p.snd.(worker := Busy(0)))
    case SendSome(k) =>
      if p.snd.worker.Busy? && p.round < |p.msgs| && p.snd.worker.off + k <= |p.msgs[p.round]| then
        var part := p.msgs[p.round][p.snd.worker.off..p.snd.worker.off + k];
        p.(snd := p.snd.(worker := Busy(p.snd.worker.off + k)), outbox := p.outbox + part, sent := p.sent + part)
      else p
    case SendEnd => p.(snd := Side(false, true, Asleep))
    case TakeSendDone => p.(call := WaitRecv, snd := p.snd.(done := false))
    case WakeRecv => p.(rcv := p.rcv.(worker := Busy(0)))
    case RecvSome(k) =>
      if p.rcv.worker.Busy? && k <= |incoming| then
        p.(rcv := p.rcv.(worker := Busy(p.rcv.worker.off + k)), buf := p.buf + incoming[..k], recvd := p.recvd + incoming[..k])
      else p
    case RecvEnd => p.(rcv := Side(false, true, Asleep))
    case TakeRecvDone =>
      p.(call := Idle, rcv := p.rcv.(done := false), round := p.round + 1, got := p.got + [p.buf], buf := [])
  }

  /** What it does to the next party's channel. */
  function Taken(nx: Party, act: Act): Party {
    if act.RecvSome? && act.k <= |nx.outbox| then nx.(outbox := nx.outbox[act.k..]) else nx
  }

  predicate Enabled(cap: nat, w: seq<Party>, step: Step) {
    |w| == 3 && step.i < 3 && Can(cap, w[step.i], w[NextOf(step.i)].outbox, step.act)
  }

  function Apply(w: seq<Party>, step: Step): seq<Party>
    requires |w| == 3 && step.i < 3
  {
    var n := NextOf(step.i);
    w[step.i := Do(w[step.i], w[n].outbox, step.act)][n := Taken(w[n], step.act)]
  }

  // ---- the control of one party ----

  /** Work is posted and not confirmed. */
  predicate Active(s: Side, total: nat) {
    s.ready != s.done && (s.worker.Busy? ==> s.ready && s.worker.off <= total)
  }

  predicate PartyOk(p: Party) {
    && p.round <= |p.msgs| && (p.call != Idle ==> p.round < |p.msgs|)
    && match p.call
       case Idle => p.snd == REST && p.rcv == REST
       case Posted => Active(p.snd, Total(p)) && p.rcv == REST
       case WaitSend => Active(p.snd, Total(p)) && Active(p.rcv, Total(p))
       case WaitRecv => p.snd == REST && Active(p.rcv, Total(p))
  }

  function Off(s: Side, total: nat): nat {
    if s.done then total else if s.worker.Busy? then s.worker.off else 0
  }

  /** Bytes of the current call already sent and already received. */
  function SendOff(p: Party): nat {
    if p.call == Idle then 0 else if p.call == WaitRecv then Total(p) else Off(p.snd, Total(p))
  }

  function RecvOff(p: Party): nat {
    if p.call == Idle || p.call == Posted then 0 else Off(p.rcv, Total(p))
  }

  lemma ActOk(cap: nat, p: Party, incoming: seq<nat>, act: Act)
    requires PartyOk(p) && Can(cap, p, incoming, act)
    ensures PartyOk(Do(p, incoming, act)) && Do(p, incoming, act).msgs == p.msgs
  {
  }

  // ---- what is in the channels ----

  /** The byte stream of a sequence of messages. */
  function Flat(ms: seq<seq<nat>>): seq<nat> {
    if ms == [] then [] else Flat(ms[..|ms| - 1]) + ms[|ms| - 1]
  }

  lemma FlatStep(ms: seq<seq<nat>>, r: nat)
    requires r < |ms|
    ensures Flat(ms[..r + 1]) == Flat(ms[..r]) + ms[r]
  {
    assert ms[..r + 1][..r] == ms[..r];
  }

  lemma {:induction false} FlatPrefix(ms: seq<seq<nat>>, r: nat, upto: nat)
    requires r <= upto <= |ms|
    ensures Flat(ms[..r]) <= Flat(ms[..upto])
    decreases upto
  {
    if r < upto {
      FlatPrefix(ms, r, upto - 1);
      FlatStep(ms, upto - 1);
    }
  }

  /** Messages of the same sizes. */
  predicate SameSizes(a: seq<seq<nat>>, b: seq<seq<nat>>) {
    |a| == |b| && forall r :: 0 <= r < |a| ==> |a[r]| == |b[r]|
  }

  lemma {:induction false} SameLength(a: seq<seq<nat>>, b: seq<seq<nat>>, r: nat)
    requires SameSizes(a, b) && r <= |a|
    ensures |Flat(a[..r])| == |Flat(b[..r])|
  {
    if r > 0 {
      SameLength(a, b, r - 1);
      FlatStep(a, r - 1);
      FlatStep(b, r - 1);
    }
  }

  /** The part of the current message that has been sent. */
  function SentPart(p: Party): seq<nat> {
    if p.round < |p.msgs| && SendOff(p) <= |p.msgs[p.round]| then p.msgs[p.round][..SendOff(p)] else []
  }

  ghost predicate SentOk(p: Party) {
    p.round <= |p.msgs| && p.sent == Flat(p.msgs[..p.round]) + SentPart(p)
  }

  /** A party and the next one: what the next one sent has been received or is still in the channel, the completed calls
      returned its messages, and what has arrived since is the beginning of the following one. */
  ghost predicate LinkOk(p: Party, nx: Party) {
    && SameSizes(p.msgs, nx.msgs) && p.round <= |nx.msgs|
    && nx.sent == p.recvd + nx.outbox
    && p.recvd == Flat(nx.msgs[..p.round]) + p.buf && |p.buf| == RecvOff(p)
    && p.got == nx.msgs[..p.round]
  }

  lemma ActSent(cap: nat, p: Party, incoming: seq<nat>, act: Act)
    requires PartyOk(p) && SentOk(p) && Can(cap, p, incoming, act)
    ensures SentOk(Do(p, incoming, act))
  {
    var q := Do(p, incoming, act);
    if act.SendSome? {
      SentMore(p, q, act.k);
    } else if act.TakeRecvDone? {
      FlatStep(p.msgs, p.round);
      assert SentPart(p) == p.msgs[p.round] && SentPart(q) == [];
    } else {
      assert SentPart(q) == SentPart(p);
    }
  }

  lemma SentMore(p: Party, q: Party, k: nat)
    requires PartyOk(p) && SentOk(p) && p.snd.worker.Busy? && p.snd.worker.off + k <= Total(p) && q == Do(p, [], SendSome(k))
    ensures SentOk(q)
  {
    var off := p.snd.worker.off;
    assert SentPart(p) == p.msgs[p.round][..off];
    assert SentPart(q) == p.msgs[p.round][..off] + p.msgs[p.round][off..off + k];
  }

  /** Everything sent is a beginning of the whole stream. */
  lemma SentPrefix(p: Party)
    requires SentOk(p)
    ensures p.sent <= Flat(p.msgs)
  {
    assert p.msgs[..|p.msgs|] == p.msgs;
    if p.round < |p.msgs| {
      FlatStep(p.msgs, p.round);
      FlatPrefix(p.msgs, p.round + 1, |p.msgs|);
    }
  }

  /** A full buffer is the next party's message. */
  lemma BufferFull(p: Party, nx: Party)
    requires LinkOk(p, nx) && SentOk(nx) && p.round < |nx.msgs| && |p.buf| == |nx.msgs[p.round]|
    ensures p.buf == nx.msgs[p.round]
  {
    SentPrefix(nx);
    FlatStep(nx.msgs, p.round);
    FlatPrefix(nx.msgs, p.round + 1, |nx.msgs|);
    assert nx.msgs[..|nx.msgs|] == nx.msgs;
    Beginnings(p.recvd, Flat(nx.msgs[..p.round + 1]), Flat(nx.msgs));
    assert p.buf == p.recvd[|Flat(nx.msgs[..p.round])|..];
  }

  lemma Beginnings(a: seq<nat>, b: seq<nat>, c: seq<nat>)
    requires a <= c && b <= c && |a| == |b|
    ensures a == b
  {
  }

  /** The step of a party keeps its link to the next one. */
  lemma ActLink(cap: nat, p: Party, nx: Party, act: Act)
    requires PartyOk(p) && SentOk(nx) && LinkOk(p, nx) && Can(cap, p, nx.outbox, act)
    ensures LinkOk(Do(p, nx.outbox, act), Taken(nx, act))
  {
    hide SentOk;
    if act.TakeRecvDone? {
      BufferFull(p, nx);
      FlatStep(nx.msgs, p.round);
      assert nx.msgs[..p.round + 1] == nx.msgs[..p.round] + [nx.msgs[p.round]];
    } else if act.RecvSome? {
      assert nx.outbox == nx.outbox[..act.k] + nx.outbox[act.k..];
    }
  }

  /** The step of a party keeps the link of the previous one to it. */
  lemma ActLinkBefore(cap: nat, p: Party, nx: Party, incoming: seq<nat>, act: Act)
    requires LinkOk(p, nx) && Can(cap, nx, incoming, act)
    ensures LinkOk(p, Do(nx, incoming, act))
  {
  }

  // ---- every reachable state ----

  ghost predicate Inv(w: seq<Party>) {
    && |w| == 3
    && (forall i :: 0 <= i < 3 ==> PartyOk(w[i]) && SentOk(w[i]))
    && (forall i :: 0 <= i < 3 ==> LinkOk(w[i], w[NextOf(i)]))
  }

  /** No call made yet, the channels empty, and the three parties about to make the same calls. */
  ghost predicate Initial(w: seq<Party>) {
    && |w| == 3
    && (forall i :: 0 <= i < 3 ==> w[i] == Party(w[i].msgs, 0, Idle, REST, REST, [], [], [], [], []))
    && (forall i :: 0 <= i < 3 ==> SameSizes(w[i].msgs, w[NextOf(i)].msgs))
  }

  lemma InitialInv(w: seq<Party>)
    requires Initial(w)
    ensures Inv(w)
  {
    assert forall i :: 0 <= i < 3 ==> w[i].msgs[..0] == [];
  }

  lemma StepInv(cap: nat, w: seq<Party>, step: Step)
    requires Inv(w) && Enabled(cap, w, step)
    ensures Inv(Apply(w, step))
  {
    hide Can, Do, PartyOk, SentOk, LinkOk;
    var i, act := step.i, step.act;
    var n, b := NextOf(i), PrevOf(i);
    ActOk(cap, w[i], w[n].outbox, act);
    ActSent(cap, w[i], w[n].outbox, act);
    ActLink(cap, w[i], w[n], act);
    assert NextOf(b) == i && LinkOk(w[b], w[NextOf(b)]);
    ActLinkBefore(cap, w[b], w[i], w[n].outbox, act);
    TakenKeeps(w[n], w[b], act);
  }

  /** Taking bytes from a channel touches neither its owner's control nor its owner's other link. */
  lemma TakenKeeps(nx: Party, after: Party, act: Act)
    ensures PartyOk(nx) ==> PartyOk(Taken(nx, act))
    ensures SentOk(nx) ==> SentOk(Taken(nx, act))
    ensures LinkOk(nx, after) ==> LinkOk(Taken(nx, act), after)
  {
  }

  ghost predicate Run(cap: nat, w: seq<Party>, steps: seq<Step>, x: seq<Party>)
    decreases |steps|
  {
    if steps == [] then x == w else Enabled(cap, w, steps[0]) && Run(cap, Apply(w, steps[0]), steps[1..], x)
  }

  /** Whatever the interleaving, every completed call has returned exactly the next party's message of that call. */
  lemma {:induction false} CallsDeliver(cap: nat, w: seq<Party>, steps: seq<Step>, x: seq<Party>)
    requires Inv(w) && Run(cap, w, steps, x)
    ensures Inv(x) && forall i :: 0 <= i < 3 ==> |x[i].got| == x[i].round && x[i].got <= x[NextOf(i)].msgs
    decreases |steps|
  {
    hide Can, Do;
    if steps != [] {
      StepInv(cap, w, steps[0]);
      CallsDeliver(cap, Apply(w, steps[0]), steps[1..], x);
    } else {
      Delivered(x);
    }
  }

  // ---- no deadlock ----

  /** Some party is not through with its calls. */
  predicate Unfinished(w: seq<Party>)
    requires |w| == 3
  {
    exists i :: 0 <= i < 3 && w[i].round < |w[i].msgs|
  }

  /** A party that has completed the fewest calls. */
  predicate Last(w: seq<Party>, i: nat)
    requires |w| == 3
  {
    i < 3 && forall k :: 0 <= k < 3 ==> w[i].round <= w[k].round
  }

  lemma SomeLast(w: seq<Party>) returns (i: nat)
    requires |w| == 3
    ensures Last(w, i)
  {
    i := 0;
    if w[1].round < w[i].round {
      i := 1;
    }
    if w[2].round < w[i].round {
      i := 2;
    }
  }

  lemma OneByte(off: nat)
    ensures InChunk(off, 1)
  {
  }

  /** A party can do something unless it waits for a full channel to drain or for bytes to arrive. */
  lemma CanAct(cap: nat, p: Party, incoming: seq<nat>) returns (act: Act)
    requires PartyOk(p) && p.round < |p.msgs|
    ensures
      || Can(cap, p, incoming, act)
      || (p.call == WaitSend && SendOff(p) < Total(p) && |p.outbox| >= cap)
      || (p.call == WaitRecv && RecvOff(p) < Total(p) && incoming == [])
  {
    hide InChunk;
    if p.call == Idle {
      act := PostSend;
    } else if p.call == Posted {
      act := PostRecv;
    } else if p.call == WaitSend {
      act := if p.snd.done then TakeSendDone else if p.snd.worker == Asleep then WakeSend
        else if p.snd.worker.off >= Total(p) then SendEnd else SendSome(1);
      OneByte(Off(p.snd, Total(p)));
    } else {
      act := if p.rcv.done then TakeRecvDone else if p.rcv.worker == Asleep then WakeRecv
        else if p.rcv.worker.off >= Total(p) then RecvEnd else RecvSome(1);
      OneByte(Off(p.rcv, Total(p)));
    }
  }

  /** As long as the current call has bytes to receive and some are there, the receiving side can do something. */
  lemma CanReceive(cap: nat, p: Party, incoming: seq<nat>) returns (act: Act)
    requires PartyOk(p) && p.round < |p.msgs| && RecvOff(p) < Total(p) && incoming != []
    ensures Can(cap, p, incoming, act)
  {
    hide InChunk;
    act := if p.call == Idle then PostSend else if p.call == Posted then PostRecv
      else if p.rcv.worker == Asleep then WakeRecv else RecvSome(1);
    OneByte(Off(p.rcv, Total(p)));
  }

  lemma CanSend(cap: nat, p: Party, incoming: seq<nat>) returns (act: Act)
    requires PartyOk(p) && p.round < |p.msgs| && SendOff(p) < Total(p) && |p.outbox| < cap
    ensures Can(cap, p, incoming, act)
  {
    hide InChunk;
    act := if p.call == Idle then PostSend else if p.snd.worker == Asleep then WakeSend else SendSome(1);
    OneByte(Off(p.snd, Total(p)));
  }

  /** If the last party waits for its channel to drain, the previous one is at the same call and can receive. */
  lemma PreviousReceives(p: Party, q: Party)
    requires PartyOk(p) && PartyOk(q) && SentOk(p) && LinkOk(q, p) && p.round <= q.round
    requires p.round < |p.msgs| && SendOff(p) < Total(p) && p.outbox != []
    ensures q.round == p.round && RecvOff(q) < Total(q)
  {
    FlatStep(p.msgs, p.round);
    if p.round < q.round {
      FlatPrefix(p.msgs, p.round + 1, q.round);
    }
    assert |SentPart(p)| == SendOff(p);
  }

  /** If the last party waits for bytes, the next one is at the same call and has bytes to send. */
  lemma NextSends(p: Party, nx: Party)
    requires PartyOk(p) && PartyOk(nx) && SentOk(nx) && LinkOk(p, nx) && p.round <= nx.round
    requires p.round < |p.msgs| && RecvOff(p) < Total(p) && nx.outbox == []
    ensures nx.round == p.round && SendOff(nx) < Total(nx)
  {
    FlatStep(nx.msgs, p.round);
    if p.round < nx.round {
      FlatPrefix(nx.msgs, p.round + 1, nx.round);
    } else {
      assert |SentPart(nx)| == SendOff(nx);
    }
  }

  /** As long as calls are outstanding some thread can move, however small the channels. */
  lemma NeverStuck(cap: nat, w: seq<Party>) returns (step: Step)
    requires cap > 0 && Inv(w) && Unfinished(w)
    ensures Enabled(cap, w, step)
  {
    hide Can, PartyOk, SentOk, LinkOk, Flat;
    var i := SomeLast(w);
    AllSized(w);
    var n, b := NextOf(i), PrevOf(i);
    assert NextOf(b) == i && LinkOk(w[b], w[NextOf(b)]);
    var act := CanAct(cap, w[i], w[n].outbox);
    if Can(cap, w[i], w[n].outbox, act) {
      step := Step(i, act);
    } else if w[i].call == WaitSend {
      PreviousReceives(w[i], w[b]);
      act := CanReceive(cap, w[b], w[i].outbox);
      step := Step(b, act);
    } else {
      NextSends(w[i], w[n]);
      act := CanSend(cap, w[n], w[NextOf(n)].outbox);
      step := Step(n, act);
    }
  }

  /** The three parties make equally many calls. */
  lemma AllSized(w: seq<Party>)
    requires Inv(w)
    ensures |w[0].msgs| == |w[1].msgs| == |w[2].msgs|
  {
    assert LinkOk(w[0], w[NextOf(0)]) && LinkOk(w[1], w[NextOf(1)]);
  }

  // ---- every run ends ----

  /** Control steps one direction has taken in the current call. */
  function SidePhase(s: Side): nat {
    if s.done then 2 else if s.worker.Busy? then 1 else 0
  }

  function Phase(p: Party): nat {
    match p.call
    case Idle => 0
    case Posted => 1 + SidePhase(p.snd)
    case WaitSend => 2 + SidePhase(p.snd) + SidePhase(p.rcv)
    case WaitRecv => 5 + SidePhase(p.rcv)
  }

  /** Steps and bytes behind a party. */
  function Behind(p: Party): nat {
    8 * p.round + Phase(p) + |p.sent| + |p.recvd|
  }

  function AllBehind(w: seq<Party>): nat
    requires |w| == 3
  {
    Behind(w[0]) + Behind(w[1]) + Behind(w[2])
  }

  lemma ActAdvances(cap: nat, p: Party, incoming: seq<nat>, act: Act)
    requires PartyOk(p) && Can(cap, p, incoming, act)
    ensures Behind(Do(p, incoming, act)) > Behind(p)
  {
  }

  lemma StepAdvances(cap: nat, w: seq<Party>, step: Step)
    requires Inv(w) && Enabled(cap, w, step)
    ensures AllBehind(Apply(w, step)) > AllBehind(w)
  {
    hide Can, Do, SentOk, LinkOk, PartyOk;
    var n := NextOf(step.i);
    ActAdvances(cap, w[step.i], w[n].outbox, step.act);
    assert Behind(Taken(w[n], step.act)) == Behind(w[n]);
  }

  /** What all calls together can take. */
  function Bound(msgs: seq<seq<nat>>): nat {
    8 * |msgs| + 2 * |Flat(msgs)|
  }

  lemma BehindBounded(p: Party, nx: Party)
    requires PartyOk(p) && SentOk(p) && SentOk(nx) && LinkOk(p, nx)
    ensures Behind(p) <= Bound(p.msgs)
  {
    SentPrefix(p);
    SentPrefix(nx);
    assert p.msgs[..|p.msgs|] == p.msgs && nx.msgs[..|nx.msgs|] == nx.msgs;
    SameLength(p.msgs, nx.msgs, |p.msgs|);
    assert Phase(p) <= 7;
  }

  lemma {:induction false} StepsCounted(cap: nat, w: seq<Party>, steps: seq<Step>, x: seq<Party>)
    requires Inv(w) && Run(cap, w, steps, x)
    ensures Inv(x) && AllBehind(x) >= AllBehind(w) + |steps|
    ensures forall i :: 0 <= i < 3 ==> x[i].msgs == w[i].msgs
    decreases |steps|
  {
    hide Can, Do, Behind;
    if steps != [] {
      StepInv(cap, w, steps[0]);
      StepAdvances(cap, w, steps[0]);
      SameMessages(cap, w, steps[0]);
      StepsCounted(cap, Apply(w, steps[0]), steps[1..], x);
    }
  }

  lemma SameMessages(cap: nat, w: seq<Party>, step: Step)
    requires Inv(w) && Enabled(cap, w, step)
    ensures forall i :: 0 <= i < 3 ==> Apply(w, step)[i].msgs == w[i].msgs
  {
    hide Can, Do, SentOk, LinkOk, PartyOk;
    ActOk(cap, w[step.i], w[NextOf(step.i)].outbox, step.act);
  }

  /** From the start every run is finite, and one that cannot be continued has completed all calls of all parties with
      the right messages. */
  lemma RunsComplete(cap: nat, w: seq<Party>, steps: seq<Step>, x: seq<Party>)
    requires cap > 0 && Initial(w) && Run(cap, w, steps, x)
    ensures |steps| <= Bound(w[0].msgs) + Bound(w[1].msgs) + Bound(w[2].msgs)
    ensures |x| == 3 && forall i :: 0 <= i < 3 ==> |x[i].got| == x[i].round && x[i].got <= w[NextOf(i)].msgs
    ensures (forall step :: !Enabled(cap, x, step)) ==> forall i :: 0 <= i < 3 ==> x[i].got == w[NextOf(i)].msgs
  {
    InitialInv(w);
    StepsCounted(cap, w, steps, x);
    Delivered(x);
    hide Run, Initial, PartyOk, SentOk, Behind, Bound;
    BehindBounded(x[0], x[NextOf(0)]);
    BehindBounded(x[1], x[NextOf(1)]);
    BehindBounded(x[2], x[NextOf(2)]);
    if forall step :: !Enabled(cap, x, step) {
      if Unfinished(x) {
        var step := NeverStuck(cap, x);
        assert false;
      }
      AllSized(x);
    }
  }

  lemma Delivered(x: seq<Party>)
    requires Inv(x)
    ensures forall i :: 0 <= i < 3 ==>
      && x[i].got <= x[NextOf(i)].msgs && |x[i].got| == x[i].round <= |x[i].msgs|
      && (x[i].round == |x[i].msgs| ==> x[i].got == x[NextOf(i)].msgs)
  {
  }
}
