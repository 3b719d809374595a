/** From the holders' sets to the querier's answer. */
module EndToEnd {
  import opened Ring
  import opened Blocks
  import opened Bloom
  import opened Aby3
  import opened Aby3Vec
  import opened TrioTree
  import opened Federation
  import opened Runs
  import opened Query
  import D = Deployment
  import L = Ledger

  /** The parameters a holder of the same federation generates its filter with. */
  function HolderParams(c: Setup): Params {
    Params(c.aes, c.seeds, c.ellIn, c.bf)
  }

  /** The querier's circuit and the holder's hash name the same position of the filter for every non-empty element. */
  lemma SameIndex(c: Setup, element: seq<Byte>, k: nat)
    requires ProperSetup(c) && element != [] && k < |c.seeds|
    ensures CircuitIndex(c, element, k) == Index(c.aes, element, c.seeds[k], c.ellIn, c.bf)
  {
  }

  /** Every position of the element is set in some live holder's filter. */
  ghost predicate AllSet(c: Setup, live: map<Holder, set<nat>>, element: seq<Byte>)
    requires ProperSetup(c)
  {
    forall k :: 0 <= k < |c.seeds| ==> SomeoneHas(live, CircuitIndex(c, element, k))
  }

  /** The filter generated from `elements`. */
  ghost predicate GeneratedFrom(c: Setup, elements: seq<seq<Byte>>, bits: seq<nat>)
    requires ProperSetup(c) && c.bf < Pow2(c.ellIn)
  {
    |bits| == c.bf && forall i :: 0 <= i < c.bf ==> (bits[i] == 1 <==> Hit(HolderParams(c), elements, |elements|, i))
  }

  /** An element of a live holder's set has all its positions set. */
  lemma StoredElementIsSet(c: Setup, live: map<Holder, set<nat>>, h: Holder, elements: seq<seq<Byte>>, bits: seq<nat>, element: seq<Byte>)
    requires ProperSetup(c) && c.bf < Pow2(c.ellIn) && GeneratedFrom(c, elements, bits)
    requires h in live && live[h] == BitsOf(bits) && element in elements && element != []
    ensures AllSet(c, live, element)
  {
    hide Pow2, CircuitIndex, Index;
    var p := HolderParams(c);
    forall k | 0 <= k < |c.seeds|
      ensures SomeoneHas(live, CircuitIndex(c, element, k))
    {
      var i := CircuitIndex(c, element, k);
      SameIndex(c, element, k);
      assert HitBy(p, element, |p.seeds|, i);
      assert Hit(p, elements, |elements|, i);
      assert i in live[h];
    }
  }

  lemma RootBits(m: nat, bf: nat, root: Trio<RepVec>, ones: set<nat>)
    requires m > 1 && RootOpens(m, bf, root, ones)
    ensures ConsistentVec(m, bf, root)
    ensures forall s :: 0 <= s < bf ==> Values(m, bf, root)[s] < 2 && (Values(m, bf, root)[s] == 1 <==> s in ones)
  {
    hide Values, ConsistentVec;
  }

  /** After any history of joins, updates, quits and SYNCs that ends in a SYNC, a query is answered one exactly when
      each of the element's positions is set in the filter of at least one live holder; with nobody live it is answered
      zero. */
  method QueryAfterSync(c: Setup, element: seq<Byte>, rnd: QueryRandom, root: Trio<ShareVec>, buf: Trio<ShareVec>,
                        ghost s: Sys, ghost steps: seq<Step>, ghost t: Sys)
    returns (res: QueryResult)
    requires ProperSetup(c) && c.bf < Pow2(c.ellIn) && ProperDraws(c, element, rnd) && Separate(c.bf, buf)
    requires root.p0.Valid(c.bf) && root.p1.Valid(c.bf) && root.p2.Valid(c.bf)
    requires Away(root.p0, buf) && Away(root.p1, buf) && Away(root.p2, buf)
    requires Initial(c.bf, s) && Inv(c.bf, Pow2(c.ellRoot), s) && Pow2(c.ellRoot) > 1
    requires Run(c.bf, Pow2(c.ellRoot), s, steps, t) && steps != [] && steps[|steps| - 1].Sync?
    requires ValsOf(root) == Roots(Caches(t))
    modifies buf.p0.thisShare, buf.p0.nxtShare, buf.p1.thisShare, buf.p1.nxtShare, buf.p2.thisShare, buf.p2.nxtShare
    ensures res == Answer(if AllSet(c, t.live, element) then 1 else 0)
    ensures t.live == map[] ==> res == Answer(0)
  {
    hide Pow2, Run, Inv, Initial, RootOpens, Values, ConsistentVec, CircuitIndex, ProperDraws, Separate;
    var m := Pow2(c.ellRoot);
    FromEmpty(c.bf, m, s, steps, t);
    RootBits(m, c.bf, Roots(Caches(t)), Union(t.live));
    res := RunQuery(c, element, rnd, root, buf);
    NobodyHas(c, t.live, element);
  }

  lemma NobodyHas(c: Setup, live: map<Holder, set<nat>>, element: seq<Byte>)
    requires ProperSetup(c)
    ensures live == map[] ==> !AllSet(c, live, element)
  {
    if live == map[] {
      assert !SomeoneHas(live, CircuitIndex(c, element, 0));
    }
  }

  /** So a stored element is never answered zero. */
  method StoredElementIsFound(c: Setup, element: seq<Byte>, rnd: QueryRandom, root: Trio<ShareVec>, buf: Trio<ShareVec>,
                              ghost s: Sys, ghost steps: seq<Step>, ghost t: Sys,
                              ghost h: Holder, ghost elements: seq<seq<Byte>>, ghost bits: seq<nat>)
    returns (res: QueryResult)
    requires ProperSetup(c) && c.bf < Pow2(c.ellIn) && ProperDraws(c, element, rnd) && Separate(c.bf, buf)
    requires root.p0.Valid(c.bf) && root.p1.Valid(c.bf) && root.p2.Valid(c.bf)
    requires Away(root.p0, buf) && Away(root.p1, buf) && Away(root.p2, buf)
    requires Initial(c.bf, s) && Inv(c.bf, Pow2(c.ellRoot), s) && Pow2(c.ellRoot) > 1
    requires Run(c.bf, Pow2(c.ellRoot), s, steps, t) && steps != [] && steps[|steps| - 1].Sync?
    requires ValsOf(root) == Roots(Caches(t))
    requires h in t.live && t.live[h] == BitsOf(bits) && GeneratedFrom(c, elements, bits)
    requires element in elements && element != []
    modifies buf.p0.thisShare, buf.p0.nxtShare, buf.p1.thisShare, buf.p1.nxtShare, buf.p2.thisShare, buf.p2.nxtShare
    ensures res == Answer(1)
  {
    hide Pow2, Run, Inv, Initial, AllSet;
    StoredElementIsSet(c, t.live, h, elements, bits, element);
    res := QueryAfterSync(c, element, rnd, root, buf, s, steps, t);
  }

  /** In a whole deployment, right after a SYNC with no operation in progress, the answer is one exactly when each of the
      element's positions is set in the filter of at least one user whom the manager has as JOINED. */
  method QueryDeployment(c: Setup, element: seq<Byte>, rnd: QueryRandom, root: Trio<ShareVec>, buf: Trio<ShareVec>,
                         ghost x: D.Whole, ghost steps: seq<D.Step>, ghost y: D.Whole)
    returns (res: QueryResult)
    requires ProperSetup(c) && c.bf < Pow2(c.ellIn) && ProperDraws(c, element, rnd) && Separate(c.bf, buf)
    requires root.p0.Valid(c.bf) && root.p1.Valid(c.bf) && root.p2.Valid(c.bf)
    requires Away(root.p0, buf) && Away(root.p1, buf) && Away(root.p2, buf)
    requires D.Initial(c.bf, x) && D.Good(c.bf, Pow2(c.ellRoot), x) && D.Run(c.bf, Pow2(c.ellRoot), x, steps, y)
    requires D.Quiet(y) && D.EndsInSync(steps) && ValsOf(root) == Roots(Caches(y.s))
    modifies buf.p0.thisShare, buf.p0.nxtShare, buf.p1.thisShare, buf.p1.nxtShare, buf.p2.thisShare, buf.p2.nxtShare
    ensures forall u :: u in y.s.live <==> u in y.w.t.users && y.w.t.users[u] == L.Joined
    ensures res == Answer(if AllSet(c, y.s.live, element) then 1 else 0)
  {
    hide Pow2, Run, Inv, Initial, AllSet, ProperDraws, Separate, D.Initial, D.Good, D.Run, D.Quiet, RootOpens, D.KnownAs;
    D.JoinedUsersAreServed(c.bf, Pow2(c.ellRoot), x, steps, y);
    D.RunInduces(c.bf, Pow2(c.ellRoot), x, steps, y);
    D.AgentsAtFirst(c.bf, Pow2(c.ellRoot), x);
    res := QueryAfterSync(c, element, rnd, root, buf, x.s, D.OnAgents(steps), y.s);
  }
}
