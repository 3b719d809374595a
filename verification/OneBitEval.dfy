/** Evaluation with one-bit outputs.  The workers of one evaluation then store into shared words; the result is right
    whatever they do in between if and only if the window starts on a word boundary or is a single worker's. */
module OneBitEval {
  import opened Ring
  import opened Bgi16
  import opened Bgi16Eval
  import O = OneBitStores

  function Each(n: nat, cores: nat): nat
    requires cores > 0
  {
    Pow2(n - SplitDepth(n, cores))
  }

  /** The number of leaves of every worker but the last. */
  function Share(n: nat, cores: nat): nat
    requires cores > 0
  {
    TasksPerThread(Pow2(SplitDepth(n, cores)), cores) * Each(n, cores)
  }

  /** What SplitTasks returns. */
  ghost predicate IsSplit(n: nat, cores: nat, threads: seq<(nat, nat)>)
    requires cores > 0
  {
    && Partition(threads, Pow2(SplitDepth(n, cores)))
    && forall i :: 0 <= i < |threads| ==> threads[i] == WorkerTasks(Pow2(SplitDepth(n, cores)), cores, i)
  }

  /** Leaf x is among those of worker i. */
  predicate Owns(threads: seq<(nat, nat)>, each: nat, i: nat, x: nat) {
    i < |threads| && threads[i].0 * each <= x < threads[i].1 * each
  }

  /** Each worker stores the wanted leaves among its own, in any order. */
  ghost predicate IsPlan(j: Job, threads: seq<(nat, nat)>, each: nat, p: O.Plan) {
    && |p.progs| == |threads| && |p.vals| == j.Length()
    && (forall s: nat :: s < j.Length() ==> (p.vals[s] <==> j.Value(j.LeafOf(s)) == 1))
    && (forall i: nat, s: nat :: i < |threads| ==> (s in p.progs[i] <==> s < j.Length() && Owns(threads, each, i, j.LeafOf(s))))
  }

  /** The number of the worker whose leaf x is. */
  function WorkerAt(x: nat, share: nat): nat
    requires share > 0
  {
    x / share
  }

  /** The window is one worker's: cyclic windows hold the first and the last leaf. */
  predicate SameWorker(j: Job, share: nat)
    requires share > 0
  {
    match j.w
    case Whole => share >= Pow2(j.N())
    case Range(bg, ed) => if ed < bg then share >= Pow2(j.N()) else WorkerAt(bg, share) == WorkerAt(ed, share)
  }

  function Start(w: Window): nat {
    match w
    case Whole => 0
    case Range(bg, _) => bg
  }

  lemma SharePositive(n: nat, cores: nat)
    requires cores > 0
    ensures SplitDepth(n, cores) <= n && Share(n, cores) > 0
  {
    CeilDiv(Pow2(SplitDepth(n, cores)), cores);
    hide SplitDepth;
    var t, each := TasksPerThread(Pow2(SplitDepth(n, cores)), cores), Each(n, cores);
    Distribute(t - 1, 1, each);
    MulSign(t - 1, each);
  }

  // ---- whose leaf ----

  /** The worker of a leaf is found by one division. */
  lemma OwnerIs(n: nat, cores: nat, threads: seq<(nat, nat)>, i: nat, x: nat)
    requires cores > 0 && IsSplit(n, cores, threads) && Owns(threads, Each(n, cores), i, x)
    ensures Share(n, cores) > 0 && i == WorkerAt(x, Share(n, cores))
    ensures threads[i].0 * Each(n, cores) == i * Share(n, cores)
    ensures threads[i].1 * Each(n, cores) <= (i + 1) * Share(n, cores)
  {
    SharePositive(n, cores);
    var t, each, share := TasksPerThread(Pow2(SplitDepth(n, cores)), cores), Each(n, cores), Share(n, cores);
    assert threads[i].0 == i * t && threads[i].1 <= i * t + t;
    hide Partition, Share, Each, TasksPerThread, SplitDepth, IsSplit;
    assert share == t * each by { ShareIs(n, cores); }
    Associate(i, t, each);
    Distribute(i * t, t, each);
    Distribute(i * t + t, threads[i].1, each);
    MulSign(i * t + t - threads[i].1, each);
    Distribute(i, 1, share);
    Divides(x, i, share);
  }

  lemma ShareIs(n: nat, cores: nat)
    requires cores > 0
    ensures Share(n, cores) == TasksPerThread(Pow2(SplitDepth(n, cores)), cores) * Each(n, cores) && Each(n, cores) > 0
  {
  }

  lemma Associate(a: int, b: int, c: int)
    ensures a * (b * c) == (a * b) * c
  {
  }

  lemma Divides(x: nat, q: nat, m: nat)
    requires m > 0 && q * m <= x < q * m + m
    ensures WorkerAt(x, m) == q
  {
    DivUnique(q, x - q * m, m);
  }

  lemma OwnerOf(n: nat, cores: nat, threads: seq<(nat, nat)>, x: nat) returns (i: nat)
    requires cores > 0 && IsSplit(n, cores, threads) && x < Pow2(n)
    ensures Owns(threads, Each(n, cores), i, x)
  {
    SharePositive(n, cores);
    hide Partition;
    i := WorkerOfLeaf(threads, n, SplitDepth(n, cores), x);
  }

  lemma PlanHas(j: Job, threads: seq<(nat, nat)>, each: nat, p: O.Plan, i: nat, s: nat)
    requires IsPlan(j, threads, each, p) && i < |p.progs|
    ensures s in p.progs[i] <==> s < j.Length() && Owns(threads, each, i, j.LeafOf(s))
  {
    hide Owns, Job.LeafOf, Job.Length;
    assert Owns(threads, each, i, j.LeafOf(s)) || !Owns(threads, each, i, j.LeafOf(s));
  }

  lemma PlanValid(j: Job, cores: nat, threads: seq<(nat, nat)>, p: O.Plan)
    requires j.Valid() && cores > 0 && IsSplit(j.N(), cores, threads) && IsPlan(j, threads, Each(j.N(), cores), p)
    ensures p.Valid()
  {
    hide IsSplit, IsPlan, Owns, Each, Job.Valid, Job.Value, Job.LeafOf, Job.Length;
    var each := Each(j.N(), cores);
    assert |p.vals| == j.Length() && |p.progs| == |threads| by { PlanSizes(j, threads, each, p); }
    forall s: nat | s < |p.vals|
      ensures p.Someone(s)
    {
      LeafOfSlot(j, s);
      var i := OwnerOf(j.N(), cores, threads, j.LeafOf(s));
      OwnerCounts(threads, each, i, j.LeafOf(s));
      PlanHas(j, threads, each, p, i, s);
    }
    forall i, s | 0 <= i < |p.progs| && s in p.progs[i]
      ensures s < |p.vals|
    {
      PlanHas(j, threads, each, p, i, s);
    }
    forall i, k, s | 0 <= i < |p.progs| && 0 <= k < |p.progs| && s in p.progs[i] && s in p.progs[k]
      ensures i == k
    {
      PlanHas(j, threads, each, p, i, s);
      PlanHas(j, threads, each, p, k, s);
      OwnerIs(j.N(), cores, threads, i, j.LeafOf(s));
      OwnerIs(j.N(), cores, threads, k, j.LeafOf(s));
    }
  }

  lemma PlanSizes(j: Job, threads: seq<(nat, nat)>, each: nat, p: O.Plan)
    requires IsPlan(j, threads, each, p)
    ensures |p.vals| == j.Length() && |p.progs| == |threads|
  {
  }

  lemma OwnerCounts(threads: seq<(nat, nat)>, each: nat, i: nat, x: nat)
    requires Owns(threads, each, i, x)
    ensures i < |threads|
  {
  }

  // ---- word boundaries ----

  /** With two workers or more each worker's leaves start and end on a word boundary, and so does the domain. */
  lemma Aligned(n: nat, cores: nat, threads: seq<(nat, nat)>, i: nat)
    requires cores > 0 && IsSplit(n, cores, threads) && |threads| > 1 && i < |threads|
    ensures Pow2(n) % 64 == 0
    ensures (threads[i].0 * Each(n, cores)) % 64 == 0 && (threads[i].1 * Each(n, cores)) % 64 == 0
  {
    hide IsSplit, Pow2, SplitDepth;
    DeepEnough(n, cores, threads);
    Powers64(n);
    Powers64(n - SplitDepth(n, cores));
    Times64(threads[i].0, Each(n, cores));
    Times64(threads[i].1, Each(n, cores));
  }

  /** Several workers mean several tasks, so the tree was split, and below a split there are eight levels or more. */
  lemma DeepEnough(n: nat, cores: nat, threads: seq<(nat, nat)>)
    requires cores > 0 && IsSplit(n, cores, threads) && |threads| > 1
    ensures SplitDepth(n, cores) + 8 <= n
  {
    var d := SplitDepth(n, cores);
    assert threads[0].1 == threads[1].0 && 0 <= threads[0].0 < threads[0].1 && threads[1].0 < threads[1].1 <= Pow2(d);
    assert d == 0 ==> Pow2(d) == 1;
    hide IsSplit, Partition, Pow2;
  }

  lemma Powers64(e: nat)
    requires e >= 6
    ensures Pow2(e) % 64 == 0
  {
    Pow2Add(6, e - 6);
    assert Pow2(6) == 64;
    hide Pow2;
    ModShift(0, Pow2(e - 6), 64);
  }

  lemma Times64(a: nat, m: nat)
    requires m % 64 == 0
    ensures (a * m) % 64 == 0
  {
    Associate(a, m / 64, 64);
    ModShift(0, a * (m / 64), 64);
  }

  /** Two elements of a word whose window starts on a word boundary belong to leaves between the same boundaries. */
  lemma SameBlock(j: Job, a: nat, b: nat, lo: nat, hi: nat)
    requires j.Valid() && a < j.Length() && b < j.Length() && a / 64 == b / 64 && Start(j.w) % 64 == 0
    requires Pow2(j.N()) % 64 == 0 && lo % 64 == 0 && hi % 64 == 0 && lo <= j.LeafOf(a) < hi
    ensures lo <= j.LeafOf(b) < hi
  {
    hide Pow2, Job.LeafOf, Job.Length;
    LeafBlock(j, a);
    LeafBlock(j, b);
    BlockEnds(j.LeafOf(a), j.LeafOf(b), lo / 64, hi / 64);
  }

  lemma BlockEnds(x: nat, y: nat, lo: nat, hi: nat)
    requires x / 64 == y / 64 && 64 * lo <= x < 64 * hi
    ensures 64 * lo <= y < 64 * hi
  {
  }

  /** The word of a leaf depends on the word of its element alone. */
  lemma LeafBlock(j: Job, s: nat)
    requires j.Valid() && s < j.Length() && Start(j.w) % 64 == 0 && Pow2(j.N()) % 64 == 0
    ensures j.LeafOf(s) / 64 ==
      if j.w.Range? && s / 64 + Start(j.w) / 64 >= Pow2(j.N()) / 64 then s / 64 + Start(j.w) / 64 - Pow2(j.N()) / 64
      else s / 64 + Start(j.w) / 64
  {
    hide Pow2, Job.Length, Job.Valid;
    Shifted(Start(j.w) / 64, Pow2(j.N()) / 64, s);
  }

  lemma Shifted(q: nat, r: nat, s: nat)
    ensures 64 * q + s < 64 * r <==> q + s / 64 < r
    ensures (64 * q + s) / 64 == q + s / 64
    ensures 64 * q + s >= 64 * r ==> (64 * q + s - 64 * r) / 64 == q + s / 64 - r
  {
  }

  // ---- sharing a word ----

  lemma AlignedApart(j: Job, cores: nat, threads: seq<(nat, nat)>, p: O.Plan)
    requires j.Valid() && cores > 0 && IsSplit(j.N(), cores, threads) && IsPlan(j, threads, Each(j.N(), cores), p)
    requires Start(j.w) % 64 == 0
    ensures p.Apart()
  {
    hide IsSplit, IsPlan, Each, Job.Valid, Job.Value, Job.LeafOf, Job.Length, WorkerAt;
    var each := Each(j.N(), cores);
    PlanSizes(j, threads, each, p);
    forall i, k, a, b | 0 <= i < |p.progs| && 0 <= k < |p.progs| && a in p.progs[i] && b in p.progs[k] && a / 64 == b / 64
      ensures i == k
    {
      PlanHas(j, threads, each, p, i, a);
      PlanHas(j, threads, each, p, k, b);
      if |threads| > 1 {
        Aligned(j.N(), cores, threads, i);
        SameBlock(j, a, b, threads[i].0 * each, threads[i].1 * each);
        OwnerIs(j.N(), cores, threads, i, j.LeafOf(b));
        OwnerIs(j.N(), cores, threads, k, j.LeafOf(b));
      }
    }
  }

  lemma OneWorkerApart(j: Job, cores: nat, threads: seq<(nat, nat)>, p: O.Plan)
    requires j.Valid() && cores > 0 && IsSplit(j.N(), cores, threads) && IsPlan(j, threads, Each(j.N(), cores), p)
    requires Share(j.N(), cores) > 0 && SameWorker(j, Share(j.N(), cores))
    ensures p.Apart()
  {
    hide IsSplit, IsPlan, Each, Job.Valid, Job.Value, Job.LeafOf, Job.Length, Share, SameWorker, WorkerAt;
    PlanSizes(j, threads, Each(j.N(), cores), p);
    forall i, k, a, b | 0 <= i < |p.progs| && 0 <= k < |p.progs| && a in p.progs[i] && b in p.progs[k] && a / 64 == b / 64
      ensures i == k
    {
      PlanHas(j, threads, Each(j.N(), cores), p, i, a);
      PlanHas(j, threads, Each(j.N(), cores), p, k, b);
      OwnerIs(j.N(), cores, threads, i, j.LeafOf(a));
      OwnerIs(j.N(), cores, threads, k, j.LeafOf(b));
      WindowWorker(j, Share(j.N(), cores), a);
      WindowWorker(j, Share(j.N(), cores), b);
    }
  }

  lemma WindowWorker(j: Job, share: nat, a: nat)
    requires j.Valid() && share > 0 && SameWorker(j, share) && a < j.Length()
    ensures WorkerAt(j.LeafOf(a), share) == if j.w.Range? && !j.Circular() then WorkerAt(j.w.bg, share) else 0
  {
    LeafOfSlot(j, a);
    hide Pow2;
    if j.w.Range? && !j.Circular() {
      DivOrder(j.w.bg, j.LeafOf(a), share);
      DivOrder(j.LeafOf(a), j.w.ed, share);
    } else {
      Divides(j.LeafOf(a), 0, share);
    }
  }

  lemma DivOrder(x: nat, y: nat, m: nat)
    requires m > 0 && x <= y
    ensures WorkerAt(x, m) <= WorkerAt(y, m)
  {
    var p, q := x / m, y / m;
    if q < p {
      Distribute(p, q + 1, m);
      MulSign(p - q - 1, m);
      Distribute(q, 1, m);
    }
  }

  /** Two neighbouring elements in one word are neighbouring leaves of different workers. */
  lemma Neighbours(j: Job, cores: nat, threads: seq<(nat, nat)>, p: O.Plan, i: nat, k: nat, b: nat)
    requires j.Valid() && cores > 0 && IsSplit(j.N(), cores, threads) && IsPlan(j, threads, Each(j.N(), cores), p)
    requires 0 < b < j.Length() && b % 64 != 0 && i != k
    requires Owns(threads, Each(j.N(), cores), i, j.LeafOf(b - 1)) && Owns(threads, Each(j.N(), cores), k, j.LeafOf(b))
    ensures !p.Apart()
  {
    hide IsSplit, IsPlan, Each, Job.Valid, Job.Value, Job.LeafOf, Job.Length, Owns;
    PlanSizes(j, threads, Each(j.N(), cores), p);
    OwnerCounts(threads, Each(j.N(), cores), i, j.LeafOf(b - 1));
    OwnerCounts(threads, Each(j.N(), cores), k, j.LeafOf(b));
    PlanHas(j, threads, Each(j.N(), cores), p, i, b - 1);
    PlanHas(j, threads, Each(j.N(), cores), p, k, b);
    assert (b - 1) / 64 == b / 64;
  }

  lemma CyclicRace(j: Job, cores: nat, threads: seq<(nat, nat)>, p: O.Plan)
    requires j.Valid() && cores > 0 && IsSplit(j.N(), cores, threads) && IsPlan(j, threads, Each(j.N(), cores), p)
    requires j.Circular() && j.w.bg % 64 != 0 && 0 < Share(j.N(), cores) < Pow2(j.N())
    ensures !p.Apart()
  {
    hide IsSplit, IsPlan, Each, Share, Job.Value, Job.LeafOf, Job.Length, Job.Valid, Pow2, Owns, WorkerAt;
    var n := j.N();
    var i := OwnerOf(n, cores, threads, Pow2(n) - 1);
    var k := OwnerOf(n, cores, threads, 0);
    OwnerIs(n, cores, threads, i, Pow2(n) - 1);
    OwnerIs(n, cores, threads, k, 0);
    FirstAndLast(Pow2(n), Share(n, cores));
    TwoWorkers(threads, Each(n, cores), i, Pow2(n) - 1, k, 0);
    Aligned(n, cores, threads, i);
    CyclicEnds(j);
    Neighbours(j, cores, threads, p, i, k, Pow2(n) - j.w.bg);
  }

  /** The last leaf and the first one are neighbours in the window. */
  lemma CyclicEnds(j: Job)
    requires j.Valid() && j.Circular() && j.w.bg % 64 != 0 && Pow2(j.N()) % 64 == 0
    ensures var b := Pow2(j.N()) - j.w.bg;
      0 < b < j.Length() && b % 64 != 0 && j.LeafOf(b - 1) == Pow2(j.N()) - 1 && j.LeafOf(b) == 0
  {
    hide Pow2;
  }

  lemma EdgeInside(j: Job, edge: nat)
    requires j.Valid() && j.w.Range? && j.w.bg < edge <= j.w.ed && j.w.bg % 64 != 0 && edge % 64 == 0
    ensures var b := edge - j.w.bg;
      0 < b < j.Length() && b % 64 != 0 && j.LeafOf(b - 1) == edge - 1 && j.LeafOf(b) == edge < Pow2(j.N())
  {
    hide Pow2;
  }

  lemma FirstAndLast(size: nat, share: nat)
    requires 0 < share < size
    ensures WorkerAt(0, share) == 0 && WorkerAt(size - 1, share) >= 1
  {
    Divides(0, 0, share);
    Divides(share, 1, share);
    DivOrder(share, size - 1, share);
  }

  lemma TwoWorkers(threads: seq<(nat, nat)>, each: nat, i: nat, x: nat, k: nat, y: nat)
    requires Owns(threads, each, i, x) && Owns(threads, each, k, y) && i != k
    ensures i < |threads| && k < |threads| && |threads| > 1
  {
  }

  lemma LinearRace(j: Job, cores: nat, threads: seq<(nat, nat)>, p: O.Plan)
    requires j.Valid() && cores > 0 && IsSplit(j.N(), cores, threads) && IsPlan(j, threads, Each(j.N(), cores), p)
    requires j.w.Range? && j.w.bg <= j.w.ed && j.w.bg % 64 != 0
    requires Share(j.N(), cores) > 0 && WorkerAt(j.w.bg, Share(j.N(), cores)) != WorkerAt(j.w.ed, Share(j.N(), cores))
    ensures !p.Apart()
  {
    hide IsSplit, IsPlan, Each, Share, Job.Value, Job.LeafOf, Job.Length, Pow2, WorkerAt, Owns;
    var n, bg := j.N(), j.w.bg;
    var i, edge := SplitEdge(n, cores, threads, bg, j.w.ed);
    EdgeInside(j, edge);
    var k := OwnerOf(n, cores, threads, edge);
    Neighbours(j, cores, threads, p, i, k, edge - bg);
  }

  /** Between two leaves of different workers one worker's leaves end. */
  lemma SplitEdge(n: nat, cores: nat, threads: seq<(nat, nat)>, bg: nat, ed: nat) returns (i: nat, edge: nat)
    requires cores > 0 && IsSplit(n, cores, threads) && bg <= ed < Pow2(n)
    requires Share(n, cores) > 0 && WorkerAt(bg, Share(n, cores)) != WorkerAt(ed, Share(n, cores))
    ensures bg < edge <= ed && edge % 64 == 0
    ensures Owns(threads, Each(n, cores), i, edge - 1) && !Owns(threads, Each(n, cores), i, edge)
  {
    hide IsSplit, Each, Share, Pow2, WorkerAt, Owns;
    i := OwnerOf(n, cores, threads, bg);
    var last := OwnerOf(n, cores, threads, ed);
    OwnerIs(n, cores, threads, i, bg);
    OwnerIs(n, cores, threads, last, ed);
    DivOrder(bg, ed, Share(n, cores));
    TwoWorkers(threads, Each(n, cores), i, bg, last, ed);
    Aligned(n, cores, threads, i);
    edge := threads[i].1 * Each(n, cores);
    EdgeBetween(threads, Each(n, cores), i, last, bg, ed, Share(n, cores));
  }

  /** The worker of bg ends inside the window. */
  lemma EdgeBetween(threads: seq<(nat, nat)>, each: nat, i: nat, last: nat, bg: nat, ed: nat, share: nat)
    requires Owns(threads, each, i, bg) && Owns(threads, each, last, ed) && i < last
    requires threads[last].0 * each == last * share && threads[i].1 * each <= (i + 1) * share
    ensures var edge := threads[i].1 * each;
      bg < edge <= ed && Owns(threads, each, i, edge - 1) && !Owns(threads, each, i, edge)
  {
    Distribute(last, i + 1, share);
    if share > 0 {
      MulSign(last - i - 1, share);
    }
  }

  // ---- the results ----

  /** One-bit range evaluation comes out right in every interleaving of its workers, from every buffer, if and only if the
      window starts on a multiple of 64 or is a single worker's. */
  lemma RangeRightIff(j: Job, cores: nat, threads: seq<(nat, nat)>, p: O.Plan)
    requires j.Valid() && cores > 0 && IsSplit(j.N(), cores, threads) && IsPlan(j, threads, Each(j.N(), cores), p)
    requires j.w.Range?
    ensures p.Valid() && Share(j.N(), cores) > 0
    ensures O.AlwaysRight(p) <==> j.w.bg % 64 == 0 || SameWorker(j, Share(j.N(), cores))
  {
    hide IsSplit, IsPlan, Each, Share, Job.Valid, O.AlwaysRight, O.Plan.Valid, O.Plan.Apart;
    PlanValid(j, cores, threads, p);
    O.RightIffApart(p);
    SharePositive(j.N(), cores);
    if j.w.bg % 64 == 0 {
      AlignedApart(j, cores, threads, p);
    } else if SameWorker(j, Share(j.N(), cores)) {
      OneWorkerApart(j, cores, threads, p);
    } else if j.Circular() {
      CyclicRace(j, cores, threads, p);
    } else {
      LinearRace(j, cores, threads, p);
    }
  }

  /** One-bit full evaluation always comes out right. */
  lemma FullAlwaysRight(j: Job, cores: nat, threads: seq<(nat, nat)>, p: O.Plan)
    requires cores > 0 && IsSplit(j.N(), cores, threads) && IsPlan(j, threads, Each(j.N(), cores), p) && j.w.Whole?
    ensures p.Valid() && O.AlwaysRight(p)
  {
    hide IsSplit, IsPlan, Each, O.AlwaysRight, O.Plan.Valid, O.Plan.Apart;
    PlanValid(j, cores, threads, p);
    O.RightIffApart(p);
    AlignedApart(j, cores, threads, p);
  }

  /** Right means the values of the reference evaluator. */
  lemma RightBits(j: Job, threads: seq<(nat, nat)>, each: nat, p: O.Plan, t: O.State, s: nat)
    requires j.Valid() && IsPlan(j, threads, each, p) && O.Right(p, t) && s < j.Length() && j.ellOut == 1
    ensures s / 64 < |t.words| && Eval(j.h, j.key, j.party, 1, j.LeafOf(s)) == if O.BitAt(t, s) then 1 else 0
  {
    hide NodeState, Job.LeafOf, Job.Valid, Job.Length;
    assert Pow2(1) == 2;
    assert s < |p.vals|;
    EvalBit(j, j.LeafOf(s));
  }

  lemma EvalBit(j: Job, x: nat)
    requires j.ellOut == 1
    ensures j.Value(x) < 2
  {
    assert Pow2(1) == 2;
  }

  /** For instance the window from 1 to 511 of a domain of 512 on two cores: a lost update is possible. */
  lemma OddWindowLoses(j: Job, threads: seq<(nat, nat)>, p: O.Plan)
    requires j.N() == 9 && j.w == Range(1, 511) && IsSplit(9, 2, threads) && IsPlan(j, threads, Each(9, 2), p)
    ensures p.Valid() && !O.AlwaysRight(p)
  {
    assert Pow2(9) == 512 by { Pow2Add(4, 5); }
    assert SplitDepth(9, 2) == 1 by { assert BitWidth(2) == 2; }
    assert Pow2(8) == 256 && Pow2(1) == 2 by { Pow2Add(4, 4); }
    assert Each(9, 2) == 256 && Share(9, 2) == 256;
    hide IsSplit, IsPlan, O.AlwaysRight, O.Plan.Valid, O.Plan.Apart;
    RangeRightIff(j, 2, threads, p);
  }

  // ---- there are such plans ----

  /** A worker's elements in ascending order. */
  function SlotsOf(j: Job, threads: seq<(nat, nat)>, each: nat, i: nat, n: nat): (prog: seq<nat>)
    ensures forall s: nat :: s in prog <==> s < n && Owns(threads, each, i, j.LeafOf(s))
  {
    if n == 0 then [] else SlotsOf(j, threads, each, i, n - 1) + if Owns(threads, each, i, j.LeafOf(n - 1)) then [n - 1] else []
  }

  lemma AscendingPlan(j: Job, threads: seq<(nat, nat)>, each: nat)
    ensures IsPlan(j, threads, each, O.Plan(seq(|threads|, i requires 0 <= i => SlotsOf(j, threads, each, i, j.Length())),
                                            seq(j.Length(), s requires 0 <= s => j.Value(j.LeafOf(s)) == 1)))
  {
    hide Job.Value, Job.LeafOf, Owns, Job.Length;
  }
}
