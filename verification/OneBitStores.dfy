/** One-bit elements stored by several workers at once.  Sixty-four elements share a word, and storing one is a load of the
    word followed by a store of it with one bit changed; other workers may run in between. */
module OneBitStores {
  import opened Options

  type Word = w: seq<bool> | |w| == 64 witness seq(64, i => false)

  /** How many elements the worker has stored, and the word it has loaded for the next one. */
  datatype Worker = Worker(next: nat, loaded: Option<Word>)

  datatype State = State(words: seq<Word>, workers: seq<Worker>)

  /** What the workers do: each stores its elements in its own order; each element of the vector is one worker's. */
  datatype Plan = Plan(progs: seq<seq<nat>>, vals: seq<bool>)
  {
    ghost predicate Valid() {
      && (forall i, s :: 0 <= i < |progs| && s in progs[i] ==> s < |vals|)
      && (forall s: nat :: s < |vals| ==> Someone(s))
      && (forall i, k, s :: 0 <= i < |progs| && 0 <= k < |progs| && s in progs[i] && s in progs[k] ==> i == k)
    }

    ghost predicate Someone(s: nat) {
      exists i :: 0 <= i < |progs| && s in progs[i]
    }

    /** No two workers have elements in one word. */
    ghost predicate Apart() {
      forall i, k, a, b :: 0 <= i < |progs| && 0 <= k < |progs| && a in progs[i] && b in progs[k] && a / 64 == b / 64 ==> i == k
    }
  }

  ghost predicate Fits(p: Plan, s: State) {
    && |s.words| == (|p.vals| + 63) / 64 && |s.workers| == |p.progs|
    && forall i :: 0 <= i < |p.progs| ==>
         s.workers[i].next <= |p.progs[i]| && (s.workers[i].loaded.Some? ==> s.workers[i].next < |p.progs[i]|)
  }

  function BitAt(s: State, slot: nat): bool
    requires slot / 64 < |s.words|
  {
    s.words[slot / 64][slot % 64]
  }

  ghost predicate CanStep(p: Plan, s: State, i: nat) {
    p.Valid() && Fits(p, s) && i < |p.progs| && s.workers[i].next < |p.progs[i]|
  }

  lemma SlotFits(p: Plan, s: State, i: nat)
    requires CanStep(p, s, i)
    ensures var slot := p.progs[i][s.workers[i].next]; slot in p.progs[i] && slot < |p.vals| && slot / 64 < |s.words|
  {
  }

  /** The worker's load, or its store. */
  ghost function Step(p: Plan, s: State, i: nat): State
    requires CanStep(p, s, i)
  {
    SlotFits(p, s, i);
    var me, slot := s.workers[i], p.progs[i][s.workers[i].next];
    if me.loaded.None? then s.(workers := s.workers[i := me.(loaded := Some(s.words[slot / 64]))])
    else
      State(s.words[slot / 64 := me.loaded.value[slot % 64 := p.vals[slot]]], s.workers[i := Worker(me.next + 1, None)])
  }

  /** From s the workers step in the order of `turns`. */
  ghost predicate Run(p: Plan, s: State, turns: seq<nat>, t: State)
    decreases |turns|
  {
    if turns == [] then t == s else CanStep(p, s, turns[0]) && Run(p, Step(p, s, turns[0]), turns[1..], t)
  }

  ghost predicate Initial(p: Plan, s: State) {
    Fits(p, s) && forall i :: 0 <= i < |p.progs| ==> s.workers[i] == Worker(0, None)
  }

  ghost predicate Done(p: Plan, s: State) {
    Fits(p, s) && forall i :: 0 <= i < |p.progs| ==> s.workers[i].next == |p.progs[i]|
  }

  ghost predicate Right(p: Plan, s: State) {
    forall slot: nat :: slot < |p.vals| ==> slot / 64 < |s.words| && BitAt(s, slot) == p.vals[slot]
  }

  /** Whatever the buffer held and whoever runs when, the elements come out right. */
  ghost predicate AlwaysRight(p: Plan) {
    forall s, turns, t :: Initial(p, s) && Run(p, s, turns, t) && Done(p, t) ==> Right(p, t)
  }

  // ---- workers that share no word ----

  /** What a worker has stored stays, and what it has loaded is still in the word. */
  ghost predicate Kept(p: Plan, s: State)
    requires p.Valid() && Fits(p, s)
  {
    && (forall i, n :: 0 <= i < |p.progs| && 0 <= n < s.workers[i].next ==> Stored(p, s, i, n))
    && (forall i :: 0 <= i < |p.progs| && s.workers[i].loaded.Some? ==> Current(p, s, i))
  }

  ghost predicate Stored(p: Plan, s: State, i: nat, n: nat)
    requires i < |p.progs| && n < |p.progs[i]|
  {
    var slot := p.progs[i][n];
    slot < |p.vals| && slot / 64 < |s.words| && BitAt(s, slot) == p.vals[slot]
  }

  ghost predicate Current(p: Plan, s: State, i: nat)
    requires p.Valid() && Fits(p, s) && i < |p.progs| && s.workers[i].loaded.Some?
  {
    var slot := p.progs[i][s.workers[i].next];
    slot / 64 < |s.words| && s.workers[i].loaded == Some(s.words[slot / 64])
  }

  lemma StepFits(p: Plan, s: State, i: nat)
    requires CanStep(p, s, i)
    ensures Fits(p, Step(p, s, i))
  {
    SlotFits(p, s, i);
  }

  /** A step changes no word but the one of its element, and there no bit but the element's if the load is current. */
  lemma StepBits(p: Plan, s: State, i: nat, slot: nat)
    requires CanStep(p, s, i) && slot < |p.vals|
    ensures slot / 64 < |s.words| && slot / 64 < |Step(p, s, i).words|
    ensures var mine := p.progs[i][s.workers[i].next];
      && (slot / 64 != mine / 64 ==> Step(p, s, i).words[slot / 64] == s.words[slot / 64])
      && (slot != mine && (s.workers[i].loaded.None? || Current(p, s, i)) ==> BitAt(Step(p, s, i), slot) == BitAt(s, slot))
      && (slot == mine && s.workers[i].loaded.Some? ==> BitAt(Step(p, s, i), slot) == p.vals[slot])
  {
    SlotFits(p, s, i);
    var mine := p.progs[i][s.workers[i].next];
    assert slot / 64 == mine / 64 && slot % 64 == mine % 64 ==> slot == mine;
  }

  lemma StepKept(p: Plan, s: State, i: nat)
    requires CanStep(p, s, i) && p.Apart() && Kept(p, s)
    ensures Fits(p, Step(p, s, i)) && Kept(p, Step(p, s, i))
  {
    StepFits(p, s, i);
    SlotFits(p, s, i);
    var t, mine := Step(p, s, i), p.progs[i][s.workers[i].next];
    forall k, n | 0 <= k < |p.progs| && 0 <= n < t.workers[k].next
      ensures Stored(p, t, k, n)
    {
      assert p.progs[k][n] in p.progs[k];
      StepBits(p, s, i, p.progs[k][n]);
      assert n < s.workers[k].next ==> Stored(p, s, k, n);
    }
    forall k | 0 <= k < |p.progs| && t.workers[k].loaded.Some?
      ensures Current(p, t, k)
    {
      SlotFits(p, t, k);
      if k != i {
        assert Current(p, s, k);
        StepBits(p, s, i, p.progs[k][t.workers[k].next]);
      }
    }
  }

  lemma {:induction false} RunKept(p: Plan, s: State, turns: seq<nat>, t: State)
    requires p.Valid() && Fits(p, s) && p.Apart() && Kept(p, s) && Run(p, s, turns, t)
    ensures Fits(p, t) && Kept(p, t)
    decreases |turns|
  {
    hide Kept, Step, Fits;
    if turns != [] {
      StepKept(p, s, turns[0]);
      RunKept(p, Step(p, s, turns[0]), turns[1..], t);
    }
  }

  lemma ApartIsRight(p: Plan, s: State, turns: seq<nat>, t: State)
    requires p.Valid() && p.Apart() && Initial(p, s) && Run(p, s, turns, t) && Done(p, t)
    ensures Right(p, t)
  {
    RunKept(p, s, turns, t);
    hide Run;
    forall slot: nat | slot < |p.vals|
      ensures slot / 64 < |t.words| && BitAt(t, slot) == p.vals[slot]
    {
      assert p.Someone(slot);
      var i :| 0 <= i < |p.progs| && slot in p.progs[i];
      var n :| 0 <= n < |p.progs[i]| && p.progs[i][n] == slot;
      assert Stored(p, t, i, n);
    }
  }

  // ---- workers that share a word ----

  lemma {:induction false} RunOn(p: Plan, s: State, turns: seq<nat>, t: State, more: seq<nat>, u: State)
    requires Run(p, s, turns, t) && Run(p, t, more, u)
    ensures Run(p, s, turns + more, u)
    decreases |turns|
  {
    if turns == [] {
      assert turns + more == more;
    } else {
      RunOn(p, Step(p, s, turns[0]), turns[1..], t, more, u);
      assert (turns + more)[0] == turns[0] && (turns + more)[1..] == turns[1..] + more;
    }
  }

  /** One load and its store, undisturbed: of all elements of others, none changes. */
  lemma OneStore(p: Plan, s: State, i: nat, x: nat) returns (t: State)
    requires CanStep(p, s, i) && s.workers[i].loaded.None? && x < |p.vals| && x !in p.progs[i]
    ensures Run(p, s, [i, i], t) && Fits(p, t) && t.workers == s.workers[i := Worker(s.workers[i].next + 1, None)]
    ensures x / 64 < |s.words| && x / 64 < |t.words| && BitAt(t, x) == BitAt(s, x)
  {
    SlotFits(p, s, i);
    var u := Step(p, s, i);
    StepFits(p, s, i);
    StepBits(p, s, i, x);
    t := Step(p, u, i);
    StepFits(p, u, i);
    StepBits(p, u, i, x);
    assert [i, i][1..] == [i] && [i][1..] == [];
    assert Run(p, u, [i], t);
  }

  /** A worker runs alone up to its element number n. */
  lemma {:induction false} Advance(p: Plan, s: State, i: nat, n: nat, x: nat) returns (turns: seq<nat>, t: State)
    requires p.Valid() && Fits(p, s) && i < |p.progs| && s.workers[i].loaded.None? && s.workers[i].next <= n <= |p.progs[i]|
    requires x < |p.vals| && x !in p.progs[i]
    ensures Run(p, s, turns, t) && Fits(p, t) && t.workers == s.workers[i := Worker(n, None)]
    ensures x / 64 < |s.words| && x / 64 < |t.words| && BitAt(t, x) == BitAt(s, x)
    decreases n - s.workers[i].next
  {
    if s.workers[i].next == n {
      turns, t := [], s;
    } else {
      var u := OneStore(p, s, i, x);
      hide Run, Fits;
      turns, t := Advance(p, u, i, n, x);
      RunOn(p, s, [i, i], u, turns, t);
      turns := [i, i] + turns;
    }
  }

  /** A worker runs alone to its end; what becomes of the bits does not matter here. */
  lemma {:induction false} Finish(p: Plan, s: State, i: nat) returns (turns: seq<nat>, t: State)
    requires p.Valid() && Fits(p, s) && i < |p.progs|
    ensures Run(p, s, turns, t) && Fits(p, t) && t.workers == s.workers[i := Worker(|p.progs[i]|, None)]
    decreases |p.progs[i]| - s.workers[i].next, if s.workers[i].loaded.None? then 1 else 0
  {
    if s.workers[i].next == |p.progs[i]| {
      turns, t := [], s;
      assert s.workers[i].loaded.None?;
    } else {
      SlotFits(p, s, i);
      var u := Step(p, s, i);
      StepFits(p, s, i);
      assert Run(p, u, [], u) && [i][1..] == [];
      assert Run(p, s, [i], u);
      hide Run;
      turns, t := Finish(p, u, i);
      RunOn(p, s, [i], u, turns, t);
      turns := [i] + turns;
    }
  }

  /** All workers from number k on run to their ends one after the other; none of them touches x. */
  lemma {:induction false} FinishRest(p: Plan, s: State, k: nat, x: nat) returns (turns: seq<nat>, t: State)
    requires p.Valid() && Fits(p, s) && k <= |p.progs| && x < |p.vals|
    requires forall i :: 0 <= i < |p.progs| ==> s.workers[i].loaded.None? && (i < k || x in p.progs[i] ==> s.workers[i].next == |p.progs[i]|)
    ensures Run(p, s, turns, t) && Done(p, t)
    ensures x / 64 < |s.words| && x / 64 < |t.words| && BitAt(t, x) == BitAt(s, x)
    decreases |p.progs| - k
  {
    if k == |p.progs| {
      turns, t := [], s;
    } else if s.workers[k].next == |p.progs[k]| {
      turns, t := FinishRest(p, s, k + 1, x);
    } else {
      var u: State;
      turns, u := Advance(p, s, k, |p.progs[k]|, x);
      hide Run;
      var more: seq<nat>;
      more, t := FinishRest(p, u, k + 1, x);
      RunOn(p, s, turns, u, more, t);
      turns := turns + more;
    }
  }

  /** The lost update: k loads the word for b, then i stores everything it has, a included, and then k stores its word. */
  lemma LostUpdate(p: Plan, s: State, i: nat, k: nat, a: nat, b: nat) returns (turns: seq<nat>, t: State)
    requires p.Valid() && Initial(p, s) && i < |p.progs| && k < |p.progs| && i != k
    requires a in p.progs[i] && b in p.progs[k] && a / 64 == b / 64
    requires a / 64 < |s.words| && BitAt(s, a) != p.vals[a]
    ensures Run(p, s, turns, t) && Done(p, t) && !Right(p, t)
  {
    var n :| 0 <= n < |p.progs[k]| && p.progs[k][n] == b;
    assert a !in p.progs[k];
    var u: State;
    turns, u := Advance(p, s, k, n, a);
    var loaded := Step(p, u, k);
    StepFits(p, u, k);
    assert loaded.workers[k].loaded == Some(u.words[a / 64]);
    RunOne(p, u, k);
    hide Run;
    RunOn(p, s, turns, u, [k], loaded);
    var more, over := Finish(p, loaded, i);
    RunOn(p, s, turns + [k], loaded, more, over);
    var back := Step(p, over, k);
    StepFits(p, over, k);
    RunOne(p, over, k);
    RunOn(p, s, turns + [k] + more, over, [k], back);
    StoredBack(p, over, k, a, u.words[a / 64]);
    turns := turns + [k] + more + [k];
    more, t := FinishRest(p, back, 0, a);
    RunOn(p, s, turns, back, more, t);
    turns := turns + more;
    assert a < |p.vals|;
  }

  lemma RunOne(p: Plan, s: State, i: nat)
    requires CanStep(p, s, i)
    ensures Run(p, s, [i], Step(p, s, i))
  {
    assert [i][1..] == [];
    assert Run(p, Step(p, s, i), [], Step(p, s, i));
  }

  /** A stale word brings its other bits back. */
  lemma StoredBack(p: Plan, s: State, k: nat, a: nat, w: Word)
    requires CanStep(p, s, k) && s.workers[k].loaded == Some(w)
    requires var b := p.progs[k][s.workers[k].next]; a != b && a / 64 == b / 64
    ensures a / 64 < |Step(p, s, k).words| && BitAt(Step(p, s, k), a) == w[a % 64]
  {
    SlotFits(p, s, k);
    var b := p.progs[k][s.workers[k].next];
    assert a % 64 != b % 64;
  }

  /** The elements come out right in every run exactly when no two workers share a word. */
  lemma RightIffApart(p: Plan)
    requires p.Valid()
    ensures AlwaysRight(p) <==> p.Apart()
  {
    if p.Apart() {
      forall s, turns, t | Initial(p, s) && Run(p, s, turns, t) && Done(p, t)
        ensures Right(p, t)
      {
        ApartIsRight(p, s, turns, t);
      }
    } else {
      var i, k, a, b :| 0 <= i < |p.progs| && 0 <= k < |p.progs| && a in p.progs[i] && b in p.progs[k] && a / 64 == b / 64 && i != k;
      var s := Opposite(p);
      assert a < |p.vals|;
      var turns, t := LostUpdate(p, s, i, k, a, b);
    }
  }

  /** A buffer in which every bit is wrong. */
  function Opposite(p: Plan): (s: State)
    ensures Initial(p, s)
    ensures forall slot: nat :: slot < |p.vals| ==> slot / 64 < |s.words| && BitAt(s, slot) == !p.vals[slot]
  {
    var words := seq((|p.vals| + 63) / 64, k requires 0 <= k < (|p.vals| + 63) / 64 => OppositeWord(p.vals, k));
    State(words, seq(|p.progs|, i => Worker(0, None)))
  }

  function OppositeWord(vals: seq<bool>, k: nat): (w: Word)
    ensures forall b: nat :: b < 64 && 64 * k + b < |vals| ==> w[b] == !vals[64 * k + b]
  {
    seq(64, b requires 0 <= b < 64 => if 64 * k + b < |vals| then !vals[64 * k + b] else false)
  }
}
