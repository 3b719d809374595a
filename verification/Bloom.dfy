/** Generation of a holder's Bloom filter: a batch buffer of indices that is flushed into the filter when it is full. */
module Bloom {
  import opened Ring
  import opened Blocks
  import opened Hash

  datatype GenBfResult = IndexError | Filter

  /** The filter position of one element under one seed. */
  function Index(aes: Aes, e: seq<Byte>, seed: seq<Byte>, ell: nat, bfSize: nat): (i: nat)
    requires ell <= ELL_MAX && bfSize > 0
    ensures i < bfSize
  {
    LocalDigest(aes, BlockOf(seed), e, ell) % bfSize
  }

  datatype Params = Params(aes: Aes, seeds: seq<seq<Byte>>, ell: nat, bfSize: nat)

  ghost predicate Proper(p: Params) {
    1 <= p.ell <= ELL_MAX && 0 < p.bfSize < Pow2(p.ell) && forall k :: 0 <= k < |p.seeds| ==> |p.seeds[k]| <= 16
  }

  /** One of the first `upto` seeds sends e to position i. */
  ghost predicate HitBy(p: Params, e: seq<Byte>, upto: nat, i: nat)
    requires Proper(p) && upto <= |p.seeds|
  {
    exists k :: 0 <= k < upto && Index(p.aes, e, p.seeds[k], p.ell, p.bfSize) == i
  }

  /** Some of the first `upto` elements is sent to position i. */
  ghost predicate Hit(p: Params, elements: seq<seq<Byte>>, upto: nat, i: nat)
    requires Proper(p) && upto <= |elements|
  {
    exists k :: 0 <= k < upto && HitBy(p, elements[k], |p.seeds|, i)
  }

  lemma HitMore(p: Params, elements: seq<seq<Byte>>, upto: nat, i: nat)
    requires Proper(p) && upto < |elements|
    ensures Hit(p, elements, upto + 1, i) <==> Hit(p, elements, upto, i) || HitBy(p, elements[upto], |p.seeds|, i)
  {
    hide HitBy;
  }

  lemma HitByMore(p: Params, e: seq<Byte>, upto: nat, i: nat)
    requires Proper(p) && upto < |p.seeds|
    ensures HitBy(p, e, upto + 1, i) <==> HitBy(p, e, upto, i) || i == Index(p.aes, e, p.seeds[upto], p.ell, p.bfSize)
  {
    hide Index;
  }

  /** The number of elements whose indices the batch buffer is meant for. */
  function BatchSize(bfSize: nat): (r: nat)
    ensures r > 0
  {
    Min(Pow2(20), Max(Pow2(18), bfSize / 128))
  }

  method BatchSet(bf: array<nat>, indices: array<nat>, n: nat)
    requires n <= indices.Length && bf != indices && forall k :: 0 <= k < n ==> indices[k] < bf.Length
    modifies bf
    ensures forall i :: 0 <= i < bf.Length ==> bf[i] == if i in indices[..n] then 1 else old(bf[i])
    ensures old(Binary(bf[..])) ==> Binary(bf[..])
    ensures forall i: nat :: i < bf.Length ==> (Known(bf[..], [], i) <==> Known(old(bf[..]), indices[..n], i))
  {
    for k := 0 to n
      invariant forall i :: 0 <= i < bf.Length ==> bf[i] == if i in indices[..k] then 1 else old(bf[i])
    {
      assert indices[..k + 1] == indices[..k] + [indices[k]];
      bf[indices[k]] := 1;
    }
  }

  /** Marked in the filter or waiting in the buffer. */
  predicate Known(bf: seq<nat>, batch: seq<nat>, i: nat)
    requires i < |bf|
  {
    bf[i] == 1 || i in batch
  }

  ghost predicate Binary(bf: seq<nat>) {
    forall i :: 0 <= i < |bf| ==> bf[i] < 2
  }

  /** The capacity check of every write succeeds exactly when the buffer fills up precisely or never. */
  ghost predicate Fits(count: nat, seeds: nat, cap: nat) {
    seeds == 0 || count == 0 || (cap > 0 && cap % seeds == 0) || count * seeds <= cap
  }

  /** The indices of one element go to the buffer, one per seed. */
  method Collect(p: Params, e: seq<Byte>, batchIdx: array<nat>, start: nat) returns (ok: bool, pos: nat)
    requires Proper(p) && start <= batchIdx.Length
    requires forall k :: 0 <= k < start ==> batchIdx[k] < p.bfSize
    modifies batchIdx
    ensures ok <==> start + |p.seeds| <= batchIdx.Length
    ensures ok ==> pos == start + |p.seeds|
    ensures ok ==> forall k :: 0 <= k < pos ==> batchIdx[k] < p.bfSize
    ensures ok ==> forall i: nat :: i in batchIdx[..pos] <==> i in old(batchIdx[..start]) || HitBy(p, e, |p.seeds|, i)
  {
    hide Index, HitBy, LocalDigest;
    pos := start;
    NoSeeds(p, e);
    for k := 0 to |p.seeds|
      invariant pos == start + k <= batchIdx.Length
      invariant forall j :: 0 <= j < pos ==> batchIdx[j] < p.bfSize
      invariant forall i: nat :: i in batchIdx[..pos] <==> i in old(batchIdx[..start]) || HitBy(p, e, k, i)
    {
      var digest := HashAesDm(p.aes, e, p.seeds[k], p.ell);
      if pos >= batchIdx.Length {
        return false, pos;
      }
      ghost var was := batchIdx[..pos];
      IndexIs(p, e, k, digest.value);
      batchIdx[pos] := digest.value % p.bfSize;
      pos := pos + 1;
      assert batchIdx[..pos] == was + [digest.value % p.bfSize];
      forall i: nat
        ensures i in batchIdx[..pos] <==> i in old(batchIdx[..start]) || HitBy(p, e, k + 1, i)
      {
        HitByMore(p, e, k, i);
      }
    }
    return true, pos;
  }

  lemma NoSeeds(p: Params, e: seq<Byte>)
    requires Proper(p)
    ensures forall i: nat :: !HitBy(p, e, 0, i)
  {
  }

  lemma IndexIs(p: Params, e: seq<Byte>, k: nat, digest: nat)
    requires Proper(p) && k < |p.seeds| && digest == LocalDigest(p.aes, BlockOf(p.seeds[k]), e, p.ell)
    ensures digest % p.bfSize == Index(p.aes, e, p.seeds[k], p.ell, p.bfSize)
  {
  }

  /** Position i of the filter is one exactly when some element and seed are sent to it; the filter is refused exactly
      when a write would fall outside the buffer. */
  method GenBf(p: Params, elements: seq<seq<Byte>>, hfNum: nat, bf: array<nat>) returns (res: GenBfResult)
    requires Proper(p) && bf.Length == p.bfSize
    modifies bf
    ensures res.Filter? <==> Fits(|elements|, |p.seeds|, BatchSize(p.bfSize) * hfNum)
    ensures res.Filter? ==> Binary(bf[..]) && forall i :: 0 <= i < bf.Length ==> (bf[i] == 1 <==> Hit(p, elements, |elements|, i))
  {
    hide Hit, HitBy, BatchSize, Fits, Index, LocalDigest;
    for i := 0 to bf.Length
      invariant forall k :: 0 <= k < i ==> bf[k] == 0
    {
      bf[i] := 0;
    }
    var batchSize := BatchSize(p.bfSize);
    var batchCap := batchSize * hfNum;
    var batchIdx := new nat[batchCap](_ => 0);
    var pos := 0;
    ghost var q := 0;
    Distribute(0, 0, |p.seeds|);
    NoElements(p, elements);
    assert batchIdx[..0] == [];
    for n := 0 to |elements|
      invariant pos <= batchCap && pos == q * |p.seeds| && (pos < batchCap || pos == 0)
      invariant batchCap > 0 && |p.seeds| > 0 && batchCap % |p.seeds| != 0 ==> q == n
      invariant batchCap == 0 && n > 0 ==> |p.seeds| == 0
      invariant forall k :: 0 <= k < pos ==> batchIdx[k] < p.bfSize
      invariant Binary(bf[..])
      invariant forall i: nat :: i < bf.Length ==> (Known(bf[..], batchIdx[..pos], i) <==> Hit(p, elements, n, i))
    {
      ghost var was := batchIdx[..pos];
      var ok, next := Collect(p, elements[n], batchIdx, pos);
      if !ok {
        Overflow(|elements|, |p.seeds|, batchCap, n, q, pos);
        return IndexError;
      }
      Distribute(q, 1, |p.seeds|);
      pos := next;
      q := q + 1;
      forall i: nat | i < bf.Length
        ensures Known(bf[..], batchIdx[..pos], i) <==> Hit(p, elements, n + 1, i)
      {
        HitMore(p, elements, n, i);
        assert Known(bf[..], was, i) <==> Hit(p, elements, n, i);
      }
      if pos >= batchCap {
        FullBatch(|p.seeds|, batchCap, q);
        BatchSet(bf, batchIdx, batchCap);
        pos := 0;
        q := 0;
        assert batchIdx[..pos] == [];
      }
    }
    ghost var pending := batchIdx[..pos];
    if pos > 0 {
      BatchSet(bf, batchIdx, pos);
    } else {
      assert pending == [];
    }
    Fitted(|elements|, |p.seeds|, batchCap, q, pos);
    assert forall i: nat :: i < bf.Length ==> (Known(bf[..], [], i) <==> Hit(p, elements, |elements|, i));
    return Filter;
  }

  lemma Fitted(count: nat, seeds: nat, cap: nat, q: nat, pos: nat)
    requires pos <= cap && pos == q * seeds
    requires cap > 0 && seeds > 0 && cap % seeds != 0 ==> q == count
    requires cap == 0 && count > 0 ==> seeds == 0
    ensures Fits(count, seeds, cap)
  {
  }

  lemma NoElements(p: Params, elements: seq<seq<Byte>>)
    requires Proper(p)
    ensures forall i: nat :: !Hit(p, elements, 0, i)
  {
  }

  lemma Overflow(count: nat, seeds: nat, cap: nat, n: nat, q: nat, pos: nat)
    requires n < count && pos == q * seeds && pos <= cap < pos + seeds && (pos < cap || pos == 0)
    requires cap > 0 && seeds > 0 && cap % seeds != 0 ==> q == n
    ensures !Fits(count, seeds, cap)
  {
    Distribute(q, 1, seeds);
    var Q := Quotient(cap, seeds);
    MulSign(q - Q, seeds);
    MulSign(Q - (q + 1), seeds);
    MulSign(count - (n + 1), seeds);
    Distribute(q, Q, seeds);
    Distribute(Q, q + 1, seeds);
    Distribute(count, n + 1, seeds);
    Distribute(n, 1, seeds);
  }

  /** A buffer that is filled exactly holds a whole number of elements. */
  lemma FullBatch(seeds: nat, cap: nat, q: nat)
    requires cap == q * seeds
    ensures seeds > 0 ==> cap % seeds == 0
  {
    if seeds > 0 {
      DivUnique(q, 0, seeds);
    }
  }

  /** A holder that passes as many seeds as there are hash functions is never refused. */
  lemma MatchingSeedsFit(count: nat, hfNum: nat, bfSize: nat)
    ensures Fits(count, hfNum, BatchSize(bfSize) * hfNum)
  {
    if hfNum > 0 {
      DivUnique(BatchSize(bfSize), 0, hfNum);
      MulSign(BatchSize(bfSize) - 1, hfNum);
      Distribute(BatchSize(bfSize), 1, hfNum);
    }
  }
}
