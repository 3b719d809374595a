/** The arithmetic of a query: rotating by a bias, adding unit vectors, and the inner product with the root. */
module QueryMath {
  import opened Ring
  import opened Aby3

  /** Shifting the evaluation window by the bias puts the point at the index: with alpha = idx - bias the shifted
      position s - bias is alpha exactly when s is idx. */
  lemma Rotation(N: nat, idx: nat, bias: int, alpha: int, s: nat)
    requires N > 0 && idx < N && s < N && alpha % N == (idx - bias) % N
    ensures (s - bias) % N == alpha % N <==> s == idx
  {
    if (s - bias) % N == alpha % N {
      AddCong(s - bias, idx - bias, bias, bias, N);
      ModSmall(s, N);
      ModSmall(idx, N);
    }
  }

  /** The window from -bias to -bias + bf - 1 has exactly bf positions, wrapped or not. */
  lemma Window(N: nat, bias: nat, bf: nat)
    requires 0 < bf < N
    ensures var bg := Sub(N, 0, bias);
      (Sub(N, Add(N, bg, bf), 1) - bg) % N + 1 == bf
  {
    var bg := Sub(N, 0, bias);
    WindowLength(N, bg, bf, Add(N, bg, bf), Sub(N, Add(N, bg, bf), 1));
  }

  lemma WindowLength(N: nat, bg: nat, bf: nat, past: nat, ed: nat)
    requires 0 < bf < N && past == (bg + bf) % N && ed == (past - 1) % N
    ensures (ed - bg) % N + 1 == bf
  {
    ModMod(bg + bf, N);
    AddCong(past, bg + bf, 1, 1, N);
    ModMod(past - 1, N);
    AddCong(ed, bg + bf - 1, bg, bg, N);
    ModSmall(bf - 1, N);
  }

  lemma WindowAt(N: nat, bias: nat, s: nat)
    requires N > 0
    ensures (Sub(N, 0, bias) + s) % N == (s - bias) % N
  {
    ModMod(0 - bias, N);
    AddCong(Sub(N, 0, bias), 0 - bias, s, s, N);
  }

  /** How often an index occurs. */
  function Count(idxs: seq<nat>, s: nat): nat {
    if idxs == [] then 0 else Count(idxs[..|idxs| - 1], s) + (if idxs[|idxs| - 1] == s then 1 else 0)
  }

  function Counts(bf: nat, idxs: seq<nat>): (c: seq<nat>)
    ensures |c| == bf && forall s :: 0 <= s < bf ==> c[s] == Count(idxs, s)
  {
    seq(bf, s requires 0 <= s < bf => Count(idxs, s))
  }

  /** The root's entries at the indices, summed. */
  function Picked(root: seq<nat>, idxs: seq<nat>): nat
    requires forall k :: 0 <= k < |idxs| ==> idxs[k] < |root|
  {
    if idxs == [] then 0 else Picked(root, idxs[..|idxs| - 1]) + root[idxs[|idxs| - 1]]
  }

  function Unit(bf: nat, x: nat): (u: seq<nat>)
    ensures |u| == bf && forall s :: 0 <= s < bf ==> u[s] == if s == x then 1 else 0
  {
    seq(bf, s => if s == x then 1 else 0)
  }

  lemma {:induction false} WideDotAdds(a: seq<nat>, b: seq<nat>, c: seq<nat>, root: seq<nat>)
    requires |a| == |b| == |c| == |root| && forall s :: 0 <= s < |a| ==> c[s] == a[s] + b[s]
    ensures WideDot(c, root) == WideDot(a, root) + WideDot(b, root)
    decreases |a|
  {
    if a != [] {
      var l := |a| - 1;
      WideDotAdds(a[..l], b[..l], c[..l], root[..l]);
      Distribute(a[l], b[l], root[l]);
    }
  }

  lemma {:induction false} WideDotUnit(u: seq<nat>, x: nat, root: seq<nat>)
    requires |u| == |root| && forall s :: 0 <= s < |u| ==> u[s] == if s == x then 1 else 0
    ensures WideDot(u, root) == if x < |root| then root[x] else 0
    decreases |u|
  {
    if u != [] {
      var l := |u| - 1;
      WideDotUnit(u[..l], x, root[..l]);
      assert u[l] * root[l] == if l == x then root[l] else 0;
    }
  }

  lemma {:induction false} WideDotZero(z: seq<nat>, root: seq<nat>)
    requires |z| == |root| && forall s :: 0 <= s < |z| ==> z[s] == 0
    ensures WideDot(z, root) == 0
    decreases |z|
  {
    if z != [] {
      WideDotZero(z[..|z| - 1], root[..|z| - 1]);
    }
  }

  /** The inner product with the index counts picks the root's entries. */
  lemma {:induction false} CountsPick(bf: nat, idxs: seq<nat>, root: seq<nat>)
    requires |root| == bf && forall k :: 0 <= k < |idxs| ==> idxs[k] < bf
    ensures WideDot(Counts(bf, idxs), root) == Picked(root, idxs)
    decreases |idxs|
  {
    if idxs == [] {
      WideDotZero(Counts(bf, idxs), root);
    } else {
      var x, before := idxs[|idxs| - 1], idxs[..|idxs| - 1];
      CountsPick(bf, before, root);
      WideDotUnit(Unit(bf, x), x, root);
      WideDotAdds(Counts(bf, before), Unit(bf, x), Counts(bf, idxs), root);
    }
  }

  /** Reducing the entries of one operand first changes nothing modulo m. */
  lemma {:induction false} DotReduced(m: nat, a: seq<nat>, b: seq<nat>, root: seq<nat>)
    requires m > 0 && |a| == |b| == |root| && forall s :: 0 <= s < |a| ==> b[s] == a[s] % m
    ensures WideDot(b, root) % m == WideDot(a, root) % m
    decreases |a|
  {
    if a != [] {
      var l := |a| - 1;
      DotReduced(m, a[..l], b[..l], root[..l]);
      ModMod(a[l], m);
      ScaleCong(b[l], a[l], root[l], m);
      AddCong(WideDot(b[..l], root[..l]), WideDot(a[..l], root[..l]), b[l] * root[l], a[l] * root[l], m);
    }
  }

  /** With bits in the root the sum cannot exceed the number of indices, so it reaches that number exactly when every
      index is set. */
  lemma {:induction false} AllPicked(root: seq<nat>, idxs: seq<nat>)
    requires forall k :: 0 <= k < |idxs| ==> idxs[k] < |root|
    requires forall s :: 0 <= s < |root| ==> root[s] < 2
    ensures Picked(root, idxs) <= |idxs|
    ensures Picked(root, idxs) == |idxs| <==> forall k :: 0 <= k < |idxs| ==> root[idxs[k]] == 1
    decreases |idxs|
  {
    if idxs != [] {
      var before := idxs[..|idxs| - 1];
      AllPicked(root, before);
      assert forall k :: 0 <= k < |before| ==> before[k] == idxs[k];
      assert (forall k :: 0 <= k < |idxs| ==> root[idxs[k]] == 1)
        <==> (forall k :: 0 <= k < |before| ==> root[before[k]] == 1) && root[idxs[|idxs| - 1]] == 1;
    }
  }
}
