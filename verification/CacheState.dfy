/** The state of one agent's tree cache and what insert, update and remove do to it.

    Nodes are heap-numbered; `phiF` and `phiR` map tokens to node ids and back; share files are named by token.  A
    pair of share files (_this, _nxt) is one entry of `files`.  A `View` is the cache without its tokens: which
    vector is stored for which node. */
module CacheState {
  import opened Options
  import opened Aby3
  import opened Aby3Vec
  import opened HeapTree

  type Token = string

  datatype Cache = Cache(
    leafNum: nat,
    phiF: map<Token, nat>,
    phiR: map<nat, Token>,
    dirty: set<nat>,
    files: map<Token, RepVec>,
    root: RepVec,
    rootFile: Option<RepVec>)

  datatype View<T> = View(n: nat, dirty: set<nat>, file: map<nat, T>)

  function ViewOf(c: Cache): View<RepVec> {
    View(c.leafNum, c.dirty, map x | x in c.phiR && c.phiR[x] in c.files :: c.files[c.phiR[x]])
  }

  /** The two maps are mutually inverse and number the nodes of a full binary tree with n leaves. */
  ghost predicate Inverse(n: nat, phiF: map<Token, nat>, phiR: map<nat, Token>) {
    && (forall t :: t in phiF ==> phiF[t] in phiR && phiR[phiF[t]] == t)
    && (forall x :: x in phiR ==> phiR[x] in phiF && phiF[phiR[x]] == x)
    && (forall x :: x in phiR <==> 1 <= x < 2 * n)
  }

  ghost predicate Bijective(c: Cache) {
    Inverse(c.leafNum, c.phiF, c.phiR)
  }

  /** Dirty nodes are leaves; every leaf, and every inner node with no dirty leaf below it, has a stored vector. */
  ghost predicate ViewOk<T>(v: View<T>) {
    && (forall d :: d in v.dirty ==> v.n <= d < 2 * v.n)
    && (forall x :: x in v.file ==> 1 <= x < 2 * v.n)
    && (forall x :: v.n <= x < 2 * v.n ==> x in v.file)
    && (forall x :: 1 <= x < v.n && !HasDirty(v.dirty, x) ==> x in v.file)
  }

  ghost predicate Shape(bf: nat, c: Cache) {
    && Bijective(c)
    && (forall t :: t in c.files ==> t in c.phiF && Sized(bf, c.files[t]))
    && ViewOk(ViewOf(c))
    && Sized(bf, c.root) && (c.rootFile.Some? ==> Sized(bf, c.rootFile.value))
  }

  /** The token names a leaf (has_inserted). */
  predicate IsLeaf(c: Cache, token: Token) {
    token in c.phiF && c.phiF[token] >= c.leafNum
  }

  function EmptyCache(root: RepVec): Cache {
    Cache(0, map[], map[], {}, map[], root, None)
  }

  // ---- the operations ----

  /** A new leaf: the first leaf becomes the root; later the leaf with the smallest id becomes an inner node whose
      children are the old leaf and the new one. */
  function Insert(c: Cache, token: Token, inner: Token, node: RepVec): Cache
    requires c.leafNum > 0 ==> c.leafNum in c.phiR
  {
    var n := c.leafNum;
    if n == 0 then
      c.(leafNum := 1, phiR := c.phiR[1 := token], phiF := c.phiF[token := 1], dirty := c.dirty + {1},
        files := c.files[token := node])
    else
      var ori := c.phiR[n];
      c.(leafNum := n + 1,
        phiR := c.phiR[2 * n + 1 := token][n := inner][2 * n := ori],
        phiF := c.phiF[token := 2 * n + 1][inner := n][ori := 2 * n],
        dirty := (if n in c.dirty then c.dirty - {n} + {2 * n} else c.dirty) + {2 * n + 1},
        files := c.files[token := node])
  }

  /** A leaf's file is replaced. */
  function Update(c: Cache, token: Token, node: RepVec): Cache
    requires token in c.phiF
  {
    c.(dirty := c.dirty + {c.phiF[token]}, files := c.files[token := node])
  }

  /** The last inner node collapses: one of its two leaves takes its place, the other the place of the leaf that
      goes. */
  function Remove(c: Cache, token: Token): Cache
    requires Bijective(c) && IsLeaf(c, token)
  {
    var n, del := c.leafNum, c.phiF[token];
    if n == 1 then
      c.(leafNum := 0, phiF := c.phiF - {token}, phiR := c.phiR - {1}, dirty := {}, files := c.files - {token})
    else
      var x, l, r := n - 1, 2 * n - 2, 2 * n - 1;
      var inner, left, right := c.phiR[x], c.phiR[l], c.phiR[r];
      var promoted := if del == l then right else left;
      var other := del != l && del != r;
      c.(leafNum := n - 1,
        phiR := (if other then c.phiR[del := right] else c.phiR)[x := promoted] - {l, r},
        phiF := (if other then c.phiF[right := del] else c.phiF)[promoted := x] - {inner, token},
        dirty := (if other then c.dirty + {del} else c.dirty) - {l, r} + {x},
        files := c.files - {token, inner})
  }

  // ---- the same on views ----

  function ViewInsert<T>(v: View<T>, node: T): View<T> {
    if v.n == 0 then View(1, v.dirty + {1}, v.file[1 := node])
    else
      View(v.n + 1,
        (if v.n in v.dirty then v.dirty - {v.n} + {2 * v.n} else v.dirty) + {2 * v.n + 1},
        (if v.n in v.file then (v.file - {v.n})[2 * v.n := v.file[v.n]] else v.file)[2 * v.n + 1 := node])
  }

  function ViewUpdate<T>(v: View<T>, id: nat, node: T): View<T> {
    View(v.n, v.dirty + {id}, v.file[id := node])
  }

  function ViewRemove<T>(v: View<T>, del: nat): View<T>
    requires ViewOk(v) && v.n <= del < 2 * v.n
  {
    if v.n == 1 then View(0, {}, map[])
    else
      var x, l, r := v.n - 1, 2 * v.n - 2, 2 * v.n - 1;
      var other := del != l && del != r;
      View(v.n - 1,
        (if other then v.dirty + {del} else v.dirty) - {l, r} + {x},
        (if other then v.file[del := v.file[r]] else v.file)[x := v.file[if del == l then r else l]] - {l, r})
  }

  // ---- where the leaves go ----

  function MovedByInsert(n: nat, id: nat): nat {
    if n > 0 && id == n then 2 * n else id
  }

  function MovedByRemove(n: nat, del: nat, id: nat): nat
    requires n > 0
  {
    if id == (if del == 2 * n - 2 then 2 * n - 1 else 2 * n - 2) then n - 1
    else if id == 2 * n - 1 then del
    else id
  }

  // ---- insert keeps the shape ----

  lemma InsertBijective(c: Cache, token: Token, inner: Token, node: RepVec)
    requires Bijective(c) && token !in c.phiF && inner !in c.phiF && token != inner
    ensures Bijective(Insert(c, token, inner, node))
    ensures token in Insert(c, token, inner, node).phiF && Insert(c, token, inner, node).phiF[token] == 2 * c.leafNum + 1
    ensures forall t :: IsLeaf(c, t) ==>
      t in Insert(c, token, inner, node).phiF && Insert(c, token, inner, node).phiF[t] == MovedByInsert(c.leafNum, c.phiF[t])
  {
    var d, n := Insert(c, token, inner, node), c.leafNum;
    if n > 0 {
      InsertedMaps(n, c.phiF, c.phiR, token, inner);
      hide Inverse;
    }
  }

  lemma InsertedMaps(n: nat, phiF: map<Token, nat>, phiR: map<nat, Token>, token: Token, inner: Token)
    requires n > 0 && Inverse(n, phiF, phiR) && token !in phiF && inner !in phiF && token != inner
    ensures n in phiR
    ensures var f := phiF[token := 2 * n + 1][inner := n][phiR[n] := 2 * n];
      && Inverse(n + 1, f, phiR[2 * n + 1 := token][n := inner][2 * n := phiR[n]])
      && f[token] == 2 * n + 1
      && forall t :: t in phiF ==> t in f && f[t] == MovedByInsert(n, phiF[t])
  {
    var f, r := phiF[token := 2 * n + 1][inner := n][phiR[n] := 2 * n], phiR[2 * n + 1 := token][n := inner][2 * n := phiR[n]];
    forall t | t in f
      ensures f[t] in r && r[f[t]] == t
    {
      assert t == token || t == inner || t in phiF;
    }
    forall x | x in r
      ensures r[x] in f && f[r[x]] == x
    {
      assert x == 2 * n + 1 || x == 2 * n || x == n || x in phiR;
    }
  }

  /** Which token an inserted tree has at x. */
  lemma InsertedToken(c: Cache, token: Token, inner: Token, node: RepVec, x: nat)
    requires Bijective(c) && token !in c.phiF && inner !in c.phiF && token != inner
    ensures var d, n := Insert(c, token, inner, node), c.leafNum;
      && (x in d.phiR <==> 1 <= x < 2 * n + 2)
      && (n > 0 ==> n in c.phiR && c.phiR[n] in c.phiF)
      && (x in d.phiR ==> d.phiR[x] == if x == 2 * n + 1 then token else if x == n then inner
                                       else if x == 2 * n && n > 0 then c.phiR[n] else c.phiR[x])
  {
  }

  lemma InsertedFile(c: Cache, token: Token, inner: Token, node: RepVec, x: nat)
    requires Bijective(c) && token !in c.phiF && inner !in c.phiF && token != inner
    requires forall t :: t in c.files ==> t in c.phiF
    ensures var v, w := ViewOf(Insert(c, token, inner, node)).file, ViewInsert(ViewOf(c), node).file;
      (x in v <==> x in w) && (x in v ==> v[x] == w[x])
  {
    var d, n := Insert(c, token, inner, node), c.leafNum;
    assert x in c.phiR <==> 1 <= x < 2 * n;
    assert x in c.phiR ==> c.phiR[x] in c.phiF;
    InsertedToken(c, token, inner, node, x);
    hide Inverse;
    assert d.files == c.files[token := node];
  }

  lemma InsertView(c: Cache, token: Token, inner: Token, node: RepVec)
    requires Bijective(c) && token !in c.phiF && inner !in c.phiF && token != inner
    requires forall t :: t in c.files ==> t in c.phiF
    ensures ViewOf(Insert(c, token, inner, node)) == ViewInsert(ViewOf(c), node)
  {
    LeafNumbered(c);
    hide Bijective, ViewOf, ViewInsert, Insert;
    InsertedFields(c, token, inner, node);
    var v, w := ViewOf(Insert(c, token, inner, node)).file, ViewInsert(ViewOf(c), node).file;
    forall x: nat
      ensures (x in v <==> x in w) && (x in v ==> v[x] == w[x])
    {
      InsertedFile(c, token, inner, node, x);
    }
    assert v == w;
  }

  lemma InsertedFields(c: Cache, token: Token, inner: Token, node: RepVec)
    requires c.leafNum > 0 ==> c.leafNum in c.phiR
    ensures ViewOf(Insert(c, token, inner, node)).n == ViewInsert(ViewOf(c), node).n
    ensures ViewOf(Insert(c, token, inner, node)).dirty == ViewInsert(ViewOf(c), node).dirty
  {
    hide ViewOf, Insert, ViewInsert;
    ViewFields(c);
    ViewFields(Insert(c, token, inner, node));
    InsertDirties(c, token, inner, node);
    ViewInsertDirties(ViewOf(c), node);
  }

  function DirtAfterInsert(n: nat, dirty: set<nat>): set<nat> {
    (if n > 0 && n in dirty then dirty - {n} + {2 * n} else dirty) + {2 * n + 1}
  }

  lemma InsertDirties(c: Cache, token: Token, inner: Token, node: RepVec)
    requires c.leafNum > 0 ==> c.leafNum in c.phiR
    ensures var d := Insert(c, token, inner, node);
      d.leafNum == c.leafNum + 1 && d.dirty == DirtAfterInsert(c.leafNum, c.dirty)
  {
  }

  lemma ViewInsertDirties<T>(v: View<T>, node: T)
    ensures ViewInsert(v, node).n == v.n + 1 && ViewInsert(v, node).dirty == DirtAfterInsert(v.n, v.dirty)
  {
  }

  lemma ViewFields(c: Cache)
    ensures ViewOf(c).n == c.leafNum && ViewOf(c).dirty == c.dirty
  {
  }

  lemma InsertViewOk<T>(v: View<T>, node: T)
    requires ViewOk(v)
    ensures ViewOk(ViewInsert(v, node))
  {
    hide Below;
    var w := ViewInsert(v, node);
    forall x | 1 <= x < w.n && !HasDirty(w.dirty, x)
      ensures x in w.file
    {
      InsertDirt(v, node, x);
    }
  }

  /** An inner node that is clean after an insertion was clean before it and is not the new inner node. */
  lemma InsertDirt<T>(v: View<T>, node: T, x: nat)
    requires ViewOk(v) && 1 <= x < ViewInsert(v, node).n && !HasDirty(ViewInsert(v, node).dirty, x)
    ensures x < v.n && !HasDirty(v.dirty, x) && !Below(x, v.n)
  {
    var w := ViewInsert(v, node);
    assert 2 * v.n + 1 in w.dirty;
    assert !Below(x, 2 * v.n + 1) && (2 * v.n + 1) / 2 == v.n;
    assert Below(x, 2 * v.n + 1) || !Below(x, v.n);
    assert Below(v.n, v.n);
    if v.n in v.dirty {
      assert 2 * v.n in w.dirty && !Below(x, 2 * v.n);
    }
    forall d | d in v.dirty
      ensures !Below(x, d)
    {
      assert d == v.n || d in w.dirty;
    }
  }

  lemma InsertKeepsShape(bf: nat, c: Cache, token: Token, inner: Token, node: RepVec)
    requires Shape(bf, c) && Sized(bf, node)
    requires token !in c.phiF && inner !in c.phiF && token != inner
    ensures Shape(bf, Insert(c, token, inner, node))
  {
    hide Bijective, ViewOf, ViewOk, ViewInsert;
    assert c.leafNum > 0 ==> c.leafNum in c.phiR by { LeafNumbered(c); }
    InsertBijective(c, token, inner, node);
    InsertView(c, token, inner, node);
    InsertViewOk(ViewOf(c), node);
  }

  lemma LeafNumbered(c: Cache)
    requires Bijective(c)
    ensures forall x :: 1 <= x < 2 * c.leafNum ==> x in c.phiR && c.phiR[x] in c.phiF
  {
  }

  // ---- update keeps the shape ----

  lemma UpdateKeepsShape(bf: nat, c: Cache, token: Token, node: RepVec)
    requires Shape(bf, c) && IsLeaf(c, token) && Sized(bf, node)
    ensures Shape(bf, Update(c, token, node))
    ensures ViewOf(Update(c, token, node)) == ViewUpdate(ViewOf(c), c.phiF[token], node)
  {
    hide ViewOk, ViewOf, ViewUpdate;
    UpdatedView(c, token, node);
    UpdateViewOk(ViewOf(c), c.phiF[token], node);
    hide Inverse;
  }

  lemma UpdatedView(c: Cache, token: Token, node: RepVec)
    requires Bijective(c) && IsLeaf(c, token)
    ensures ViewOf(c).n == c.leafNum <= c.phiF[token] < 2 * c.leafNum
    ensures ViewOf(Update(c, token, node)) == ViewUpdate(ViewOf(c), c.phiF[token], node)
  {
    var d := Update(c, token, node);
    assert ViewOf(d).file == ViewUpdate(ViewOf(c), c.phiF[token], node).file;
  }

  lemma UpdateViewOk<T>(v: View<T>, id: nat, node: T)
    requires ViewOk(v) && v.n <= id < 2 * v.n
    ensures ViewOk(ViewUpdate(v, id, node))
  {
    hide Below;
  }

  // ---- remove keeps the shape ----

  lemma RemoveBijective(c: Cache, token: Token)
    requires Bijective(c) && IsLeaf(c, token)
    ensures Bijective(Remove(c, token))
    ensures token !in Remove(c, token).phiF
    ensures forall t :: IsLeaf(c, t) && t != token ==>
      t in Remove(c, token).phiF && Remove(c, token).phiF[t] == MovedByRemove(c.leafNum, c.phiF[token], c.phiF[t])
  {
    if c.leafNum > 1 {
      RemovedMaps(c, token);
      hide Remove, Inverse;
    }
  }

  lemma RemovedMaps(c: Cache, token: Token)
    requires Bijective(c) && IsLeaf(c, token) && c.leafNum > 1
    ensures Bijective(Remove(c, token)) && token !in Remove(c, token).phiF
    ensures forall t :: IsLeaf(c, t) && t != token ==>
      t in Remove(c, token).phiF && Remove(c, token).phiF[t] == MovedByRemove(c.leafNum, c.phiF[token], c.phiF[t])
  {
    var d, n := Remove(c, token), c.leafNum;
    forall t
      ensures t in d.phiF <==> t in c.phiF && t != token && t != c.phiR[n - 1]
      ensures t in d.phiF ==> d.phiF[t] == MovedByRemove(n, c.phiF[token], c.phiF[t])
    {
      RemovedNumber(c, token, t);
    }
    forall x: nat
      ensures x in d.phiR <==> 1 <= x < 2 * n - 2
      ensures x in d.phiR ==> RemoveOrigin(n, c.phiF[token], x) in c.phiR && d.phiR[x] == c.phiR[RemoveOrigin(n, c.phiF[token], x)]
    {
      RemovedToken(c, token, x);
    }
    hide Remove;
    assert d.leafNum == n - 1 by { RemovedSize(c, token); }
    RemovedInverse(c, token, d);
  }

  lemma RemovedSize(c: Cache, token: Token)
    requires Bijective(c) && IsLeaf(c, token)
    ensures Remove(c, token).leafNum == c.leafNum - 1
  {
    assert c.phiF[token] in c.phiR;
    hide Inverse;
  }

  lemma RemovedInverse(c: Cache, token: Token, d: Cache)
    requires Bijective(c) && IsLeaf(c, token) && c.leafNum > 1 && d.leafNum == c.leafNum - 1
    requires forall t :: t in d.phiF <==> t in c.phiF && t != token && t != c.phiR[c.leafNum - 1]
    requires forall t :: t in d.phiF ==> d.phiF[t] == MovedByRemove(c.leafNum, c.phiF[token], c.phiF[t])
    requires forall x :: x in d.phiR <==> 1 <= x < 2 * c.leafNum - 2
    requires forall x :: x in d.phiR ==>
      RemoveOrigin(c.leafNum, c.phiF[token], x) in c.phiR && d.phiR[x] == c.phiR[RemoveOrigin(c.leafNum, c.phiF[token], x)]
    ensures Bijective(d)
    ensures token !in d.phiF
    ensures forall t :: IsLeaf(c, t) && t != token ==>
      t in d.phiF && d.phiF[t] == MovedByRemove(c.leafNum, c.phiF[token], c.phiF[t])
  {
    var n, del := c.leafNum, c.phiF[token];
    assert n <= del < 2 * n by { assert del in c.phiR; }
    forall t | t in d.phiF
      ensures d.phiF[t] in d.phiR && d.phiR[d.phiF[t]] == t
    {
      assert c.phiR[del] == token && c.phiF[t] in c.phiR && c.phiR[c.phiF[t]] == t;
      MovedBack(n, del, c.phiF[t]);
    }
    forall x | x in d.phiR
      ensures d.phiR[x] in d.phiF && d.phiF[d.phiR[x]] == x
    {
      OriginMoves(n, del, x);
      assert n - 1 in c.phiR && c.phiF[c.phiR[n - 1]] == n - 1;
      assert c.phiF[d.phiR[x]] == RemoveOrigin(n, del, x);
    }
    forall t | IsLeaf(c, t) && t != token
      ensures t in d.phiF
    {
      assert n - 1 in c.phiR && c.phiF[c.phiR[n - 1]] == n - 1;
    }
    assert forall x :: x in d.phiR <==> 1 <= x < 2 * d.leafNum;
  }

  lemma MovedBack(n: nat, del: nat, id: nat)
    requires n > 1 && n <= del < 2 * n && 1 <= id < 2 * n && id != del && id != n - 1
    ensures 1 <= MovedByRemove(n, del, id) < 2 * n - 2 && RemoveOrigin(n, del, MovedByRemove(n, del, id)) == id
    ensures id >= n ==> MovedByRemove(n, del, id) >= n - 1
  {
  }

  lemma OriginMoves(n: nat, del: nat, x: nat)
    requires n > 1 && n <= del < 2 * n && 1 <= x < 2 * n - 2
    ensures var y := RemoveOrigin(n, del, x);
      1 <= y < 2 * n && y != del && y != n - 1 && MovedByRemove(n, del, y) == x && (x >= n - 1 ==> y >= n)
  {
  }

  lemma RemovedNumber(c: Cache, token: Token, t: Token)
    requires Bijective(c) && IsLeaf(c, token) && c.leafNum > 1
    ensures var d, n := Remove(c, token), c.leafNum;
      && (t in d.phiF <==> t in c.phiF && t != token && t != c.phiR[n - 1])
      && (t in d.phiF ==> d.phiF[t] == MovedByRemove(n, c.phiF[token], c.phiF[t]))
  {
  }

  /** The tokens has_inserted answers yes for. */
  function LeafTokens(c: Cache): set<Token> {
    set t | t in c.phiF && IsLeaf(c, t)
  }

  /** They are the tokens inserted and not removed since: an insertion adds its own and keeps the others... */
  lemma InsertLeafTokens(c: Cache, token: Token, inner: Token, node: RepVec)
    requires Bijective(c) && token !in c.phiF && inner !in c.phiF && token != inner
    ensures LeafTokens(Insert(c, token, inner, node)) == LeafTokens(c) + {token}
  {
    var d := Insert(c, token, inner, node);
    InsertBijective(c, token, inner, node);
    assert forall t :: t in d.phiF && t !in c.phiF ==> t == token || t == inner;
  }

  /** ... and a removal takes its own away and keeps the others. */
  lemma RemoveLeafTokens(c: Cache, token: Token)
    requires Bijective(c) && IsLeaf(c, token)
    ensures LeafTokens(Remove(c, token)) == LeafTokens(c) - {token}
  {
    var d := Remove(c, token);
    RemoveBijective(c, token);
    assert forall t :: t in d.phiF ==> t in c.phiF;
  }

  /** Where an entry of the new tree comes from. */
  function RemoveOrigin(n: nat, del: nat, x: nat): nat
    requires n > 0
  {
    if x == n - 1 then (if del == 2 * n - 2 then 2 * n - 1 else 2 * n - 2)
    else if x == del then 2 * n - 1
    else x
  }

  lemma RemovedToken(c: Cache, token: Token, x: nat)
    requires Bijective(c) && IsLeaf(c, token)
    ensures var d, n, del := Remove(c, token), c.leafNum, c.phiF[token];
      && n > 0 && n <= del < 2 * n && (x in d.phiR ==> n > 1 && 1 <= x < 2 * n - 2)
      && (n > 1 && 1 <= x < 2 * n - 2 ==>
        var y := RemoveOrigin(n, del, x);
        x in d.phiR && y in c.phiR && d.phiR[x] == c.phiR[y] && c.phiR[y] != token && c.phiR[y] != c.phiR[n - 1])
  {
  }

  lemma RemovedFile(c: Cache, token: Token, x: nat)
    requires Bijective(c) && IsLeaf(c, token) && ViewOk(ViewOf(c))
    requires forall t :: t in c.files ==> t in c.phiF
    ensures var v, w := ViewOf(Remove(c, token)).file, ViewRemove(ViewOf(c), c.phiF[token]).file;
      (x in v <==> x in w) && (x in v ==> v[x] == w[x])
  {
    hide HasDirty, ViewOk, Inverse;
    RemovedToken(c, token, x);
    var n, del := c.leafNum, c.phiF[token];
    if n > 1 && 1 <= x < 2 * n - 2 {
      RemovedEntry(ViewOf(c), del, x, RemoveOrigin(n, del, x));
    } else {
      RemovedInside(ViewOf(c), del, x);
    }
  }

  lemma RemovedInside<T>(v: View<T>, del: nat, x: nat)
    requires ViewOk(v) && v.n <= del < 2 * v.n
    ensures x in ViewRemove(v, del).file ==> v.n > 1 && 1 <= x < 2 * v.n - 2
  {
    hide HasDirty;
  }

  lemma RemovedEntry<T>(v: View<T>, del: nat, x: nat, y: nat)
    requires ViewOk(v) && v.n <= del < 2 * v.n && v.n > 1 && 1 <= x < 2 * v.n - 2
    requires y == RemoveOrigin(v.n, del, x)
    ensures var w := ViewRemove(v, del).file;
      (x in w <==> y in v.file) && (x in w ==> w[x] == v.file[y])
  {
    hide HasDirty;
  }

  lemma RemoveView(c: Cache, token: Token)
    requires Bijective(c) && IsLeaf(c, token) && ViewOk(ViewOf(c))
    requires forall t :: t in c.files ==> t in c.phiF
    ensures ViewOf(Remove(c, token)) == ViewRemove(ViewOf(c), c.phiF[token])
  {
    hide HasDirty, Bijective, IsLeaf, Remove, ViewRemove, ViewOf;
    RemovedFields(c, token);
    var v, w := ViewOf(Remove(c, token)).file, ViewRemove(ViewOf(c), c.phiF[token]).file;
    forall x: nat
      ensures (x in v <==> x in w) && (x in v ==> v[x] == w[x])
    {
      RemovedFile(c, token, x);
    }
    assert v == w;
  }

  lemma RemovedFields(c: Cache, token: Token)
    requires Bijective(c) && IsLeaf(c, token) && ViewOk(ViewOf(c))
    ensures token in c.phiF && ViewOf(c).n == c.leafNum <= c.phiF[token] < 2 * c.leafNum
    ensures ViewOf(Remove(c, token)).n == ViewRemove(ViewOf(c), c.phiF[token]).n
    ensures ViewOf(Remove(c, token)).dirty == ViewRemove(ViewOf(c), c.phiF[token]).dirty
  {
    hide HasDirty;
    assert c.phiF[token] in c.phiR;
    var d, w := Remove(c, token), ViewRemove(ViewOf(c), c.phiF[token]);
    assert d.leafNum == w.n;
    assert d.dirty == w.dirty;
  }

  /** An inner node that is clean after a removal was clean before it. */
  lemma RemoveDirt<T>(v: View<T>, del: nat, x: nat)
    requires ViewOk(v) && v.n <= del < 2 * v.n && 1 <= x < v.n - 1
    requires !HasDirty(ViewRemove(v, del).dirty, x)
    ensures !HasDirty(v.dirty, x)
  {
  }

  lemma RemoveViewOk<T>(v: View<T>, del: nat)
    requires ViewOk(v) && v.n <= del < 2 * v.n
    ensures ViewOk(ViewRemove(v, del))
  {
    hide Below;
    var w := ViewRemove(v, del);
    forall x | 1 <= x < w.n && !HasDirty(w.dirty, x)
      ensures x in w.file
    {
      RemoveDirt(v, del, x);
    }
  }

  lemma RemovedTokens(c: Cache, token: Token)
    requires Bijective(c) && IsLeaf(c, token) && forall t :: t in c.files ==> t in c.phiF
    ensures var d := Remove(c, token);
      && d.root == c.root && d.rootFile == c.rootFile
      && forall t :: t in d.files ==> t in d.phiF && t in c.files && d.files[t] == c.files[t]
  {
  }

  lemma RemoveKeepsShape(bf: nat, c: Cache, token: Token)
    requires Shape(bf, c) && IsLeaf(c, token)
    ensures Shape(bf, Remove(c, token))
    ensures ViewOf(Remove(c, token)) == ViewRemove(ViewOf(c), c.phiF[token])
  {
    hide ViewOf, ViewOk, ViewRemove, Bijective, IsLeaf;
    RemovedFields(c, token);
    RemoveBijective(c, token);
    RemoveView(c, token);
    RemovedTokens(c, token);
    RemoveViewOk(ViewOf(c), c.phiF[token]);
  }
}
