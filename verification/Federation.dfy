/** Runs of the federation: holders join, update and quit, the manager orders SYNC, and after every run the three
    published roots are shares of the union of the filters that were live at the last SYNC. */
module Federation {
  import opened Options
  import opened Aby3
  import opened HeapTree
  import opened CacheState
  import opened UnionTree
  import opened TrioTree

  type Holder = string

  /** One agent: its cache, and the tokens it handed out for the live holders. */
  datatype Replica = Replica(cache: Cache, tokens: map<Holder, Token>)

  /** Ghost bookkeeping beside the three agents: the filter each holder last shared, and the union at the last SYNC. */
  datatype Sys = Sys(r: Trio<Replica>, live: map<Holder, set<nat>>, published: Option<set<nat>>)

  /** The node at which each holder's leaf sits. */
  function Places(r: Replica): map<Holder, nat> {
    map h | h in r.tokens && r.tokens[h] in r.cache.phiF :: r.cache.phiF[r.tokens[h]]
  }

  /** Holders and leaves correspond one to one. */
  ghost predicate Placed(n: nat, places: map<Holder, nat>) {
    && (forall h :: h in places ==> n <= places[h] < 2 * n)
    && (forall g, h :: g in places && h in places && places[g] == places[h] ==> g == h)
    && (forall x :: n <= x < 2 * n ==> Occupied(places, x))
  }

  ghost predicate Occupied(places: map<Holder, nat>, x: nat) {
    exists h :: h in places && places[h] == x
  }

  ghost predicate ReplicaOk(r: Replica) {
    && (forall h :: h in r.tokens ==> IsLeaf(r.cache, r.tokens[h]))
    && Placed(r.cache.leafNum, Places(r))
  }

  // ---- placement depends on the history by holder alone ----

  function PlaceInsert(n: nat, places: map<Holder, nat>, h: Holder): map<Holder, nat> {
    (map g | g in places :: MovedByInsert(n, places[g]))[h := 2 * n + 1]
  }

  function PlaceRemove(n: nat, places: map<Holder, nat>, h: Holder): map<Holder, nat>
    requires n > 0 && h in places
  {
    map g | g in places && g != h :: MovedByRemove(n, places[h], places[g])
  }

  lemma PlacedInsert(n: nat, places: map<Holder, nat>, h: Holder)
    requires Placed(n, places) && h !in places
    ensures Placed(n + 1, PlaceInsert(n, places, h))
  {
    var next := PlaceInsert(n, places, h);
    forall x | n + 1 <= x < 2 * n + 2
      ensures Occupied(next, x)
    {
      if x == 2 * n + 1 {
        assert next[h] == x;
      } else {
        var from := if x == 2 * n then n else x;
        assert Occupied(places, from);
        var g :| g in places && places[g] == from;
        assert next[g] == x;
      }
    }
  }

  lemma PlacedRemove(n: nat, places: map<Holder, nat>, h: Holder)
    requires n > 0 && Placed(n, places) && h in places
    ensures Placed(n - 1, PlaceRemove(n, places, h))
  {
    hide MovedByRemove, RemoveOrigin;
    var next, del := PlaceRemove(n, places, h), places[h];
    forall g | g in next
      ensures n - 1 <= next[g] < 2 * n - 2 && places[g] == RemoveOrigin(n, del, next[g])
    {
      OtherPlace(n, places, g, h);
      MovedBack(n, del, places[g]);
    }
    forall x | n - 1 <= x < 2 * n - 2
      ensures Occupied(next, x)
    {
      OriginMoves(n, del, x);
      assert Occupied(places, RemoveOrigin(n, del, x));
      var g :| g in places && places[g] == RemoveOrigin(n, del, x);
      assert next[g] == x;
    }
  }

  /** Two holders occupy two leaves, so there are at least two. */
  lemma OtherPlace(n: nat, places: map<Holder, nat>, g: Holder, h: Holder)
    requires Placed(n, places) && g in places && h in places && g != h
    ensures n > 1 && places[g] != places[h] && n <= places[g] < 2 * n && n <= places[h] < 2 * n
  {
  }

  function JoinReplica(r: Replica, h: Holder, token: Token, inner: Token, node: RepVec): Replica
    requires Bijective(r.cache)
  {
    LeafNumbered(r.cache);
    Replica(Insert(r.cache, token, inner, node), r.tokens[h := token])
  }

  function UpdateReplica(r: Replica, h: Holder, node: RepVec): Replica
    requires h in r.tokens && IsLeaf(r.cache, r.tokens[h])
  {
    r.(cache := Update(r.cache, r.tokens[h], node))
  }

  function QuitReplica(r: Replica, h: Holder): Replica
    requires Bijective(r.cache) && h in r.tokens && IsLeaf(r.cache, r.tokens[h])
  {
    Replica(Remove(r.cache, r.tokens[h]), r.tokens - {h})
  }

  lemma PlacesOf(r: Replica)
    requires ReplicaOk(r)
    ensures Places(r).Keys == r.tokens.Keys
    ensures forall h :: h in r.tokens ==> h in Places(r) && Places(r)[h] == r.cache.phiF[r.tokens[h]]
  {
  }

  lemma DistinctTokens(r: Replica)
    requires ReplicaOk(r)
    ensures forall g, h :: g in r.tokens && h in r.tokens && g != h ==> r.tokens[g] != r.tokens[h]
  {
    PlacesOf(r);
  }

  lemma JoinPlaces(r: Replica, h: Holder, token: Token, inner: Token, node: RepVec)
    requires Bijective(r.cache) && ReplicaOk(r) && Fresh(r.cache, token, inner) && h !in r.tokens
    ensures var q := JoinReplica(r, h, token, inner, node);
      ReplicaOk(q) && Places(q) == PlaceInsert(r.cache.leafNum, Places(r), h)
  {
    hide Bijective, Placed, MovedByInsert, Insert;
    LeafNumbered(r.cache);
    InsertBijective(r.cache, token, inner, node);
    InsertCounts(r.cache, token, inner, node);
    var q := JoinReplica(r, h, token, inner, node);
    assert Places(q) == PlaceInsert(r.cache.leafNum, Places(r), h);
    PlacedInsert(r.cache.leafNum, Places(r), h);
    assert q.tokens.Keys == Places(q).Keys;
    ReplicaPlaced(q);
  }

  lemma ReplicaPlaced(r: Replica)
    requires Placed(r.cache.leafNum, Places(r)) && r.tokens.Keys == Places(r).Keys
    ensures ReplicaOk(r)
  {
    forall h | h in r.tokens
      ensures IsLeaf(r.cache, r.tokens[h])
    {
      assert h in Places(r);
    }
  }

  lemma InsertCounts(c: Cache, token: Token, inner: Token, node: RepVec)
    requires c.leafNum > 0 ==> c.leafNum in c.phiR
    ensures Insert(c, token, inner, node).leafNum == c.leafNum + 1
  {
  }

  lemma QuitPlaces(r: Replica, h: Holder)
    requires Bijective(r.cache) && ReplicaOk(r) && h in r.tokens
    ensures r.cache.leafNum > 0 && h in Places(r)
    ensures var q := QuitReplica(r, h);
      ReplicaOk(q) && Places(q) == PlaceRemove(r.cache.leafNum, Places(r), h)
  {
    hide Bijective, Remove, Placed, MovedByRemove;
    PlacesOf(r);
    DistinctTokens(r);
    var q := QuitReplica(r, h);
    RemoveBijective(r.cache, r.tokens[h]);
    RemoveCounts(r.cache, r.tokens[h]);
    assert Places(q) == PlaceRemove(r.cache.leafNum, Places(r), h);
    PlacedRemove(r.cache.leafNum, Places(r), h);
    assert q.tokens.Keys == Places(q).Keys;
    ReplicaPlaced(q);
  }

  lemma RemoveCounts(c: Cache, token: Token)
    requires Bijective(c) && IsLeaf(c, token)
    ensures c.leafNum > 0 && Remove(c, token).leafNum == c.leafNum - 1
  {
  }

  // ---- what the leaves of the plaintext tree store ----

  ghost predicate LiveLeaves(v: View<set<nat>>, places: map<Holder, nat>, live: map<Holder, set<nat>>) {
    live.Keys == places.Keys && forall h :: h in live ==> StoredAt(v, places[h], live[h])
  }

  ghost predicate StoredAt(v: View<set<nat>>, x: nat, f: set<nat>) {
    x in v.file && v.file[x] == f
  }

  lemma InsertLeaves(v: View<set<nat>>, places: map<Holder, nat>, live: map<Holder, set<nat>>, h: Holder, f: set<nat>)
    requires ViewOk(v) && Placed(v.n, places) && LiveLeaves(v, places, live) && h !in live
    ensures LiveLeaves(ViewInsert(v, f), PlaceInsert(v.n, places, h), live[h := f])
  {
    hide Occupied;
    var w, next := ViewInsert(v, f), PlaceInsert(v.n, places, h);
    assert next[h] == 2 * v.n + 1;
    forall g | g in live
      ensures g in next && StoredAt(w, next[g], live[g]) && g != h
    {
      assert g in places.Keys && StoredAt(v, places[g], live[g]) && v.n <= places[g] < 2 * v.n;
    }
    assert live[h := f].Keys == live.Keys + {h};
    assert next.Keys == places.Keys + {h};
  }

  lemma UpdateLeaves(v: View<set<nat>>, places: map<Holder, nat>, live: map<Holder, set<nat>>, h: Holder, f: set<nat>)
    requires ViewOk(v) && Placed(v.n, places) && LiveLeaves(v, places, live) && h in live
    ensures LiveLeaves(ViewUpdate(v, places[h], f), places, live[h := f])
  {
  }

  lemma RemoveLeaves(v: View<set<nat>>, places: map<Holder, nat>, live: map<Holder, set<nat>>, h: Holder)
    requires ViewOk(v) && Placed(v.n, places) && LiveLeaves(v, places, live) && h in live
    ensures h in places && v.n > 0
    ensures LiveLeaves(ViewRemove(v, places[h]), PlaceRemove(v.n, places, h), live - {h})
  {
    hide Occupied, ViewOk, ViewRemove, StoredAt, MovedByRemove;
    assert h in places.Keys;
    var w, next := ViewRemove(v, places[h]), PlaceRemove(v.n, places, h);
    forall g | g in live && g != h
      ensures g in next && StoredAt(w, next[g], live[g])
    {
      assert g in places.Keys;
      OtherPlace(v.n, places, g, h);
      RemoveStored(v, places[h], places[g], live[g]);
    }
    assert (live - {h}).Keys == live.Keys - {h};
    assert next.Keys == places.Keys - {h};
  }

  lemma RemoveStored(v: View<set<nat>>, del: nat, id: nat, f: set<nat>)
    requires ViewOk(v) && v.n > 1 && v.n <= del < 2 * v.n && v.n <= id < 2 * v.n && id != del && StoredAt(v, id, f)
    ensures StoredAt(ViewRemove(v, del), MovedByRemove(v.n, del, id), f)
  {
    hide HasDirty;
  }

  lemma KeepLeaves(v: View<set<nat>>, w: View<set<nat>>, places: map<Holder, nat>, live: map<Holder, set<nat>>)
    requires Placed(v.n, places) && LiveLeaves(v, places, live)
    requires forall leaf :: v.n <= leaf < 2 * v.n ==> leaf in w.file && leaf in v.file && w.file[leaf] == v.file[leaf]
    ensures LiveLeaves(w, places, live)
  {
  }

  /** The union of the live filters. */
  function Union(live: map<Holder, set<nat>>): (u: set<nat>)
    ensures forall i :: i in u <==> SomeoneHas(live, i)
  {
    set h, i | h in live && i in live[h] :: i
  }

  predicate SomeoneHas(live: map<Holder, set<nat>>, i: nat) {
    exists h :: h in live && i in live[h]
  }

  /** With nothing dirty the root of the plaintext tree is the union of the live filters. */
  lemma RootIsLiveUnion(v: View<set<nat>>, places: map<Holder, nat>, live: map<Holder, set<nat>>)
    requires ViewOk(v) && Coherent(v) && v.dirty == {} && v.n >= 1 && Placed(v.n, places) && LiveLeaves(v, places, live)
    ensures 1 in v.file && v.file[1] == Union(live)
  {
    hide Coherent;
    RootStoresUnion(v, 0);
    forall i: nat
      ensures i in v.file[1] <==> SomeoneHas(live, i)
    {
      RootStoresUnion(v, i);
      if i in v.file[1] {
        var leaf: nat :| v.n <= leaf < 2 * v.n && i in v.file[leaf];
        assert Occupied(places, leaf);
        var h :| h in places && places[h] == leaf;
        assert h in places.Keys && h in live && StoredAt(v, places[h], live[h]);
      }
      if SomeoneHas(live, i) {
        var h :| h in live && i in live[h];
        assert h in places.Keys && StoredAt(v, places[h], live[h]);
      }
    }
  }
}
