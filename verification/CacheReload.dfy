/** Saving and reopening a tree cache: the checks on meta.json accept exactly the files that describe a well-formed tree,
    so whatever a completed step saved is accepted and gives back the same maps and dirty set, and what a step that
    stopped part-way left is refused. */
module CacheReload {
  import opened Options
  import opened Aby3
  import opened Aby3Vec
  import opened RingConv
  import opened CacheState
  import opened MergeOrdering
  import opened TreeCache

  /** The decoded meta.json.  JSON objects are their items in file order; node ids are strings where they are keys. */
  datatype Meta = Meta(state: string, bfSize: int, ellRoot: int, leafNum: int, phiF: seq<(string, int)>,
    phiR: seq<(string, string)>, dirty: seq<int>)

  datatype MetaError =
    | BfSizeMismatch | EllRootMismatch | StateNotValid | BadLeafNum | DirtyWithoutLeaf | DirtyNotLeaf
    | NegativeNode | DuplicateNode | BadKey | NegativeKey | DuplicateKey | LengthsDiffer | NotInverse | WrongNodes

  datatype OpenResult = Opened(saved: Saved) | Refused(error: MetaError)

  /** int() on a key. */
  type Parser = string -> Option<int>

  /** str() on a node id. */
  type Printer = nat -> string

  ghost predicate ReadsBack(parse: Parser, show: Printer) {
    forall n: nat :: parse(show(n)) == Some(n)
  }

  ghost predicate WellFormed(s: Saved) {
    && s.valid && Inverse(s.leafNum, s.phiF, s.phiR)
    && forall d :: d in s.dirty ==> s.leafNum <= d < 2 * s.leafNum
  }

  /** The file lists exactly the entries of the two maps and of the dirty set. */
  ghost predicate Describes(parse: Parser, bf: nat, ellRoot: nat, meta: Meta, s: Saved) {
    && (meta.state == "valid" <==> s.valid) && meta.bfSize == bf && meta.ellRoot == ellRoot && meta.leafNum == s.leafNum
    && ListsF(meta.phiF, s.phiF) && ListsR(parse, meta.phiR, s.phiR)
    && (forall d :: d in meta.dirty <==> d >= 0 && d in s.dirty)
  }

  ghost predicate ListsF(items: seq<(string, int)>, m: map<Token, nat>) {
    && (forall i :: 0 <= i < |items| ==> items[i].0 in m && m[items[i].0] == items[i].1)
    && (forall t :: t in m ==> HasKeyF(items, t))
    && DistinctF(items)
  }

  ghost predicate HasKeyF(items: seq<(string, int)>, t: string) {
    exists i :: 0 <= i < |items| && items[i].0 == t
  }

  ghost predicate DistinctF(items: seq<(string, int)>) {
    forall i, k :: 0 <= i < k < |items| ==> items[i].0 != items[k].0
  }

  ghost predicate ListsR(parse: Parser, items: seq<(string, string)>, m: map<nat, Token>) {
    && (forall i :: 0 <= i < |items| ==> NamesEntry(parse, items[i], m))
    && (forall x :: x in m ==> HasKeyR(parse, items, x))
    && (forall i, k :: 0 <= i < k < |items| ==> parse(items[i].0) != parse(items[k].0))
  }

  ghost predicate NamesEntry(parse: Parser, item: (string, string), m: map<nat, Token>) {
    && parse(item.0).Some? && parse(item.0).value >= 0 && parse(item.0).value in m
    && m[parse(item.0).value] == item.1
  }

  ghost predicate HasKeyR(parse: Parser, items: seq<(string, string)>, x: nat) {
    exists i :: 0 <= i < |items| && parse(items[i].0) == Some(x)
  }

  /** Nobody has such a tree. */
  ghost predicate Hopeless(parse: Parser, bf: nat, ellRoot: nat, meta: Meta) {
    forall s :: WellFormed(s) ==> !Describes(parse, bf, ellRoot, meta, s)
  }

  method ReadF(items: seq<(string, int)>) returns (m: map<Token, nat>, error: Option<MetaError>)
    requires DistinctF(items)
    ensures error.None? ==> ListsF(items, m) && |m| == |items|
    ensures error.Some? ==> exists i :: 0 <= i < |items| && BadNode(items, i)
  {
    hide ListsF, DistinctF;
    m := map[];
    var used: set<int> := {};
    NothingListed(items);
    for i := 0 to |items|
      invariant ListsF(items[..i], m) && |m| == i
      invariant forall x :: x in used <==> exists k :: 0 <= k < i && items[k].1 == x
    {
      if items[i].1 < 0 {
        assert BadNode(items, i);
        return m, Some(NegativeNode);
      }
      if items[i].1 in used {
        assert BadNode(items, i);
        return m, Some(DuplicateNode);
      }
      used := used + {items[i].1};
      ListedF(items, i, m);
      assert |m[items[i].0 := items[i].1]| == |m| + 1;
      m := m[items[i].0 := items[i].1];
    }
    assert items[..|items|] == items;
    return m, None;
  }

  lemma NothingListed(items: seq<(string, int)>)
    ensures ListsF(items[..0], map[])
  {
  }

  ghost predicate BadNode(items: seq<(string, int)>, i: nat)
    requires i < |items|
  {
    items[i].1 < 0 || exists k :: 0 <= k < i && items[k].1 == items[i].1
  }

  lemma ListedF(items: seq<(string, int)>, i: nat, m: map<Token, nat>)
    requires i < |items| && DistinctF(items) && ListsF(items[..i], m) && items[i].1 >= 0
    ensures items[i].0 !in m && ListsF(items[..i + 1], m[items[i].0 := items[i].1])
  {
  }

  method ReadR(parse: Parser, items: seq<(string, string)>) returns (m: map<nat, Token>, error: Option<MetaError>)
    ensures error.None? ==> ListsR(parse, items, m) && |m| == |items|
    ensures error.Some? ==> exists i :: 0 <= i < |items| && BadItem(parse, items, i)
  {
    m := map[];
    for i := 0 to |items|
      invariant ListsR(parse, items[..i], m) && |m| == i
    {
      var id := parse(items[i].0);
      if id.None? {
        assert BadItem(parse, items, i);
        return m, Some(BadKey);
      }
      if id.value < 0 {
        assert BadItem(parse, items, i);
        return m, Some(NegativeKey);
      }
      if id.value in m {
        assert HasKeyR(parse, items[..i], id.value);
        assert BadItem(parse, items, i);
        return m, Some(DuplicateKey);
      }
      ListedR(parse, items, i, m);
      m := m[id.value := items[i].1];
    }
    assert items[..|items|] == items;
    return m, None;
  }

  ghost predicate BadItem(parse: Parser, items: seq<(string, string)>, i: nat)
    requires i < |items|
  {
    || parse(items[i].0).None? || parse(items[i].0).value < 0
    || exists k :: 0 <= k < i && parse(items[k].0) == parse(items[i].0)
  }

  lemma ListedR(parse: Parser, items: seq<(string, string)>, i: nat, m: map<nat, Token>)
    requires i < |items| && ListsR(parse, items[..i], m)
    requires parse(items[i].0).Some? && parse(items[i].0).value >= 0 && parse(items[i].0).value !in m
    ensures ListsR(parse, items[..i + 1], m[parse(items[i].0).value := items[i].1])
  {
  }

  // ---- refusing is right ----

  lemma BadNodeHopeless(parse: Parser, bf: nat, ellRoot: nat, meta: Meta, i: nat)
    requires i < |meta.phiF| && BadNode(meta.phiF, i)
    ensures Hopeless(parse, bf, ellRoot, meta)
  {
  }

  lemma BadItemHopeless(parse: Parser, bf: nat, ellRoot: nat, meta: Meta, i: nat)
    requires i < |meta.phiR| && BadItem(parse, meta.phiR, i)
    ensures Hopeless(parse, bf, ellRoot, meta)
  {
  }

  lemma DirtyHopeless(parse: Parser, bf: nat, ellRoot: nat, meta: Meta, d: int)
    requires d in meta.dirty && !(meta.leafNum <= d < 2 * meta.leafNum)
    ensures Hopeless(parse, bf, ellRoot, meta)
  {
    hide ListsF, ListsR, Inverse;
  }

  lemma UniqueF(items: seq<(string, int)>, m: map<Token, nat>, m': map<Token, nat>)
    requires ListsF(items, m) && ListsF(items, m')
    ensures m == m'
  {
  }

  lemma UniqueR(parse: Parser, items: seq<(string, string)>, m: map<nat, Token>, m': map<nat, Token>)
    requires ListsR(parse, items, m) && ListsR(parse, items, m')
    ensures m == m'
  {
  }

  /** If every token is found again through its node and the maps have one size, then also the other way round. */
  lemma {:induction false} Pigeonhole(phiF: map<Token, nat>, phiR: map<nat, Token>)
    requires |phiF| == |phiR| && forall t :: t in phiF ==> phiF[t] in phiR && phiR[phiF[t]] == t
    ensures forall x :: x in phiR ==> phiR[x] in phiF && phiF[phiR[x]] == x
    decreases |phiF|
  {
    if phiF != map[] {
      var t :| t in phiF;
      var f, r := phiF - {t}, phiR - {phiF[t]};
      assert phiF.Keys == f.Keys + {t} && phiR.Keys == r.Keys + {phiF[t]};
      Pigeonhole(f, r);
    }
  }

  /** What the two maps read from the file decide. */
  lemma ReadDecides(parse: Parser, bf: nat, ellRoot: nat, meta: Meta, phiF: map<Token, nat>, phiR: map<nat, Token>)
    requires ListsF(meta.phiF, phiF) && ListsR(parse, meta.phiR, phiR) && meta.leafNum >= 0
    ensures !Inverse(meta.leafNum, phiF, phiR) ==> Hopeless(parse, bf, ellRoot, meta)
  {
    forall s | WellFormed(s)
      ensures Describes(parse, bf, ellRoot, meta, s) ==> Inverse(meta.leafNum, phiF, phiR)
    {
      if Describes(parse, bf, ellRoot, meta, s) {
        UniqueF(meta.phiF, phiF, s.phiF);
        UniqueR(parse, meta.phiR, phiR, s.phiR);
      }
    }
  }

  lemma SameLength(n: nat, phiF: map<Token, nat>, phiR: map<nat, Token>)
    requires Inverse(n, phiF, phiR)
    ensures |phiF| == |phiR|
  {
    Injects(phiF, phiR);
  }

  lemma {:induction false} Injects(phiF: map<Token, nat>, phiR: map<nat, Token>)
    requires forall t :: t in phiF ==> phiF[t] in phiR && phiR[phiF[t]] == t
    requires forall x :: x in phiR ==> phiR[x] in phiF && phiF[phiR[x]] == x
    ensures |phiF| == |phiR|
    decreases |phiF|
  {
    if phiF == map[] {
      assert phiR == map[];
    } else {
      var t :| t in phiF;
      var f, r := phiF - {t}, phiR - {phiF[t]};
      assert phiF.Keys == f.Keys + {t} && phiR.Keys == r.Keys + {phiF[t]};
      Injects(f, r);
    }
  }

  // ---- opening ----

  method CheckInverse(phiF: map<Token, nat>, phiR: map<nat, Token>) returns (ok: bool)
    ensures ok <==> forall t :: t in phiF ==> phiF[t] in phiR && phiR[phiF[t]] == t
  {
    var todo := phiF.Keys;
    while todo != {}
      invariant todo <= phiF.Keys
      invariant forall t :: t in phiF && t !in todo ==> phiF[t] in phiR && phiR[phiF[t]] == t
      decreases |todo|
    {
      var t :| t in todo;
      if phiF[t] !in phiR || phiR[phiF[t]] != t {
        return false;
      }
      todo := todo - {t};
    }
    return true;
  }

  /** range(1, count + 1) as a set. */
  method NodeIds(count: nat) returns (ids: set<nat>)
    ensures forall x :: x in ids <==> 1 <= x <= count
  {
    ids := {};
    for i := 0 to count
      invariant forall x :: x in ids <==> 1 <= x <= i
    {
      ids := ids + {i + 1};
    }
  }

  method CheckDirty(leafNum: nat, dirty: seq<int>) returns (ok: bool)
    ensures ok <==> forall d :: d in dirty ==> leafNum <= d <= 2 * leafNum - 1
  {
    for i := 0 to |dirty|
      invariant forall k :: 0 <= k < i ==> leafNum <= dirty[k] <= 2 * leafNum - 1
    {
      if dirty[i] < leafNum || dirty[i] > 2 * leafNum - 1 {
        assert dirty[i] in dirty;
        return false;
      }
    }
    return true;
  }

  method NodesOf(dirty: seq<int>) returns (s: set<nat>)
    requires forall d :: d in dirty ==> d >= 0
    ensures forall d :: d in dirty <==> d >= 0 && d in s
  {
    s := {};
    for i := 0 to |dirty|
      invariant forall d :: d in dirty[..i] <==> d >= 0 && d in s
    {
      assert dirty[i] in dirty && dirty[..i + 1] == dirty[..i] + [dirty[i]];
      s := s + {dirty[i]};
    }
    assert dirty[..|dirty|] == dirty;
  }

  /** The constructor's checks: it opens the file exactly when some well-formed tree is described by it, and then with
      that tree. */
  method Open(parse: Parser, bf: nat, ellRoot: nat, meta: Meta) returns (res: OpenResult)
    requires DistinctF(meta.phiF)
    ensures res.Opened? ==> WellFormed(res.saved) && Describes(parse, bf, ellRoot, meta, res.saved)
    ensures res.Refused? ==> Hopeless(parse, bf, ellRoot, meta)
    ensures meta.bfSize == bf && meta.ellRoot == ellRoot && meta.state != "valid" ==> res == Refused(StateNotValid)
  {
    hide ListsF, ListsR, DistinctF, Inverse;
    if meta.bfSize != bf {
      return Refused(BfSizeMismatch);
    }
    if meta.ellRoot != ellRoot {
      return Refused(EllRootMismatch);
    }
    if meta.state != "valid" {
      return Refused(StateNotValid);
    }
    if meta.leafNum < 0 {
      return Refused(BadLeafNum);
    }
    if meta.leafNum == 0 && meta.dirty != [] {
      DirtyHopeless(parse, bf, ellRoot, meta, meta.dirty[0]);
      return Refused(DirtyWithoutLeaf);
    }
    var inRange := CheckDirty(meta.leafNum, meta.dirty);
    if !inRange {
      ghost var d :| d in meta.dirty && !(meta.leafNum <= d < 2 * meta.leafNum);
      DirtyHopeless(parse, bf, ellRoot, meta, d);
      return Refused(DirtyNotLeaf);
    }
    var dirty := NodesOf(meta.dirty);
    var phiF, errorF := ReadF(meta.phiF);
    if errorF.Some? {
      ghost var i :| 0 <= i < |meta.phiF| && BadNode(meta.phiF, i);
      BadNodeHopeless(parse, bf, ellRoot, meta, i);
      return Refused(errorF.value);
    }
    var phiR, errorR := ReadR(parse, meta.phiR);
    if errorR.Some? {
      ghost var i :| 0 <= i < |meta.phiR| && BadItem(parse, meta.phiR, i);
      BadItemHopeless(parse, bf, ellRoot, meta, i);
      return Refused(errorR.value);
    }
    ReadDecides(parse, bf, ellRoot, meta, phiF, phiR);
    if |phiF| != |phiR| {
      LengthsDecide(meta.leafNum, phiF, phiR);
      return Refused(LengthsDiffer);
    }
    var inverse := CheckInverse(phiF, phiR);
    if !inverse {
      InverseDecides(meta.leafNum, phiF, phiR);
      return Refused(NotInverse);
    }
    Pigeonhole(phiF, phiR);
    var ids := NodeIds(if meta.leafNum == 0 then 0 else 2 * meta.leafNum - 1);
    InverseIff(meta.leafNum, phiF, phiR, ids);
    if phiR.Keys != ids {
      return Refused(WrongNodes);
    }
    return Opened(Saved(true, meta.leafNum, phiF, phiR, dirty));
  }

  lemma LengthsDecide(n: nat, phiF: map<Token, nat>, phiR: map<nat, Token>)
    requires |phiF| != |phiR|
    ensures !Inverse(n, phiF, phiR)
  {
    if Inverse(n, phiF, phiR) {
      SameLength(n, phiF, phiR);
    }
  }

  lemma InverseDecides(n: nat, phiF: map<Token, nat>, phiR: map<nat, Token>)
    requires !forall t :: t in phiF ==> phiF[t] in phiR && phiR[phiF[t]] == t
    ensures !Inverse(n, phiF, phiR)
  {
  }

  lemma InverseIff(n: nat, phiF: map<Token, nat>, phiR: map<nat, Token>, ids: set<nat>)
    requires forall t :: t in phiF ==> phiF[t] in phiR && phiR[phiF[t]] == t
    requires forall x :: x in phiR ==> phiR[x] in phiF && phiF[phiR[x]] == x
    requires forall x :: x in ids <==> 1 <= x <= if n == 0 then 0 else 2 * n - 1
    ensures Inverse(n, phiF, phiR) <==> phiR.Keys == ids
  {
  }

  // ---- saving and reopening ----

  /** Every file that lists what a completed step saved opens, with the same maps and the same dirty set. */
  lemma SavedMetaIsGood(parse: Parser, bf: nat, ellRoot: nat, meta: Meta, c: Cache)
    requires Shape(bf, c) && Describes(parse, bf, ellRoot, meta, SavedOf(true, c))
    ensures WellFormed(SavedOf(true, c))
    ensures !Hopeless(parse, bf, ellRoot, meta)
    ensures forall s: Saved :: Describes(parse, bf, ellRoot, meta, s) ==> s == SavedOf(true, c)
  {
    hide ListsF, ListsR, WellFormed;
    var saved := SavedOf(true, c);
    SettledIsGood(bf, c);
    forall s: Saved | Describes(parse, bf, ellRoot, meta, s)
      ensures s == saved
    {
      OneDescribed(parse, bf, ellRoot, meta, s, saved);
    }
  }

  /** The items of phi_f; a dictionary has them in some order. */
  method ItemsF(m: map<Token, nat>) returns (items: seq<(string, int)>)
    ensures ListsF(items, m)
  {
    items := [];
    var todo := m.Keys;
    while todo != {}
      invariant todo <= m.Keys && ListsF(items, m - todo)
      decreases |todo|
    {
      var t :| t in todo;
      AnotherF(items, m, todo, t);
      items := items + [(t, m[t])];
      todo := todo - {t};
    }
    assert m - todo == m;
  }

  lemma AnotherF(items: seq<(string, int)>, m: map<Token, nat>, todo: set<Token>, t: Token)
    requires todo <= m.Keys && t in todo && ListsF(items, m - todo)
    ensures ListsF(items + [(t, m[t])], m - (todo - {t}))
  {
    var more := items + [(t, m[t])];
    assert more[|items|].0 == t;
    forall k | k in m - (todo - {t})
      ensures HasKeyF(more, k)
    {
      if k != t {
        assert HasKeyF(items, k);
        var i :| 0 <= i < |items| && items[i].0 == k;
        assert more[i].0 == k;
      }
    }
  }

  /** The items of phi_r with their ids as strings. */
  method ItemsR(parse: Parser, show: Printer, m: map<nat, Token>) returns (items: seq<(string, string)>)
    requires ReadsBack(parse, show)
    ensures ListsR(parse, items, m)
  {
    items := [];
    var todo := m.Keys;
    while todo != {}
      invariant todo <= m.Keys && ListsR(parse, items, m - todo)
      decreases |todo|
    {
      var x :| x in todo;
      AnotherR(parse, show, items, m, todo, x);
      items := items + [(show(x), m[x])];
      todo := todo - {x};
    }
    assert m - todo == m;
  }

  lemma AnotherR(parse: Parser, show: Printer, items: seq<(string, string)>, m: map<nat, Token>, todo: set<nat>, x: nat)
    requires ReadsBack(parse, show) && todo <= m.Keys && x in todo && ListsR(parse, items, m - todo)
    ensures ListsR(parse, items + [(show(x), m[x])], m - (todo - {x}))
  {
    var more := items + [(show(x), m[x])];
    assert parse(more[|items|].0) == Some(x);
    forall y | y in m - (todo - {x})
      ensures HasKeyR(parse, more, y)
    {
      if y != x {
        assert HasKeyR(parse, items, y);
        var i :| 0 <= i < |items| && parse(items[i].0) == Some(y);
        assert more[i] == items[i];
      }
    }
  }

  /** sorted() on the dirty set. */
  method SortedAscending(nodes: set<nat>) returns (s: seq<int>)
    ensures forall d :: d in s <==> d >= 0 && d in nodes
    ensures forall i, k :: 0 <= i < k < |s| ==> s[i] < s[k]
  {
    s := [];
    var todo := nodes;
    while todo != {}
      invariant todo <= nodes
      invariant forall i, k :: 0 <= i < k < |s| ==> s[i] < s[k]
      invariant forall d :: d in s <==> d >= 0 && d in nodes && d !in todo
      invariant forall x, y :: x in s && y in todo ==> x > y
      decreases |todo|
    {
      var top := Largest(todo);
      assert forall i :: 0 <= i < |s| ==> s[i] in s;
      s := [top] + s;
      todo := todo - {top};
    }
  }

  /** What _mark_valid and _mark_corrupted write. */
  method WriteMeta(parse: Parser, show: Printer, bf: nat, ellRoot: nat, s: Saved) returns (meta: Meta)
    requires ReadsBack(parse, show)
    ensures Describes(parse, bf, ellRoot, meta, s) && DistinctF(meta.phiF)
  {
    hide ListsR;
    var phiF := ItemsF(s.phiF);
    var phiR := ItemsR(parse, show, s.phiR);
    var dirty := SortedAscending(s.dirty);
    meta := Meta(if s.valid then "valid" else "dirty", bf, ellRoot, s.leafNum, phiF, phiR, dirty);
  }

  /** A record is written and read back: it opens exactly when it is that of a well-formed tree, and then unchanged. */
  method WriteThenOpen(parse: Parser, show: Printer, bf: nat, ellRoot: nat, s: Saved) returns (res: OpenResult)
    requires ReadsBack(parse, show)
    ensures if WellFormed(s) then res == Opened(s) else res.Refused?
    ensures !s.valid ==> res == Refused(StateNotValid)
  {
    hide ReadsBack, ListsR, ListsF, WellFormed, DistinctF;
    var meta := WriteMeta(parse, show, bf, ellRoot, s);
    res := Open(parse, bf, ellRoot, meta);
    if res.Opened? {
      OneDescribed(parse, bf, ellRoot, meta, s, res.saved);
    }
  }

  lemma OneDescribed(parse: Parser, bf: nat, ellRoot: nat, meta: Meta, s: Saved, t: Saved)
    requires Describes(parse, bf, ellRoot, meta, s) && Describes(parse, bf, ellRoot, meta, t)
    ensures s == t
  {
    hide ListsF, ListsR;
    UniqueF(meta.phiF, s.phiF, t.phiF);
    UniqueR(parse, meta.phiR, s.phiR, t.phiR);
    assert s.dirty == t.dirty;
  }

  /** What a store has on disk, read back by the constructor: after a completed step the same maps and the same dirty set,
      and after a step that stopped part-way nothing. */
  method SaveThenOpen(parse: Parser, show: Printer, ellRoot: nat, store: Store) returns (res: OpenResult)
    requires ReadsBack(parse, show) && store.meta.Some?
    ensures store.Settled() ==> res == Opened(SavedOf(true, store.State()))
    ensures !store.meta.value.valid ==> res == Refused(StateNotValid)
  {
    hide ReadsBack, WellFormed, Shape;
    if store.Settled() {
      SettledIsGood(store.bf, store.State());
    }
    res := WriteThenOpen(parse, show, store.bf, ellRoot, store.meta.value);
  }

  lemma SettledIsGood(bf: nat, c: Cache)
    requires Shape(bf, c)
    ensures WellFormed(SavedOf(true, c))
  {
    DirtyLeaves(bf, c);
    hide ViewOk;
  }

  // ---- the root after reopening ----

  function NodesBetween(lo: nat, hi: nat): (s: set<nat>)
    ensures forall x :: x in s <==> lo <= x < hi
    decreases hi - lo
  {
    if lo >= hi then {} else {lo} + NodesBetween(lo + 1, hi)
  }

  function LeafIds(n: nat): set<nat> {
    NodesBetween(n, 2 * n)
  }

  /** The root buffer is fresh memory.  With leaves in the tree it is loaded from the root files, or converted from node
      1's file and saved, or, when neither exists, every leaf becomes dirty; a single leaf without a file is an
      error. */
  function Restore(m: nat, pid: nat, bf: nat, s: Saved, files: map<Token, RepVec>, rootFile: Option<RepVec>, blank: RepVec,
                   conv: ConvEnv): Option<Cache>
    requires m > 0 && EnvSized(m, bf, conv) && WellFormed(s) && forall t :: t in files ==> Sized(bf, files[t])
  {
    var c := Cache(s.leafNum, s.phiF, s.phiR, s.dirty, files, blank, rootFile);
    if s.leafNum == 0 then Some(c)
    else if rootFile.Some? then Some(c.(root := rootFile.value))
    else if s.phiR[1] in files then
      assert Sized(bf, files[s.phiR[1]]);
      var z := ConvLocal(m, pid, bf, files[s.phiR[1]], conv);
      Some(c.(root := z, rootFile := Some(z)))
    else if s.leafNum == 1 then None
    else Some(c.(dirty := s.dirty + LeafIds(s.leafNum)))
  }

  /** Reopening is the identity exactly when there are leaves and root files, or when no root is rebuilt, every leaf was
      dirty anyway and the fresh buffer happens to hold the old root. */
  lemma ReopenIsIdentity(m: nat, pid: nat, bf: nat, c: Cache, blank: RepVec, conv: ConvEnv)
    requires m > 0 && EnvSized(m, bf, conv) && Shape(bf, c) && RootSaved(c)
    ensures WellFormed(SavedOf(true, c))
    ensures Restore(m, pid, bf, SavedOf(true, c), c.files, c.rootFile, blank, conv) == Some(c)
      <==>
      || (c.leafNum > 0 && c.rootFile.Some?)
      || (blank == c.root
          && (c.leafNum == 0 || (c.leafNum > 1 && c.phiR[1] !in c.files && c.dirty == LeafIds(c.leafNum))))
  {
    DirtyLeaves(bf, c);
    LeafHasFile(bf, c);
    hide ViewOk;
    assert WellFormed(SavedOf(true, c));
    assert c.dirty + LeafIds(c.leafNum) == LeafIds(c.leafNum);
    hide LeafIds;
    assert c.leafNum > 0 ==> 1 in c.phiR;
  }

  /** Losing the root files never loses the tree: the reopened cache keeps the shape, the files and the dirt. */
  lemma ReopenKeepsShape(m: nat, pid: nat, bf: nat, c: Cache, rootFile: Option<RepVec>, blank: RepVec, conv: ConvEnv)
    requires m > 0 && EnvSized(m, bf, conv) && Shape(bf, c) && Sized(bf, blank)
    requires rootFile.Some? ==> rootFile == c.rootFile
    ensures WellFormed(SavedOf(true, c))
    ensures var r := Restore(m, pid, bf, SavedOf(true, c), c.files, rootFile, blank, conv);
      r.Some? && Shape(bf, r.value) && r.value.files == c.files && c.dirty <= r.value.dirty
  {
    DirtyLeaves(bf, c);
    assert WellFormed(SavedOf(true, c));
    var r := Restore(m, pid, bf, SavedOf(true, c), c.files, rootFile, blank, conv);
    LeafHasFile(bf, c);
    if r.Some? {
      assert ViewOf(r.value).file == ViewOf(c).file;
      MoreDirt(ViewOf(c), r.value.dirty);
    }
  }

  /** The cache after the agent has been restarted; `rootFile` is what is left of the root files. */
  function Reopen(m: nat, pid: nat, bf: nat, c: Cache, rootFile: Option<RepVec>, blank: RepVec, conv: ConvEnv): Cache
    requires m > 0 && EnvSized(m, bf, conv) && Shape(bf, c) && Sized(bf, blank)
    requires rootFile.Some? ==> rootFile == c.rootFile
  {
    ReopenKeepsShape(m, pid, bf, c, rootFile, blank, conv);
    Restore(m, pid, bf, SavedOf(true, c), c.files, rootFile, blank, conv).value
  }

  /** The constructor converts node 1's file into a new root. */
  predicate Rebuilds(c: Cache, rootFile: Option<RepVec>) {
    c.leafNum > 0 && rootFile.None? && 1 in ViewOf(c).file
  }

  /** What reopening changes: never the tree or its files. */
  lemma ReopenIs(m: nat, pid: nat, bf: nat, c: Cache, rootFile: Option<RepVec>, blank: RepVec, conv: ConvEnv)
    requires m > 0 && EnvSized(m, bf, conv) && Shape(bf, c) && Sized(bf, blank)
    requires rootFile.Some? ==> rootFile == c.rootFile
    ensures var d := Reopen(m, pid, bf, c, rootFile, blank, conv);
      && Shape(bf, d) && d == c.(root := d.root, rootFile := d.rootFile, dirty := d.dirty)
      && (c.leafNum == 0 || rootFile.Some? || Rebuilds(c, rootFile) ==> d.dirty == c.dirty)
      && (c.leafNum == 0 ==> d.rootFile == rootFile)
      && (c.leafNum > 0 && rootFile.Some? ==> d.rootFile == rootFile && d.root == rootFile.value)
      && (Rebuilds(c, rootFile) ==>
        && Sized(bf, ViewOf(c).file[1]) && d.root == ConvLocal(m, pid, bf, ViewOf(c).file[1], conv) && d.rootFile == Some(d.root))
      && (c.leafNum > 0 && rootFile.None? && !Rebuilds(c, rootFile) ==>
        d.rootFile.None? && c.leafNum > 1 && d.dirty == c.dirty + LeafIds(c.leafNum))
  {
    ReopenKeepsShape(m, pid, bf, c, rootFile, blank, conv);
    LeafHasFile(bf, c);
    hide ViewOk, LeafIds, ConvLocal;
    assert c.leafNum > 0 ==> 1 in c.phiR;
  }

  lemma LeafHasFile(bf: nat, c: Cache)
    requires Shape(bf, c)
    ensures c.leafNum == 1 ==> 1 in c.phiR && c.phiR[1] in c.files
  {
    assert c.leafNum == 1 ==> 1 in ViewOf(c).file;
  }

  lemma MoreDirt<T>(v: View<T>, dirty: set<nat>)
    requires ViewOk(v) && v.dirty <= dirty && forall d :: d in dirty ==> v.n <= d < 2 * v.n
    ensures ViewOk(v.(dirty := dirty))
  {
  }
}
