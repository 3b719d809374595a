/** Vectors over Z_2: 64 elements to a word, computed word-parallel with XOR, AND, complement and population count.  The
    bits of the last word that stand for no element are kept zero, and on such vectors every operation is the
    element-wise operation modulo 2. */
module BitVectors {
  import opened Blocks
  import opened Aby3

  type Word = w: seq<bool> | |w| == 64 witness Zeros(64)

  function XorWord(a: Word, b: Word): Word {
    seq(64, k requires 0 <= k < 64 => a[k] != b[k])
  }

  function AndWord(a: Word, b: Word): Word {
    seq(64, k requires 0 <= k < 64 => a[k] && b[k])
  }

  function NotWord(a: Word): Word {
    seq(64, k requires 0 <= k < 64 => !a[k])
  }

  /** Bits below `keep` all ones: (1 << keep) - 1. */
  function LowMask(keep: nat): Word {
    seq(64, k => k < keep)
  }

  function Constant(bit: bool): Word {
    seq(64, k => bit)
  }

  function Popcount(bits: seq<bool>): nat {
    if bits == [] then 0 else Popcount(bits[..|bits| - 1]) + (if bits[|bits| - 1] then 1 else 0)
  }

  function WordsFor(n: nat): nat {
    (n + 63) / 64
  }

  function ToNat(b: bool): nat {
    if b then 1 else 0
  }

  class BitVec {
    const n: nat
    const data: array<Word>

    ghost predicate Valid() {
      data.Length == WordsFor(n)
    }

    /** Padding bits are zero. */
    ghost predicate Canonical()
      reads data
    {
      Valid() && forall w, t :: 0 <= w < data.Length && 0 <= t < 64 && 64 * w + t >= n ==> !data[w][t]
    }

    function Get(i: nat): bool
      requires Valid() && i < n
      reads data
    {
      data[i / 64][i % 64]
    }

    /** The elements as ring elements modulo 2. */
    function Elements(): (s: seq<nat>)
      requires Valid()
      reads data
      ensures |s| == n && forall i :: 0 <= i < n ==> s[i] == ToNat(Get(i))
    {
      seq(n, i requires 0 <= i < n reads data => ToNat(Get(i)))
    }

    /** Memory as it comes, except that a partial last word is cleared. */
    constructor (n: nat)
      ensures this.n == n && Canonical() && fresh(data)
    {
      this.n := n;
      var words := new Word[WordsFor(n)];
      if words.Length > 0 && n % 64 != 0 {
        words[words.Length - 1] := Constant(false);
      }
      data := words;
    }

    method MaskPartialLastWord()
      requires Valid()
      modifies data
      ensures Canonical()
      ensures forall i :: 0 <= i < n ==> Get(i) == old(Get(i))
    {
      if n == 0 {
        return;
      }
      var rem := n % 64;
      if rem == 0 {
        return;
      }
      data[data.Length - 1] := AndWord(data[data.Length - 1], LowMask(rem));
    }

    method Fill(bit: bool)
      requires Valid()
      modifies data
      ensures Canonical() && forall i :: 0 <= i < n ==> Get(i) == bit
    {
      for w := 0 to data.Length
        invariant forall k :: 0 <= k < w ==> data[k] == Constant(bit)
      {
        data[w] := Constant(bit);
      }
      MaskPartialLastWord();
    }

    /** a + b modulo 2; the output may be an operand. */
    static method Add(a: BitVec, b: BitVec, out: BitVec) returns (ok: bool)
      requires a.Valid() && b.Valid() && out.Valid()
      modifies out.data
      ensures ok <==> a.n == b.n && a.n == out.n
      ensures ok ==> out.Canonical() && forall i :: 0 <= i < out.n ==>
        out.Elements()[i] == Ring.Add(2, old(a.Elements())[i], old(b.Elements())[i])
      ensures !ok ==> out.data[..] == old(out.data[..])
    {
      if a.n != b.n || a.n != out.n {
        return false;
      }
      for w := 0 to a.data.Length
        invariant forall k :: 0 <= k < w ==> out.data[k] == XorWord(old(a.data[k]), old(b.data[k]))
        invariant forall k :: w <= k < out.data.Length ==> a.data[k] == old(a.data[k]) && b.data[k] == old(b.data[k])
      {
        out.data[w] := XorWord(a.data[w], b.data[w]);
      }
      out.MaskPartialLastWord();
      return true;
    }

    /** Subtraction is the same word operation. */
    static method Sub(a: BitVec, b: BitVec, out: BitVec) returns (ok: bool)
      requires a.Valid() && b.Valid() && out.Valid()
      modifies out.data
      ensures ok <==> a.n == b.n && a.n == out.n
      ensures ok ==> out.Canonical() && forall i :: 0 <= i < out.n ==>
        out.Elements()[i] == Ring.Sub(2, old(a.Elements())[i], old(b.Elements())[i])
      ensures !ok ==> out.data[..] == old(out.data[..])
    {
      if a.n != b.n || a.n != out.n {
        return false;
      }
      for w := 0 to a.data.Length
        invariant forall k :: 0 <= k < w ==> out.data[k] == XorWord(old(a.data[k]), old(b.data[k]))
        invariant forall k :: w <= k < out.data.Length ==> a.data[k] == old(a.data[k]) && b.data[k] == old(b.data[k])
      {
        out.data[w] := XorWord(a.data[w], b.data[w]);
      }
      out.MaskPartialLastWord();
      return true;
    }

    static method Hadamard(a: BitVec, b: BitVec, out: BitVec) returns (ok: bool)
      requires a.Valid() && b.Valid() && out.Valid()
      modifies out.data
      ensures ok <==> a.n == b.n && a.n == out.n
      ensures ok ==> out.Canonical() && forall i :: 0 <= i < out.n ==>
        out.Elements()[i] == Ring.Mul(2, old(a.Elements())[i], old(b.Elements())[i])
      ensures !ok ==> out.data[..] == old(out.data[..])
    {
      if a.n != b.n || a.n != out.n {
        return false;
      }
      for w := 0 to a.data.Length
        invariant forall k :: 0 <= k < w ==> out.data[k] == AndWord(old(a.data[k]), old(b.data[k]))
        invariant forall k :: w <= k < out.data.Length ==> a.data[k] == old(a.data[k]) && b.data[k] == old(b.data[k])
      {
        out.data[w] := AndWord(a.data[w], b.data[w]);
      }
      out.MaskPartialLastWord();
      return true;
    }

    /** Adding one complements every word, padding included, so the mask is what keeps the vector canonical. */
    static method AddScalar(a: BitVec, scalar: nat, out: BitVec) returns (ok: bool)
      requires a.Valid() && out.Valid()
      modifies out.data
      ensures ok <==> scalar < 2 && a.n == out.n
      ensures ok ==> out.Canonical() && forall i :: 0 <= i < out.n ==>
        out.Elements()[i] == Ring.Add(2, old(a.Elements())[i], scalar)
      ensures !ok ==> out.data[..] == old(out.data[..])
    {
      if scalar > 1 || a.n != out.n {
        return false;
      }
      for w := 0 to a.data.Length
        invariant forall k :: 0 <= k < w ==> out.data[k] == if scalar == 0 then old(a.data[k]) else NotWord(old(a.data[k]))
        invariant forall k :: w <= k < out.data.Length ==> a.data[k] == old(a.data[k])
      {
        out.data[w] := if scalar == 0 then a.data[w] else NotWord(a.data[w]);
      }
      out.MaskPartialLastWord();
      return true;
    }

    /** The parity of the ones that both vectors have. */
    static method Dot(a: BitVec, b: BitVec) returns (ok: bool, r: nat)
      requires a.Canonical() && b.Canonical()
      ensures ok <==> a.n == b.n
      ensures ok ==> r == Aby3.Dot(2, a.Elements(), b.Elements())
    {
      if a.n != b.n {
        return false, 0;
      }
      var acc := 0;
      ghost var both: seq<Word> := [];
      for w := 0 to a.data.Length
        invariant |both| == w && forall k :: 0 <= k < w ==> both[k] == AndWord(a.data[k], b.data[k])
        invariant acc == Popcount(Flat(both))
      {
        var word := AndWord(a.data[w], b.data[w]);
        PopcountAdds(Flat(both), word);
        acc := acc + Popcount(word);
        both := both + [word];
        assert both[..w] == both[..|both| - 1];
      }
      DotIsPopcount(a.Elements(), b.Elements(), both);
      return true, acc % 2;
    }

    /** The parity of all words. */
    static method Reduce(a: BitVec) returns (r: nat)
      requires a.Canonical()
      ensures r == Sum(a.Elements()) % 2
    {
      var parity := 0;
      for w := 0 to a.data.Length
        invariant parity == Popcount(Flat(a.data[..w]))
      {
        assert a.data[..w + 1] == a.data[..w] + [a.data[w]];
        PopcountAdds(Flat(a.data[..w]), a.data[w]);
        parity := parity + Popcount(a.data[w]);
      }
      assert a.data[..a.data.Length] == a.data[..];
      SumIsPopcount(a.Elements(), a.data[..]);
      return parity % 2;
    }
  }

  function Sum(s: seq<nat>): nat {
    if s == [] then 0 else Sum(s[..|s| - 1]) + s[|s| - 1]
  }

  /** The words' bits one after the other. */
  function Flat(words: seq<Word>): (bits: seq<bool>)
    ensures |bits| == 64 * |words|
  {
    if words == [] then [] else Flat(words[..|words| - 1]) + words[|words| - 1]
  }

  lemma {:induction false} FlatAt(words: seq<Word>, g: nat)
    requires g < 64 * |words|
    ensures Flat(words)[g] == words[g / 64][g % 64]
  {
    var l := |words| - 1;
    if g < 64 * l {
      FlatAt(words[..l], g);
    }
  }

  lemma {:induction false} PopcountAdds(a: seq<bool>, b: seq<bool>)
    ensures Popcount(a + b) == Popcount(a) + Popcount(b)
    decreases |b|
  {
    if b == [] {
      assert a + b == a;
    } else {
      assert (a + b)[..|a + b| - 1] == a + b[..|b| - 1];
      PopcountAdds(a, b[..|b| - 1]);
    }
  }

  lemma {:induction false} NoOnes(bits: seq<bool>)
    requires forall k :: 0 <= k < |bits| ==> !bits[k]
    ensures Popcount(bits) == 0
  {
    if bits != [] {
      NoOnes(bits[..|bits| - 1]);
    }
  }

  /** Padding adds nothing. */
  lemma PaddingIgnored(bits: seq<bool>, n: nat)
    requires n <= |bits| && forall k :: n <= k < |bits| ==> !bits[k]
    ensures Popcount(bits) == Popcount(bits[..n])
  {
    assert bits == bits[..n] + bits[n..];
    PopcountAdds(bits[..n], bits[n..]);
    NoOnes(bits[n..]);
  }

  lemma {:induction false} WideDotIsPopcount(x: seq<nat>, y: seq<nat>, bits: seq<bool>)
    requires |x| == |y| == |bits|
    requires forall i :: 0 <= i < |x| ==> x[i] < 2 && y[i] < 2 && (bits[i] <==> x[i] == 1 && y[i] == 1)
    ensures WideDot(x, y) == Popcount(bits)
    decreases |x|
  {
    if x != [] {
      var l := |x| - 1;
      WideDotIsPopcount(x[..l], y[..l], bits[..l]);
      assert x[l] * y[l] == ToNat(bits[l]);
    }
  }

  lemma DotIsPopcount(x: seq<nat>, y: seq<nat>, both: seq<Word>)
    requires |x| == |y| && |both| == WordsFor(|x|)
    requires forall i :: 0 <= i < |x| ==> x[i] < 2 && y[i] < 2 && (both[i / 64][i % 64] <==> x[i] == 1 && y[i] == 1)
    requires forall w, t :: 0 <= w < |both| && 0 <= t < 64 && 64 * w + t >= |x| ==> !both[w][t]
    ensures Popcount(Flat(both)) % 2 == Aby3.Dot(2, x, y)
  {
    var bits := Flat(both);
    forall g | 0 <= g < |bits|
      ensures bits[g] == both[g / 64][g % 64]
    {
      FlatAt(both, g);
    }
    PaddingIgnored(bits, |x|);
    WideDotIsPopcount(x, y, bits[..|x|]);
  }

  lemma {:induction false} SumOfBits(x: seq<nat>, bits: seq<bool>)
    requires |x| == |bits| && forall i :: 0 <= i < |x| ==> x[i] == ToNat(bits[i])
    ensures Sum(x) == Popcount(bits)
  {
    if x != [] {
      SumOfBits(x[..|x| - 1], bits[..|x| - 1]);
    }
  }

  lemma SumIsPopcount(x: seq<nat>, words: seq<Word>)
    requires |words| == WordsFor(|x|) && forall i :: 0 <= i < |x| ==> x[i] == ToNat(words[i / 64][i % 64])
    requires forall w, t :: 0 <= w < |words| && 0 <= t < 64 && 64 * w + t >= |x| ==> !words[w][t]
    ensures Popcount(Flat(words)) == Sum(x)
  {
    var bits := Flat(words);
    forall g | 0 <= g < |bits|
      ensures bits[g] == words[g / 64][g % 64]
    {
      FlatAt(words, g);
    }
    PaddingIgnored(bits, |x|);
    SumOfBits(x, bits[..|x|]);
  }
}
