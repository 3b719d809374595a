/** Element-wise kernels of ring vectors that keep one element per byte (ELL >= 2).  The output may be one of the
    inputs; sizes are checked first and a mismatch leaves the output alone. */
module Rvector {
  import opened Ring
  import opened Aby3

  method VecAdd(m: nat, a: array<nat>, b: array<nat>, out: array<nat>) returns (ok: bool)
    requires m > 0
    modifies out
    ensures ok == (a.Length == b.Length == out.Length)
    ensures ok ==> forall i :: 0 <= i < out.Length ==> out[i] == Add(m, old(a[i]), old(b[i]))
    ensures !ok ==> out[..] == old(out[..])
  {
    if a.Length != b.Length || a.Length != out.Length {
      return false;
    }
    for i := 0 to a.Length
      invariant forall k :: 0 <= k < i ==> out[k] == Add(m, old(a[k]), old(b[k]))
      invariant forall k :: i <= k < out.Length ==> a[k] == old(a[k]) && b[k] == old(b[k])
    {
      out[i] := Add(m, a[i], b[i]);
    }
    return true;
  }

  method VecSub(m: nat, a: array<nat>, b: array<nat>, out: array<nat>) returns (ok: bool)
    requires m > 0
    modifies out
    ensures ok == (a.Length == b.Length == out.Length)
    ensures ok ==> forall i :: 0 <= i < out.Length ==> out[i] == Sub(m, old(a[i]), old(b[i]))
    ensures !ok ==> out[..] == old(out[..])
  {
    if a.Length != b.Length || a.Length != out.Length {
      return false;
    }
    for i := 0 to a.Length
      invariant forall k :: 0 <= k < i ==> out[k] == Sub(m, old(a[k]), old(b[k]))
      invariant forall k :: i <= k < out.Length ==> a[k] == old(a[k]) && b[k] == old(b[k])
    {
      out[i] := Sub(m, a[i], b[i]);
    }
    return true;
  }

  method VecHadamard(m: nat, a: array<nat>, b: array<nat>, out: array<nat>) returns (ok: bool)
    requires m > 0
    modifies out
    ensures ok == (a.Length == b.Length == out.Length)
    ensures ok ==> forall i :: 0 <= i < out.Length ==> out[i] == Mul(m, old(a[i]), old(b[i]))
    ensures !ok ==> out[..] == old(out[..])
  {
    if a.Length != b.Length || a.Length != out.Length {
      return false;
    }
    for i := 0 to a.Length
      invariant forall k :: 0 <= k < i ==> out[k] == Mul(m, old(a[k]), old(b[k]))
      invariant forall k :: i <= k < out.Length ==> a[k] == old(a[k]) && b[k] == old(b[k])
    {
      out[i] := Mul(m, a[i], b[i]);
    }
    return true;
  }

  /** The accumulator is wide enough not to wrap; only the final mask reduces. */
  method VecDot(m: nat, a: array<nat>, b: array<nat>) returns (ok: bool, r: nat)
    requires m > 0
    ensures ok == (a.Length == b.Length)
    ensures ok ==> r == Dot(m, a[..], b[..])
  {
    if a.Length != b.Length {
      return false, 0;
    }
    var acc := 0;
    for i := 0 to a.Length
      invariant acc == WideDot(a[..i], b[..i])
    {
      acc := acc + a[i] * b[i];
      assert a[..i + 1][..i] == a[..i] && b[..i + 1][..i] == b[..i];
    }
    assert a[..a.Length] == a[..] && b[..b.Length] == b[..];
    return true, acc % m;
  }

  method Fill(a: array<nat>, val: nat)
    modifies a
    ensures forall i :: 0 <= i < a.Length ==> a[i] == val
  {
    for i := 0 to a.Length
      invariant forall k :: 0 <= k < i ==> a[k] == val
    {
      a[i] := val;
    }
  }

  /** Bytes arriving from a channel or from the correlated generator. */
  method Receive(a: array<nat>, data: seq<nat>)
    requires |data| == a.Length
    modifies a
    ensures a[..] == data
  {
    for i := 0 to a.Length
      invariant a[..i] == data[..i]
    {
      a[i] := data[i];
    }
  }
}
