/** What the layers need of std::vector: `resize`, which keeps the prefix
    and fills new slots with a value-initialised element. */
module Vectors {

  /** The length `resize(n)` gives: a negative request is clamped to 0 here
      (the source converts it to a huge unsigned count). */
  function Count(n: int): nat { if n < 0 then 0 else n }

  /** `v.resize(n)` */
  function Resized<T>(s: seq<T>, n: int, fill: T): (r: seq<T>)
    ensures |r| == Count(n)
    ensures forall i :: 0 <= i < |r| ==> r[i] == if i < |s| then s[i] else fill
  {
    if n <= 0 then []
    else if n <= |s| then s[..n]
    else s + seq(n - |s|, _ => fill)
  }

  /** Sum of a sequence of reals. */
  function Sum(s: seq<real>): real {
    if |s| == 0 then 0.0 else Sum(s[..|s| - 1]) + s[|s| - 1]
  }

  lemma {:induction false} SumConcat(a: seq<real>, b: seq<real>)
    ensures Sum(a + b) == Sum(a) + Sum(b)
  {
    if |b| > 0 {
      assert (a + b)[..|a + b| - 1] == a + b[..|b| - 1];
      SumConcat(a, b[..|b| - 1]);
    } else {
      assert a + b == a;
    }
  }

  /** `s[k]`, or 0 outside the sequence: lets sums range over index
      expressions without side conditions. */
  function At(s: seq<real>, k: int): real {
    if 0 <= k < |s| then s[k] else 0.0
  }

  /** std::copy of a sequence into `a[off..off + |s|]`. */
  method CopyInto(s: seq<real>, a: array<real>, off: nat)
    requires off + |s| <= a.Length
    modifies a
    ensures a[off..off + |s|] == s
    ensures forall k :: 0 <= k < a.Length && !(off <= k < off + |s|) ==> a[k] == old(a[k])
    ensures a[..off] == old(a[..off]) && a[off + |s|..] == old(a[off + |s|..])
  {
    var j := 0;
    while j < |s|
      invariant 0 <= j <= |s|
      invariant forall k :: 0 <= k < j ==> a[off + k] == s[k]
      invariant forall k :: 0 <= k < a.Length && !(off <= k < off + j) ==> a[k] == old(a[k])
    {
      a[off + j] := s[j];
      j := j + 1;
    }
  }

  /** Pointwise sum of two sequences of the same length. */
  function Plus(a: seq<real>, b: seq<real>): (r: seq<real>)
    requires |a| == |b|
    ensures |r| == |a|
    ensures forall i :: 0 <= i < |a| ==> r[i] == a[i] + b[i]
  {
    seq(|a|, i requires 0 <= i < |a| => a[i] + b[i])
  }

  /** std::fill of `a[off..off + n]` with `v`. */
  method Fill(a: array<real>, off: nat, n: nat, v: real)
    requires off + n <= a.Length
    modifies a
    ensures a[off..off + n] == seq(n, _ => v)
    ensures a[..off] == old(a[..off]) && a[off + n..] == old(a[off + n..])
  {
    ghost var s := a[..];
    var j := 0;
    while j < n
      invariant 0 <= j <= n
      invariant a[off..off + j] == seq(j, _ => v)
      invariant forall k :: 0 <= k < a.Length && !(off <= k < off + j) ==> a[k] == s[k]
    {
      a[off + j] := v;
      j := j + 1;
    }
  }

  /** `after` is `before` with vals[0 .. n - 1] added at `at` and
      nothing else changed. */
  ghost predicate AddedFrom(before: seq<real>, after: seq<real>, vals: seq<real>, at: int, n: nat) {
    |before| == |after| && 0 <= at && at + n <= |after| && n <= |vals| &&
    forall q :: 0 <= q < |after| ==> after[q] == before[q] + (if at <= q < at + n then vals[q - at] else 0.0)
  }

  /** Adding vals[n .. n + m - 1] right after the first n extends the run. */
  lemma AddedChain(a0: seq<real>, a1: seq<real>, a2: seq<real>, vals: seq<real>, at: int, n: nat, m: nat)
    requires AddedFrom(a0, a1, vals, at, n) && n + m <= |vals| && AddedFrom(a1, a2, vals[n..], at + n, m)
    ensures AddedFrom(a0, a2, vals, at, n + m)
  {
    forall q | 0 <= q < |a2|
      ensures a2[q] == a0[q] + (if at <= q < at + n + m then vals[q - at] else 0.0)
    {
      if at + n <= q < at + n + m {
        assert vals[n..][q - at - n] == vals[q - at];
      }
    }
  }

  /** A completed run is a pointwise sum on its slice and leaves the rest. */
  lemma AddedSlices(before: seq<real>, after: seq<real>, vals: seq<real>, at: int, n: nat)
    requires AddedFrom(before, after, vals, at, n) && n == |vals|
    ensures after[at..at + n] == Plus(before[at..at + n], vals)
    ensures after[..at] == before[..at] && after[at + n..] == before[at + n..]
  {
    var got, sum := after[at..at + n], Plus(before[at..at + n], vals);
    forall i | 0 <= i < n ensures got[i] == sum[i] {
      assert after[at + i] == before[at + i] + vals[i];
    }
    assert got == sum;
    assert after[..at] == before[..at];
    assert after[at + n..] == before[at + n..];
  }

  /** Writing `plane` at `at` and nothing else extends a prefix that
      starts at `off` and keeps everything outside `[off, end)`. */
  lemma Spliced(before: seq<real>, after: seq<real>, off: nat, at: nat, end: nat, plane: seq<real>)
    requires |before| == |after| && off <= at && at + |plane| <= end <= |after|
    requires after[..at] == before[..at] && after[at..at + |plane|] == plane
    requires after[at + |plane|..] == before[at + |plane|..]
    ensures after[off..at + |plane|] == before[off..at] + plane
    ensures after[..off] == before[..off] && after[end..] == before[end..]
  {
    assert after[off..at] == after[..at][off..];
    assert before[off..at] == before[..at][off..];
    assert after[off..at + |plane|] == after[off..at] + after[at..at + |plane|];
    assert after[..off] == after[..at][..off];
    assert before[..off] == before[..at][..off];
    assert after[end..] == after[at + |plane|..][end - at - |plane|..];
    assert before[end..] == before[at + |plane|..][end - at - |plane|..];
  }
}
