/** Row-major tensors as concatenations of equally long rows: the layout
    every layer buffer uses (row y of a w-wide plane starts at y * w). */
module Grids {
  import opened Vectors
  import opened Arith

  /** rows(0) + rows(1) + ... + rows(n - 1). */
  function Concat(rows: int -> seq<real>, n: int): seq<real>
    decreases n
  {
    if n <= 0 then [] else Concat(rows, n - 1) + rows(n - 1)
  }

  /** Every one of the first n rows has length w. */
  ghost predicate Uniform(rows: int -> seq<real>, n: int, w: nat) {
    forall y :: 0 <= y < n ==> |rows(y)| == w
  }

  /** n rows of length w make n * w entries. */
  lemma {:induction false} ConcatLength(rows: int -> seq<real>, n: nat, w: nat)
    requires Uniform(rows, n, w)
    ensures |Concat(rows, n)| == n * w
    decreases n
  {
    if n > 0 {
      ConcatLength(rows, n - 1, w);
      assert (n - 1) * w + w == n * w;
    }
  }

  /** Entry x of row y sits at y * w + x. */
  lemma {:induction false} ConcatIndex(rows: int -> seq<real>, n: nat, w: nat, y: int, x: int)
    requires Uniform(rows, n, w) && 0 <= y < n && 0 <= x < w
    ensures 0 <= y * w + x < |Concat(rows, n)|
    ensures Concat(rows, n)[y * w + x] == rows(y)[x]
    decreases n
  {
    ConcatLength(rows, n, w);
    MulLeft(y, n, w);
    MulMono(0, y, w);
    ConcatLength(rows, n - 1, w);
    if y < n - 1 {
      ConcatIndex(rows, n - 1, w, y, x);
      MulLeft(y, n - 1, w);
    } else {
      assert y * w == (n - 1) * w;
    }
  }

  /** Entry t of the grid is column t % w of row t / w. */
  lemma ConcatAt(rows: int -> seq<real>, n: nat, w: nat, t: int)
    requires Uniform(rows, n, w) && w > 0 && 0 <= t < n * w
    ensures 0 <= t / w < n && 0 <= t % w < w
    ensures |Concat(rows, n)| == n * w
    ensures Concat(rows, n)[t] == rows(t / w)[t % w]
  {
    var q, r := t / w, t % w;
    DivBound(t, w, n);
    assert t == q * w + r;
    ConcatLength(rows, n, w);
    ConcatIndex(rows, n, w, q, r);
  }

  /** The rowwise sum of two grids is the grid of their rows' sums. */
  lemma {:induction false} ConcatPlus(a: int -> seq<real>, b: int -> seq<real>, s: int -> seq<real>, n: nat)
    requires forall y :: 0 <= y < n ==> |a(y)| == |b(y)| && s(y) == Plus(a(y), b(y))
    ensures |Concat(a, n)| == |Concat(b, n)|
    ensures Concat(s, n) == Plus(Concat(a, n), Concat(b, n))
    decreases n
  {
    if n > 0 {
      ConcatPlus(a, b, s, n - 1);
      PlusConcat(Concat(a, n - 1), a(n - 1), Concat(b, n - 1), b(n - 1));
    }
  }

  /** Plus distributes over concatenation. */
  lemma PlusConcat(a1: seq<real>, a2: seq<real>, b1: seq<real>, b2: seq<real>)
    requires |a1| == |b1| && |a2| == |b2|
    ensures Plus(a1 + a2, b1 + b2) == Plus(a1, b1) + Plus(a2, b2)
  {
  }

  /** Grids whose rows agree are equal. */
  lemma {:induction false} ConcatExt(a: int -> seq<real>, b: int -> seq<real>, n: int)
    requires forall y :: 0 <= y < n ==> a(y) == b(y)
    ensures Concat(a, n) == Concat(b, n)
    decreases n
  {
    if n > 0 { ConcatExt(a, b, n - 1); }
  }

  /** A buffer holding rows 0 .. i - 1 at `off` holds rows 0 .. i once row
      i is written right after them and nothing else changes; the parts of
      the buffer outside [off, end) stay as they were. */
  lemma GrowPrefix(before: seq<real>, after: seq<real>, rows: int -> seq<real>, i: nat, off: nat, pos: nat, end: nat)
    requires |before| == |after| && off + pos + |rows(i)| <= end <= |after|
    requires before[off..off + pos] == Concat(rows, i)
    requires after[..off + pos] == before[..off + pos]
    requires after[off + pos..off + pos + |rows(i)|] == rows(i)
    requires after[off + pos + |rows(i)|..] == before[off + pos + |rows(i)|..]
    ensures after[off..off + pos + |rows(i)|] == Concat(rows, i + 1)
    ensures after[..off] == before[..off] && after[end..] == before[end..]
  {
    Spliced(before, after, off, off + pos, end, rows(i));
  }
}
