/** Finite sums of reals indexed by 0..n-1, and the algebra the kernels
    need: pointwise addition, scaling, and swapping a double sum. */
module Sums {

  /** f(0) + f(1) + ... + f(n - 1); 0 when n <= 0. */
  function SumF(f: int -> real, n: int): real
    decreases n
  {
    if n <= 0 then 0.0 else SumF(f, n - 1) + f(n - 1)
  }

  /** Sums of functions that agree on the range are equal. */
  lemma {:induction false} SumExt(f: int -> real, g: int -> real, n: int)
    requires forall k :: 0 <= k < n ==> f(k) == g(k)
    ensures SumF(f, n) == SumF(g, n)
    decreases n
  {
    if n > 0 { SumExt(f, g, n - 1); }
  }

  /** The sum of a pointwise sum is the sum of the sums. */
  lemma {:induction false} SumPlus(f: int -> real, g: int -> real, h: int -> real, n: int)
    requires forall k :: 0 <= k < n ==> h(k) == f(k) + g(k)
    ensures SumF(h, n) == SumF(f, n) + SumF(g, n)
    decreases n
  {
    if n > 0 { SumPlus(f, g, h, n - 1); }
  }

  /** A constant factor moves out of a sum. */
  lemma {:induction false} SumScale(f: int -> real, g: int -> real, c: real, n: int)
    requires forall k :: 0 <= k < n ==> g(k) == c * f(k)
    ensures SumF(g, n) == c * SumF(f, n)
    decreases n
  {
    if n > 0 { SumScale(f, g, c, n - 1); }
  }

  /** A sum of zeros is zero. */
  lemma {:induction false} SumZero(f: int -> real, n: int)
    requires forall k :: 0 <= k < n ==> f(k) == 0.0
    ensures SumF(f, n) == 0.0
    decreases n
  {
    if n > 0 { SumZero(f, n - 1); }
  }

  /** A sum whose terms vanish except at one index is that term. */
  lemma {:induction false} SumSingle(f: int -> real, n: int, m: int)
    requires 0 <= m < n
    requires forall k :: 0 <= k < n && k != m ==> f(k) == 0.0
    ensures SumF(f, n) == f(m)
    decreases n
  {
    if n - 1 == m {
      SumZero(f, n - 1);
    } else {
      SumSingle(f, n - 1, m);
    }
  }

  /** A sum whose terms are c * b(j), plus a(i) at the one index i, is
      a(i) + c times the sum of b. */
  lemma {:induction false} SumSpikeScaled(f: int -> real, a: int -> real, b: int -> real, c: real, n: int, i: int)
    requires 0 <= i < n
    requires forall j :: 0 <= j < n ==> f(j) == (if j == i then a(j) else 0.0) + c * b(j)
    ensures SumF(f, n) == a(i) + c * SumF(b, n)
    decreases n
  {
    var sb, last := SumF(b, n - 1), b(n - 1);
    if i < n - 1 {
      SumSpikeScaled(f, a, b, c, n - 1, i);
      assert f(n - 1) == c * last;
    } else {
      assert forall k :: 0 <= k < n - 1 ==> f(k) == c * b(k);
      SumScale(b, f, c, n - 1);
      assert f(n - 1) == a(i) + c * last;
    }
    assert SumF(f, n) == a(i) + c * sb + c * last;
    Distribute(c, sb, last);
  }

  /** Equal factors give equal products, in either order. */
  lemma MulCongruent(a: real, x: real, y: real)
    requires x == y
    ensures a * x == a * y && x * a == a * y
  {
  }

  /** c times v, named so that equal factors give equal terms without
      arithmetic. */
  function Scale(c: real, v: real): real { c * v }

  /** Scale distributes over a sum in either argument. */
  lemma ScaleAdd(c: real, a: real, b: real)
    ensures Scale(c, a) + Scale(c, b) == Scale(c, a + b)
    ensures Scale(a, c) + Scale(b, c) == Scale(a + b, c)
  {
  }

  /** Scaling by a product is scaling twice. */
  lemma ScaleTwice(v: real, e: real, w: real, a: real)
    requires v == e * w
    ensures Scale(v, a) == Scale(e, w * a)
  {
  }

  /** Scaling every term scales the sum. */
  lemma {:induction false} SumScaled(f: int -> real, g: int -> real, c: real, n: int)
    requires forall k :: 0 <= k < n ==> g(k) == Scale(c, f(k))
    ensures SumF(g, n) == Scale(c, SumF(f, n))
    decreases n
  {
    if n > 0 {
      SumScaled(f, g, c, n - 1);
      ScaleAdd(c, SumF(f, n - 1), f(n - 1));
    }
  }

  /** Summing over a negative count is summing over none. */
  lemma SumCount(f: int -> real, n: int)
    ensures SumF(f, if n < 0 then 0 else n) == SumF(f, n)
  {
  }

  lemma Distribute(c: real, x: real, y: real)
    ensures c * x + c * y == c * (x + y)
  {
  }

  /** Row j of a double-indexed term. */
  function Row(f: (int, int) -> real, j: int): int -> real { i => f(j, i) }

  /** Column i of a double-indexed term. */
  function Col(f: (int, int) -> real, i: int): int -> real { j => f(j, i) }

  function RowSums(f: (int, int) -> real, cols: int): int -> real { j => SumF(Row(f, j), cols) }

  function ColSums(f: (int, int) -> real, rows: int): int -> real { i => SumF(Col(f, i), rows) }

  /** The sum of f(j, i) over j < rows and i < cols, row by row. */
  function Rows(f: (int, int) -> real, rows: int, cols: int): real {
    SumF(RowSums(f, cols), rows)
  }

  /** The same sum, column by column. */
  function Cols(f: (int, int) -> real, rows: int, cols: int): real {
    SumF(ColSums(f, rows), cols)
  }

  /** A finite double sum can be taken in either order. */
  lemma {:induction false} SumSwap(f: (int, int) -> real, rows: int, cols: int)
    ensures Rows(f, rows, cols) == Cols(f, rows, cols)
    decreases rows
  {
    if rows <= 0 {
      SumZero(ColSums(f, rows), cols);
    } else {
      SumSwap(f, rows - 1, cols);
      SumPlus(ColSums(f, rows - 1), Row(f, rows - 1), ColSums(f, rows), cols);
    }
  }

  /** The terms of f from position a on. */
  function Shift(f: int -> real, a: int): int -> real { i => f(a + i) }

  /** The first a + w terms are the first a, then the w after them. */
  lemma {:induction false} SumShift(f: int -> real, a: int, w: int)
    requires 0 <= a && 0 <= w
    ensures SumF(f, a + w) == SumF(f, a) + SumF(Shift(f, a), w)
    decreases w
  {
    if w > 0 { SumShift(f, a, w - 1); }
  }

  /** The sums of the consecutive blocks of w terms. */
  function BlockSums(f: int -> real, w: int): int -> real { y => SumF(Shift(f, y * w), w) }

  /** A sum over n blocks of w terms, block by block: the sum over a
      row-major grid taken row by row. */
  lemma {:induction false} SumBlocks(f: int -> real, n: int, w: int)
    requires 0 <= n && 0 <= w
    ensures SumF(f, n * w) == SumF(BlockSums(f, w), n)
    decreases n
  {
    if n > 0 {
      SumBlocks(f, n - 1, w);
      assert n * w == (n - 1) * w + w;
      assert (n - 1) * w >= 0;
      SumShift(f, (n - 1) * w, w);
    }
  }
}
