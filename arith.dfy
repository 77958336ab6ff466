/** Integer facts about products, quotients and remainders that the index
    arithmetic of the layers relies on. */
module Arith {

  /** Quotient and remainder are determined by a == q * b + r with 0 <= r < b. */
  lemma DivModUnique(a: int, b: int, q: int, r: int)
    requires b > 0 && 0 <= r < b && a == q * b + r
    ensures a / b == q && a % b == r
  {
    var q2, r2 := a / b, a % b;
    assert (q - q2) * b == r2 - r;
    SmallMultiple(q - q2, b);
  }

  /** a splits into a / b whole blocks of b and the remainder a % b. */
  lemma DivModSplit(a: int, b: int, q: int, r: int)
    requires b > 0 && q == a / b && r == a % b
    ensures a == q * b + r && 0 <= r < b
  {
  }

  /** The only multiple of b strictly between -b and b is 0. */
  lemma SmallMultiple(k: int, b: int)
    requires b > 0 && -b < k * b < b
    ensures k == 0
  {
  }

  /** a < b implies a * c + c <= b * c for positive c. */
  lemma MulLeft(a: int, b: int, c: int)
    requires 0 <= a < b && c > 0
    ensures a * c + c <= b * c
  {
    var k := b - a;
    MulMono(1, k, c);
    assert k * c == b * c - a * c;
  }

  /** Multiplying by a non-negative factor preserves order. */
  lemma MulMono(a: int, b: int, c: int)
    requires 0 <= a <= b && c >= 0
    ensures a * c <= b * c
  {
  }

  /** Block i + 1 of n blocks of size p starts p after block i and ends
      inside the n blocks. */
  lemma NextBlock(i: int, n: int, p: int)
    requires 0 <= i < n && p >= 0
    ensures (i + 1) * p == i * p + p && i * p + p <= p * n && 0 <= i * p
  {
    MulMono(0, i, p);
    if p > 0 { MulLeft(i, n, p); }
  }

  /** i * p as a running sum, the way a position advanced by p each round
      counts: loops that step a position by a block size keep
      `pos == Times(i, p)` and stay clear of nonlinear arithmetic. */
  function Times(i: nat, p: nat): nat {
    if i == 0 then 0 else Times(i - 1, p) + p
  }

  lemma {:induction false} TimesIsProduct(i: nat, p: nat)
    ensures Times(i, p) == i * p
  {
    if i > 0 {
      TimesIsProduct(i - 1, p);
      assert (i - 1) * p + p == i * p;
    }
  }

  /** Block i < n of size p ends inside the first n blocks. */
  lemma {:induction false} TimesBound(i: nat, n: nat, p: nat)
    requires i < n
    ensures Times(i, p) + p <= Times(n, p)
    decreases n
  {
    if i < n - 1 { TimesBound(i, n - 1, p); }
  }

  /** d * (k * k) is never negative when d is not. */
  lemma SquareNonnegative(k: int, d: int)
    requires d >= 0
    ensures k * k >= 0 && d * (k * k) >= 0
  {
  }

  /** a < n * b implies a / b < n. */
  lemma DivBound(a: int, b: int, n: int)
    requires b > 0 && 0 <= a < n * b
    ensures 0 <= a / b < n
  {
    var q := a / b;
    assert a == q * b + a % b;
    if q >= n {
      MulMono(n, q, b);
    }
  }

  /** Cell (y, x) of plane o of h-by-w planes, as that plane's offset plus
      the cell's offset inside it. */
  lemma PlaneOffset(o: int, y: int, x: int, h: int, w: int)
    ensures o * (h * w) + (y * w + x) == (o * h + y) * w + x
  {
  }

  /** Row-major position (r, c) of a rows-by-cols matrix. */
  lemma MatrixIndex(r: int, c: int, rows: int, cols: int)
    requires 0 <= r < rows && 0 <= c < cols
    ensures 0 <= r * cols + c < rows * cols
    ensures (r * cols + c) / cols == r && (r * cols + c) % cols == c
  {
    MulLeft(r, rows, cols);
    MulMono(0, r, cols);
    DivModUnique(r * cols + c, cols, r, c);
  }

  /** Block c of n blocks of kk entries each, inside block o of od
      super-blocks: the bounds of a nested row-major layout. */
  lemma BlockBound(o: int, c: int, od: int, d: int, kk: int)
    requires 0 <= o < od && 0 <= c <= d && kk >= 0
    ensures 0 <= (o * d + c) * kk
    ensures c < d ==> (o * d + c) * kk + kk <= od * d * kk
    ensures o * d * kk + d * kk <= od * d * kk
  {
    MulMono(0, o, d);
    MulMono(0, o * d + c, kk);
    MulMono(o + 1, od, d);
    assert (o + 1) * d == o * d + d;
    if c < d {
      MulMono(o * d + c + 1, od * d, kk);
      assert (o * d + c + 1) * kk == (o * d + c) * kk + kk;
    }
    MulMono(o * d + d, od * d, kk);
    assert (o * d + d) * kk == o * d * kk + d * kk;
  }

  /** ((o * d + c) * k + wy) * k + wx splits into whole super-blocks of
      d * k * k, whole blocks of k * k and the offset inside the block. */
  lemma BlockSplit(o: int, c: int, wy: int, wx: int, d: int, k: int)
    ensures ((o * d + c) * k + wy) * k + wx == o * (d * (k * k)) + (c * (k * k) + (wy * k + wx))
  {
    assert ((o * d + c) * k + wy) * k == (o * d + c) * k * k + wy * k;
    assert (o * d + c) * k * k == o * d * (k * k) + c * (k * k);
    assert o * d * (k * k) == o * (d * (k * k));
  }
}
