/** The (width, height, depth) triple that the network uses to describe the
    input and output tensor of every layer (tipl::geometry<3>), and the
    integer helpers the layers use on it. */
module Shapes {
  import opened Arith

  /** A tensor shape. The three extents are kept as the signed integers the
      topology parser reads; `Size` and `PlaneSize` are exact products. */
  datatype Shape = Shape(w: int, h: int, d: int) {
    /** Number of elements: width * height * depth. */
    function Size(): (r: int)
      ensures w > 0 && h > 0 && d > 0 ==> r > 0
    {
      w * h * d
    }
    /** Number of elements in one depth slice: width * height. */
    function PlaneSize(): (r: int)
      ensures w > 0 && h > 0 ==> r > 0
    {
      w * h
    }
  }

  predicate Positive(s: Shape) { s.w > 0 && s.h > 0 && s.d > 0 }

  function Abs(x: int): int { if x < 0 then -x else x }

  /** C++ integer division, which truncates toward zero (Dafny's `/` is
      Euclidean). The remainder takes the sign of the dividend. */
  function CDiv(a: int, b: int): (q: int)
    requires b != 0
    ensures a >= 0 && b > 0 ==> q == a / b
    ensures a >= 0 ==> 0 <= a - q * b < Abs(b)
    ensures a < 0 ==> -Abs(b) < a - q * b <= 0
  {
    var n: nat, m: nat := Abs(a), Abs(b);
    var q0 := n / m;
    EuclidFacts(n, m, q0);
    if (a < 0) == (b < 0) then
      assert q0 * b == (if b < 0 then -(q0 * m) else q0 * m) by { SignedProduct(q0, b); }
      q0
    else
      assert -q0 * b == (if b < 0 then q0 * m else -(q0 * m)) by { SignedProduct(q0, b); }
      -q0
  }

  lemma EuclidFacts(n: nat, m: nat, q0: int)
    requires m > 0 && q0 == n / m
    ensures 0 <= n - q0 * m < m
  {
  }

  lemma SignedProduct(q: int, b: int)
    ensures q * b == (if b < 0 then -(q * Abs(b)) else q * Abs(b))
    ensures -q * b == -(q * b)
  {
  }

  /** The size of a positive shape is positive and is the plane size times
      the depth. */
  lemma PositiveSize(s: Shape)
    requires Positive(s)
    ensures s.PlaneSize() > 0 && s.Size() > 0
    ensures s.Size() == s.PlaneSize() * s.d
  {
    assert s.w * s.h > 0;
    assert s.w * s.h * s.d > 0;
  }

  /** Row-major position of element (c, y, x) of a tensor of shape s:
      channel c, row y, column x. */
  function Index(s: Shape, c: int, y: int, x: int): int {
    (c * s.h + y) * s.w + x
  }

  // Decoding a position back into (channel, row, column).
  function ColumnOf(s: Shape, o: int): int requires s.w > 0 { o % s.w }
  function RowOf(s: Shape, o: int): int requires s.w > 0 && s.h > 0 { (o / s.w) % s.h }
  function ChannelOf(s: Shape, o: int): int requires s.w > 0 && s.h > 0 { (o / s.w) / s.h }

  /** The position of (c, y, x) decodes back to (c, y, x). */
  lemma IndexDecode(s: Shape, d: int, c: int, y: int, x: int)
    requires s.w > 0 && s.h > 0
    requires 0 <= c < d && 0 <= y < s.h && 0 <= x < s.w
    ensures 0 <= Index(s, c, y, x) < s.w * s.h * d
    ensures ColumnOf(s, Index(s, c, y, x)) == x
    ensures RowOf(s, Index(s, c, y, x)) == y
    ensures ChannelOf(s, Index(s, c, y, x)) == c
  {
    var o := Index(s, c, y, x);
    var row := c * s.h + y;
    DivModUnique(o, s.w, row, x);
    DivModUnique(row, s.h, c, y);
    MulLeft(c, d, s.h);
    assert row < d * s.h;
    MulLeft(row, d * s.h, s.w);
    assert o < d * s.h * s.w;
    assert d * s.h * s.w == s.w * s.h * d;
  }

  /** Every position is the encoding of its decoding. */
  lemma IndexEncode(s: Shape, d: int, o: int)
    requires s.w > 0 && s.h > 0 && 0 <= o < s.w * s.h * d
    ensures 0 <= ChannelOf(s, o) < d
    ensures 0 <= RowOf(s, o) < s.h && 0 <= ColumnOf(s, o) < s.w
    ensures Index(s, ChannelOf(s, o), RowOf(s, o), ColumnOf(s, o)) == o
  {
    var w, h := s.w, s.h;
    var row := o / w;
    assert w * h * d == (h * d) * w;
    DivBound(o, w, h * d);
    DivBound(row, h, d);
    assert row == (row / h) * h + row % h;
    assert o == row * w + o % w;
  }

  /** Position o * (w * h) + t, with t inside one plane, lies in channel o,
      at row t / w and column t % w. */
  lemma PlaneSplit(s: Shape, o: int, t: int)
    requires s.w > 0 && s.h > 0 && 0 <= o && 0 <= t < s.w * s.h
    ensures ChannelOf(s, o * (s.w * s.h) + t) == o
    ensures RowOf(s, o * (s.w * s.h) + t) == t / s.w
    ensures ColumnOf(s, o * (s.w * s.h) + t) == t % s.w
  {
    var w, h := s.w, s.h;
    var y, x := t / w, t % w;
    DivBound(t, w, h);
    var q := o * (w * h) + t;
    assert t == y * w + x;
    assert o * (w * h) == (o * h) * w;
    assert q == (o * h + y) * w + x;
    DivModUnique(q, w, o * h + y, x);
    DivModUnique(o * h + y, h, o, y);
  }

  /** The position of (c, y, x) is c whole planes plus y rows plus x. */
  lemma IndexSplit(s: Shape, c: int, y: int, x: int)
    ensures Index(s, c, y, x) == c * (s.h * s.w) + (y * s.w + x)
  {
    assert (c * s.h + y) * s.w == c * s.h * s.w + y * s.w;
  }

  /** Every (c, y, x) inside a shape has a position inside its buffer. */
  lemma IndexInRange(s: Shape, c: int, y: int, x: int)
    requires 0 <= c < s.d && 0 <= y < s.h && 0 <= x < s.w
    ensures 0 <= Index(s, c, y, x) < s.Size()
  {
    IndexDecode(s, s.d, c, y, x);
  }
}
