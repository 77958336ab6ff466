/** The convolution layer (convolutional_layer in ml/cnn.hpp): a valid
    cross-correlation of the input with one k-by-k kernel per pair of
    output and input channels, the back-propagation of the error to the
    input, and the weight and bias gradients. */
module Convolution {
  import opened Shapes
  import opened Vectors
  import opened Arith
  import opened Sums
  import opened Grids

  /** Input shape, output shape and kernel size of an initialised layer. */
  datatype Geom = Geom(inS: Shape, outS: Shape, k: int)

  /** On positive shapes, what init accepts: the kernel spans the difference
      between input and output in both width and height. */
  predicate Valid(gm: Geom) {
    Positive(gm.inS) && Positive(gm.outS) &&
    gm.inS.w - gm.outS.w + 1 == gm.k && gm.inS.h - gm.outS.h + 1 == gm.k
  }

  /** k * k weights per (output channel, input channel) pair. */
  function WeightCount(gm: Geom): int { gm.k * gm.k * gm.inS.d * gm.outS.d }

  /** Position in `weight` of tap (wy, wx) of the kernel joining input
      channel c to output channel o: (o * in_d + c) * k * k + wy * k + wx. */
  function Tap(gm: Geom, o: int, c: int, wy: int, wx: int): int {
    ((o * gm.inS.d + c) * gm.k + wy) * gm.k + wx
  }

  /** Every weight and input read of the forward pass lies inside the
      weight vector and the input segment. */
  lemma ReadsInRange(gm: Geom, o: int, c: int, y: int, x: int, wy: int, wx: int)
    requires Valid(gm)
    requires 0 <= o < gm.outS.d && 0 <= c < gm.inS.d && 0 <= y < gm.outS.h && 0 <= x < gm.outS.w
    requires 0 <= wy < gm.k && 0 <= wx < gm.k
    ensures 0 <= Tap(gm, o, c, wy, wx) < WeightCount(gm)
    ensures 0 <= Index(gm.inS, c, y + wy, x + wx) < gm.inS.Size()
  {
    var d, od, k := gm.inS.d, gm.outS.d, gm.k;
    MulLeft(o, od, d);
    assert 0 <= o * d + c < od * d;
    IndexDecode(Shape(k, k, 0), d * od, o * d + c, wy, wx);
    assert k * k * (d * od) == WeightCount(gm);
    IndexDecode(gm.inS, d, c, y + wy, x + wx);
  }

  /** Consecutive taps of a kernel row are consecutive weights, and
      consecutive columns of an input row consecutive positions. */
  lemma RowShift(gm: Geom, o: int, c: int, y: int, x: int, wy: int, wx: int)
    ensures Tap(gm, o, c, wy, wx) == Tap(gm, o, c, wy, 0) + wx
    ensures Index(gm.inS, c, y + wy, x + wx) == Index(gm.inS, c, y + wy, x) + wx
  {
  }

  // ---------------------------------------------------------------------
  // Forward pass

  /** Products of kernel row wy with the input under it, for output cell
      (o, y, x) and input channel c. */
  function Product(gm: Geom, weight: seq<real>, data: seq<real>, o: int, c: int, y: int, x: int, wy: int): int -> real {
    wx => At(weight, Tap(gm, o, c, wy, wx)) * At(data, Index(gm.inS, c, y + wy, x + wx))
  }

  /** vec::dot of kernel row wy with the input row under it. */
  function RowDot(gm: Geom, weight: seq<real>, data: seq<real>, o: int, c: int, y: int, x: int, wy: int): real {
    SumF(Product(gm, weight, data, o, c, y, x, wy), gm.k)
  }

  function RowDots(gm: Geom, weight: seq<real>, data: seq<real>, o: int, c: int, y: int, x: int): int -> real {
    wy => RowDot(gm, weight, data, o, c, y, x, wy)
  }

  /** The k-by-k correlation of input channel c at (y, x) with the kernel
      of (o, c). */
  function Correlate(gm: Geom, weight: seq<real>, data: seq<real>, o: int, c: int, y: int, x: int): real {
    SumF(RowDots(gm, weight, data, o, c, y, x), gm.k)
  }

  function Channels(gm: Geom, weight: seq<real>, data: seq<real>, o: int, y: int, x: int): int -> real {
    c => Correlate(gm, weight, data, o, c, y, x)
  }

  /** Output cell (o, y, x): the bias of channel o plus the correlations
      over every input channel. */
  function Cell(gm: Geom, weight: seq<real>, bias: seq<real>, data: seq<real>, o: int, y: int, x: int): real {
    At(bias, o) + SumF(Channels(gm, weight, data, o, y, x), gm.inS.d)
  }

  /** Row y of output plane o once the first n input channels are added. */
  function PartialRow(gm: Geom, weight: seq<real>, bias: seq<real>, data: seq<real>, o: int, n: int, y: int): (r: seq<real>)
    ensures |r| == Count(gm.outS.w)
  {
    seq(Count(gm.outS.w), x => At(bias, o) + SumF(Channels(gm, weight, data, o, y, x), n))
  }

  function PartialRows(gm: Geom, weight: seq<real>, bias: seq<real>, data: seq<real>, o: int, n: int): int -> seq<real> {
    y => PartialRow(gm, weight, bias, data, o, n, y)
  }

  /** Output plane o once the first n input channels are added. */
  function PartialPlane(gm: Geom, weight: seq<real>, bias: seq<real>, data: seq<real>, o: int, n: int): seq<real> {
    Concat(PartialRows(gm, weight, bias, data, o, n), gm.outS.h)
  }

  function OutputPlanes(gm: Geom, weight: seq<real>, bias: seq<real>, data: seq<real>): int -> seq<real> {
    o => PartialPlane(gm, weight, bias, data, o, gm.inS.d)
  }

  /** The output segment forward_propagation writes: the planes of every
      output channel, each row by row. */
  function ForwardSpec(gm: Geom, weight: seq<real>, bias: seq<real>, data: seq<real>): seq<real> {
    Concat(OutputPlanes(gm, weight, bias, data), gm.outS.d)
  }

  /** Output cell (o, y, x) sits at position (o * out_h + y) * out_w + x of
      the output segment, which has out_w * out_h * out_d entries. */
  lemma ForwardSpecIndex(gm: Geom, weight: seq<real>, bias: seq<real>, data: seq<real>, o: int, y: int, x: int)
    requires Valid(gm) && 0 <= o < gm.outS.d && 0 <= y < gm.outS.h && 0 <= x < gm.outS.w
    ensures |ForwardSpec(gm, weight, bias, data)| == gm.outS.Size()
    ensures 0 <= Index(gm.outS, o, y, x) < gm.outS.Size()
    ensures ForwardSpec(gm, weight, bias, data)[Index(gm.outS, o, y, x)] == Cell(gm, weight, bias, data, o, y, x)
  {
    var w, h, d := gm.outS.w, gm.outS.h, gm.outS.d;
    var p := h * w;
    PositiveSize(gm.outS);
    var planes := OutputPlanes(gm, weight, bias, data);
    forall oo | 0 <= oo < d
      ensures |planes(oo)| == p
    {
      ConcatLength(PartialRows(gm, weight, bias, data, oo, gm.inS.d), h, w);
    }
    ConcatLength(planes, d, p);
    assert d * p == gm.outS.Size();
    IndexDecode(gm.outS, d, o, y, x);
    var rows := PartialRows(gm, weight, bias, data, o, gm.inS.d);
    ConcatIndex(rows, h, w, y, x);
    MulLeft(y, h, w);
    MulMono(0, y, w);
    ConcatIndex(planes, d, p, o, y * w + x);
    IndexSplit(gm.outS, o, y, x);
  }

  /** Row y of the correlations of input channel c with the kernel of (o, c). */
  function CorrelateRow(gm: Geom, weight: seq<real>, data: seq<real>, o: int, c: int, y: int): (r: seq<real>)
    ensures |r| == Count(gm.outS.w)
  {
    seq(Count(gm.outS.w), x => Correlate(gm, weight, data, o, c, y, x))
  }

  function CorrelateRows(gm: Geom, weight: seq<real>, data: seq<real>, o: int, c: int): int -> seq<real> {
    y => CorrelateRow(gm, weight, data, o, c, y)
  }

  /** The correlations of input channel c with the kernel of (o, c), over
      one output plane. */
  function CorrelatePlane(gm: Geom, weight: seq<real>, data: seq<real>, o: int, c: int): seq<real> {
    Concat(CorrelateRows(gm, weight, data, o, c), gm.outS.h)
  }

  /** forward_propagation: `out[off..]` receives the correlation of `data`
      with the kernels, plus the bias. */
  method Forward(gm: Geom, weight: seq<real>, bias: seq<real>, data: seq<real>, out: array<real>, off: nat)
    requires Valid(gm) && |weight| == WeightCount(gm) && |bias| == gm.outS.d && |data| >= gm.inS.Size()
    requires off + gm.outS.Size() <= out.Length
    modifies out
    ensures out[off..off + gm.outS.Size()] == ForwardSpec(gm, weight, bias, data)
    ensures out[..off] == old(out[..off]) && out[off + gm.outS.Size()..] == old(out[off + gm.outS.Size()..])
  {
    var p := gm.outS.PlaneSize();
    var d := gm.outS.d;
    PositiveSize(gm.outS);
    TimesIsProduct(d, p);
    ghost var end := off + Times(d, p);
    assert end == off + gm.outS.Size();
    var o, base := 0, off;
    while o < d
      invariant 0 <= o <= d && base == off + Times(o, p) && base <= end
      invariant out[off..base] == Concat(OutputPlanes(gm, weight, bias, data), o)
      invariant out[..off] == old(out[..off]) && out[base..] == old(out[base..])
    {
      TimesBound(o, d, p);
      assert base + p <= end;
      ForwardPlane(gm, weight, bias, data, o, out, off, base);
      assert Times(o + 1, p) == Times(o, p) + p;
      o, base := o + 1, base + p;
    }
  }

  /** One pass of forward_propagation's channel loop: plane o is written
      right after planes 0 .. o - 1. */
  method ForwardPlane(gm: Geom, weight: seq<real>, bias: seq<real>, data: seq<real>, o: int,
                      out: array<real>, off: nat, base: nat)
    requires Valid(gm) && 0 <= o < |bias| && off <= base && base + gm.outS.PlaneSize() <= out.Length
    requires out[off..base] == Concat(OutputPlanes(gm, weight, bias, data), o)
    modifies out
    ensures out[off..base + gm.outS.PlaneSize()] == Concat(OutputPlanes(gm, weight, bias, data), o + 1)
    ensures out[..off] == old(out[..off]) && out[base + gm.outS.PlaneSize()..] == old(out[base + gm.outS.PlaneSize()..])
  {
    ghost var before := out[..];
    ForwardChannel(gm, weight, bias, data, o, out, base);
    GrowPrefix(before, out[..], OutputPlanes(gm, weight, bias, data), o, off, base - off, base + gm.outS.PlaneSize());
  }

  /** One output plane: filled with the bias, then every input channel's
      correlation added. */
  method ForwardChannel(gm: Geom, weight: seq<real>, bias: seq<real>, data: seq<real>, o: int, out: array<real>, base: nat)
    requires Valid(gm) && 0 <= o < |bias|
    requires base + gm.outS.PlaneSize() <= out.Length
    modifies out
    ensures out[base..base + gm.outS.PlaneSize()] == PartialPlane(gm, weight, bias, data, o, gm.inS.d)
    ensures out[..base] == old(out[..base]) && out[base + gm.outS.PlaneSize()..] == old(out[base + gm.outS.PlaneSize()..])
  {
    var p := gm.outS.w * gm.outS.h;
    PositiveSize(gm.outS);
    Fill(out, base, p, bias[o]);
    ChannelStart(gm, weight, bias, data, o);
    var c := 0;
    while c < gm.inS.d
      invariant 0 <= c <= gm.inS.d
      invariant out[base..base + p] == PartialPlane(gm, weight, bias, data, o, c)
      invariant out[..base] == old(out[..base]) && out[base + p..] == old(out[base + p..])
    {
      AddCorrelation(gm, weight, data, o, c, out, base);
      ChannelStep(gm, weight, bias, data, o, c);
      c := c + 1;
    }
  }

  /** Before any input channel is added, the plane holds the bias. */
  lemma ChannelStart(gm: Geom, weight: seq<real>, bias: seq<real>, data: seq<real>, o: int)
    requires Valid(gm) && 0 <= o < |bias|
    ensures PartialPlane(gm, weight, bias, data, o, 0) == seq(gm.outS.w * gm.outS.h, _ => bias[o])
  {
    var w, h := gm.outS.w, gm.outS.h;
    var rows := PartialRows(gm, weight, bias, data, o, 0);
    ConcatLength(rows, h, w);
    assert h * w == w * h;
    forall t | 0 <= t < w * h
      ensures PartialPlane(gm, weight, bias, data, o, 0)[t] == bias[o]
    {
      ConcatAt(rows, h, w, t);
    }
  }

  /** Adding channel c's correlation advances the partial plane by one
      channel. */
  lemma ChannelStep(gm: Geom, weight: seq<real>, bias: seq<real>, data: seq<real>, o: int, c: int)
    requires Valid(gm) && 0 <= c
    ensures |PartialPlane(gm, weight, bias, data, o, c)| == |CorrelatePlane(gm, weight, data, o, c)|
    ensures PartialPlane(gm, weight, bias, data, o, c + 1)
         == Plus(PartialPlane(gm, weight, bias, data, o, c), CorrelatePlane(gm, weight, data, o, c))
  {
    ConcatPlus(PartialRows(gm, weight, bias, data, o, c), CorrelateRows(gm, weight, data, o, c),
               PartialRows(gm, weight, bias, data, o, c + 1), gm.outS.h);
  }

  /** Adds the correlation of input channel c to output plane o, row by row. */
  method AddCorrelation(gm: Geom, weight: seq<real>, data: seq<real>, o: int, c: int, out: array<real>, base: nat)
    requires Valid(gm) && base + gm.outS.PlaneSize() <= out.Length
    modifies out
    ensures |CorrelatePlane(gm, weight, data, o, c)| == gm.outS.PlaneSize()
    ensures out[base..base + gm.outS.PlaneSize()]
         == Plus(old(out[base..base + gm.outS.PlaneSize()]), CorrelatePlane(gm, weight, data, o, c))
    ensures out[..base] == old(out[..base]) && out[base + gm.outS.PlaneSize()..] == old(out[base + gm.outS.PlaneSize()..])
  {
    var w, h := gm.outS.w, gm.outS.h;
    var p := gm.outS.PlaneSize();
    PositiveSize(gm.outS);
    ghost var full := CorrelatePlane(gm, weight, data, o, c);
    ghost var out0 := out[..];
    ConcatLength(CorrelateRows(gm, weight, data, o, c), h, w);
    TimesIsProduct(h, w);
    var y, index := 0, 0;
    while y < h
      invariant 0 <= y <= h && index == Times(y, w) && index <= p
      invariant AddedFrom(out0, out[..], full, base, index)
    {
      TimesBound(y, h, w);
      PlaneRow(gm, weight, data, o, c, y, index);
      ghost var mid := out[..];
      AddCorrelationRow(gm, weight, data, o, c, y, full, index, out, base);
      AddedChain(out0, mid, out[..], full, base, index, w);
      y, index := y + 1, index + w;
    }
    AddedSlices(out0, out[..], full, base, p);
  }

  /** Row y of a correlation plane starts at `index`, y * w. */
  lemma PlaneRow(gm: Geom, weight: seq<real>, data: seq<real>, o: int, c: int, y: int, index: int)
    requires Valid(gm) && 0 <= y < gm.outS.h && index == Times(y, gm.outS.w)
    ensures |CorrelatePlane(gm, weight, data, o, c)| == gm.outS.PlaneSize()
    ensures index + gm.outS.w <= gm.outS.PlaneSize()
    ensures forall x :: 0 <= x < gm.outS.w ==>
      Correlate(gm, weight, data, o, c, y, x) == CorrelatePlane(gm, weight, data, o, c)[index + x]
  {
    var w, h := gm.outS.w, gm.outS.h;
    ConcatLength(CorrelateRows(gm, weight, data, o, c), h, w);
    TimesIsProduct(y, w);
    MulLeft(y, h, w);
    forall x | 0 <= x < w
      ensures Correlate(gm, weight, data, o, c, y, x) == CorrelatePlane(gm, weight, data, o, c)[index + x]
    {
      ConcatIndex(CorrelateRows(gm, weight, data, o, c), h, w, y, x);
    }
  }

  /** Adds the correlation of input channel c to row y of output plane o;
      `full` holds that row's sums from position `index` on. */
  method AddCorrelationRow(gm: Geom, weight: seq<real>, data: seq<real>, o: int, c: int, y: int,
                           ghost full: seq<real>, index: nat, out: array<real>, base: nat)
    requires Valid(gm) && base + index + gm.outS.w <= out.Length && index + gm.outS.w <= |full|
    requires forall x :: 0 <= x < gm.outS.w ==>
      index + x < |full| && Correlate(gm, weight, data, o, c, y, x) == full[index + x]
    modifies out
    ensures AddedFrom(old(out[..]), out[..], full[index..], base + index, gm.outS.w)
  {
    ghost var out0 := out[..];
    var x := 0;
    while x < gm.outS.w
      invariant 0 <= x <= gm.outS.w
      invariant AddedFrom(out0, out[..], full[index..], base + index, x)
    {
      var sum := CellCorrelate(gm, weight, data, o, c, y, x);
      assert sum == full[index..][x];
      out[base + index + x] := out[base + index + x] + sum;
      x := x + 1;
    }
  }

  /** The k-by-k correlation at one output cell, kernel row by kernel row. */
  method CellCorrelate(gm: Geom, weight: seq<real>, data: seq<real>, o: int, c: int, y: int, x: int) returns (sum: real)
    ensures sum == Correlate(gm, weight, data, o, c, y, x)
  {
    sum := 0.0;
    var wy := 0;
    while wy < gm.k
      invariant 0 <= wy && (wy <= gm.k || wy == 0)
      invariant sum == SumF(RowDots(gm, weight, data, o, c, y, x), wy)
    {
      sum := sum + RowDot(gm, weight, data, o, c, y, x, wy);
      wy := wy + 1;
    }
  }
}
