/** The convolution's backward pass is the adjoint of its forward pass:
    the error-weighted output of the forward pass (biases aside) equals
    the inner product of the backward pass's input error with the input.
    Both sides are the sum of g(o, y, x) * weight(o, c, wy, wx) *
    input(c, y + wy, x + wx) over every output cell, input channel and tap;
    they differ only in the order the sum is taken. */
module ConvolutionAdjoint {
  import opened Arith
  import opened Shapes
  import opened Vectors
  import opened Sums
  import opened Scatter
  import opened Convolution
  import opened ConvolutionGradients

  /** Entry i of a times entry i of b. */
  function Products(a: seq<real>, b: seq<real>): int -> real { i => Scale(At(a, i), At(b, i)) }

  /** The error at output cell (o, y, x) times the correlation of input
      channel c under that cell. */
  function Weighted(gm: Geom, weight: seq<real>, g: seq<real>, data: seq<real>, o: int, c: int, y: int, x: int): real {
    Scale(At(g, Index(gm.outS, o, y, x)), Correlate(gm, weight, data, o, c, y, x))
  }

  // The backward order: output channel, input channel, row, column.

  function LineSum(gm: Geom, weight: seq<real>, g: seq<real>, data: seq<real>, o: int, c: int, y: int): int -> real {
    x => Weighted(gm, weight, g, data, o, c, y, x)
  }

  function PlaneSum(gm: Geom, weight: seq<real>, g: seq<real>, data: seq<real>, o: int, c: int): int -> real {
    y => SumF(LineSum(gm, weight, g, data, o, c, y), gm.outS.w)
  }

  function ChannelSum(gm: Geom, weight: seq<real>, g: seq<real>, data: seq<real>, o: int): int -> real {
    c => SumF(PlaneSum(gm, weight, g, data, o, c), gm.outS.h)
  }

  function BackSum(gm: Geom, weight: seq<real>, g: seq<real>, data: seq<real>): int -> real {
    o => SumF(ChannelSum(gm, weight, g, data, o), gm.inS.d)
  }

  // The forward order: output channel, row, column, input channel.

  function CellSum(gm: Geom, weight: seq<real>, g: seq<real>, data: seq<real>, o: int, y: int, x: int): int -> real {
    c => Weighted(gm, weight, g, data, o, c, y, x)
  }

  function RowSum(gm: Geom, weight: seq<real>, g: seq<real>, data: seq<real>, o: int, y: int): int -> real {
    x => SumF(CellSum(gm, weight, g, data, o, y, x), gm.inS.d)
  }

  function OutPlaneSum(gm: Geom, weight: seq<real>, g: seq<real>, data: seq<real>, o: int): int -> real {
    y => SumF(RowSum(gm, weight, g, data, o, y), gm.outS.w)
  }

  function ForwardSum(gm: Geom, weight: seq<real>, g: seq<real>, data: seq<real>): int -> real {
    o => SumF(OutPlaneSum(gm, weight, g, data, o), gm.outS.h)
  }

  /** The backward pass is the adjoint of the forward pass: for every
      input and every output error g, the sum of g times the forward
      output without biases equals the sum of the input error times the
      input. */
  lemma BackIsAdjoint(gm: Geom, weight: seq<real>, g: seq<real>, data: seq<real>)
    requires Valid(gm)
    ensures SumF(Products(g, ForwardSpec(gm, weight, [], data)), gm.outS.Size()) ==
            SumF(Products(InputError(gm, weight, g), data), gm.inS.Size())
  {
    ForwardOrder(gm, weight, g, data);
    forall o | 0 <= o < gm.outS.d
      ensures ForwardSum(gm, weight, g, data)(o) == BackSum(gm, weight, g, data)(o)
    {
      PlaneSwap(gm, weight, g, data, o);
    }
    SumExt(ForwardSum(gm, weight, g, data), BackSum(gm, weight, g, data), gm.outS.d);
    BackOrder(gm, weight, g, data);
  }

  /** The biases only add a constant per output channel: the forward
      output is its bias-free part plus the bias of the cell's channel. */
  lemma BiasShifts(gm: Geom, weight: seq<real>, bias: seq<real>, data: seq<real>, o: int, y: int, x: int)
    requires Valid(gm) && 0 <= o < gm.outS.d && 0 <= y < gm.outS.h && 0 <= x < gm.outS.w
    ensures |ForwardSpec(gm, weight, bias, data)| == |ForwardSpec(gm, weight, [], data)| == gm.outS.Size()
    ensures 0 <= Index(gm.outS, o, y, x) < gm.outS.Size()
    ensures ForwardSpec(gm, weight, bias, data)[Index(gm.outS, o, y, x)] ==
            ForwardSpec(gm, weight, [], data)[Index(gm.outS, o, y, x)] + At(bias, o)
  {
    ForwardSpecIndex(gm, weight, bias, data, o, y, x);
    ForwardSpecIndex(gm, weight, [], data, o, y, x);
  }

  // ---------------------------------------------------------------------
  // The backward side: the terms' inner product with the input.

  /** The input error's inner product with the input is the sum in the
      backward order. */
  lemma BackOrder(gm: Geom, weight: seq<real>, g: seq<real>, data: seq<real>)
    requires Valid(gm)
    ensures SumF(Products(InputError(gm, weight, g), data), gm.inS.Size()) ==
            SumF(BackSum(gm, weight, g, data), gm.outS.d)
  {
    var ts := BackTerms(gm, weight, g, 0);
    var e := InputError(gm, weight, g);
    forall q | 0 <= q < gm.inS.Size()
      ensures Products(e, data)(q) == Gathered(ts, data)(q)
    {
    }
    SumExt(Products(e, data), Gathered(ts, data), gm.inS.Size());
    BackWithin(gm, weight, g, 0);
    GatherDot(ts, data, gm.inS.Size());
    TermDotFlat(OutputChannels(gm, weight, g, 0), gm.outS.d, data);
    forall o | 0 <= o < gm.outS.d
      ensures FlatDots(OutputChannels(gm, weight, g, 0), data)(o) == BackSum(gm, weight, g, data)(o)
    {
      ChannelDot(gm, weight, g, data, o);
    }
    SumExt(FlatDots(OutputChannels(gm, weight, g, 0), data), BackSum(gm, weight, g, data), gm.outS.d);
  }

  lemma ChannelDot(gm: Geom, weight: seq<real>, g: seq<real>, data: seq<real>, o: int)
    ensures TermDot(ChannelTerms(gm, weight, g, 0, o), data) == SumF(ChannelSum(gm, weight, g, data, o), gm.inS.d)
  {
    var f := ChannelPlanes(gm, weight, g, 0, o);
    TermDotFlat(f, gm.inS.d, data);
    forall c | 0 <= c < gm.inS.d
      ensures FlatDots(f, data)(c) == ChannelSum(gm, weight, g, data, o)(c)
    {
      PlaneDot(gm, weight, g, data, o, c);
    }
    SumExt(FlatDots(f, data), ChannelSum(gm, weight, g, data, o), gm.inS.d);
  }

  lemma PlaneDot(gm: Geom, weight: seq<real>, g: seq<real>, data: seq<real>, o: int, c: int)
    ensures TermDot(PlaneTerms(gm, weight, g, 0, o, c), data) == SumF(PlaneSum(gm, weight, g, data, o, c), gm.outS.h)
  {
    var f := PlaneLines(gm, weight, g, 0, o, c);
    TermDotFlat(f, gm.outS.h, data);
    forall y | 0 <= y < gm.outS.h
      ensures FlatDots(f, data)(y) == PlaneSum(gm, weight, g, data, o, c)(y)
    {
      LineDot(gm, weight, g, data, o, c, y);
    }
    SumExt(FlatDots(f, data), PlaneSum(gm, weight, g, data, o, c), gm.outS.h);
  }

  lemma LineDot(gm: Geom, weight: seq<real>, g: seq<real>, data: seq<real>, o: int, c: int, y: int)
    ensures TermDot(LineTerms(gm, weight, g, 0, o, c, y), data) == SumF(LineSum(gm, weight, g, data, o, c, y), gm.outS.w)
  {
    var f := LineCells(gm, weight, g, 0, o, c, y);
    TermDotFlat(f, gm.outS.w, data);
    forall x | 0 <= x < gm.outS.w
      ensures FlatDots(f, data)(x) == LineSum(gm, weight, g, data, o, c, y)(x)
    {
      CellDot(gm, weight, g, data, o, c, y, x);
    }
    SumExt(FlatDots(f, data), LineSum(gm, weight, g, data, o, c, y), gm.outS.w);
  }

  /** The k axpys of one output cell and input channel contribute the
      cell's error times the correlation under it. */
  lemma CellDot(gm: Geom, weight: seq<real>, g: seq<real>, data: seq<real>, o: int, c: int, y: int, x: int)
    ensures TermDot(CellTerms(gm, weight, g, 0, o, c, y, x), data) == Weighted(gm, weight, g, data, o, c, y, x)
  {
    forall wy | 0 <= wy < gm.k
      ensures TermDot(CellRows(gm, weight, g, 0, o, c, y, x)(wy), data) ==
              Scale(At(g, Index(gm.outS, o, y, x)), RowDots(gm, weight, data, o, c, y, x)(wy))
    {
      RowDotIs(gm, weight, g, data, o, c, y, x, wy);
    }
    FlatScaled(CellRows(gm, weight, g, 0, o, c, y, x), RowDots(gm, weight, data, o, c, y, x),
               At(g, Index(gm.outS, o, y, x)), gm.k, data);
  }

  /** One axpy contributes the cell's error times one kernel row's dot
      product with the input row under it. */
  lemma RowDotIs(gm: Geom, weight: seq<real>, g: seq<real>, data: seq<real>, o: int, c: int, y: int, x: int, wy: int)
    ensures TermDot(CellRows(gm, weight, g, 0, o, c, y, x)(wy), data) ==
            Scale(At(g, Index(gm.outS, o, y, x)), RowDots(gm, weight, data, o, c, y, x)(wy))
  {
    ScaledDot(RowTerms(gm, weight, g, 0, o, c, y, x, wy), data, At(g, Index(gm.outS, o, y, x)),
              wx => At(weight, Tap(gm, o, c, wy, wx)), Product(gm, weight, data, o, c, y, x, wy), gm.k);
  }

  // ---------------------------------------------------------------------
  // The forward side: the error-weighted output, cell by cell.

  /** The error-weighted forward output is the sum in the forward order. */
  lemma ForwardOrder(gm: Geom, weight: seq<real>, g: seq<real>, data: seq<real>)
    requires Valid(gm)
    ensures SumF(Products(g, ForwardSpec(gm, weight, [], data)), gm.outS.Size()) ==
            SumF(ForwardSum(gm, weight, g, data), gm.outS.d)
  {
    var w, h, d := gm.outS.w, gm.outS.h, gm.outS.d;
    var pr := Products(g, ForwardSpec(gm, weight, [], data));
    var p := h * w;
    assert gm.outS.Size() == d * p;
    SumBlocks(pr, d, p);
    forall o | 0 <= o < d
      ensures BlockSums(pr, p)(o) == ForwardSum(gm, weight, g, data)(o)
    {
      PlaneOrder(gm, weight, g, data, o);
    }
    SumExt(BlockSums(pr, p), ForwardSum(gm, weight, g, data), d);
  }

  lemma PlaneOrder(gm: Geom, weight: seq<real>, g: seq<real>, data: seq<real>, o: int)
    requires Valid(gm) && 0 <= o < gm.outS.d
    ensures SumF(Shift(Products(g, ForwardSpec(gm, weight, [], data)), o * (gm.outS.h * gm.outS.w)), gm.outS.h * gm.outS.w) ==
            SumF(OutPlaneSum(gm, weight, g, data, o), gm.outS.h)
  {
    var w, h := gm.outS.w, gm.outS.h;
    var plane := Shift(Products(g, ForwardSpec(gm, weight, [], data)), o * (h * w));
    SumBlocks(plane, h, w);
    forall y | 0 <= y < h
      ensures BlockSums(plane, w)(y) == OutPlaneSum(gm, weight, g, data, o)(y)
    {
      var row := Shift(plane, y * w);
      forall x | 0 <= x < w
        ensures row(x) == RowSum(gm, weight, g, data, o, y)(x)
      {
        PlaneOffset(o, y, x, gm.outS.h, gm.outS.w);
        CellOrder(gm, weight, g, data, o, y, x);
      }
      SumExt(row, RowSum(gm, weight, g, data, o, y), w);
    }
    SumExt(BlockSums(plane, w), OutPlaneSum(gm, weight, g, data, o), h);
  }

  /** Output cell (o, y, x) weighted by its error is the sum over the input
      channels of their weighted correlations. */
  lemma CellOrder(gm: Geom, weight: seq<real>, g: seq<real>, data: seq<real>, o: int, y: int, x: int)
    requires Valid(gm) && 0 <= o < gm.outS.d && 0 <= y < gm.outS.h && 0 <= x < gm.outS.w
    ensures Products(g, ForwardSpec(gm, weight, [], data))(Index(gm.outS, o, y, x)) ==
            SumF(CellSum(gm, weight, g, data, o, y, x), gm.inS.d)
  {
    ForwardSpecIndex(gm, weight, [], data, o, y, x);
    SumScaled(Channels(gm, weight, data, o, y, x), CellSum(gm, weight, g, data, o, y, x),
              At(g, Index(gm.outS, o, y, x)), gm.inS.d);
  }

  // ---------------------------------------------------------------------
  // Exchanging the input channel with the row and the column.

  /** Within output plane o, the forward order sums to the backward order. */
  lemma PlaneSwap(gm: Geom, weight: seq<real>, g: seq<real>, data: seq<real>, o: int)
    requires Valid(gm)
    ensures ForwardSum(gm, weight, g, data)(o) == BackSum(gm, weight, g, data)(o)
  {
    var w, h, n := gm.outS.w, gm.outS.h, gm.inS.d;
    var f := (y, c) => SumF(LineSum(gm, weight, g, data, o, c, y), w);
    forall y | 0 <= y < h
      ensures OutPlaneSum(gm, weight, g, data, o)(y) == RowSums(f, n)(y)
    {
      LineSwap(gm, weight, g, data, o, y);
      SumExt(Row(f, y), CrossLine(gm, weight, g, data, o, y), n);
    }
    SumExt(OutPlaneSum(gm, weight, g, data, o), RowSums(f, n), h);
    SumSwap(f, h, n);
    forall c | 0 <= c < n
      ensures ColSums(f, h)(c) == ChannelSum(gm, weight, g, data, o)(c)
    {
      SumExt(Col(f, c), PlaneSum(gm, weight, g, data, o, c), h);
    }
    SumExt(ColSums(f, h), ChannelSum(gm, weight, g, data, o), n);
  }

  /** Row y's line sums, one per input channel. */
  function CrossLine(gm: Geom, weight: seq<real>, g: seq<real>, data: seq<real>, o: int, y: int): int -> real {
    c => SumF(LineSum(gm, weight, g, data, o, c, y), gm.outS.w)
  }

  /** Within row y of output plane o: columns then channels equals channels
      then columns. */
  lemma LineSwap(gm: Geom, weight: seq<real>, g: seq<real>, data: seq<real>, o: int, y: int)
    ensures SumF(RowSum(gm, weight, g, data, o, y), gm.outS.w) == SumF(CrossLine(gm, weight, g, data, o, y), gm.inS.d)
  {
    var w, n := gm.outS.w, gm.inS.d;
    var f := (x, c) => Weighted(gm, weight, g, data, o, c, y, x);
    forall x | 0 <= x < w
      ensures RowSum(gm, weight, g, data, o, y)(x) == RowSums(f, n)(x)
    {
      SumExt(CellSum(gm, weight, g, data, o, y, x), Row(f, x), n);
    }
    SumExt(RowSum(gm, weight, g, data, o, y), RowSums(f, n), w);
    SumSwap(f, w, n);
    forall c | 0 <= c < n
      ensures ColSums(f, w)(c) == CrossLine(gm, weight, g, data, o, y)(c)
    {
      SumExt(Col(f, c), LineSum(gm, weight, g, data, o, c, y), w);
    }
    SumExt(ColSums(f, w), CrossLine(gm, weight, g, data, o, y), n);
  }
}
