/** The two gradient passes of the convolution layer
    (convolutional_layer::back_propagation and calculate_dwdb in
    ml/cnn.hpp). The backward pass scatters every output error through the
    kernel taps onto the input cells it was computed from; it is specified
    as the list of (target, value) additions it performs, in loop order. */
module ConvolutionGradients {
  import opened Shapes
  import opened Vectors
  import opened Arith
  import opened Sums
  import opened Grids
  import opened Scatter
  import opened Convolution

  // ---------------------------------------------------------------------
  // Back-propagation of the error to the input

  /** What the error g at output cell (o, y, x) sends through tap
      (wy, wx) of kernel (o, c): axpy adds g times that weight. */
  function BackValue(gm: Geom, weight: seq<real>, g: seq<real>, o: int, c: int, y: int, x: int, wy: int, wx: int): real {
    At(g, Index(gm.outS, o, y, x)) * At(weight, Tap(gm, o, c, wy, wx))
  }

  /** One axpy: kernel row wy, spread over input row y + wy from column x on;
      `off` is where the input error segment starts. */
  function RowTerms(gm: Geom, weight: seq<real>, g: seq<real>, off: int, o: int, c: int, y: int, x: int, wy: int): (r: seq<Term>)
    ensures |r| == Count(gm.k)
  {
    seq(Count(gm.k), wx => Term(off + Index(gm.inS, c, y + wy, x + wx), BackValue(gm, weight, g, o, c, y, x, wy, wx)))
  }

  function CellRows(gm: Geom, weight: seq<real>, g: seq<real>, off: int, o: int, c: int, y: int, x: int): int -> seq<Term> {
    wy => RowTerms(gm, weight, g, off, o, c, y, x, wy)
  }

  /** The k axpys for output cell (o, y, x) and input channel c. */
  function CellTerms(gm: Geom, weight: seq<real>, g: seq<real>, off: int, o: int, c: int, y: int, x: int): seq<Term> {
    Flat(CellRows(gm, weight, g, off, o, c, y, x), gm.k)
  }

  function LineCells(gm: Geom, weight: seq<real>, g: seq<real>, off: int, o: int, c: int, y: int): int -> seq<Term> {
    x => CellTerms(gm, weight, g, off, o, c, y, x)
  }

  /** All cells of output row y. */
  function LineTerms(gm: Geom, weight: seq<real>, g: seq<real>, off: int, o: int, c: int, y: int): seq<Term> {
    Flat(LineCells(gm, weight, g, off, o, c, y), gm.outS.w)
  }

  function PlaneLines(gm: Geom, weight: seq<real>, g: seq<real>, off: int, o: int, c: int): int -> seq<Term> {
    y => LineTerms(gm, weight, g, off, o, c, y)
  }

  /** Output plane o sent through the kernels onto input plane c. */
  function PlaneTerms(gm: Geom, weight: seq<real>, g: seq<real>, off: int, o: int, c: int): seq<Term> {
    Flat(PlaneLines(gm, weight, g, off, o, c), gm.outS.h)
  }

  function ChannelPlanes(gm: Geom, weight: seq<real>, g: seq<real>, off: int, o: int): int -> seq<Term> {
    c => PlaneTerms(gm, weight, g, off, o, c)
  }

  /** Output plane o sent onto every input plane. */
  function ChannelTerms(gm: Geom, weight: seq<real>, g: seq<real>, off: int, o: int): seq<Term> {
    Flat(ChannelPlanes(gm, weight, g, off, o), gm.inS.d)
  }

  function OutputChannels(gm: Geom, weight: seq<real>, g: seq<real>, off: int): int -> seq<Term> {
    o => ChannelTerms(gm, weight, g, off, o)
  }

  /** Every addition of the backward pass, in the order it makes them. */
  function BackTerms(gm: Geom, weight: seq<real>, g: seq<real>, off: int): seq<Term> {
    Flat(OutputChannels(gm, weight, g, off), gm.outS.d)
  }

  /** What the backward pass demands of its buffers: the layer's weights,
      an error for every output cell, and room for the input error segment
      starting at `off`. */
  predicate BackFits(gm: Geom, weight: seq<real>, g: seq<real>, off: int, n: int) {
    Valid(gm) && |weight| == WeightCount(gm) && |g| >= gm.outS.Size() && 0 <= off && off + gm.inS.Size() <= n
  }

  /** Output cell (o, y, x) and input channel c exist. */
  predicate CellIn(gm: Geom, o: int, c: int, y: int, x: int) {
    0 <= o < gm.outS.d && 0 <= c < gm.inS.d && 0 <= y < gm.outS.h && 0 <= x < gm.outS.w
  }

  /** back_propagation as written: adds every term to whatever `out`
      already holds. */
  method Back(gm: Geom, weight: seq<real>, g: seq<real>, out: array<real>, off: nat)
    requires BackFits(gm, weight, g, off, out.Length)
    modifies out
    ensures out[..] == Apply(old(out[..]), BackTerms(gm, weight, g, off))
  {
    ghost var s0 := out[..];
    var o := 0;
    while o < gm.outS.d
      invariant 0 <= o <= gm.outS.d
      invariant out[..] == Apply(s0, Flat(OutputChannels(gm, weight, g, off), o))
    {
      BackChannel(gm, weight, g, o, out, off);
      ApplyAppend(s0, Flat(OutputChannels(gm, weight, g, off), o), ChannelTerms(gm, weight, g, off, o));
      o := o + 1;
    }
  }

  method BackChannel(gm: Geom, weight: seq<real>, g: seq<real>, o: int, out: array<real>, off: nat)
    requires BackFits(gm, weight, g, off, out.Length) && 0 <= o < gm.outS.d
    modifies out
    ensures out[..] == Apply(old(out[..]), ChannelTerms(gm, weight, g, off, o))
  {
    ghost var s0 := out[..];
    var c := 0;
    while c < gm.inS.d
      invariant 0 <= c <= gm.inS.d
      invariant out[..] == Apply(s0, Flat(ChannelPlanes(gm, weight, g, off, o), c))
    {
      BackPlane(gm, weight, g, o, c, out, off);
      ApplyAppend(s0, Flat(ChannelPlanes(gm, weight, g, off, o), c), PlaneTerms(gm, weight, g, off, o, c));
      c := c + 1;
    }
  }

  method BackPlane(gm: Geom, weight: seq<real>, g: seq<real>, o: int, c: int, out: array<real>, off: nat)
    requires BackFits(gm, weight, g, off, out.Length) && 0 <= o < gm.outS.d && 0 <= c < gm.inS.d
    modifies out
    ensures out[..] == Apply(old(out[..]), PlaneTerms(gm, weight, g, off, o, c))
  {
    ghost var s0 := out[..];
    var y := 0;
    while y < gm.outS.h
      invariant 0 <= y <= gm.outS.h
      invariant out[..] == Apply(s0, Flat(PlaneLines(gm, weight, g, off, o, c), y))
    {
      BackLine(gm, weight, g, o, c, y, out, off);
      ApplyAppend(s0, Flat(PlaneLines(gm, weight, g, off, o, c), y), LineTerms(gm, weight, g, off, o, c, y));
      y := y + 1;
    }
  }

  method BackLine(gm: Geom, weight: seq<real>, g: seq<real>, o: int, c: int, y: int, out: array<real>, off: nat)
    requires BackFits(gm, weight, g, off, out.Length) && 0 <= o < gm.outS.d && 0 <= c < gm.inS.d
    requires 0 <= y < gm.outS.h
    modifies out
    ensures out[..] == Apply(old(out[..]), LineTerms(gm, weight, g, off, o, c, y))
  {
    ghost var s0 := out[..];
    var x := 0;
    while x < gm.outS.w
      invariant 0 <= x <= gm.outS.w
      invariant out[..] == Apply(s0, Flat(LineCells(gm, weight, g, off, o, c, y), x))
    {
      BackCell(gm, weight, g, o, c, y, x, out, off);
      ApplyAppend(s0, Flat(LineCells(gm, weight, g, off, o, c, y), x), CellTerms(gm, weight, g, off, o, c, y, x));
      x := x + 1;
    }
  }

  method BackCell(gm: Geom, weight: seq<real>, g: seq<real>, o: int, c: int, y: int, x: int, out: array<real>, off: nat)
    requires BackFits(gm, weight, g, off, out.Length) && CellIn(gm, o, c, y, x)
    modifies out
    ensures out[..] == Apply(old(out[..]), CellTerms(gm, weight, g, off, o, c, y, x))
  {
    ghost var s0 := out[..];
    IndexInRange(gm.outS, o, y, x);
    var delta := g[Index(gm.outS, o, y, x)];
    var wy := 0;
    while wy < gm.k
      invariant 0 <= wy && (wy <= gm.k || wy == 0)
      invariant out[..] == Apply(s0, Flat(CellRows(gm, weight, g, off, o, c, y, x), wy))
    {
      BackRow(gm, weight, g, o, c, y, x, wy, delta, out, off);
      ApplyAppend(s0, Flat(CellRows(gm, weight, g, off, o, c, y, x), wy), RowTerms(gm, weight, g, off, o, c, y, x, wy));
      wy := wy + 1;
    }
    if gm.k <= 0 {
      assert CellTerms(gm, weight, g, off, o, c, y, x) == [];
    }
  }

  /** tipl::vec::axpy over one kernel row: `delta` is the output error
      at (o, y, x). */
  method BackRow(gm: Geom, weight: seq<real>, g: seq<real>, o: int, c: int, y: int, x: int, wy: int,
                 delta: real, out: array<real>, off: nat)
    requires BackFits(gm, weight, g, off, out.Length) && CellIn(gm, o, c, y, x) && 0 <= wy < gm.k
    requires delta == At(g, Index(gm.outS, o, y, x))
    modifies out
    ensures out[..] == Apply(old(out[..]), RowTerms(gm, weight, g, off, o, c, y, x, wy))
  {
    ghost var s0 := out[..];
    ghost var ts := RowTerms(gm, weight, g, off, o, c, y, x, wy);
    var p := off + Index(gm.inS, c, y + wy, x);
    var ppw := Tap(gm, o, c, wy, 0);
    var wx := 0;
    while wx < gm.k
      invariant 0 <= wx <= gm.k
      invariant out[..] == Apply(s0, ts[..wx])
    {
      ReadsInRange(gm, o, c, y, x, wy, wx);
      RowShift(gm, o, c, y, x, wy, wx);
      RowTermAt(gm, weight, g, off, o, c, y, x, wy, wx, p, ppw, delta);
      ApplyStep(s0, ts, wx);
      ghost var before := out[..];
      out[p + wx] := out[p + wx] + delta * weight[ppw + wx];
      assert out[..] == before[p + wx := before[p + wx] + delta * weight[ppw + wx]];
      wx := wx + 1;
    }
    assert ts[..gm.k] == ts;
  }

  /** Term wx of the axpy: target p + wx, value delta times weight ppw + wx. */
  lemma RowTermAt(gm: Geom, weight: seq<real>, g: seq<real>, off: int, o: int, c: int, y: int, x: int, wy: int, wx: int,
                  p: int, ppw: int, delta: real)
    requires 0 <= wx < gm.k && p == off + Index(gm.inS, c, y + wy, x) && ppw == Tap(gm, o, c, wy, 0)
    requires 0 <= ppw + wx < |weight| && delta == At(g, Index(gm.outS, o, y, x))
    ensures RowTerms(gm, weight, g, off, o, c, y, x, wy)[wx] == Term(p + wx, delta * weight[ppw + wx])
  {
    RowShift(gm, o, c, y, x, wy, wx);
  }

  /** The buffer with the segment [off, off + n) set to zero. */
  function Cleared(s: seq<real>, off: nat, n: nat): (r: seq<real>)
    requires off + n <= |s|
    ensures |r| == |s|
    ensures forall q :: 0 <= q < |s| ==> r[q] == if off <= q < off + n then 0.0 else s[q]
  {
    s[..off] + seq(n, _ => 0.0) + s[off + n..]
  }

  /** The length of the input error segment. */
  function InputLength(gm: Geom): (n: nat)
    requires Valid(gm)
    ensures n == gm.inS.Size()
  {
    PositiveSize(gm.inS);
    gm.inS.Size()
  }

  /** back_propagation as evidently intended: the input error segment is
      cleared first, so it receives exactly the error sent to it by this
      sample. */
  method BackCleared(gm: Geom, weight: seq<real>, g: seq<real>, out: array<real>, off: nat)
    requires BackFits(gm, weight, g, off, out.Length)
    modifies out
    ensures out[..] == Apply(Cleared(old(out[..]), off, InputLength(gm)), BackTerms(gm, weight, g, off))
  {
    PositiveSize(gm.inS);
    Fill(out, off, gm.inS.Size(), 0.0);
    assert out[..] == Cleared(old(out[..]), off, InputLength(gm)) by {
      assert out[..] == out[..off] + out[off..off + gm.inS.Size()] + out[off + gm.inS.Size()..];
    }
    Back(gm, weight, g, out, off);
  }

  /** Every addition of one kernel row lands inside the input segment. */
  lemma RowWithin(gm: Geom, weight: seq<real>, g: seq<real>, off: int, o: int, c: int, y: int, x: int, wy: int)
    requires Valid(gm) && CellIn(gm, o, c, y, x) && 0 <= wy < gm.k
    ensures Within(RowTerms(gm, weight, g, off, o, c, y, x, wy), off, off + gm.inS.Size())
  {
    var ts := RowTerms(gm, weight, g, off, o, c, y, x, wy);
    forall i | 0 <= i < |ts| ensures off <= ts[i].target < off + gm.inS.Size() {
      ReadsInRange(gm, o, c, y, x, wy, i);
    }
  }

  lemma CellWithin(gm: Geom, weight: seq<real>, g: seq<real>, off: int, o: int, c: int, y: int, x: int)
    requires Valid(gm) && CellIn(gm, o, c, y, x)
    ensures Within(CellTerms(gm, weight, g, off, o, c, y, x), off, off + gm.inS.Size())
  {
    forall wy | 0 <= wy < gm.k
      ensures Within(CellRows(gm, weight, g, off, o, c, y, x)(wy), off, off + gm.inS.Size())
    {
      RowWithin(gm, weight, g, off, o, c, y, x, wy);
    }
    FlatWithin(CellRows(gm, weight, g, off, o, c, y, x), gm.k, off, off + gm.inS.Size());
  }

  lemma PlaneWithin(gm: Geom, weight: seq<real>, g: seq<real>, off: int, o: int, c: int)
    requires Valid(gm) && 0 <= o < gm.outS.d && 0 <= c < gm.inS.d
    ensures Within(PlaneTerms(gm, weight, g, off, o, c), off, off + gm.inS.Size())
  {
    var lo, hi := off, off + gm.inS.Size();
    forall y | 0 <= y < gm.outS.h ensures Within(PlaneLines(gm, weight, g, off, o, c)(y), lo, hi) {
      forall x | 0 <= x < gm.outS.w ensures Within(LineCells(gm, weight, g, off, o, c, y)(x), lo, hi) {
        CellWithin(gm, weight, g, off, o, c, y, x);
      }
      FlatWithin(LineCells(gm, weight, g, off, o, c, y), gm.outS.w, lo, hi);
    }
    FlatWithin(PlaneLines(gm, weight, g, off, o, c), gm.outS.h, lo, hi);
  }

  /** The backward pass only ever adds inside the input error segment
      [off, off + input size). */
  lemma BackWithin(gm: Geom, weight: seq<real>, g: seq<real>, off: int)
    requires Valid(gm)
    ensures Within(BackTerms(gm, weight, g, off), off, off + gm.inS.Size())
  {
    var lo, hi := off, off + gm.inS.Size();
    forall o | 0 <= o < gm.outS.d ensures Within(OutputChannels(gm, weight, g, off)(o), lo, hi) {
      forall c | 0 <= c < gm.inS.d ensures Within(ChannelPlanes(gm, weight, g, off, o)(c), lo, hi) {
        PlaneWithin(gm, weight, g, off, o, c);
      }
      FlatWithin(ChannelPlanes(gm, weight, g, off, o), gm.inS.d, lo, hi);
    }
    FlatWithin(OutputChannels(gm, weight, g, off), gm.outS.d, lo, hi);
  }

  /** With the segment cleared first, every input cell holds exactly the
      error aimed at it, and everything outside the segment is unchanged. */
  lemma ClearedBackIsGathered(gm: Geom, weight: seq<real>, g: seq<real>, s: seq<real>, off: nat, q: int)
    requires BackFits(gm, weight, g, off, |s|) && 0 <= q < |s|
    ensures off <= q < off + gm.inS.Size() ==>
      Apply(Cleared(s, off, InputLength(gm)), BackTerms(gm, weight, g, off))[q] == Hits(BackTerms(gm, weight, g, off), q)
    ensures !(off <= q < off + gm.inS.Size()) ==>
      Apply(Cleared(s, off, InputLength(gm)), BackTerms(gm, weight, g, off))[q] == s[q]
  {
    PositiveSize(gm.inS);
    var ts := BackTerms(gm, weight, g, off);
    ApplyIsGather(Cleared(s, off, InputLength(gm)), ts, q);
    if !(off <= q < off + gm.inS.Size()) {
      BackWithin(gm, weight, g, off);
      HitsOutside(ts, off, off + gm.inS.Size(), q);
    }
  }

  /** As written, the pass adds to what the segment held before: each input
      cell ends with its stale value plus the intended error, so any
      non-zero stale value survives into the result. */
  lemma StaleErrorLeaks(gm: Geom, weight: seq<real>, g: seq<real>, s: seq<real>, off: nat, q: int)
    requires BackFits(gm, weight, g, off, |s|) && off <= q < off + gm.inS.Size()
    ensures Apply(s, BackTerms(gm, weight, g, off))[q]
         == s[q] + Apply(Cleared(s, off, InputLength(gm)), BackTerms(gm, weight, g, off))[q]
    ensures s[q] != 0.0 ==>
      Apply(s, BackTerms(gm, weight, g, off))[q] != Apply(Cleared(s, off, InputLength(gm)), BackTerms(gm, weight, g, off))[q]
  {
    PositiveSize(gm.inS);
    var ts := BackTerms(gm, weight, g, off);
    ApplyIsGather(s, ts, q);
    ApplyIsGather(Cleared(s, off, InputLength(gm)), ts, q);
  }

  // Where the input error segment starts only moves the targets.

  lemma RowShifted(gm: Geom, weight: seq<real>, g: seq<real>, off: int, o: int, c: int, y: int, x: int, wy: int)
    ensures RowTerms(gm, weight, g, off, o, c, y, x, wy) == Shifted(RowTerms(gm, weight, g, 0, o, c, y, x, wy), off)
  {
  }

  lemma CellShifted(gm: Geom, weight: seq<real>, g: seq<real>, off: int, o: int, c: int, y: int, x: int)
    ensures CellTerms(gm, weight, g, off, o, c, y, x) == Shifted(CellTerms(gm, weight, g, 0, o, c, y, x), off)
  {
    forall wy | 0 <= wy < gm.k
      ensures CellRows(gm, weight, g, off, o, c, y, x)(wy) == Shifted(CellRows(gm, weight, g, 0, o, c, y, x)(wy), off)
    {
      RowShifted(gm, weight, g, off, o, c, y, x, wy);
    }
    FlatShifted(CellRows(gm, weight, g, off, o, c, y, x), CellRows(gm, weight, g, 0, o, c, y, x), gm.k, off);
  }

  lemma LineShifted(gm: Geom, weight: seq<real>, g: seq<real>, off: int, o: int, c: int, y: int)
    ensures LineTerms(gm, weight, g, off, o, c, y) == Shifted(LineTerms(gm, weight, g, 0, o, c, y), off)
  {
    forall x | 0 <= x < gm.outS.w
      ensures LineCells(gm, weight, g, off, o, c, y)(x) == Shifted(LineCells(gm, weight, g, 0, o, c, y)(x), off)
    {
      CellShifted(gm, weight, g, off, o, c, y, x);
    }
    FlatShifted(LineCells(gm, weight, g, off, o, c, y), LineCells(gm, weight, g, 0, o, c, y), gm.outS.w, off);
  }

  lemma PlaneShifted(gm: Geom, weight: seq<real>, g: seq<real>, off: int, o: int, c: int)
    ensures PlaneTerms(gm, weight, g, off, o, c) == Shifted(PlaneTerms(gm, weight, g, 0, o, c), off)
  {
    forall y | 0 <= y < gm.outS.h
      ensures PlaneLines(gm, weight, g, off, o, c)(y) == Shifted(PlaneLines(gm, weight, g, 0, o, c)(y), off)
    {
      LineShifted(gm, weight, g, off, o, c, y);
    }
    FlatShifted(PlaneLines(gm, weight, g, off, o, c), PlaneLines(gm, weight, g, 0, o, c), gm.outS.h, off);
  }

  lemma ChannelShifted(gm: Geom, weight: seq<real>, g: seq<real>, off: int, o: int)
    ensures ChannelTerms(gm, weight, g, off, o) == Shifted(ChannelTerms(gm, weight, g, 0, o), off)
  {
    forall c | 0 <= c < gm.inS.d
      ensures ChannelPlanes(gm, weight, g, off, o)(c) == Shifted(ChannelPlanes(gm, weight, g, 0, o)(c), off)
    {
      PlaneShifted(gm, weight, g, off, o, c);
    }
    FlatShifted(ChannelPlanes(gm, weight, g, off, o), ChannelPlanes(gm, weight, g, 0, o), gm.inS.d, off);
  }

  /** The pass for a segment at `off` makes the additions of the pass for
      a segment at 0, each aimed `off` slots further on. */
  lemma BackShifted(gm: Geom, weight: seq<real>, g: seq<real>, off: int)
    ensures BackTerms(gm, weight, g, off) == Shifted(BackTerms(gm, weight, g, 0), off)
  {
    forall o | 0 <= o < gm.outS.d
      ensures OutputChannels(gm, weight, g, off)(o) == Shifted(OutputChannels(gm, weight, g, 0)(o), off)
    {
      ChannelShifted(gm, weight, g, off, o);
    }
    FlatShifted(OutputChannels(gm, weight, g, off), OutputChannels(gm, weight, g, 0), gm.outS.d, off);
  }

  /** The input error of the corrected pass, wherever its segment lies:
      entry q gathers every addition aimed at input cell q. */
  function InputError(gm: Geom, weight: seq<real>, g: seq<real>): (r: seq<real>)
    requires Valid(gm)
    ensures |r| == gm.inS.Size()
  {
    seq(InputLength(gm), q => Hits(BackTerms(gm, weight, g, 0), q))
  }

  /** The corrected pass leaves InputError in its segment and every other
      slot of the buffer as it was. */
  lemma ClearedBackSegment(gm: Geom, weight: seq<real>, g: seq<real>, s: seq<real>, off: nat)
    requires BackFits(gm, weight, g, off, |s|)
    ensures Apply(Cleared(s, off, InputLength(gm)), BackTerms(gm, weight, g, off))[off..off + InputLength(gm)]
         == InputError(gm, weight, g)
    ensures Apply(Cleared(s, off, InputLength(gm)), BackTerms(gm, weight, g, off))[..off] == s[..off]
    ensures Apply(Cleared(s, off, InputLength(gm)), BackTerms(gm, weight, g, off))[off + InputLength(gm)..]
         == s[off + InputLength(gm)..]
  {
    var r := Apply(Cleared(s, off, InputLength(gm)), BackTerms(gm, weight, g, off));
    forall q | 0 <= q < |s|
      ensures r[q] == if off <= q < off + InputLength(gm) then InputError(gm, weight, g)[q - off] else s[q]
    {
      ClearedBackEntry(gm, weight, g, s, off, q);
    }
    SplicedSegment(s, r, InputError(gm, weight, g), off);
  }

  lemma ClearedBackEntry(gm: Geom, weight: seq<real>, g: seq<real>, s: seq<real>, off: nat, q: int)
    requires BackFits(gm, weight, g, off, |s|) && 0 <= q < |s|
    ensures Apply(Cleared(s, off, InputLength(gm)), BackTerms(gm, weight, g, off))[q]
         == if off <= q < off + InputLength(gm) then InputError(gm, weight, g)[q - off] else s[q]
  {
    ClearedBackIsGathered(gm, weight, g, s, off, q);
    if off <= q < off + InputLength(gm) {
      BackShifted(gm, weight, g, off);
      HitsShifted(BackTerms(gm, weight, g, 0), off, q - off);
    }
  }

  /** A buffer that differs from `s` only by holding `seg` at `off`. */
  lemma SplicedSegment(s: seq<real>, r: seq<real>, seg: seq<real>, off: nat)
    requires |r| == |s| && off + |seg| <= |s|
    requires forall q :: 0 <= q < |s| ==> r[q] == if off <= q < off + |seg| then seg[q - off] else s[q]
    ensures r[off..off + |seg|] == seg && r[..off] == s[..off] && r[off + |seg|..] == s[off + |seg|..]
  {
  }


  // ---------------------------------------------------------------------
  // Weight and bias gradients (calculate_dwdb)

  /** Input row y + wy from column wx on, times output error row y. */
  function DwProduct(gm: Geom, g: seq<real>, prev: seq<real>, o: int, c: int, wy: int, wx: int, y: int): int -> real {
    x => At(prev, Index(gm.inS, c, y + wy, x + wx)) * At(g, Index(gm.outS, o, y, x))
  }

  /** vec::dot of those two rows. */
  function DwRowDot(gm: Geom, g: seq<real>, prev: seq<real>, o: int, c: int, wy: int, wx: int): int -> real {
    y => SumF(DwProduct(gm, g, prev, o, c, wy, wx, y), gm.outS.w)
  }

  /** The gradient of tap (wy, wx) of kernel (o, c): the sum over every
      output cell of its error times the input the tap met there. */
  function TapGradient(gm: Geom, g: seq<real>, prev: seq<real>, o: int, c: int, wy: int, wx: int): real {
    SumF(DwRowDot(gm, g, prev, o, c, wy, wx), gm.outS.h)
  }

  function KernelRow(gm: Geom, g: seq<real>, prev: seq<real>, o: int, c: int, wy: int): (r: seq<real>)
    ensures |r| == Count(gm.k)
  {
    seq(Count(gm.k), wx => TapGradient(gm, g, prev, o, c, wy, wx))
  }

  function KernelRows(gm: Geom, g: seq<real>, prev: seq<real>, o: int, c: int): int -> seq<real> {
    wy => KernelRow(gm, g, prev, o, c, wy)
  }

  function Kernel(gm: Geom, g: seq<real>, prev: seq<real>, o: int, c: int): seq<real> {
    Concat(KernelRows(gm, g, prev, o, c), gm.k)
  }

  function Kernels(gm: Geom, g: seq<real>, prev: seq<real>, o: int): int -> seq<real> {
    c => Kernel(gm, g, prev, o, c)
  }

  function OutputKernels(gm: Geom, g: seq<real>, prev: seq<real>): int -> seq<real> {
    o => Concat(Kernels(gm, g, prev, o), gm.inS.d)
  }

  /** The weight gradient in the weight layout; with k <= 0 there are no
      taps to visit and nothing is added. */
  function WeightGradient(gm: Geom, g: seq<real>, prev: seq<real>): seq<real>
    requires Valid(gm)
  {
    if gm.k <= 0 then seq(Count(WeightCount(gm)), _ => 0.0)
    else Concat(OutputKernels(gm, g, prev), gm.outS.d)
  }

  /** The gradient has one entry per weight, and the entry at tap (wy, wx)
      of kernel (o, c) is that tap's gradient. */
  lemma WeightGradientIndex(gm: Geom, g: seq<real>, prev: seq<real>, o: int, c: int, wy: int, wx: int)
    requires Valid(gm) && 0 <= o < gm.outS.d && 0 <= c < gm.inS.d && 0 <= wy < gm.k && 0 <= wx < gm.k
    ensures |WeightGradient(gm, g, prev)| == WeightCount(gm)
    ensures 0 <= Tap(gm, o, c, wy, wx) < WeightCount(gm)
    ensures WeightGradient(gm, g, prev)[Tap(gm, o, c, wy, wx)] == TapGradient(gm, g, prev, o, c, wy, wx)
  {
    var k, d, od := gm.k, gm.inS.d, gm.outS.d;
    var kk := k * k;
    WeightGradientLength(gm, g, prev);
    ReadsInRange(gm, o, c, 0, 0, wy, wx);
    BlockSplit(o, c, wy, wx, d, k);
    var t := wy * k + wx;
    ConcatIndex(KernelRows(gm, g, prev, o, c), k, k, wy, wx);
    assert Kernel(gm, g, prev, o, c)[t] == TapGradient(gm, g, prev, o, c, wy, wx);
    KernelLengths(gm, g, prev, o);
    MulLeft(wy, k, k);
    ConcatIndex(Kernels(gm, g, prev, o), d, kk, c, t);
    var u := c * kk + t;
    assert OutputKernels(gm, g, prev)(o)[u] == TapGradient(gm, g, prev, o, c, wy, wx);
    MulLeft(c, d, kk);
    ConcatIndex(OutputKernels(gm, g, prev), od, d * kk, o, u);
  }

  /** Each kernel has k * k entries. */
  lemma KernelLengths(gm: Geom, g: seq<real>, prev: seq<real>, o: int)
    requires gm.k > 0
    ensures Uniform(Kernels(gm, g, prev, o), gm.inS.d, gm.k * gm.k)
  {
    forall c | 0 <= c < gm.inS.d ensures |Kernels(gm, g, prev, o)(c)| == gm.k * gm.k {
      ConcatLength(KernelRows(gm, g, prev, o, c), gm.k, gm.k);
    }
  }

  lemma WeightGradientLength(gm: Geom, g: seq<real>, prev: seq<real>)
    requires Valid(gm)
    ensures |WeightGradient(gm, g, prev)| == Count(WeightCount(gm))
    ensures gm.k > 0 ==> forall o :: 0 <= o < gm.outS.d ==> |OutputKernels(gm, g, prev)(o)| == gm.inS.d * (gm.k * gm.k)
  {
    var k, d, od := gm.k, gm.inS.d, gm.outS.d;
    if k > 0 {
      forall o | 0 <= o < od ensures |OutputKernels(gm, g, prev)(o)| == d * (k * k) {
        forall c | 0 <= c < d ensures |Kernels(gm, g, prev, o)(c)| == k * k {
          ConcatLength(KernelRows(gm, g, prev, o, c), k, k);
        }
        ConcatLength(Kernels(gm, g, prev, o), d, k * k);
      }
      ConcatLength(OutputKernels(gm, g, prev), od, d * (k * k));
      assert od * (d * (k * k)) == WeightCount(gm);
    }
  }

  /** Error of output plane o summed: the gradient of bias o. */
  function PlaneEntries(g: seq<real>, pos: int): int -> real {
    x => At(g, pos + x)
  }

  function BiasGradient(gm: Geom, g: seq<real>): (r: seq<real>)
    ensures |r| == Count(gm.outS.d)
  {
    seq(Count(gm.outS.d), o => SumF(PlaneEntries(g, o * gm.outS.PlaneSize()), gm.outS.PlaneSize()))
  }

  /** What calculate_dwdb demands: an error for every output cell, an input
      value for every input cell read, and gradient vectors of the layer's
      parameter sizes. */
  predicate DwFits(gm: Geom, g: seq<real>, prev: seq<real>, dw: array<real>, db: array<real>) {
    DwArgs(gm, g, prev, dw.Length) && db.Length == gm.outS.d
  }

  predicate DwArgs(gm: Geom, g: seq<real>, prev: seq<real>, n: int) {
    Valid(gm) && |g| >= gm.outS.Size() && |prev| >= gm.inS.Size() && n == WeightCount(gm)
  }

  /** calculate_dwdb: adds the weight gradient to `dw` and the bias
      gradient to `db`. */
  method CalculateDwDb(gm: Geom, g: seq<real>, prev: seq<real>, dw: array<real>, db: array<real>)
    requires DwFits(gm, g, prev, dw, db) && dw != db
    modifies dw, db
    ensures |WeightGradient(gm, g, prev)| == dw.Length && dw[..] == Plus(old(dw[..]), WeightGradient(gm, g, prev))
    ensures db[..] == Plus(old(db[..]), BiasGradient(gm, g))
  {
    AccumulateWeights(gm, g, prev, dw, db);
    AccumulateBias(gm, g, db);
  }

  method AccumulateWeights(gm: Geom, g: seq<real>, prev: seq<real>, dw: array<real>, db: array<real>)
    requires DwFits(gm, g, prev, dw, db)
    modifies dw
    ensures |WeightGradient(gm, g, prev)| == dw.Length && dw[..] == Plus(old(dw[..]), WeightGradient(gm, g, prev))
  {
    ghost var grad := WeightGradient(gm, g, prev);
    WeightGradientLength(gm, g, prev);
    ghost var dw0 := dw[..];
    var kk := gm.k * gm.k;
    var o, wIndex := 0, 0;
    while o < gm.outS.d
      invariant 0 <= o <= gm.outS.d && wIndex == Tap(gm, o, 0, 0, 0) && 0 <= wIndex
      invariant AddedOn(dw0, dw[..], grad, 0, wIndex)
    {
      KernelBound(gm, o, 0);
      SquareNonnegative(gm.k, gm.inS.d);
      ghost var mid := dw[..];
      KernelsOf(gm, g, prev, o, wIndex, grad, dw);
      AddedOnChain(dw0, mid, dw[..], grad, 0, wIndex, wIndex + gm.inS.d * kk);
      TapAdvance(gm, o, gm.inS.d);
      wIndex := wIndex + gm.inS.d * kk;
      o := o + 1;
    }
    TapEnd(gm);
    forall q | 0 <= q < dw.Length ensures dw[..][q] == Plus(dw0, grad)[q] {
    }
  }

  /** `after` is `before` with `grad` added on `[lo, hi)` and nothing else. */
  ghost predicate AddedOn(before: seq<real>, after: seq<real>, grad: seq<real>, lo: int, hi: int) {
    |before| == |after| == |grad| &&
    forall q :: 0 <= q < |after| ==> after[q] == before[q] + (if lo <= q < hi then grad[q] else 0.0)
  }

  lemma AddedOnChain(a0: seq<real>, a1: seq<real>, a2: seq<real>, grad: seq<real>, lo: int, mid: int, hi: int)
    requires lo <= mid <= hi && AddedOn(a0, a1, grad, lo, mid) && AddedOn(a1, a2, grad, mid, hi)
    ensures AddedOn(a0, a2, grad, lo, hi)
  {
  }

  /** The running weight index of the source: kernel (o, c) starts at
      (o * in_d + c) * k * k, and the input channels of o are followed by
      those of o + 1. */
  lemma TapAdvance(gm: Geom, o: int, c: int)
    ensures Tap(gm, o, c, 0, 0) + gm.k * gm.k == Tap(gm, o, c + 1, 0, 0)
    ensures Tap(gm, o, gm.inS.d, 0, 0) == Tap(gm, o + 1, 0, 0, 0)
    ensures Tap(gm, o, 0, 0, 0) + gm.inS.d * (gm.k * gm.k) == Tap(gm, o + 1, 0, 0, 0)
  {
    var k, d := gm.k, gm.inS.d;
    assert (o * d + c + 1) * k == (o * d + c) * k + k;
    assert ((o * d + c) * k + k) * k == (o * d + c) * k * k + k * k;
    assert (o * d + d) * k * k == o * d * k * k + d * (k * k);
  }

  lemma TapEnd(gm: Geom)
    ensures Tap(gm, gm.outS.d, 0, 0, 0) == WeightCount(gm)
  {
  }

  /** Kernel (o, c) occupies k * k weights starting at (o * in_d + c) * k * k,
      inside the weight vector. */
  lemma KernelBound(gm: Geom, o: int, c: int)
    requires Valid(gm) && 0 <= o < gm.outS.d && 0 <= c <= gm.inS.d
    ensures 0 <= Tap(gm, o, c, 0, 0)
    ensures c < gm.inS.d ==> Tap(gm, o, c, 0, 0) + gm.k * gm.k <= WeightCount(gm)
    ensures Tap(gm, o, 0, 0, 0) + gm.inS.d * (gm.k * gm.k) <= WeightCount(gm)
  {
    var kk := gm.k * gm.k;
    BlockBound(o, c, gm.outS.d, gm.inS.d, kk);
    KernelOrigin(gm, o, c);
    KernelOrigin(gm, o, 0);
  }

  lemma KernelOrigin(gm: Geom, o: int, c: int)
    ensures Tap(gm, o, c, 0, 0) == (o * gm.inS.d + c) * (gm.k * gm.k)
    ensures Tap(gm, o, 0, 0, 0) == (o * gm.inS.d) * (gm.k * gm.k)
    ensures WeightCount(gm) == gm.outS.d * gm.inS.d * (gm.k * gm.k)
    ensures o * gm.inS.d * (gm.k * gm.k) + gm.inS.d * (gm.k * gm.k) == (o * gm.inS.d) * (gm.k * gm.k) + gm.inS.d * (gm.k * gm.k)
  {
  }

  /** Kernel rows follow one another k weights apart. */
  lemma RowAdvance(gm: Geom, o: int, c: int, wy: int)
    ensures Tap(gm, o, c, wy, 0) + gm.k == Tap(gm, o, c, wy + 1, 0)
    ensures Tap(gm, o, c, gm.k, 0) == Tap(gm, o, c, 0, 0) + gm.k * gm.k
  {
    var k, d := gm.k, gm.inS.d;
    assert ((o * d + c) * k + wy + 1) * k == ((o * d + c) * k + wy) * k + k;
    assert ((o * d + c) * k + k) * k == (o * d + c) * k * k + k * k;
  }

  /** The in_d kernels of output channel o, one after another. */
  method KernelsOf(gm: Geom, g: seq<real>, prev: seq<real>, o: int, start: int, ghost grad: seq<real>, dw: array<real>)
    requires DwArgs(gm, g, prev, dw.Length) && grad == WeightGradient(gm, g, prev) && |grad| == dw.Length
    requires 0 <= o < gm.outS.d && start == Tap(gm, o, 0, 0, 0)
    requires 0 <= start && start + gm.inS.d * (gm.k * gm.k) <= dw.Length
    modifies dw
    ensures AddedOn(old(dw[..]), dw[..], grad, start, start + gm.inS.d * (gm.k * gm.k))
  {
    ghost var dw0 := dw[..];
    var kk := gm.k * gm.k;
    var c, wIndex := 0, start;
    while c < gm.inS.d
      invariant 0 <= c <= gm.inS.d && wIndex == Tap(gm, o, c, 0, 0) && start <= wIndex
      invariant AddedOn(dw0, dw[..], grad, start, wIndex)
    {
      KernelBound(gm, o, c);
      SquareNonnegative(gm.k, 1);
      ghost var mid := dw[..];
      KernelAt(gm, g, prev, o, c, wIndex, grad, dw);
      AddedOnChain(dw0, mid, dw[..], grad, start, wIndex, wIndex + kk);
      TapAdvance(gm, o, c);
      wIndex := wIndex + kk;
      c := c + 1;
    }
    TapAdvance(gm, o, 0);
    assert wIndex == start + gm.inS.d * kk;
  }

  /** The k rows of kernel (o, c). */
  method KernelAt(gm: Geom, g: seq<real>, prev: seq<real>, o: int, c: int, start: int, ghost grad: seq<real>, dw: array<real>)
    requires DwArgs(gm, g, prev, dw.Length) && grad == WeightGradient(gm, g, prev) && |grad| == dw.Length
    requires 0 <= o < gm.outS.d && 0 <= c < gm.inS.d && start == Tap(gm, o, c, 0, 0)
    requires 0 <= start && start + gm.k * gm.k <= dw.Length
    modifies dw
    ensures AddedOn(old(dw[..]), dw[..], grad, start, start + gm.k * gm.k)
  {
    ghost var dw0 := dw[..];
    var wy, index := 0, start;
    while wy < gm.k
      invariant 0 <= wy && (wy <= gm.k || wy == 0) && index == Tap(gm, o, c, wy, 0) && start <= index
      invariant AddedOn(dw0, dw[..], grad, start, index)
    {
      RowAdvance(gm, o, c, wy);
      ghost var mid := dw[..];
      KernelRowAt(gm, g, prev, o, c, wy, index, grad, dw);
      AddedOnChain(dw0, mid, dw[..], grad, start, index, index + gm.k);
      index := index + gm.k;
      wy := wy + 1;
    }
    RowAdvance(gm, o, c, 0);
    if gm.k > 0 {
      assert index == start + gm.k * gm.k;
    }
  }

  /** Row wy of kernel (o, c): one tap gradient per column. */
  method KernelRowAt(gm: Geom, g: seq<real>, prev: seq<real>, o: int, c: int, wy: int, start: int,
                     ghost grad: seq<real>, dw: array<real>)
    requires DwArgs(gm, g, prev, dw.Length) && grad == WeightGradient(gm, g, prev) && |grad| == dw.Length
    requires 0 <= o < gm.outS.d && 0 <= c < gm.inS.d && 0 <= wy < gm.k && start == Tap(gm, o, c, wy, 0)
    modifies dw
    ensures start + gm.k <= dw.Length
    ensures AddedOn(old(dw[..]), dw[..], grad, start, start + gm.k)
  {
    ReadsInRange(gm, o, c, 0, 0, wy, gm.k - 1);
    ghost var dw0 := dw[..];
    var wx, index := 0, start;
    while wx < gm.k
      invariant 0 <= wx <= gm.k && index == start + wx
      invariant AddedOn(dw0, dw[..], grad, start, index)
    {
      WeightGradientIndex(gm, g, prev, o, c, wy, wx);
      var sum := TapGradientSum(gm, g, prev, o, c, wy, wx);
      dw[index] := dw[index] + sum;
      index, wx := index + 1, wx + 1;
    }
  }

  /** The sum over output rows of vec::dot(input row, error row). */
  method TapGradientSum(gm: Geom, g: seq<real>, prev: seq<real>, o: int, c: int, wy: int, wx: int) returns (sum: real)
    requires Valid(gm) && |g| >= gm.outS.Size() && |prev| >= gm.inS.Size()
    requires 0 <= o < gm.outS.d && 0 <= c < gm.inS.d && 0 <= wy < gm.k && 0 <= wx < gm.k
    ensures sum == TapGradient(gm, g, prev, o, c, wy, wx)
  {
    sum := 0.0;
    var y := 0;
    while y < gm.outS.h
      invariant 0 <= y <= gm.outS.h
      invariant sum == SumF(DwRowDot(gm, g, prev, o, c, wy, wx), y)
    {
      var d := DwDot(gm, g, prev, o, c, wy, wx, y);
      sum := sum + d;
      y := y + 1;
    }
  }

  method DwDot(gm: Geom, g: seq<real>, prev: seq<real>, o: int, c: int, wy: int, wx: int, y: int) returns (s: real)
    requires Valid(gm) && |g| >= gm.outS.Size() && |prev| >= gm.inS.Size()
    requires 0 <= o < gm.outS.d && 0 <= c < gm.inS.d && 0 <= wy < gm.k && 0 <= wx < gm.k && 0 <= y < gm.outS.h
    ensures s == SumF(DwProduct(gm, g, prev, o, c, wy, wx, y), gm.outS.w)
  {
    s := 0.0;
    var x := 0;
    while x < gm.outS.w
      invariant 0 <= x <= gm.outS.w
      invariant s == SumF(DwProduct(gm, g, prev, o, c, wy, wx, y), x)
    {
      ReadsInRange(gm, o, c, y, x, wy, wx);
      IndexInRange(gm.outS, o, y, x);
      s := s + prev[Index(gm.inS, c, y + wy, x + wx)] * g[Index(gm.outS, o, y, x)];
      x := x + 1;
    }
  }

  /** The bias loop: db[o] += std::accumulate over output plane o. */
  method AccumulateBias(gm: Geom, g: seq<real>, db: array<real>)
    requires Valid(gm) && |g| >= gm.outS.Size() && db.Length == gm.outS.d
    modifies db
    ensures db[..] == Plus(old(db[..]), BiasGradient(gm, g))
  {
    var p := gm.outS.PlaneSize();
    PositiveSize(gm.outS);
    ghost var grad := BiasGradient(gm, g);
    var o, pos := 0, 0;
    while o < gm.outS.d
      invariant 0 <= o <= gm.outS.d && pos == o * p
      invariant forall j :: 0 <= j < db.Length ==> db[j] == old(db[j]) + (if j < o then grad[j] else 0.0)
    {
      MulLeft(o, gm.outS.d, p);
      var total := PlaneTotal(g, pos, p);
      db[o] := db[o] + total;
      o, pos := o + 1, pos + p;
    }
    forall j | 0 <= j < db.Length ensures db[..][j] == Plus(old(db[..]), grad)[j] {
    }
  }

  /** std::accumulate(g + pos, g + pos + n, 0). */
  method PlaneTotal(g: seq<real>, pos: nat, n: nat) returns (s: real)
    requires pos + n <= |g|
    ensures s == SumF(PlaneEntries(g, pos), n)
  {
    s := 0.0;
    var j := 0;
    while j < n
      invariant 0 <= j <= n && s == SumF(PlaneEntries(g, pos), j)
    {
      s := s + g[pos + j];
      j := j + 1;
    }
  }
}
