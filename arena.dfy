/** The activation-buffer arena of `network` in ml/cnn.hpp. Forward
    propagation, back propagation and calculate_dwdb address one flat
    buffer of `data_size` values cut into segments: segment k holds the
    input of layer k and starts at the sum of the input sizes of the layers
    before it; the last segment holds the network output. These members
    only read the layer list, so they take it as a parameter. */
module Arena {
  import opened Shapes
  import opened Vectors
  import opened Layers
  import FullyConnected
  import Convolution
  import ConvolutionGradients
  import Pooling
  import Dropout
  import SoftMax
  import Grids

  /** Layers whose sizes line up: every size is positive and each layer's
      output is the next one's input. */
  predicate Linked(layers: seq<Layer>) {
    |layers| > 0 &&
    (forall k :: 0 <= k < |layers| ==> layers[k].inputSize > 0 && layers[k].outputSize > 0) &&
    (forall k :: 0 <= k < |layers| - 1 ==> layers[k].outputSize == layers[k + 1].inputSize)
  }

  /** Layers that can run one after another: linked, and each one ready. */
  predicate Chained(layers: seq<Layer>) {
    Linked(layers) && forall k :: 0 <= k < |layers| ==> Ready(layers[k])
  }

  /** Where segment k starts: the input sizes of layers 0 .. k - 1. */
  function Offset(layers: seq<Layer>, k: nat): int
    requires k <= |layers|
  {
    if k == 0 then 0 else Offset(layers, k - 1) + layers[k - 1].inputSize
  }

  /** The length of segment k: the input of layer k, or the network output
      for the last segment. */
  function Width(layers: seq<Layer>, k: nat): int
    requires 0 < |layers| && k <= |layers|
  {
    if k < |layers| then layers[k].inputSize else layers[|layers| - 1].outputSize
  }

  /** The buffer length: all segments, the output included. */
  function Total(layers: seq<Layer>): int
    requires 0 < |layers|
  {
    Offset(layers, |layers|) + Width(layers, |layers|)
  }

  /** The segments tile the buffer: segment k is non-empty, lies inside the
      buffer, and is followed directly by segment k + 1, whose width is
      layer k's output. */
  lemma {:induction false} Layout(layers: seq<Layer>, k: nat)
    requires Linked(layers) && k <= |layers|
    ensures 0 <= Offset(layers, k) && 0 < Width(layers, k)
    ensures Offset(layers, k) + Width(layers, k) <= Total(layers)
    ensures k < |layers| ==>
      Offset(layers, k + 1) == Offset(layers, k) + Width(layers, k) &&
      Width(layers, k + 1) == layers[k].outputSize
    decreases |layers| - k
  {
    if k < |layers| {
      Layout(layers, k + 1);
    }
    OffsetNonNegative(layers, k);
  }

  lemma {:induction false} OffsetNonNegative(layers: seq<Layer>, k: nat)
    requires Linked(layers) && k <= |layers|
    ensures 0 <= Offset(layers, k)
  {
    if k > 0 {
      OffsetNonNegative(layers, k - 1);
    }
  }

  /** An earlier segment ends before a later one starts. */
  lemma {:induction false} OffsetGrows(layers: seq<Layer>, j: nat, k: nat)
    requires Linked(layers) && j < k <= |layers|
    ensures Offset(layers, j) + Width(layers, j) <= Offset(layers, k)
    decreases k
  {
    if j < k - 1 {
      OffsetGrows(layers, j, k - 1);
    }
  }

  /** Segment k of a buffer of the right length. */
  function Segment(s: seq<real>, layers: seq<Layer>, k: nat): (r: seq<real>)
    requires Linked(layers) && |s| == Total(layers) && k <= |layers|
    ensures |r| == Width(layers, k)
  {
    Layout(layers, k);
    s[Offset(layers, k)..Offset(layers, k) + Width(layers, k)]
  }

  /** A write that keeps the buffer below segment k keeps segments 0 .. k - 1. */
  lemma {:induction false} KeptBelow(layers: seq<Layer>, before: seq<real>, after: seq<real>, k: nat)
    requires Linked(layers) && |before| == |after| == Total(layers) && k <= |layers|
    requires 0 <= Offset(layers, k) <= |after| && after[..Offset(layers, k)] == before[..Offset(layers, k)]
    ensures forall j :: 0 <= j < k ==> Segment(after, layers, j) == Segment(before, layers, j)
  {
    forall j | 0 <= j < k
      ensures Segment(after, layers, j) == Segment(before, layers, j)
    {
      OffsetGrows(layers, j, k);
      Layout(layers, j);
      SliceBelow(before, after, Offset(layers, k), Offset(layers, j), Offset(layers, j) + Width(layers, j));
    }
  }

  /** A write that keeps the buffer from segment k on keeps segments k .. n. */
  lemma {:induction false} KeptAbove(layers: seq<Layer>, before: seq<real>, after: seq<real>, k: nat)
    requires Linked(layers) && |before| == |after| == Total(layers) && k <= |layers|
    requires 0 <= Offset(layers, k) <= |after| && after[Offset(layers, k)..] == before[Offset(layers, k)..]
    ensures forall j :: k <= j <= |layers| ==> Segment(after, layers, j) == Segment(before, layers, j)
  {
    forall j | k <= j <= |layers|
      ensures Segment(after, layers, j) == Segment(before, layers, j)
    {
      if k < j {
        OffsetGrows(layers, k, j);
      }
      Layout(layers, j);
      SliceAbove(before, after, Offset(layers, k), Offset(layers, j), Offset(layers, j) + Width(layers, j));
    }
  }

  lemma SliceBelow(before: seq<real>, after: seq<real>, hi: int, a: int, b: int)
    requires 0 <= a <= b <= hi <= |before| == |after| && after[..hi] == before[..hi]
    ensures after[a..b] == before[a..b]
  {
    assert after[a..b] == after[..hi][a..b];
    assert before[a..b] == before[..hi][a..b];
  }

  lemma SliceAbove(before: seq<real>, after: seq<real>, lo: int, a: int, b: int)
    requires 0 <= lo <= a <= b <= |before| == |after| && after[lo..] == before[lo..]
    ensures after[a..b] == before[a..b]
  {
    forall q | lo <= q < |after|
      ensures after[q] == before[q]
    {
      assert after[q] == after[lo..][q - lo];
    }
  }

  // ---------------------------------------------------------------------
  // Forward propagation

  /** One dropout draw per plane for every dropout layer in training mode. */
  predicate DrawsFit(layers: seq<Layer>, drops: seq<seq<bool>>) {
    |drops| == |layers| &&
    forall k :: 0 <= k < |layers| && layers[k].kind.Dropout? && layers[k].status == Training ==>
      |drops[k]| >= layers[k].inDim.d
  }

  /** What layer l's forward_propagation writes for input x, given the
      layer's dropout draws and the exponential soft-max uses. */
  function LayerOutput(l: Layer, x: seq<real>, drops: seq<bool>, exp: real -> real): (r: seq<real>)
    requires Ready(l) && |x| == l.inputSize
    ensures |r| == l.outputSize
  {
    match l.kind
    case Full => FullyConnected.ForwardSpec(l.weight, l.bias, x, l.inputSize, l.outputSize)
    case Conv(k) =>
      var gm := Convolution.Geom(l.inDim, l.outDim, k);
      Convolution.ForwardSpecIndex(gm, l.weight, l.bias, x, 0, 0, 0);
      Convolution.ForwardSpec(gm, l.weight, l.bias, x)
    case MaxPool(_) => Pooling.ForwardSpec(l.o2i, x)
    case Dropout(_) =>
      PositiveSize(l.inDim);
      Dropout.ForwardSpec(l.status, x, l.inDim.PlaneSize(), l.inDim.d, drops)
    case SoftMax => SoftMax.ForwardSpec(x, l.inputSize, exp)
  }

  /** layers[k]->forward_propagation: dispatches to the layer's kernel,
      which writes only the output segment at `off`. */
  method LayerForward(l: Layer, x: seq<real>, drops: seq<bool>, exp: real -> real, buf: array<real>, off: nat)
    requires Ready(l) && |x| == l.inputSize && off + l.outputSize <= buf.Length
    requires l.kind.Dropout? && l.status == Training ==> |drops| >= l.inDim.d
    modifies buf
    ensures buf[off..off + l.outputSize] == LayerOutput(l, x, drops, exp)
    ensures buf[..off] == old(buf[..off]) && buf[off + l.outputSize..] == old(buf[off + l.outputSize..])
  {
    match l.kind {
      case Full =>
        FullyConnected.Forward(l.weight, l.bias, x, l.inputSize, l.outputSize, buf, off);
      case Conv(k) =>
        var gm := Convolution.Geom(l.inDim, l.outDim, k);
        Convolution.Forward(gm, l.weight, l.bias, x, buf, off);
      case MaxPool(_) =>
        Pooling.Forward(l.o2i, x, buf, off);
      case Dropout(_) =>
        PositiveSize(l.inDim);
        Dropout.Forward(l.status, x, l.inDim.PlaneSize(), l.inDim.d, drops, buf, off);
      case SoftMax =>
        SoftMax.Forward(x, l.inputSize, exp, buf, off);
    }
  }

  /** The activations: segment 0 is the input, segment k + 1 the output of
      layer k passed through its activation. */
  function Acts(layers: seq<Layer>, input: seq<real>, drops: seq<seq<bool>>, exp: real -> real, k: nat): (r: seq<real>)
    requires Chained(layers) && |input| >= layers[0].inputSize && |drops| == |layers| && k <= |layers|
    ensures |r| == Width(layers, k)
  {
    if k == 0 then input[..layers[0].inputSize]
    else
      Layout(layers, k - 1);
      var l := layers[k - 1];
      Activated(l.af, LayerOutput(l, Acts(layers, input, drops, exp, k - 1), drops[k - 1], exp))
  }

  /** forward_propagation: copies the input to segment 0, then runs each
      layer on segment k into segment k + 1 and applies its activation
      there. Every segment ends up holding its activations. */
  method ForwardPropagation(layers: seq<Layer>, input: seq<real>, drops: seq<seq<bool>>, exp: real -> real,
                            buf: array<real>)
    requires Chained(layers) && |input| >= layers[0].inputSize && DrawsFit(layers, drops)
    requires buf.Length == Total(layers)
    modifies buf
    ensures forall k :: 0 <= k <= |layers| ==> Segment(buf[..], layers, k) == Acts(layers, input, drops, exp, k)
  {
    Layout(layers, 0);
    CopyInto(input[..layers[0].inputSize], buf, 0);
    var k := 0;
    while k < |layers|
      invariant 0 <= k <= |layers|
      invariant forall j :: 0 <= j <= k ==> Segment(buf[..], layers, j) == Acts(layers, input, drops, exp, j)
    {
      RunLayer(layers, input, drops, exp, k, buf);
      k := k + 1;
    }
  }

  /** One pass of the forward loop: layer k's kernel reads segment k and
      writes segment k + 1, and forward_af applies its activation there. */
  method RunLayer(layers: seq<Layer>, input: seq<real>, drops: seq<seq<bool>>, exp: real -> real, k: nat,
                  buf: array<real>)
    requires Chained(layers) && |input| >= layers[0].inputSize && DrawsFit(layers, drops) && k < |layers|
    requires buf.Length == Total(layers)
    requires forall j :: 0 <= j <= k ==> Segment(buf[..], layers, j) == Acts(layers, input, drops, exp, j)
    modifies buf
    ensures forall j :: 0 <= j <= k + 1 ==> Segment(buf[..], layers, j) == Acts(layers, input, drops, exp, j)
  {
    Layout(layers, k);
    Layout(layers, k + 1);
    var l := layers[k];
    var off := Offset(layers, k);
    var next := off + l.inputSize;
    ghost var before := buf[..];
    var x := buf[off..next];
    ActivatedForward(l, x, drops[k], exp, buf, next);
    ForwardStep(layers, input, drops, exp, k, off, next, x, before, buf[..]);
  }

  /** The kernel followed by forward_af on the same output segment. */
  method ActivatedForward(l: Layer, x: seq<real>, drops: seq<bool>, exp: real -> real, buf: array<real>, off: nat)
    requires Ready(l) && |x| == l.inputSize && off + l.outputSize <= buf.Length
    requires l.kind.Dropout? && l.status == Training ==> |drops| >= l.inDim.d
    modifies buf
    ensures buf[off..off + l.outputSize] == Activated(l.af, LayerOutput(l, x, drops, exp))
    ensures buf[..off] == old(buf[..off])
  {
    LayerForward(l, x, drops, exp, buf, off);
    ghost var y := buf[off..off + l.outputSize];
    ForwardAf(l.af, buf, off, l.outputSize);
    assert buf[off..off + Count(l.outputSize)] == Activated(l.af, y);
  }

  /** One pass of the forward loop: layer k's kernel and activation write
      its output segment and keep everything before it, so segments
      0 .. k + 1 hold their activations. */
  lemma {:induction false} ForwardStep(layers: seq<Layer>, input: seq<real>, drops: seq<seq<bool>>, exp: real -> real,
                                       k: nat, off: nat, next: nat, x: seq<real>, before: seq<real>, after: seq<real>)
    requires Chained(layers) && |input| >= layers[0].inputSize && |drops| == |layers| && k < |layers|
    requires |before| == |after| == Total(layers)
    requires off == Offset(layers, k) && next == Offset(layers, k + 1) == off + layers[k].inputSize
    requires next + layers[k].outputSize <= |after|
    requires x == before[off..next]
    requires forall j :: 0 <= j <= k ==> Segment(before, layers, j) == Acts(layers, input, drops, exp, j)
    requires after[next..next + layers[k].outputSize] == Activated(layers[k].af, LayerOutput(layers[k], x, drops[k], exp))
    requires after[..next] == before[..next]
    ensures forall j :: 0 <= j <= k + 1 ==> Segment(after, layers, j) == Acts(layers, input, drops, exp, j)
  {
    ForwardHead(layers, input, drops, exp, k, off, next, x, before, after);
    KeptBelow(layers, before, after, k + 1);
    forall j | 0 <= j <= k
      ensures Segment(after, layers, j) == Acts(layers, input, drops, exp, j)
    {
      assert Segment(after, layers, j) == Segment(before, layers, j);
    }
  }

  /** The new output segment holds the activations of segment k + 1. */
  lemma {:induction false} ForwardHead(layers: seq<Layer>, input: seq<real>, drops: seq<seq<bool>>, exp: real -> real,
                                       k: nat, off: nat, next: nat, x: seq<real>, before: seq<real>, after: seq<real>)
    requires Chained(layers) && |input| >= layers[0].inputSize && |drops| == |layers| && k < |layers|
    requires |before| == |after| == Total(layers)
    requires off == Offset(layers, k) && next == Offset(layers, k + 1) == off + layers[k].inputSize
    requires next + layers[k].outputSize <= |after|
    requires x == before[off..next]
    requires Segment(before, layers, k) == Acts(layers, input, drops, exp, k)
    requires after[next..next + layers[k].outputSize] == Activated(layers[k].af, LayerOutput(layers[k], x, drops[k], exp))
    ensures Segment(after, layers, k + 1) == Acts(layers, input, drops, exp, k + 1)
  {
    Layout(layers, k);
    Layout(layers, k + 1);
    assert Segment(before, layers, k) == x;
  }

  /** predict: runs the network on a scratch buffer and returns its last
      segment, the network output. */
  method Predict(layers: seq<Layer>, input: seq<real>, drops: seq<seq<bool>>, exp: real -> real)
    returns (r: seq<real>)
    requires Chained(layers) && |input| >= layers[0].inputSize && DrawsFit(layers, drops)
    ensures r == Acts(layers, input, drops, exp, |layers|)
    ensures |r| == layers[|layers| - 1].outputSize
  {
    Layout(layers, |layers|);
    var buf := new real[Total(layers)];
    ForwardPropagation(layers, input, drops, exp, buf);
    r := buf[Offset(layers, |layers|)..Total(layers)];
    assert r == Segment(buf[..], layers, |layers|);
  }

  // ---------------------------------------------------------------------
  // Back propagation

  const TargetMin: real := 0.1
  const TargetMax: real := 0.9

  /** The output error: the output minus the soft target, 0.9 for the
      expected and 0.1 for every other class. */
  function Seed(y: seq<real>, expected: int): (r: seq<real>)
    ensures |r| == |y|
  {
    seq(|y|, i requires 0 <= i < |y| => y[i] - (if i == expected then TargetMax else TargetMin))
  }

  /** The error layer l's back_propagation writes to its input segment,
      given the error g of its output, its input x and its output y. The
      convolution uses the cleared pass, and soft-max is handed its output
      (see the findings). */
  function InputError(l: Layer, g: seq<real>, x: seq<real>, y: seq<real>): (r: seq<real>)
    requires Ready(l) && |g| == l.outputSize && |x| == l.inputSize && |y| == l.outputSize
    ensures |r| == l.inputSize
  {
    match l.kind
    case Full => FullyConnected.BackSpec(l.weight, g, l.inputSize, l.outputSize)
    case Conv(k) => ConvolutionGradients.InputError(Convolution.Geom(l.inDim, l.outDim, k), l.weight, g)
    case MaxPool(_) => Pooling.BackSpec(l.o2i, l.i2o, g, x)
    case Dropout(_) =>
      PositiveSize(l.inDim);
      DropoutBack(g, y, l.inDim.PlaneSize(), l.inDim.d)
    case SoftMax => SoftMax.BackSpec(g, y, l.inputSize)
  }

  function DropoutBack(g: seq<real>, y: seq<real>, p: nat, depth: nat): (r: seq<real>)
    ensures |r| == p * depth
  {
    Grids.ConcatLength(Dropout.BackPlanes(g, y, p), depth, p);
    Grids.Concat(Dropout.BackPlanes(g, y, p), depth)
  }

  /** layers[k]->back_propagation: writes only the input error segment at `off`. */
  method LayerBack(l: Layer, g: seq<real>, x: seq<real>, y: seq<real>, err: array<real>, off: nat)
    requires Ready(l) && |g| == l.outputSize && |x| == l.inputSize && |y| == l.outputSize
    requires off + l.inputSize <= err.Length
    modifies err
    ensures err[off..off + l.inputSize] == InputError(l, g, x, y)
    ensures err[..off] == old(err[..off]) && err[off + l.inputSize..] == old(err[off + l.inputSize..])
  {
    match l.kind {
      case Full =>
        FullyConnected.Back(l.weight, g, l.inputSize, l.outputSize, err, off);
      case Conv(k) =>
        var gm := Convolution.Geom(l.inDim, l.outDim, k);
        ghost var before := err[..];
        ConvolutionGradients.BackCleared(gm, l.weight, g, err, off);
        ConvolutionGradients.ClearedBackSegment(gm, l.weight, g, before, off);
        assert err[off..off + l.inputSize] == err[..][off..off + l.inputSize];
      case MaxPool(_) =>
        Pooling.Back(l.o2i, l.i2o, g, x, err, off);
      case Dropout(_) =>
        PositiveSize(l.inDim);
        Dropout.Back(g, y, l.inDim.PlaneSize(), l.inDim.d, err, off);
      case SoftMax =>
        SoftMax.Back(g, y, l.inputSize, err, off);
    }
  }

  /** The error reaching segment k, before back_af touches it: the seed for
      the output segment, and otherwise the input error of layer k given
      the gated error of its output. */
  function Err(layers: seq<Layer>, fwd: seq<real>, expected: int, k: nat): (r: seq<real>)
    requires Chained(layers) && |fwd| == Total(layers) && k <= |layers|
    ensures |r| == Width(layers, k)
    decreases |layers| - k
  {
    if k == |layers| then Seed(Segment(fwd, layers, k), expected)
    else
      Layout(layers, k);
      var l := layers[k];
      InputError(l, Gated(l.af, Err(layers, fwd, expected, k + 1), Segment(fwd, layers, k + 1)),
                 Segment(fwd, layers, k), Segment(fwd, layers, k + 1))
  }

  /** What back_propagation leaves in segment k: the input error for
      segment 0, and the error gated by layer k - 1's activation for every
      later segment. */
  function Final(layers: seq<Layer>, fwd: seq<real>, expected: int, k: nat): (r: seq<real>)
    requires Chained(layers) && |fwd| == Total(layers) && k <= |layers|
    ensures |r| == Width(layers, k)
  {
    if k == 0 then Err(layers, fwd, expected, 0)
    else Gated(layers[k - 1].af, Err(layers, fwd, expected, k), Segment(fwd, layers, k))
  }

  /** The seeding loop: subtracts the soft target from each of the `n`
      output errors at `off`. */
  method SubtractTargets(err: array<real>, off: nat, n: nat, expected: int)
    requires off + n <= err.Length
    modifies err
    ensures err[off..off + n] == Seed(old(err[off..off + n]), expected)
    ensures err[..off] == old(err[..off]) && err[off + n..] == old(err[off + n..])
  {
    ghost var y := err[off..off + n];
    var i := 0;
    while i < n
      invariant 0 <= i <= n
      invariant forall q :: 0 <= q < i ==> err[off + q] == y[q] - (if q == expected then TargetMax else TargetMin)
      invariant forall q :: 0 <= q < err.Length && !(off <= q < off + i) ==> err[q] == old(err[q])
    {
      err[off + i] := err[off + i] - (if expected == i then TargetMax else TargetMin);
      i := i + 1;
    }
  }

  /** back_propagation: seeds the output segment of `err` from the output
      segment of the forward buffer `fwd`, then walks the layers from
      last to first, gating segment k + 1 with back_af and writing layer
      k's input error into segment k. */
  method BackPropagation(layers: seq<Layer>, expected: int, fwd: seq<real>, err: array<real>)
    requires Chained(layers) && |fwd| == Total(layers) && err.Length == Total(layers)
    modifies err
    ensures forall k :: 0 <= k <= |layers| ==> Segment(err[..], layers, k) == Final(layers, fwd, expected, k)
  {
    var n := |layers|;
    SeedOutput(layers, expected, fwd, err);
    ghost var finals := Finals(layers, fwd, expected);
    var k := n - 1;
    while k >= 0
      invariant -1 <= k < n
      invariant BackDone(layers, fwd, expected, finals, err[..], k)
    {
      BackLayer(layers, fwd, expected, finals, k, err);
      k := k - 1;
    }
    FinalsReached(layers, fwd, expected, finals, err[..]);
  }

  /** Once segment 0 holds its error and the others their Final value, the
      whole buffer is as back_propagation promises. */
  lemma FinalsReached(layers: seq<Layer>, fwd: seq<real>, expected: int, finals: seq<seq<real>>, s: seq<real>)
    requires Chained(layers) && |fwd| == Total(layers) && |s| == Total(layers)
    requires finals == Finals(layers, fwd, expected)
    requires Segment(s, layers, 0) == Err(layers, fwd, expected, 0)
    requires forall j :: 0 < j <= |layers| ==> Segment(s, layers, j) == finals[j]
    ensures forall k :: 0 <= k <= |layers| ==> Segment(s, layers, k) == Final(layers, fwd, expected, k)
  {
    forall k | 0 <= k <= |layers|
      ensures Segment(s, layers, k) == Final(layers, fwd, expected, k)
    {
      assert finals[k] == Final(layers, fwd, expected, k);
      if k == 0 {
        assert Final(layers, fwd, expected, 0) == Err(layers, fwd, expected, 0);
      }
    }
  }

  /** The start of back_propagation: the output segment of `err` gets the
      network output minus the soft target. */
  method SeedOutput(layers: seq<Layer>, expected: int, fwd: seq<real>, err: array<real>)
    requires Chained(layers) && |fwd| == Total(layers) && err.Length == Total(layers)
    modifies err
    ensures Segment(err[..], layers, |layers|) == Err(layers, fwd, expected, |layers|)
  {
    var n := |layers|;
    Layout(layers, n);
    var outOff := Offset(layers, n);
    var outSize := layers[n - 1].outputSize;
    CopyInto(fwd[outOff..outOff + outSize], err, outOff);
    SubtractTargets(err, outOff, outSize, expected);
    assert Segment(err[..], layers, n) == err[outOff..outOff + outSize];
    assert Segment(fwd, layers, n) == fwd[outOff..outOff + outSize];
  }

  /** The state of `s` after the back loop has run down to layer k + 1:
      segment k + 1 holds its error and the later segments their targets. */
  ghost predicate BackDone(layers: seq<Layer>, fwd: seq<real>, expected: int, finals: seq<seq<real>>,
                           s: seq<real>, k: int) {
    Chained(layers) && |fwd| == Total(layers) && |s| == Total(layers) && -1 <= k < |layers| &&
    |finals| == |layers| + 1 &&
    Segment(s, layers, k + 1) == Err(layers, fwd, expected, k + 1) &&
    forall j :: k + 1 < j <= |layers| ==> Segment(s, layers, j) == finals[j]
  }

  /** Final for every segment. */
  ghost function Finals(layers: seq<Layer>, fwd: seq<real>, expected: int): (r: seq<seq<real>>)
    requires Chained(layers) && |fwd| == Total(layers)
    ensures |r| == |layers| + 1
    ensures forall j :: 0 <= j <= |layers| ==> r[j] == Final(layers, fwd, expected, j)
  {
    seq(|layers| + 1, j requires 0 <= j <= |layers| => Final(layers, fwd, expected, j))
  }

  /** One pass of the back loop: back_af gates segment k + 1, which then
      holds its final error, and layer k writes its input error into
      segment k. */
  method BackLayer(layers: seq<Layer>, fwd: seq<real>, expected: int, ghost finals: seq<seq<real>>, k: nat,
                   err: array<real>)
    requires Chained(layers) && |fwd| == Total(layers) && err.Length == Total(layers) && k < |layers|
    requires finals == Finals(layers, fwd, expected)
    requires BackDone(layers, fwd, expected, finals, err[..], k)
    modifies err
    ensures BackDone(layers, fwd, expected, finals, err[..], k - 1)
  {
    Layout(layers, k);
    Layout(layers, k + 1);
    var l := layers[k];
    var off := Offset(layers, k);
    var next := off + l.inputSize;
    var x := fwd[off..next];
    var y := fwd[next..next + l.outputSize];
    ghost var before := err[..];
    ghost var g := err[next..next + l.outputSize];
    GatedBack(l, x, y, g, err, off, next);
    BackErr(layers, fwd, expected, k, off, next, x, y, g, before, err[..]);
    FinalHead(layers, fwd, expected, k, next, y, g, before);
    BackFinal(layers, k, next, Gated(l.af, g, y), finals, before, err[..]);
  }

  /** After one pass of the back loop, segment k holds Err. */
  lemma {:induction false} BackErr(layers: seq<Layer>, fwd: seq<real>, expected: int, k: nat, off: nat, next: nat,
                                   x: seq<real>, y: seq<real>, g: seq<real>, before: seq<real>, after: seq<real>)
    requires Chained(layers) && |fwd| == Total(layers) && |before| == |after| == Total(layers) && k < |layers|
    requires off == Offset(layers, k) && next == Offset(layers, k + 1) == off + layers[k].inputSize
    requires next + layers[k].outputSize <= |fwd|
    requires x == fwd[off..next] && y == fwd[next..next + layers[k].outputSize]
    requires g == before[next..next + layers[k].outputSize]
    requires Segment(before, layers, k + 1) == Err(layers, fwd, expected, k + 1)
    requires after[off..next] == InputError(layers[k], Gated(layers[k].af, g, y), x, y)
    ensures Segment(after, layers, k) == Err(layers, fwd, expected, k)
  {
    Layout(layers, k + 1);
    assert g == Segment(before, layers, k + 1);
    ErrStep(layers, fwd, expected, k, off, next, x, y, g, after);
  }

  /** After one pass of the back loop, segments k + 1 .. n hold their
      targets: segment k + 1 was written with its own, and the later ones
      were left alone. */
  lemma {:induction false} BackFinal(layers: seq<Layer>, k: nat, next: nat, head: seq<real>,
                                     targets: seq<seq<real>>, before: seq<real>, after: seq<real>)
    requires Linked(layers) && |before| == |after| == Total(layers) && k < |layers| && |targets| == |layers| + 1
    requires next == Offset(layers, k + 1) && 0 <= next && next + layers[k].outputSize <= |after|
    requires head == targets[k + 1] && after[next..next + layers[k].outputSize] == head
    requires after[next + layers[k].outputSize..] == before[next + layers[k].outputSize..]
    requires forall j :: k + 1 < j <= |layers| ==> Segment(before, layers, j) == targets[j]
    ensures forall j :: k < j <= |layers| ==> Segment(after, layers, j) == targets[j]
  {
    Layout(layers, k);
    Layout(layers, k + 1);
    assert Segment(after, layers, k + 1) == head;
    if k + 1 < |layers| {
      KeptAbove(layers, before, after, k + 2);
    }
  }

  /** back_af on the output segment at `next`, then the layer's
      back_propagation into its input segment at `off`. */
  method GatedBack(l: Layer, x: seq<real>, y: seq<real>, ghost g0: seq<real>, err: array<real>, off: nat, next: nat)
    requires Ready(l) && |x| == l.inputSize && |y| == l.outputSize
    requires next == off + l.inputSize && next + l.outputSize <= err.Length
    requires g0 == err[next..next + l.outputSize]
    modifies err
    ensures err[next..next + l.outputSize] == Gated(l.af, g0, y)
    ensures err[off..next] == InputError(l, Gated(l.af, g0, y), x, y)
    ensures err[..off] == old(err[..off]) && err[next + l.outputSize..] == old(err[next + l.outputSize..])
  {
    ghost var before := err[..];
    BackAf(l.af, err, next, y, l.outputSize);
    var g := err[next..next + l.outputSize];
    assert g == Gated(l.af, g0, y);
    ghost var mid := err[..];
    LayerBack(l, g, x, y, err, off);
    GatedFrame(before, mid, err[..], off, next, next + l.outputSize);
  }

  /** The slices back_af and the layer's back pass leave alone. */
  lemma GatedFrame(before: seq<real>, mid: seq<real>, after: seq<real>, off: int, next: int, end: int)
    requires 0 <= off <= next <= end <= |before| == |mid| == |after|
    requires mid[..next] == before[..next] && mid[end..] == before[end..]
    requires after[..off] == mid[..off] && after[next..] == mid[next..]
    ensures after[next..end] == mid[next..end]
    ensures after[..off] == before[..off] && after[end..] == before[end..]
  {
    SliceAbove(mid, after, next, next, end);
    SliceAbove(mid, after, next, end, |after|);
    SliceBelow(before, mid, next, 0, off);
    assert after[..off] == after[0..off];
    assert before[..off] == before[0..off];
    assert after[end..] == after[end..|after|];
    assert before[end..] == before[end..|before|];
  }

  /** Layer k's input error, written at `off`, is Err for segment k. */
  lemma {:induction false} ErrStep(layers: seq<Layer>, fwd: seq<real>, expected: int, k: nat, off: nat, next: nat,
                x: seq<real>, y: seq<real>, g: seq<real>, after: seq<real>)
    requires Chained(layers) && |fwd| == Total(layers) && |after| == Total(layers) && k < |layers|
    requires off == Offset(layers, k) && next == Offset(layers, k + 1) == off + layers[k].inputSize
    requires next + layers[k].outputSize <= |fwd|
    requires x == fwd[off..next] && y == fwd[next..next + layers[k].outputSize]
    requires g == Err(layers, fwd, expected, k + 1)
    requires after[off..next] == InputError(layers[k], Gated(layers[k].af, g, y), x, y)
    ensures Segment(after, layers, k) == Err(layers, fwd, expected, k)
  {
    Layout(layers, k);
    Layout(layers, k + 1);
    assert Segment(fwd, layers, k) == x;
    assert Segment(fwd, layers, k + 1) == y;
  }

  /** back_af's gating of segment k + 1 gives what Final promises there. */
  lemma {:induction false} FinalHead(layers: seq<Layer>, fwd: seq<real>, expected: int, k: nat, next: nat,
                                     y: seq<real>, g: seq<real>, before: seq<real>)
    requires Chained(layers) && |fwd| == Total(layers) && |before| == Total(layers) && k < |layers|
    requires next == Offset(layers, k + 1) && 0 <= next && next + layers[k].outputSize <= |fwd|
    requires y == fwd[next..next + layers[k].outputSize]
    requires g == before[next..next + layers[k].outputSize]
    requires Segment(before, layers, k + 1) == Err(layers, fwd, expected, k + 1)
    ensures Gated(layers[k].af, g, y) == Final(layers, fwd, expected, k + 1)
  {
    Layout(layers, k + 1);
    assert Segment(fwd, layers, k + 1) == y;
    assert Segment(before, layers, k + 1) == g;
  }

  // ---------------------------------------------------------------------
  // calculate_dwdb

  /** The weight change layer l's calculate_dwdb makes, from the error g of
      its output and its input `prev`. A layer without weights is skipped. */
  function LayerDw(l: Layer, g: seq<real>, prev: seq<real>, dw: seq<real>): (r: seq<real>)
    requires Ready(l) && |g| == l.outputSize && |prev| == l.inputSize && |dw| == |l.weight|
    ensures |r| == |dw|
  {
    if |l.weight| == 0 then dw
    else match l.kind
      case Full => FullyConnected.DwSpec(dw, g, prev, l.inputSize)
      case Conv(k) =>
        var gm := Convolution.Geom(l.inDim, l.outDim, k);
        ConvolutionGradients.WeightGradientLength(gm, g, prev);
        Plus(dw, ConvolutionGradients.WeightGradient(gm, g, prev))
      case _ => dw
  }

  /** The bias change layer l's calculate_dwdb makes. */
  function LayerDb(l: Layer, g: seq<real>, db: seq<real>): (r: seq<real>)
    requires Ready(l) && |g| == l.outputSize && |db| == |l.bias|
    ensures |r| == |db|
  {
    if |l.weight| == 0 then db
    else match l.kind
      case Full => seq(l.outputSize, j requires 0 <= j < l.outputSize => db[j] + g[j])
      case Conv(k) => Plus(db, ConvolutionGradients.BiasGradient(Convolution.Geom(l.inDim, l.outDim, k), g))
      case _ => db
  }

  /** The input layer k saw: the data entry for the first layer, segment k
      of the forward buffer otherwise. */
  function Prev(layers: seq<Layer>, data: seq<real>, fwd: seq<real>, k: nat): (r: seq<real>)
    requires Chained(layers) && |fwd| == Total(layers) && |data| >= layers[0].inputSize && k < |layers|
    ensures |r| == layers[k].inputSize
  {
    if k == 0 then data[..layers[0].inputSize] else Segment(fwd, layers, k)
  }

  /** Every gradient accumulator is its own vector. */
  predicate Separate(dw: seq<array<real>>, db: seq<array<real>>) {
    (forall i, j :: 0 <= i < j < |dw| ==> dw[i] != dw[j]) &&
    (forall i, j :: 0 <= i < j < |db| ==> db[i] != db[j]) &&
    (forall i, j :: 0 <= i < |dw| && 0 <= j < |db| ==> dw[i] != db[j])
  }

  /** Accumulators sized like the layers' weights and biases. */
  predicate Sized(layers: seq<Layer>, dw: seq<array<real>>, db: seq<array<real>>) {
    |dw| == |layers| && |db| == |layers| &&
    forall k :: 0 <= k < |layers| ==> dw[k].Length == |layers[k].weight| && db[k].Length == |layers[k].bias|
  }

  /** layers[k]->calculate_dwdb for a layer with weights. */
  method LayerDwDb(l: Layer, g: seq<real>, prev: seq<real>, dw: array<real>, db: array<real>)
    requires Ready(l) && |g| == l.outputSize && |prev| == l.inputSize && |l.weight| > 0
    requires dw.Length == |l.weight| && db.Length == |l.bias| && dw != db
    modifies dw, db
    ensures dw[..] == LayerDw(l, g, prev, old(dw[..]))
    ensures db[..] == LayerDb(l, g, old(db[..]))
  {
    match l.kind {
      case Full =>
        FullyConnected.CalculateDwDb(g, prev, l.inputSize, l.outputSize, dw, db);
      case Conv(k) =>
        var gm := Convolution.Geom(l.inDim, l.outDim, k);
        ConvolutionGradients.CalculateDwDb(gm, g, prev, dw, db);
    }
  }

  /** Layer k's accumulators went from (dwOld, dbOld) to (dwNew, dbNew) by
      its calculate_dwdb, given the forward buffer, the error buffer and
      the data entry. */
  ghost predicate Accumulated(layers: seq<Layer>, data: seq<real>, fwd: seq<real>, err: seq<real>, k: int,
                              dwNew: seq<real>, dwOld: seq<real>, dbNew: seq<real>, dbOld: seq<real>) {
    Chained(layers) && |fwd| == Total(layers) && |err| == Total(layers) && |data| >= layers[0].inputSize &&
    0 <= k < |layers| && |dwOld| == |layers[k].weight| && |dbOld| == |layers[k].bias| &&
    (Layout(layers, k + 1);
     dwNew == LayerDw(layers[k], Segment(err, layers, k + 1), Prev(layers, data, fwd, k), dwOld) &&
     dbNew == LayerDb(layers[k], Segment(err, layers, k + 1), dbOld))
  }

  /** calculate_dwdb: every layer with weights adds the gradient of its
      weights and biases, from segment k + 1 of the error buffer and its
      input, to its own accumulators. */
  method CalculateDwDb(layers: seq<Layer>, data: seq<real>, fwd: seq<real>, err: seq<real>,
                       dw: seq<array<real>>, db: seq<array<real>>)
    requires Chained(layers) && |fwd| == Total(layers) && |err| == Total(layers) && |data| >= layers[0].inputSize
    requires Sized(layers, dw, db) && Separate(dw, db)
    modifies set k | 0 <= k < |dw| :: dw[k], set k | 0 <= k < |db| :: db[k]
    ensures forall k :: 0 <= k < |layers| ==>
      Accumulated(layers, data, fwd, err, k, dw[k][..], old(dw[k][..]), db[k][..], old(db[k][..]))
  {
    ghost var dw0, db0 := Values(dw), Values(db);
    var k := 0;
    while k < |layers|
      invariant 0 <= k <= |layers|
      invariant AccumulatedUpTo(layers, data, fwd, err, k, Values(dw), dw0, Values(db), db0)
      invariant forall j :: k <= j < |layers| ==> dw[j][..] == dw0[j] && db[j][..] == db0[j]
    {
      ghost var dwBefore, dbBefore := Values(dw), Values(db);
      AccumulateAt(layers, data, fwd, err, k, dw, db);
      AccumulatedGrows(layers, data, fwd, err, k, dwBefore, Values(dw), dw0, dbBefore, Values(db), db0);
      k := k + 1;
    }
  }

  /** The contents of each array. */
  ghost function Values(a: seq<array<real>>): (r: seq<seq<real>>)
    reads set i | 0 <= i < |a| :: a[i]
    ensures |r| == |a| && forall i :: 0 <= i < |a| ==> r[i] == a[i][..]
  {
    seq(|a|, i requires 0 <= i < |a| reads set j | 0 <= j < |a| :: a[j] => a[i][..])
  }

  /** Layers 0 .. k - 1 went from `was` to `now` by calculate_dwdb. */
  ghost predicate AccumulatedUpTo(layers: seq<Layer>, data: seq<real>, fwd: seq<real>, err: seq<real>, k: int,
                                  now: seq<seq<real>>, was: seq<seq<real>>, nowB: seq<seq<real>>, wasB: seq<seq<real>>) {
    |now| == |was| == |nowB| == |wasB| == |layers| &&
    forall j :: 0 <= j < k && j < |layers| ==> Accumulated(layers, data, fwd, err, j, now[j], was[j], nowB[j], wasB[j])
  }

  lemma AccumulatedGrows(layers: seq<Layer>, data: seq<real>, fwd: seq<real>, err: seq<real>, k: nat,
                         before: seq<seq<real>>, after: seq<seq<real>>, was: seq<seq<real>>,
                         beforeB: seq<seq<real>>, afterB: seq<seq<real>>, wasB: seq<seq<real>>)
    requires AccumulatedUpTo(layers, data, fwd, err, k, before, was, beforeB, wasB)
    requires |after| == |afterB| == |layers| && k < |layers|
    requires before[k] == was[k] && beforeB[k] == wasB[k]
    requires Accumulated(layers, data, fwd, err, k, after[k], before[k], afterB[k], beforeB[k])
    requires forall j :: 0 <= j < |layers| && j != k ==> after[j] == before[j] && afterB[j] == beforeB[j]
    ensures AccumulatedUpTo(layers, data, fwd, err, k + 1, after, was, afterB, wasB)
  {
    forall j | 0 <= j < k + 1
      ensures Accumulated(layers, data, fwd, err, j, after[j], was[j], afterB[j], wasB[j])
    {
      if j < k {
        assert Accumulated(layers, data, fwd, err, j, before[j], was[j], beforeB[j], wasB[j]);
      }
    }
  }

  /** One pass of the calculate_dwdb loop, which leaves the other layers'
      accumulators alone. */
  method AccumulateAt(layers: seq<Layer>, data: seq<real>, fwd: seq<real>, err: seq<real>, k: nat,
                      dw: seq<array<real>>, db: seq<array<real>>)
    requires Chained(layers) && |fwd| == Total(layers) && |err| == Total(layers) && |data| >= layers[0].inputSize
    requires Sized(layers, dw, db) && Separate(dw, db) && k < |layers|
    modifies dw[k], db[k]
    ensures Accumulated(layers, data, fwd, err, k, dw[k][..], old(dw[k][..]), db[k][..], old(db[k][..]))
    ensures forall j :: 0 <= j < |layers| && j != k ==> dw[j][..] == old(dw[j][..]) && db[j][..] == old(db[j][..])
  {
    AccumulateLayer(layers, data, fwd, err, k, dw[k], db[k]);
    forall j | 0 <= j < |layers| && j != k
      ensures dw[j][..] == old(dw[j][..]) && db[j][..] == old(db[j][..])
    {
      assert dw[j] != dw[k] && dw[j] != db[k] && db[j] != dw[k] && db[j] != db[k];
    }
  }

  /** One pass of the calculate_dwdb loop: layer k's accumulators. */
  method AccumulateLayer(layers: seq<Layer>, data: seq<real>, fwd: seq<real>, err: seq<real>, k: nat,
                         dw: array<real>, db: array<real>)
    requires Chained(layers) && |fwd| == Total(layers) && |err| == Total(layers) && |data| >= layers[0].inputSize
    requires k < |layers| && dw.Length == |layers[k].weight| && db.Length == |layers[k].bias| && dw != db
    modifies dw, db
    ensures Accumulated(layers, data, fwd, err, k, dw[..], old(dw[..]), db[..], old(db[..]))
  {
    Layout(layers, k + 1);
    var l := layers[k];
    if |l.weight| > 0 {
      LayerDwDb(l, Segment(err, layers, k + 1), Prev(layers, data, fwd, k), dw, db);
    }
  }

  // ---------------------------------------------------------------------
  // computation_cost

  /** unsigned int arithmetic. */
  function Wrap(x: int): (r: int)
    ensures 0 <= r < 0x1_0000_0000
  {
    x % 0x1_0000_0000
  }

  /** The sum of the layer costs. */
  function TotalCost(layers: seq<Layer>): int {
    if |layers| == 0 then 0 else TotalCost(layers[..|layers| - 1]) + LayerCost(layers[|layers| - 1])
  }

  /** The cost of two layer lists run one after the other is the sum of
      their costs. */
  lemma {:induction false} TotalCostAppend(a: seq<Layer>, b: seq<Layer>)
    ensures TotalCost(a + b) == TotalCost(a) + TotalCost(b)
    decreases |b|
  {
    if |b| > 0 {
      assert (a + b)[..|a + b| - 1] == a + b[..|b| - 1];
      TotalCostAppend(a, b[..|b| - 1]);
    } else {
      assert a + b == a;
    }
  }

  /** computation_cost: the layer costs summed in unsigned arithmetic,
      each converted to unsigned first. */
  method ComputationCost(layers: seq<Layer>) returns (cost: int)
    ensures cost == Wrap(TotalCost(layers))
  {
    cost := 0;
    var i := 0;
    while i < |layers|
      invariant 0 <= i <= |layers|
      invariant cost == Wrap(TotalCost(layers[..i]))
    {
      assert layers[..i + 1][..i] == layers[..i];
      WrapAdd(TotalCost(layers[..i]), LayerCost(layers[i]));
      cost := Wrap(cost + Wrap(LayerCost(layers[i])));
      i := i + 1;
    }
    assert layers[..i] == layers;
  }

  lemma WrapAdd(a: int, b: int)
    ensures Wrap(Wrap(a) + Wrap(b)) == Wrap(a + b)
  {
  }
}
