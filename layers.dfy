/** The layer record every layer of ml/cnn.hpp derives from (basic_layer),
    the five layer kinds, how each one's `init` accepts an input/output
    shape pair and sizes its parameters, the activation helpers
    (relu_f, relu_df, forward_af, back_af) and each kind's
    computation_cost. */
module Layers {
  import opened Shapes
  import opened Vectors
  import opened Text
  import Pooling

  datatype Activation = Relu | Identity
  datatype Status = Training | Testing

  /** The five layer classes with the parameter their constructor takes. */
  datatype Kind = Full | Conv(kernel: int) | MaxPool(pool: int) | Dropout(rate: Rate) | SoftMax

  /** A layer: the fields of basic_layer plus what the derived classes
      store (`inDim`/`outDim` for the shaped kinds, the window maps of
      max pooling). Weights are `real`; rounding is not modelled. */
  datatype Layer = Layer(kind: Kind, af: Activation, status: Status,
                         inDim: Shape, outDim: Shape,
                         inputSize: int, outputSize: int,
                         weight: seq<real>, bias: seq<real>,
                         o2i: seq<seq<int>>, i2o: seq<int>)

  /** A freshly constructed layer: dropout and soft-max always use the
      identity activation; every layer starts in testing mode with no
      parameters. */
  function NewLayer(kind: Kind, af: Activation): (l: Layer)
    ensures l.kind == kind && l.status == Testing
    ensures l.af == if kind.Dropout? || kind.SoftMax? then Identity else af
    ensures l.weight == [] && l.bias == [] && l.o2i == [] && l.i2o == []
  {
    Layer(kind, if kind.Dropout? || kind.SoftMax? then Identity else af, Testing,
          Shape(0, 0, 0), Shape(0, 0, 0), 0, 0, [], [], [], [])
  }

  /** When `init(in, out)` returns true, for each kind. */
  predicate Compatible(kind: Kind, inS: Shape, outS: Shape) {
    match kind
    case Full => true
    case Conv(k) => inS.w - outS.w + 1 == k && inS.h - outS.h + 1 == k
    case MaxPool(p) => Pooling.Accepts(inS, outS, p)
    case Dropout(_) => inS.Size() == outS.Size()
    case SoftMax => inS.Size() == outS.Size()
  }

  /** The number of weights an accepted layer holds. */
  function WeightCount(kind: Kind, inS: Shape, outS: Shape): int {
    match kind
    case Full => inS.Size() * outS.Size()
    case Conv(k) => k * k * inS.d * outS.d
    case _ => 0
  }

  /** The number of biases an accepted layer holds. */
  function BiasCount(kind: Kind, inS: Shape, outS: Shape): int {
    match kind
    case Full => outS.Size()
    case Conv(_) => outS.d
    case _ => 0
  }

  datatype Configured = Configured(accepted: bool, layer: Layer)

  /** basic_layer::init: record both sizes and resize the parameters. */
  function Sized(l: Layer, inputSize: int, outputSize: int, weights: int, biases: int): Layer {
    l.(inputSize := inputSize, outputSize := outputSize,
       weight := Resized(l.weight, weights, 0.0), bias := Resized(l.bias, biases, 0.0))
  }

  /** Each kind's `init(in, out)` on layer l. The full layer accepts any
      pair. Convolution stores both shapes and then checks them. Max
      pooling stores the shapes and sizes itself before it checks, and
      connects its windows only when it accepts. Dropout and soft-max check
      before they change anything. */
  function Configure(l: Layer, inS: Shape, outS: Shape): (r: Configured)
    ensures r.layer.kind == l.kind && r.layer.af == l.af && r.layer.status == l.status
    ensures r.accepted <==> Compatible(l.kind, inS, outS)
    ensures r.accepted ==> r.layer.inputSize == inS.Size() && r.layer.outputSize == outS.Size()
    ensures r.accepted ==> |r.layer.weight| == Count(WeightCount(l.kind, inS, outS))
    ensures r.accepted ==> |r.layer.bias| == Count(BiasCount(l.kind, inS, outS))
    ensures !r.accepted && !l.kind.MaxPool? ==>
      r.layer.inputSize == l.inputSize && r.layer.outputSize == l.outputSize &&
      r.layer.weight == l.weight && r.layer.bias == l.bias
    ensures r.layer.o2i != l.o2i || r.layer.i2o != l.i2o ==> r.accepted && l.kind.MaxPool?
  {
    match l.kind
    case Full =>
      Configured(true, Sized(l.(inDim := inS), inS.Size(), outS.Size(),
                             inS.Size() * outS.Size(), outS.Size()))
    case Conv(k) =>
      var l1 := l.(inDim := inS, outDim := outS);
      if inS.w - outS.w + 1 != k || inS.h - outS.h + 1 != k then Configured(false, l1)
      else Configured(true, Sized(l1, inS.Size(), outS.Size(), k * k * inS.d * outS.d, outS.d))
    case MaxPool(p) =>
      var l1 := Sized(l.(inDim := inS, outDim := outS), inS.Size(), outS.Size(), 0, 0);
      if !Pooling.Accepts(inS, outS, p) then Configured(false, l1)
      else Configured(true, l1.(o2i := Pooling.ConnectO2I(inS, outS, p, l.o2i),
                                i2o := Pooling.ConnectI2O(inS, outS, p, l.i2o)))
    case Dropout(_) =>
      if inS.Size() != outS.Size() then Configured(false, l)
      else Configured(true, Sized(l.(inDim := inS), inS.Size(), inS.Size(), 0, 0))
    case SoftMax =>
      if inS.Size() != outS.Size() then Configured(false, l)
      else Configured(true, Sized(l, inS.Size(), inS.Size(), 0, 0))
  }

  /** `init` as the layer runs it: the max-pooling case builds its maps
      with init_connection. */
  method Init(l: Layer, inS: Shape, outS: Shape) returns (accepted: bool, l2: Layer)
    ensures Configured(accepted, l2) == Configure(l, inS, outS)
  {
    match l.kind {
      case MaxPool(p) =>
        l2 := Sized(l.(inDim := inS, outDim := outS), inS.Size(), outS.Size(), 0, 0);
        if !Pooling.Accepts(inS, outS, p) {
          return false, l2;
        }
        var o2i, i2o := Pooling.InitConnection(inS, outS, p, l.o2i, l.i2o);
        accepted, l2 := true, l2.(o2i := o2i, i2o := i2o);
      case _ =>
        var r := Configure(l, inS, outS);
        accepted, l2 := r.accepted, r.layer;
    }
  }

  /** A layer whose kernels stay inside their input and output segments:
      the state an accepted `init` on positive shapes leaves. */
  predicate Ready(l: Layer) {
    l.inputSize > 0 && l.outputSize > 0 &&
    match l.kind
    case Full =>
      l.inputSize == l.inDim.Size() &&
      |l.weight| == l.inputSize * l.outputSize && |l.bias| == l.outputSize
    case Conv(k) =>
      Positive(l.inDim) && Positive(l.outDim) &&
      l.inDim.w - l.outDim.w + 1 == k && l.inDim.h - l.outDim.h + 1 == k &&
      l.inputSize == l.inDim.Size() && l.outputSize == l.outDim.Size() &&
      |l.weight| == k * k * l.inDim.d * l.outDim.d && |l.bias| == l.outDim.d
    case MaxPool(_) =>
      |l.o2i| == l.outputSize && |l.i2o| == l.inputSize &&
      (forall o :: 0 <= o < |l.o2i| ==> Pooling.InRange(l.o2i[o], l.inputSize)) &&
      Pooling.InRange(l.i2o, |l.o2i|) && l.weight == [] && l.bias == []
    case Dropout(_) =>
      l.inputSize == l.outputSize == l.inDim.Size() && Positive(l.inDim) &&
      l.weight == [] && l.bias == []
    case SoftMax =>
      l.inputSize == l.outputSize && l.weight == [] && l.bias == []
  }

  lemma ProductPositive(a: int, b: int)
    requires a > 0 && b > 0
    ensures a * b > 0
  {
  }

  /** A new layer that accepts two positive shapes is ready to run. */
  lemma ConfiguredIsReady(kind: Kind, af: Activation, inS: Shape, outS: Shape)
    requires Positive(inS) && Positive(outS)
    requires Configure(NewLayer(kind, af), inS, outS).accepted
    ensures Ready(Configure(NewLayer(kind, af), inS, outS).layer)
  {
    match kind {
      case Full => FullIsReady(af, inS, outS);
      case Conv(k) => ConvIsReady(af, k, inS, outS);
      case MaxPool(p) => PoolIsReady(af, p, inS, outS);
      case Dropout(_) => PositiveSize(inS);
      case SoftMax => PositiveSize(inS);
    }
  }

  lemma FullIsReady(af: Activation, inS: Shape, outS: Shape)
    requires Positive(inS) && Positive(outS)
    ensures Ready(Configure(NewLayer(Full, af), inS, outS).layer)
  {
    PositiveSize(inS);
    PositiveSize(outS);
    ProductPositive(inS.Size(), outS.Size());
  }

  lemma ConvIsReady(af: Activation, k: int, inS: Shape, outS: Shape)
    requires Positive(inS) && Positive(outS) && Compatible(Conv(k), inS, outS)
    ensures Ready(Configure(NewLayer(Conv(k), af), inS, outS).layer)
  {
    PositiveSize(inS);
    PositiveSize(outS);
  }

  lemma PoolIsReady(af: Activation, p: int, inS: Shape, outS: Shape)
    requires Positive(inS) && Positive(outS) && Pooling.Accepts(inS, outS, p)
    ensures Ready(Configure(NewLayer(MaxPool(p), af), inS, outS).layer)
  {
    PositiveSize(inS);
    PositiveSize(outS);
    var l := Configure(NewLayer(MaxPool(p), af), inS, outS).layer;
    assert l.o2i == Pooling.ConnectO2I(inS, outS, p, []);
    assert l.i2o == Pooling.ConnectI2O(inS, outS, p, []);
    forall o | 0 <= o < |l.o2i|
      ensures Pooling.InRange(l.o2i[o], l.inputSize)
    {
      Pooling.FreshConnection(inS, outS, p, o);
    }
    Pooling.FreshOwners(inS, outS, p);
  }

  // ---------------------------------------------------------------------
  // Activations

  /** relu_f */
  function ReluF(v: real): (r: real)
    ensures r >= 0.0 && (v > 0.0 ==> r == v) && (v <= 0.0 ==> r == 0.0)
  {
    if v > 0.0 then v else 0.0
  }

  /** relu_df: the derivative of ReLU, read off the output. */
  function ReluDf(y: real): (r: real)
    ensures r == 1.0 || r == 0.0
    ensures r == 1.0 <==> y > 0.0
  {
    if y > 0.0 then 1.0 else 0.0
  }

  /** What forward_af leaves in a segment of activations. */
  function Activated(af: Activation, s: seq<real>): (r: seq<real>)
    ensures |r| == |s|
  {
    if af == Relu then seq(|s|, i requires 0 <= i < |s| => ReluF(s[i])) else s
  }

  /** What back_af leaves in a segment of errors `g`, given the layer
      outputs `y`: ReLU zeroes the error where the output is not positive. */
  function Gated(af: Activation, g: seq<real>, y: seq<real>): (r: seq<real>)
    requires |y| >= |g|
    ensures |r| == |g|
  {
    if af == Relu then seq(|g|, i requires 0 <= i < |g| => if y[i] <= 0.0 then 0.0 else g[i]) else g
  }

  /** Applying the activation is idempotent and ReLU outputs are never
      negative. */
  lemma ActivatedIdempotent(af: Activation, s: seq<real>)
    ensures Activated(af, Activated(af, s)) == Activated(af, s)
    ensures |Activated(af, s)| == |s|
    ensures af == Relu ==> forall i :: 0 <= i < |s| ==> Activated(af, s)[i] >= 0.0
    ensures af == Identity ==> Activated(af, s) == s
  {
  }

  /** back_af is the chain rule: the gated error is the error times the
      ReLU derivative at the output, and because ReLU preserves the sign of
      positive inputs that is also the derivative at the pre-activation. */
  lemma GatedIsChainRule(g: seq<real>, x: seq<real>)
    requires |x| >= |g|
    ensures forall i :: 0 <= i < |g| ==>
      Gated(Relu, g, Activated(Relu, x))[i] == g[i] * ReluDf(Activated(Relu, x)[i]) &&
      ReluDf(Activated(Relu, x)[i]) == ReluDf(x[i])
    ensures Gated(Identity, g, x) == g
  {
  }

  /** forward_af: applies ReLU in place to the `n` outputs at `off`. */
  method ForwardAf(af: Activation, buf: array<real>, off: nat, n: int)
    requires off + Count(n) <= buf.Length
    modifies buf
    ensures buf[off..off + Count(n)] == Activated(af, old(buf[off..off + Count(n)]))
    ensures buf[..off] == old(buf[..off]) && buf[off + Count(n)..] == old(buf[off + Count(n)..])
  {
    ghost var s := buf[off..off + Count(n)];
    if af == Relu {
      var i := 0;
      while i < n
        invariant 0 <= i <= Count(n)
        invariant forall k :: 0 <= k < i ==> buf[off + k] == ReluF(s[k])
        invariant forall k :: 0 <= k < buf.Length && !(off <= k < off + i) ==> buf[k] == old(buf[k])
      {
        buf[off + i] := ReluF(buf[off + i]);
        i := i + 1;
      }
      assert buf[off..off + Count(n)] == Activated(af, s);
    }
  }

  /** back_af: with ReLU, zeroes in place each of the `n` errors at `off`
      whose output in `prevOut` is not positive. */
  method BackAf(af: Activation, dE: array<real>, off: nat, prevOut: seq<real>, n: int)
    requires off + Count(n) <= dE.Length && |prevOut| >= Count(n)
    modifies dE
    ensures dE[off..off + Count(n)] == Gated(af, old(dE[off..off + Count(n)]), prevOut)
    ensures dE[..off] == old(dE[..off]) && dE[off + Count(n)..] == old(dE[off + Count(n)..])
  {
    ghost var g := dE[off..off + Count(n)];
    if af == Relu {
      var i := 0;
      while i < n
        invariant 0 <= i <= Count(n)
        invariant forall k :: 0 <= k < i ==> dE[off + k] == if prevOut[k] <= 0.0 then 0.0 else g[k]
        invariant forall k :: 0 <= k < dE.Length && !(off <= k < off + i) ==> dE[k] == old(dE[k])
      {
        if prevOut[i] <= 0.0 {
          dE[off + i] := 0.0;
        }
        i := i + 1;
      }
      assert dE[off..off + Count(n)] == Gated(af, g, prevOut);
    }
  }

  // ---------------------------------------------------------------------
  // computation_cost

  /** computation_cost of one layer. Max pooling reports a tenth of its
      comparisons (the float division truncates toward zero), convolution
      its multiply-adds, every other kind its number of weights. */
  function LayerCost(l: Layer): int {
    match l.kind
    case MaxPool(p) => CDiv(l.outDim.Size() * p * p, 10)
    case Conv(k) => l.outDim.Size() * l.inDim.d * k * k
    case _ => |l.weight|
  }

  /** The cost of a configured layer follows from its shapes alone: a
      convolution costs its output size times its weights per output
      channel, a full layer one unit per weight. */
  lemma ConfiguredCost(kind: Kind, af: Activation, inS: Shape, outS: Shape)
    requires Configure(NewLayer(kind, af), inS, outS).accepted
    ensures var l := Configure(NewLayer(kind, af), inS, outS).layer;
      match kind
      case Full => LayerCost(l) == Count(inS.Size() * outS.Size())
      case Conv(k) => LayerCost(l) == outS.Size() * inS.d * k * k
      case MaxPool(p) => LayerCost(l) == CDiv(outS.Size() * p * p, 10)
      case _ => LayerCost(l) == 0
  {
  }
}
