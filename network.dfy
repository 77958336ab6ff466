/** class network of ml/cnn.hpp as an object: its fields are updated in
    place by `add(geometry)`, `add(string)`, `add(vector<string>)` and
    `reset`. Each method is proved against the value-level definitions of
    module Topology, where the parser's and the bookkeeping's properties
    are stated. */
module Networks {
  import opened Shapes
  import opened Text
  import opened Layers
  import opened Topology

  class Network {
    var layers: seq<Layer>
    var geo: seq<Shape>
    var dataSize: int
    var outputSize: int
    var errorMsg: string

    /** The fields as a Topology.Net value. */
    function State(): (n: Net)
      reads this
      ensures n.layers == layers && n.geo == geo && n.dataSize == dataSize
      ensures n.outputSize == outputSize && n.errorMsg == errorMsg
    {
      Net(layers, geo, dataSize, outputSize, errorMsg)
    }

    /** network(): no layers, no shapes, both sizes 0. */
    constructor ()
      ensures State() == Empty
    {
      layers, geo, dataSize, outputSize, errorMsg := [], [], 0, 0, "";
    }

    /** reset(): clears the layers and shapes and zeroes `data_size`;
        `output_size` and `error_msg` are left as they were. */
    method Reset()
      modifies this
      ensures State() == old(State()).(layers := [], geo := [], dataSize := 0)
      ensures Tallied(State())
    {
      layers, geo, dataSize := [], [], 0;
    }

    /** add(geometry). Reading geo.back() needs a shape whenever a layer
        exists. */
    method AddShape(dim: Shape) returns (ok: bool)
      requires Anchored(State())
      modifies this
      ensures Outcome(ok, State()) == Topology.AddShape(old(State()), dim)
      ensures old(Tallied(State())) ==> Tallied(State())
      ensures Anchored(State())
    {
      ghost var net0 := State();
      if Tallied(net0) { AddShapeKeepsTally(net0, dim); }
      if |layers| > 0 {
        var accepted, l := Init(Last(layers), Last(geo), dim);
        layers := layers[..|layers| - 1] + [l];
        if !accepted {
          return false;
        }
      }
      geo := geo + [dim];
      dataSize := dataSize + dim.Size();
      outputSize := dim.Size();
      ok := true;
    }

    /** add(string). A shape token that would read geo.back() of an empty
        `geo` (a layer token before the first shape) is excluded. */
    method AddText(text: string) returns (ok: bool)
      requires Topology.AddText(State(), text).Outcome?
      modifies this
      ensures Outcome(ok, State()) == Topology.AddText(old(State()), text)
      decreases |text|, 0, 0
    {
      var pieces := Split(text, '|');
      if |pieces| > 1 {
        SplitShorter(text, '|');
        ok := AddList(pieces);
        return;
      }
      var list := Split(text, ',');
      if IsShapeToken(list) {
        ok := AddShape(ShapeOf(list));
        return;
      }
      match LayerOf(list) {
        case None =>
          ok := false;
        case Some(l) =>
          layers := layers + [l];
          ok := true;
      }
    }

    /** add(vector<string>): each text in order; the first that fails is
        stored in `error_msg` and ends the call. */
    method AddList(list: seq<string>) returns (ok: bool)
      requires Topology.AddList(State(), list).Outcome?
      modifies this
      ensures Outcome(ok, State()) == Topology.AddList(old(State()), list)
      decreases MaxLen(list), 1, |list|
    {
      ghost var goal := Topology.AddList(State(), list);
      var i := 0;
      while i < |list|
        invariant 0 <= i <= |list|
        invariant Topology.AddList(State(), list[i..]) == goal
      {
        assert list[i..][0] == list[i] && list[i..][1..] == list[i + 1..];
        MaxLenBound(list, i);
        ok := AddText(list[i]);
        if !ok {
          errorMsg := list[i];
          return;
        }
        i := i + 1;
      }
      ok := true;
    }
  }

  /** Every text of a list is at most MaxLen long. */
  lemma {:induction false} MaxLenBound(list: seq<string>, i: int)
    requires 0 <= i < |list|
    ensures |list[i]| <= MaxLen(list)
    decreases i
  {
    if i > 0 {
      MaxLenBound(list[1..], i - 1);
      assert list[1..][i - 1] == list[i];
    }
  }

  /** Reading a text into a fresh network. */
  method FromText(text: string) returns (net: Network, ok: bool)
    requires Topology.AddText(Empty, text).Outcome?
    ensures Outcome(ok, net.State()) == Topology.AddText(Empty, text)
  {
    net := new Network();
    ok := net.AddText(text);
  }

  /** operator=: reset, then re-read the other network's text, then copy
      the other network's weight and bias into every rebuilt layer that has
      weights. On a consistent network the reading succeeds, rebuilds every
      layer's class, activation and parameter and every shape, and leaves
      `error_msg` as it was. */
  method Assign(dst: Network, src: Net) returns (ok: bool)
    requires Consistent(src)
    modifies dst
    ensures ok && dst.State() == Rebuilt(src, |src.layers|).(layers := Assigned(src), errorMsg := old(dst.errorMsg))
    ensures dst.geo == src.geo && Tallied(dst.State())
  {
    dst.Reset();
    RoundTrip(src, dst.State());
    ok := dst.AddText(LayerText(src));
    assert src.geo[..|src.layers| + 1] == src.geo;
    RebuiltPrintsSame(src);
    var layers := CopyParams(dst.layers, src.layers);
    assert layers == Assigned(src);
    dst.layers := layers;
  }

  /** The copy loop of the assignment: every rebuilt layer that has
      weights takes the weights and biases of the layer at the same
      position; the others stay as rebuilt. */
  method CopyParams(rebuilt: seq<Layer>, other: seq<Layer>) returns (r: seq<Layer>)
    requires |rebuilt| == |other|
    ensures |r| == |rebuilt|
    ensures forall j :: 0 <= j < |r| ==> r[j] == WithParams(rebuilt[j], other[j])
  {
    r := rebuilt;
    var i := 0;
    while i < |r|
      invariant 0 <= i <= |r| && |r| == |rebuilt|
      invariant forall j :: 0 <= j < i ==> r[j] == WithParams(rebuilt[j], other[j])
      invariant forall j :: i <= j < |r| ==> r[j] == rebuilt[j]
    {
      if r[i].weight != [] {
        r := r[i := r[i].(weight := other[i].weight, bias := other[i].bias)];
      }
      i := i + 1;
    }
  }
}
