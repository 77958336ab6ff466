/** The dropout layer (dropout_layer in ml/cnn.hpp). In training it drops
    whole planes of its input (single elements when a plane has one
    element) according to a sequence of Bernoulli draws, and marks a kept
    plane whose first value is 0 with the smallest positive float, so that
    the backward pass can tell kept planes from dropped ones by looking at
    the output alone. The draws are an input of the model. */
module Dropout {
  import opened Vectors
  import opened Grids
  import opened Arith
  import opened Layers

  /** std::numeric_limits<float>::min(), 2^-126. */
  const FloatMin: real := 1.0 / 85070591730234615865843651857942052864.0

  /** A kept value: 0 becomes FloatMin, anything else stays. */
  function Kept(v: real): (r: real)
    ensures r != 0.0 && (v != 0.0 ==> r == v)
  {
    if v == 0.0 then FloatMin else v
  }

  predicate Dropped(drops: seq<bool>, i: int) { 0 <= i < |drops| && drops[i] }

  /** Output plane i in training: zeros when draw i drops it, otherwise the
      input plane with its first value marked. */
  function TrainPlane(data: seq<real>, p: nat, drops: seq<bool>, i: int): (r: seq<real>)
    ensures |r| == p
  {
    if Dropped(drops, i) then seq(p, _ => 0.0)
    else seq(p, t => if t == 0 then Kept(At(data, i * p)) else At(data, i * p + t))
  }

  /** Entry t of a training plane. */
  lemma TrainPlaneEntry(data: seq<real>, p: nat, drops: seq<bool>, i: int, t: int)
    requires 0 <= t < p
    ensures TrainPlane(data, p, drops, i)[t]
         == if Dropped(drops, i) then 0.0 else if t == 0 then Kept(At(data, i * p)) else At(data, i * p + t)
  {
    var r := TrainPlane(data, p, drops, i);
    if Dropped(drops, i) {
      assert r == seq(p, _ => 0.0);
    } else {
      assert r == seq(p, t => if t == 0 then Kept(At(data, i * p)) else At(data, i * p + t));
    }
  }

  function TrainPlanes(data: seq<real>, p: nat, drops: seq<bool>): int -> seq<real> {
    i => TrainPlane(data, p, drops, i)
  }

  /** The output of forward_propagation: a copy in testing mode, the planes
      above in training mode. */
  function ForwardSpec(status: Status, data: seq<real>, p: nat, depth: nat, drops: seq<bool>): (r: seq<real>)
    requires |data| >= p * depth
    ensures |r| == p * depth
  {
    MulMono(0, p, depth);
    ConcatLength(TrainPlanes(data, p, drops), depth, p);
    if status == Testing then data[..p * depth] else Concat(TrainPlanes(data, p, drops), depth)
  }

  /** forward_propagation with the plane size p and depth of the layer's
      shape; `drops` are the successive results of the Bernoulli generator
      (one per element when p == 1, one per plane otherwise). */
  method Forward(status: Status, data: seq<real>, p: nat, depth: nat, drops: seq<bool>, out: array<real>, off: nat)
    requires |data| >= p * depth && off + p * depth <= out.Length
    requires status == Training ==> |drops| >= depth
    modifies out
    ensures out[off..off + p * depth] == ForwardSpec(status, data, p, depth, drops)
    ensures out[..off] == old(out[..off]) && out[off + p * depth..] == old(out[off + p * depth..])
  {
    MulMono(0, p, depth);
    if status == Testing {
      CopyInto(data[..p * depth], out, off);
    } else if p == 1 {
      ForwardElements(data, depth, drops, out, off);
    } else {
      ForwardPlanes(data, p, depth, drops, out, off);
    }
  }

  /** The plane_size == 1 branch: one draw per element. */
  method ForwardElements(data: seq<real>, n: nat, drops: seq<bool>, out: array<real>, off: nat)
    requires |data| >= n && off + n <= out.Length && |drops| >= n
    modifies out
    ensures out[off..off + n] == Concat(TrainPlanes(data, 1, drops), n)
    ensures out[..off] == old(out[..off]) && out[off + n..] == old(out[off + n..])
  {
    var i := 0;
    while i < n
      invariant 0 <= i <= n
      invariant out[off..off + i] == Concat(TrainPlanes(data, 1, drops), i)
      invariant out[..off] == old(out[..off]) && out[off + n..] == old(out[off + n..])
    {
      ghost var before := out[..];
      out[off + i] := if drops[i] then 0.0 else (if data[i] == 0.0 then FloatMin else data[i]);
      assert i * 1 == i;
      TrainPlaneEntry(data, 1, drops, i, 0);
      assert out[off + i..off + i + 1] == [out[off + i]] == TrainPlane(data, 1, drops, i);
      GrowPrefix(before, out[..], TrainPlanes(data, 1, drops), i, off, i, off + n);
      i := i + 1;
    }
  }

  /** The general branch: one draw per plane. */
  method ForwardPlanes(data: seq<real>, p: nat, depth: nat, drops: seq<bool>, out: array<real>, off: nat)
    requires |data| >= p * depth && off + p * depth <= out.Length && |drops| >= depth
    modifies out
    ensures out[off..off + p * depth] == Concat(TrainPlanes(data, p, drops), depth)
    ensures out[..off] == old(out[..off]) && out[off + p * depth..] == old(out[off + p * depth..])
  {
    var size := p * depth;
    TimesIsProduct(depth, p);
    assert size == Times(depth, p);
    var i, pos := 0, 0;
    while i < depth
      invariant 0 <= i <= depth && pos == Times(i, p) && pos <= size
      invariant out[off..off + pos] == Concat(TrainPlanes(data, p, drops), i)
      invariant out[..off] == old(out[..off]) && out[off + size..] == old(out[off + size..])
    {
      TimesBound(i, depth, p);
      ForwardNext(data, p, drops, i, pos, out, off, off + size);
      i, pos := i + 1, pos + p;
    }
    assert pos == size;
  }

  /** Planes 0 .. i - 1 at `off` become planes 0 .. i. */
  method ForwardNext(data: seq<real>, p: nat, drops: seq<bool>, i: nat, pos: nat, out: array<real>, off: nat, end: nat)
    requires i < |drops| && pos == Times(i, p) && pos + p <= |data| && off + pos + p <= end <= out.Length
    requires out[off..off + pos] == Concat(TrainPlanes(data, p, drops), i)
    modifies out
    ensures out[off..off + pos + p] == Concat(TrainPlanes(data, p, drops), i + 1)
    ensures out[..off] == old(out[..off]) && out[end..] == old(out[end..])
  {
    ghost var before := out[..];
    ForwardPlane(data, p, drops, i, pos, out, off + pos);
    GrowPrefix(before, out[..], TrainPlanes(data, p, drops), i, off, pos, end);
  }

  /** One plane of the general branch, written at `at`. */
  method ForwardPlane(data: seq<real>, p: nat, drops: seq<bool>, i: nat, pos: nat, out: array<real>, at: nat)
    requires i < |drops| && pos == Times(i, p) && pos + p <= |data| && at + p <= out.Length
    modifies out
    ensures out[at..at + p] == TrainPlane(data, p, drops, i)
    ensures out[..at] == old(out[..at]) && out[at + p..] == old(out[at + p..])
  {
    TimesIsProduct(i, p);
    if drops[i] {
      Fill(out, at, p, 0.0);
    } else {
      CopyInto(data[pos..pos + p], out, at);
      ghost var copied := out[at..at + p];
      if p > 0 && out[at] == 0.0 {
        out[at] := FloatMin;
      }
      forall t | 0 <= t < p ensures out[at..at + p][t] == TrainPlane(data, p, drops, i)[t] {
        assert At(data, i * p + t) == data[pos..pos + p][t] == copied[t];
        if t > 0 { assert out[at + t] == copied[t]; }
      }
    }
  }

  // ---------------------------------------------------------------------
  // Backward pass

  /** Error plane i: cleared when the output plane starts with 0 (the
      plane was dropped), otherwise passed through. */
  function BackPlane(g: seq<real>, y: seq<real>, p: nat, i: int): (r: seq<real>)
    ensures |r| == p
  {
    if At(y, i * p) == 0.0 then seq(p, _ => 0.0) else seq(p, t => At(g, i * p + t))
  }

  /** Entry t of a backward plane. */
  lemma BackPlaneEntry(g: seq<real>, y: seq<real>, p: nat, i: int, t: int)
    requires 0 <= t < p
    ensures BackPlane(g, y, p, i)[t] == if At(y, i * p) == 0.0 then 0.0 else At(g, i * p + t)
  {
    var r := BackPlane(g, y, p, i);
    if At(y, i * p) == 0.0 {
      assert r == seq(p, _ => 0.0);
    } else {
      assert r == seq(p, t => At(g, i * p + t));
    }
  }

  function BackPlanes(g: seq<real>, y: seq<real>, p: nat): int -> seq<real> {
    i => BackPlane(g, y, p, i)
  }

  /** back_propagation, given the error g and the layer's own output y
      (the source reads it at its input address plus the layer size). */
  method Back(g: seq<real>, y: seq<real>, p: nat, depth: nat, out: array<real>, off: nat)
    requires |g| >= p * depth && |y| >= p * depth && off + p * depth <= out.Length
    modifies out
    ensures out[off..off + p * depth] == Concat(BackPlanes(g, y, p), depth)
    ensures out[..off] == old(out[..off]) && out[off + p * depth..] == old(out[off + p * depth..])
  {
    if p == 1 {
      BackElements(g, y, depth, out, off);
    } else {
      BackEachPlane(g, y, p, depth, out, off);
    }
  }

  /** The plane_size == 1 branch of back_propagation. */
  method BackElements(g: seq<real>, y: seq<real>, n: nat, out: array<real>, off: nat)
    requires |g| >= n && |y| >= n && off + n <= out.Length
    modifies out
    ensures out[off..off + n] == Concat(BackPlanes(g, y, 1), n)
    ensures out[..off] == old(out[..off]) && out[off + n..] == old(out[off + n..])
  {
    var i := 0;
    while i < n
      invariant 0 <= i <= n
      invariant out[off..off + i] == Concat(BackPlanes(g, y, 1), i)
      invariant out[..off] == old(out[..off]) && out[off + n..] == old(out[off + n..])
    {
      ghost var before := out[..];
      out[off + i] := if y[i] == 0.0 then 0.0 else g[i];
      assert i * 1 == i;
      BackPlaneEntry(g, y, 1, i, 0);
      assert out[off + i..off + i + 1] == [out[off + i]] == BackPlane(g, y, 1, i);
      GrowPrefix(before, out[..], BackPlanes(g, y, 1), i, off, i, off + n);
      i := i + 1;
    }
  }

  /** The general branch of back_propagation, plane by plane. */
  method BackEachPlane(g: seq<real>, y: seq<real>, p: nat, depth: nat, out: array<real>, off: nat)
    requires |g| >= p * depth && |y| >= p * depth && off + p * depth <= out.Length
    modifies out
    ensures out[off..off + p * depth] == Concat(BackPlanes(g, y, p), depth)
    ensures out[..off] == old(out[..off]) && out[off + p * depth..] == old(out[off + p * depth..])
  {
    var size := p * depth;
    TimesIsProduct(depth, p);
    assert size == Times(depth, p);
    var i, pos := 0, 0;
    while i < depth
      invariant 0 <= i <= depth && pos == Times(i, p) && pos <= size
      invariant out[off..off + pos] == Concat(BackPlanes(g, y, p), i)
      invariant out[..off] == old(out[..off]) && out[off + size..] == old(out[off + size..])
    {
      TimesBound(i, depth, p);
      BackNext(g, y, p, i, pos, out, off, off + size);
      i, pos := i + 1, pos + p;
    }
    assert pos == size;
  }

  /** Error planes 0 .. i - 1 at `off` become planes 0 .. i. */
  method BackNext(g: seq<real>, y: seq<real>, p: nat, i: nat, pos: nat, out: array<real>, off: nat, end: nat)
    requires pos == Times(i, p) && pos + p <= |g| && pos + p <= |y| && off + pos + p <= end <= out.Length
    requires out[off..off + pos] == Concat(BackPlanes(g, y, p), i)
    modifies out
    ensures out[off..off + pos + p] == Concat(BackPlanes(g, y, p), i + 1)
    ensures out[..off] == old(out[..off]) && out[end..] == old(out[end..])
  {
    ghost var before := out[..];
    BackPlaneAt(g, y, p, i, pos, out, off + pos);
    GrowPrefix(before, out[..], BackPlanes(g, y, p), i, off, pos, end);
  }

  /** One plane of the general backward branch, written at `at`. */
  method BackPlaneAt(g: seq<real>, y: seq<real>, p: nat, i: nat, pos: nat, out: array<real>, at: nat)
    requires pos == Times(i, p) && pos + p <= |g| && pos + p <= |y| && at + p <= out.Length
    modifies out
    ensures out[at..at + p] == BackPlane(g, y, p, i)
    ensures out[..at] == old(out[..at]) && out[at + p..] == old(out[at + p..])
  {
    TimesIsProduct(i, p);
    if p > 0 && y[pos] == 0.0 {
      Fill(out, at, p, 0.0);
    } else {
      CopyInto(g[pos..pos + p], out, at);
      forall t | 0 <= t < p ensures out[at..at + p][t] == BackPlane(g, y, p, i)[t] {
        assert At(g, i * p + t) == g[pos..pos + p][t];
      }
    }
  }

  /** The error passes through exactly the planes the forward pass kept:
      after a training pass, plane i of the backward result is the error
      plane when draw i kept it and zeros when it dropped it. */
  lemma BackFollowsDraws(data: seq<real>, g: seq<real>, p: nat, depth: nat, drops: seq<bool>, i: int)
    requires |data| >= p * depth && p > 0 && 0 <= i < depth
    ensures BackPlane(g, ForwardSpec(Training, data, p, depth, drops), p, i)
         == if Dropped(drops, i) then seq(p, _ => 0.0) else seq(p, t => At(g, i * p + t))
  {
    var y := ForwardSpec(Training, data, p, depth, drops);
    ConcatIndex(TrainPlanes(data, p, drops), depth, p, i, 0);
    assert At(y, i * p) == TrainPlane(data, p, drops, i)[0];
  }

  /** In testing mode the layer is the identity; in training mode a kept
      plane is the input plane, except that a first value of 0 is replaced
      by FloatMin, and a dropped plane is zero. */
  lemma ForwardValues(data: seq<real>, p: nat, depth: nat, drops: seq<bool>, i: int, t: int)
    requires |data| >= p * depth && 0 <= i < depth && 0 <= t < p
    ensures ForwardSpec(Testing, data, p, depth, drops) == data[..p * depth]
    ensures 0 <= i * p + t < p * depth
    ensures ForwardSpec(Training, data, p, depth, drops)[i * p + t]
         == if Dropped(drops, i) then 0.0
            else if t == 0 && data[i * p] == 0.0 then FloatMin
            else data[i * p + t]
  {
    NextBlock(i, depth, p);
    var rows := TrainPlanes(data, p, drops);
    ConcatLength(rows, depth, p);
    ConcatIndex(rows, depth, p, i, t);
    TrainPlaneEntry(data, p, drops, i, t);
  }
}
