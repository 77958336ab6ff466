/** The max-pooling layer (max_pooling_layer in ml/cnn.hpp): the window maps
    `o2i` (output cell -> its input indices) and `i2o` (input index -> its
    output cell) built by init_connection, the forward pass that writes each
    window's maximum, and the backward pass that routes the error to the
    first input attaining that maximum. */
module Pooling {
  import opened Shapes
  import opened Vectors
  import opened Arith

  /** The shape pair a pooling layer of window `p` accepts: the output is
      the input with width and height divided by `p` (C++ division). A
      window of 0 or less is rejected here; the source divides by zero. */
  predicate Accepts(inS: Shape, outS: Shape, p: int) {
    p > 0 && outS == Shape(CDiv(inS.w, p), CDiv(inS.h, p), inS.d)
  }

  /** The connection loops of init_connection have at least one window. */
  predicate Runs(inS: Shape, outS: Shape) {
    inS.d > 0 && outS.w > 0 && outS.h > 0
  }

  /** Input index of element t (row t / p, column t % p) of the window of
      output cell (c, y, x). */
  function WindowIndex(inS: Shape, p: int, c: int, y: int, x: int, t: int): int
    requires p > 0
  {
    (inS.h * c + y * p + t / p) * inS.w + x * p + t % p
  }

  /** The input indices of the window of output cell (c, y, x), row by row
      (dy) and, within a row, column by column (dx). */
  function Window(inS: Shape, p: int, c: int, y: int, x: int): (r: seq<int>)
    requires p > 0
    ensures |r| == p * p
    ensures forall t :: 0 <= t < p * p ==> r[t] == WindowIndex(inS, p, c, y, x, t)
  {
    assert p * p > 0 by { assert p * p >= p; }
    seq(p * p, t requires 0 <= t < p * p => WindowIndex(inS, p, c, y, x, t))
  }

  /** The window init_connection appends to `o2i[o]`. */
  function WindowOf(inS: Shape, outS: Shape, p: int, o: int): seq<int>
    requires p > 0
  {
    if Runs(inS, outS) && 0 <= o < outS.w * outS.h * inS.d
    then Window(inS, p, ChannelOf(outS, o), RowOf(outS, o), ColumnOf(outS, o))
    else []
  }

  /** The output cell whose window holds input index i, if any. */
  function Owner(inS: Shape, outS: Shape, p: int, i: int): Option
    requires p > 0
  {
    if Runs(inS, outS) && Positive(inS) && 0 <= i < inS.w * inS.h * inS.d then
      var px := i % inS.w;
      var py := (i / inS.w) % inS.h;
      var c := (i / inS.w) / inS.h;
      if px / p < outS.w && py / p < outS.h then Some(Index(outS, c, py / p, px / p)) else None
    else None
  }

  datatype Option = None | Some(value: int)

  // ---------------------------------------------------------------------
  // Index arithmetic

  /** Pooling shapes: the output rows and columns fit inside the input. */
  lemma AcceptedFits(inS: Shape, outS: Shape, p: int)
    requires Accepts(inS, outS, p) && Runs(inS, outS)
    ensures outS.w * p <= inS.w && outS.h * p <= inS.h
    ensures Positive(inS) && Positive(outS)
  {
    assert outS.w == inS.w / p && outS.h == inS.h / p;
  }

  /** Every element of the window of (c, y, x) is an input index that this
      window, and no other, owns. */
  lemma WindowOwner(inS: Shape, outS: Shape, p: int, c: int, y: int, x: int, t: int)
    requires Accepts(inS, outS, p) && Runs(inS, outS)
    requires 0 <= c < inS.d && 0 <= y < outS.h && 0 <= x < outS.w && 0 <= t < p * p
    ensures 0 <= WindowIndex(inS, p, c, y, x, t) < inS.Size()
    ensures Owner(inS, outS, p, WindowIndex(inS, p, c, y, x, t)) == Some(Index(outS, c, y, x))
  {
    AcceptedFits(inS, outS, p);
    var w, h, d := inS.w, inS.h, inS.d;
    var dy, dx := t / p, t % p;
    DivBound(t, p, p);
    var px, py := x * p + dx, y * p + dy;
    MulLeft(x, outS.w, p);
    MulLeft(y, outS.h, p);
    assert 0 <= px < w && 0 <= py < h;
    var row := h * c + py;
    var i := row * w + px;
    assert i == WindowIndex(inS, p, c, y, x, t);
    assert h * c == c * h;
    WindowBound(w, h, d, c, py, px);
    DivModUnique(i, w, row, px);
    DivModUnique(row, h, c, py);
    DivModUnique(px, p, x, dx);
    DivModUnique(py, p, y, dy);
  }

  /** The element (c, py, px) of a w-by-h-by-d tensor lies inside it. */
  lemma WindowBound(w: int, h: int, d: int, c: int, py: int, px: int)
    requires 0 <= c < d && 0 <= py < h && 0 <= px < w
    ensures 0 <= (h * c + py) * w + px < w * h * d
  {
    var row := h * c + py;
    MulLeft(c, d, h);
    assert h * c == c * h;
    assert 0 <= row < d * h;
    MulLeft(row, d * h, w);
    MulMono(0, row, w);
    assert d * h * w == w * h * d;
  }

  /** An owned input index lies in its owner's window. */
  lemma OwnerWindow(inS: Shape, outS: Shape, p: int, i: int)
    requires Accepts(inS, outS, p)
    requires Owner(inS, outS, p, i).Some?
    ensures 0 <= i < inS.Size()
    ensures 0 <= Owner(inS, outS, p, i).value < outS.w * outS.h * inS.d
    ensures i in WindowOf(inS, outS, p, Owner(inS, outS, p, i).value)
  {
    AcceptedFits(inS, outS, p);
    var px, py, c := ColumnOf(inS, i), RowOf(inS, i), ChannelOf(inS, i);
    IndexEncode(inS, inS.d, i);
    var y, x, a, b := py / p, px / p, py % p, px % p;
    DivModSplit(py, p, y, a);
    DivModSplit(px, p, x, b);
    IndexDecode(outS, inS.d, c, y, x);
    var t := WindowPos(p, a, b);
    WindowIndexIs(inS, p, c, y, x, t, a, b, py, px);
    assert Window(inS, p, c, y, x)[t] == i;
  }

  /** Element t = a * p + b of the window of (c, y, x) is input element
      (c, y * p + a, x * p + b). */
  lemma WindowIndexIs(inS: Shape, p: int, c: int, y: int, x: int, t: int, a: int, b: int, py: int, px: int)
    requires p > 0 && t / p == a && t % p == b && py == y * p + a && px == x * p + b
    ensures WindowIndex(inS, p, c, y, x, t) == Index(inS, c, py, px)
  {
    assert inS.h * c + y * p + a == c * inS.h + py;
  }

  /** Element (a, b) of a p-by-p window sits at position a * p + b. */
  lemma WindowPos(p: int, a: int, b: int) returns (t: int)
    requires p > 0 && 0 <= a < p && 0 <= b < p
    ensures t == a * p + b && 0 <= t < p * p && t / p == a && t % p == b
  {
    t := a * p + b;
    MulLeft(a, p, p);
    DivModUnique(t, p, a, b);
  }

  /** The two maps agree: an input index is in the window of output cell o
      exactly when o owns it. */
  lemma WindowIffOwner(inS: Shape, outS: Shape, p: int, o: int, i: int)
    requires Accepts(inS, outS, p) && Runs(inS, outS)
    requires 0 <= o < outS.w * outS.h * inS.d
    ensures i in WindowOf(inS, outS, p, o) <==> Owner(inS, outS, p, i) == Some(o)
  {
    IndexEncode(outS, inS.d, o);
    var c, y, x := ChannelOf(outS, o), RowOf(outS, o), ColumnOf(outS, o);
    if i in WindowOf(inS, outS, p, o) {
      var t :| 0 <= t < p * p && Window(inS, p, c, y, x)[t] == i;
      WindowOwner(inS, outS, p, c, y, x, t);
    }
    if Owner(inS, outS, p, i) == Some(o) {
      OwnerWindow(inS, outS, p, i);
    }
  }

  // ---------------------------------------------------------------------
  // init_connection

  /** `i2o[i]` after the windows of the first n output cells are connected,
      starting from `previous`. */
  function OwnedBefore(inS: Shape, outS: Shape, p: int, i: int, n: int, previous: int): int
    requires p > 0
  {
    match Owner(inS, outS, p, i)
    case Some(o) => if o < n then o else previous
    case None => previous
  }

  /** The maps after the windows of the first n output cells are connected. */
  ghost predicate Connected(inS: Shape, outS: Shape, p: int, o2i0: seq<seq<int>>, i2o0: seq<int>,
                            o2i: seq<seq<int>>, i2o: seq<int>, n: int)
    requires p > 0
  {
    |o2i| == |o2i0| && |i2o| == |i2o0| &&
    (forall o :: 0 <= o < |o2i| ==>
      o2i[o] == if o < n then o2i0[o] + WindowOf(inS, outS, p, o) else o2i0[o]) &&
    (forall i :: 0 <= i < |i2o| ==> i2o[i] == OwnedBefore(inS, outS, p, i, n, i2o0[i]))
  }

  /** The two inner loops of init_connection: append the window of output
      cell (c, y, x) to `o2i` and point its inputs at the cell in `i2o`. The
      bounds test of the source is always true for accepted shapes, so the
      whole window is appended. */
  method ConnectWindow(inS: Shape, outS: Shape, p: int, c: int, y: int, x: int,
                       o2i0: seq<seq<int>>, i2o0: seq<int>)
    returns (o2i: seq<seq<int>>, i2o: seq<int>)
    requires Accepts(inS, outS, p) && Runs(inS, outS)
    requires 0 <= c < inS.d && 0 <= y < outS.h && 0 <= x < outS.w
    requires |o2i0| == Count(outS.Size()) && |i2o0| == Count(inS.Size())
    ensures |o2i| == |o2i0| && |i2o| == |i2o0|
    ensures forall o :: 0 <= o < |o2i| ==>
      o2i[o] == if o == Index(outS, c, y, x) then o2i0[o] + Window(inS, p, c, y, x) else o2i0[o]
    ensures forall i :: 0 <= i < |i2o| ==>
      i2o[i] == if i in Window(inS, p, c, y, x) then Index(outS, c, y, x) else i2o0[i]
  {
    IndexDecode(outS, inS.d, c, y, x);
    assert outS.w * outS.h * inS.d == outS.Size();
    var outIndex := Index(outS, c, y, x);
    ghost var window := Window(inS, p, c, y, x);
    var fromX, fromY := x * p, y * p;
    o2i, i2o := o2i0, i2o0;
    ghost var done := 0;
    var dy := 0;
    while dy < p
      invariant 0 <= dy <= p && done == dy * p && done <= p * p
      invariant |o2i| == |o2i0| && |i2o| == |i2o0|
      invariant forall o :: 0 <= o < |o2i| && o != outIndex ==> o2i[o] == o2i0[o]
      invariant o2i[outIndex] == o2i0[outIndex] + window[..done]
      invariant forall i :: 0 <= i < |i2o| ==> i2o[i] == if i in window[..done] then outIndex else i2o0[i]
    {
      var dx := 0;
      MulLeft(dy, p, p);
      while dx < p
        invariant 0 <= dx <= p && done == dy * p + dx && done <= p * p
        invariant |o2i| == |o2i0| && |i2o| == |i2o0|
        invariant forall o :: 0 <= o < |o2i| && o != outIndex ==> o2i[o] == o2i0[o]
        invariant o2i[outIndex] == o2i0[outIndex] + window[..done]
        invariant forall i :: 0 <= i < |i2o| ==> i2o[i] == if i in window[..done] then outIndex else i2o0[i]
      {
        var t := WindowPos(p, dy, dx);
        WindowOwner(inS, outS, p, c, y, x, t);
        WindowFits(inS, outS, p, y, x, dy, dx);
        if fromX + dx < inS.w && fromY + dy < inS.h {
          var inIndex := (inS.h * c + fromY + dy) * inS.w + fromX + dx;
          assert inIndex == window[done];
          assert window[..done + 1] == window[..done] + [inIndex];
          i2o := i2o[inIndex := outIndex];
          o2i := o2i[outIndex := o2i[outIndex] + [inIndex]];
        }
        dx, done := dx + 1, done + 1;
      }
      assert dy * p + p == (dy + 1) * p;
      dy := dy + 1;
    }
    assert window[..done] == window;
  }

  /** Every window lies inside the input plane. */
  lemma WindowFits(inS: Shape, outS: Shape, p: int, y: int, x: int, dy: int, dx: int)
    requires Accepts(inS, outS, p) && Runs(inS, outS)
    requires 0 <= y < outS.h && 0 <= x < outS.w && 0 <= dy < p && 0 <= dx < p
    ensures x * p + dx < inS.w && y * p + dy < inS.h
  {
    AcceptedFits(inS, outS, p);
    MulLeft(x, outS.w, p);
    MulLeft(y, outS.h, p);
  }

  /** One more connected window extends what is connected by one cell. */
  lemma ConnectStep(inS: Shape, outS: Shape, p: int, c: int, y: int, x: int, n: int,
                    o2i0: seq<seq<int>>, i2o0: seq<int>,
                    o2i1: seq<seq<int>>, i2o1: seq<int>, o2i2: seq<seq<int>>, i2o2: seq<int>)
    requires Accepts(inS, outS, p) && Runs(inS, outS)
    requires 0 <= c < inS.d && 0 <= y < outS.h && 0 <= x < outS.w && n == Index(outS, c, y, x)
    requires Connected(inS, outS, p, o2i0, i2o0, o2i1, i2o1, n)
    requires |o2i2| == |o2i1| && |i2o2| == |i2o1|
    requires forall o :: 0 <= o < |o2i2| ==>
      o2i2[o] == if o == n then o2i1[o] + Window(inS, p, c, y, x) else o2i1[o]
    requires forall i :: 0 <= i < |i2o2| ==>
      i2o2[i] == if i in Window(inS, p, c, y, x) then n else i2o1[i]
    ensures Connected(inS, outS, p, o2i0, i2o0, o2i2, i2o2, n + 1)
  {
    IndexDecode(outS, inS.d, c, y, x);
    assert WindowOf(inS, outS, p, n) == Window(inS, p, c, y, x);
    forall i | 0 <= i < |i2o2|
      ensures i2o2[i] == OwnedBefore(inS, outS, p, i, n + 1, i2o0[i])
    {
      WindowIffOwner(inS, outS, p, n, i);
    }
  }

  /** Before the loops nothing is connected. */
  lemma ConnectedStart(inS: Shape, outS: Shape, p: int, o2i0: seq<seq<int>>, i2o0: seq<int>)
    requires Accepts(inS, outS, p)
    ensures Connected(inS, outS, p, o2i0, i2o0, o2i0, i2o0, 0)
  {
    forall i | 0 <= i < |i2o0|
      ensures i2o0[i] == OwnedBefore(inS, outS, p, i, 0, i2o0[i])
    {
      OwnerBound(inS, outS, p, i);
    }
  }

  /** An owner is always a valid output position. */
  lemma OwnerBound(inS: Shape, outS: Shape, p: int, i: int)
    requires Accepts(inS, outS, p)
    ensures Owner(inS, outS, p, i).Some? ==> 0 <= Owner(inS, outS, p, i).value < outS.w * outS.h * inS.d
  {
    if Owner(inS, outS, p, i).Some? { OwnerWindow(inS, outS, p, i); }
  }

  /** init_connection: resize both maps, then visit the output cells in
      channel, row, column order, appending each window to `o2i` (after
      whatever the entry held) and pointing its inputs at the cell in
      `i2o`. Entries of `i2o` no window covers keep their old value. */
  method InitConnection(inS: Shape, outS: Shape, p: int, o2iOld: seq<seq<int>>, i2oOld: seq<int>)
    returns (o2i: seq<seq<int>>, i2o: seq<int>)
    requires Accepts(inS, outS, p)
    ensures o2i == ConnectO2I(inS, outS, p, o2iOld) && i2o == ConnectI2O(inS, outS, p, i2oOld)
  {
    i2o := Resized(i2oOld, inS.Size(), 0);
    o2i := Resized(o2iOld, outS.Size(), []);
    ghost var i2o0, o2i0 := i2o, o2i;
    ConnectedStart(inS, outS, p, o2i0, i2o0);
    var c, outIndex := 0, 0;
    while c < inS.d
      invariant 0 <= c && (inS.d >= 0 ==> c <= inS.d)
      invariant outIndex == if Runs(inS, outS) then Index(outS, c, 0, 0) else 0
      invariant Connected(inS, outS, p, o2i0, i2o0, o2i, i2o, outIndex)
    {
      o2i, i2o, outIndex := ConnectPlane(inS, outS, p, c, o2i0, i2o0, o2i, i2o, outIndex);
      c := c + 1;
    }
    if Runs(inS, outS) {
      PlanesEnd(outS, inS.d);
    }
    ConnectedEnd(inS, outS, p, o2iOld, i2oOld, o2i0, i2o0, o2i, i2o, outIndex);
  }

  /** The row loop of init_connection, over output channel c. */
  method ConnectPlane(inS: Shape, outS: Shape, p: int, c: int, ghost o2i0: seq<seq<int>>, ghost i2o0: seq<int>,
                      o2i1: seq<seq<int>>, i2o1: seq<int>, start: int)
    returns (o2i: seq<seq<int>>, i2o: seq<int>, outIndex: int)
    requires Accepts(inS, outS, p) && 0 <= c < inS.d
    requires |o2i0| == Count(outS.Size()) && |i2o0| == Count(inS.Size())
    requires start == if Runs(inS, outS) then Index(outS, c, 0, 0) else 0
    requires Connected(inS, outS, p, o2i0, i2o0, o2i1, i2o1, start)
    ensures outIndex == if Runs(inS, outS) then Index(outS, c + 1, 0, 0) else 0
    ensures Connected(inS, outS, p, o2i0, i2o0, o2i, i2o, outIndex)
  {
    o2i, i2o, outIndex := o2i1, i2o1, start;
    var y := 0;
    while y < outS.h
      invariant 0 <= y && (outS.h >= 0 ==> y <= outS.h)
      invariant outIndex == if Runs(inS, outS) then Index(outS, c, y, 0) else 0
      invariant Connected(inS, outS, p, o2i0, i2o0, o2i, i2o, outIndex)
    {
      o2i, i2o, outIndex := ConnectRow(inS, outS, p, c, y, o2i0, i2o0, o2i, i2o, outIndex);
      if Runs(inS, outS) {
        NextRow(outS, c, y);
      }
      y := y + 1;
    }
    if Runs(inS, outS) {
      NextPlane(outS, c);
    }
  }

  /** The column loop of init_connection, over row y of output channel c. */
  method ConnectRow(inS: Shape, outS: Shape, p: int, c: int, y: int, ghost o2i0: seq<seq<int>>, ghost i2o0: seq<int>,
                    o2i1: seq<seq<int>>, i2o1: seq<int>, start: int)
    returns (o2i: seq<seq<int>>, i2o: seq<int>, outIndex: int)
    requires Accepts(inS, outS, p) && 0 <= c < inS.d && 0 <= y < outS.h
    requires |o2i0| == Count(outS.Size()) && |i2o0| == Count(inS.Size())
    requires start == if Runs(inS, outS) then Index(outS, c, y, 0) else 0
    requires Connected(inS, outS, p, o2i0, i2o0, o2i1, i2o1, start)
    ensures outIndex == if Runs(inS, outS) then Index(outS, c, y, 0) + outS.w else 0
    ensures Connected(inS, outS, p, o2i0, i2o0, o2i, i2o, outIndex)
  {
    o2i, i2o, outIndex := o2i1, i2o1, start;
    var x := 0;
    while x < outS.w
      invariant 0 <= x && (outS.w >= 0 ==> x <= outS.w)
      invariant outIndex == if Runs(inS, outS) then Index(outS, c, y, 0) + x else 0
      invariant Connected(inS, outS, p, o2i0, i2o0, o2i, i2o, outIndex)
    {
      assert Runs(inS, outS);
      assert outIndex == Index(outS, c, y, x);
      var o2i2, i2o2 := ConnectWindow(inS, outS, p, c, y, x, o2i, i2o);
      ConnectStep(inS, outS, p, c, y, x, outIndex, o2i0, i2o0, o2i, i2o, o2i2, i2o2);
      o2i, i2o := o2i2, i2o2;
      x, outIndex := x + 1, outIndex + 1;
    }
  }

  lemma NextRow(s: Shape, c: int, y: int)
    ensures Index(s, c, y, 0) + s.w == Index(s, c, y + 1, 0)
  {
  }

  lemma NextPlane(s: Shape, c: int)
    ensures Index(s, c, s.h, 0) == Index(s, c + 1, 0, 0)
  {
  }

  lemma PlanesEnd(s: Shape, d: int)
    ensures Index(s, d, 0, 0) == s.w * s.h * d
  {
  }

  /** After the last output cell, the maps are the specified ones. */
  lemma ConnectedEnd(inS: Shape, outS: Shape, p: int, o2iOld: seq<seq<int>>, i2oOld: seq<int>,
                     o2i0: seq<seq<int>>, i2o0: seq<int>, o2i: seq<seq<int>>, i2o: seq<int>, n: int)
    requires Accepts(inS, outS, p)
    requires o2i0 == Resized(o2iOld, outS.Size(), []) && i2o0 == Resized(i2oOld, inS.Size(), 0)
    requires n == if Runs(inS, outS) then outS.w * outS.h * inS.d else 0
    requires Connected(inS, outS, p, o2i0, i2o0, o2i, i2o, n)
    ensures o2i == ConnectO2I(inS, outS, p, o2iOld) && i2o == ConnectI2O(inS, outS, p, i2oOld)
  {
    var so, si := ConnectO2I(inS, outS, p, o2iOld), ConnectI2O(inS, outS, p, i2oOld);
    assert |o2i| == |so|;
    forall o | 0 <= o < |o2i|
      ensures o2i[o] == so[o]
    {
      if Runs(inS, outS) {
        AcceptedFits(inS, outS, p);
        assert outS.w * outS.h * inS.d == outS.Size();
      }
    }
    assert |i2o| == |si|;
    forall i | 0 <= i < |i2o|
      ensures i2o[i] == si[i]
    {
      OwnerBound(inS, outS, p, i);
    }
  }

  /** The window lists init_connection leaves, starting from `previous`. */
  function ConnectO2I(inS: Shape, outS: Shape, p: int, previous: seq<seq<int>>): seq<seq<int>>
    requires p > 0
  {
    seq(Count(outS.Size()), o requires 0 <= o < Count(outS.Size()) =>
      (if o < |previous| then previous[o] else []) + WindowOf(inS, outS, p, o))
  }

  /** The owner map init_connection leaves, starting from `previous`. */
  function ConnectI2O(inS: Shape, outS: Shape, p: int, previous: seq<int>): seq<int>
    requires p > 0
  {
    seq(Count(inS.Size()), i requires 0 <= i < Count(inS.Size()) =>
      match Owner(inS, outS, p, i)
      case Some(o) => o
      case None => if i < |previous| then previous[i] else 0)
  }

  /** On a fresh layer, `o2i[o]` is exactly the in-bounds window of cell o,
      every index it lists maps back to o through `i2o`, and both maps stay
      inside the input and output segments. */
  lemma FreshConnection(inS: Shape, outS: Shape, p: int, o: int)
    requires Accepts(inS, outS, p) && Runs(inS, outS)
    requires 0 <= o < outS.Size()
    ensures |ConnectO2I(inS, outS, p, [])| == outS.Size() && |ConnectI2O(inS, outS, p, [])| == inS.Size()
    ensures ConnectO2I(inS, outS, p, [])[o] == Window(inS, p, ChannelOf(outS, o), RowOf(outS, o), ColumnOf(outS, o))
    ensures InRange(ConnectO2I(inS, outS, p, [])[o], inS.Size())
    ensures forall i :: i in ConnectO2I(inS, outS, p, [])[o] ==> ConnectI2O(inS, outS, p, [])[i] == o
  {
    AcceptedFits(inS, outS, p);
    PositiveSize(inS);
    PositiveSize(outS);
    assert outS.w * outS.h * inS.d == outS.Size();
    IndexEncode(outS, inS.d, o);
    var c, y, x := ChannelOf(outS, o), RowOf(outS, o), ColumnOf(outS, o);
    var w := ConnectO2I(inS, outS, p, [])[o];
    assert w == Window(inS, p, c, y, x);
    forall k | 0 <= k < |w|
      ensures 0 <= w[k] < inS.Size() && ConnectI2O(inS, outS, p, [])[w[k]] == o
    {
      WindowOwner(inS, outS, p, c, y, x, k);
    }
  }

  /** On a fresh layer every entry of `i2o` names an output cell. */
  lemma FreshOwners(inS: Shape, outS: Shape, p: int)
    requires Accepts(inS, outS, p) && Runs(inS, outS)
    ensures InRange(ConnectI2O(inS, outS, p, []), outS.Size())
  {
    AcceptedFits(inS, outS, p);
    PositiveSize(outS);
    assert outS.w * outS.h * inS.d == outS.Size();
    var i2o := ConnectI2O(inS, outS, p, []);
    forall k | 0 <= k < |i2o|
      ensures 0 <= i2o[k] < outS.Size()
    {
      OwnerBound(inS, outS, p, k);
    }
  }

  // ---------------------------------------------------------------------
  // forward and back

  /** std::numeric_limits<float>::lowest(), where both maximum scans start. */
  const Lowest: real := -340282346638528859811704183484516925440.0

  predicate InRange(idx: seq<int>, n: int) {
    forall k :: 0 <= k < |idx| ==> 0 <= idx[k] < n
  }

  /** The running maximum of `data` over the listed indices, starting from
      `Lowest` and replacing it only by a strictly larger value. */
  function WindowMax(idx: seq<int>, data: seq<real>): real
    requires InRange(idx, |data|)
  {
    if |idx| == 0 then Lowest
    else
      var m := WindowMax(idx[..|idx| - 1], data);
      var v := data[idx[|idx| - 1]];
      if v > m then v else m
  }

  /** The index back records for a window: the last index at which the
      running maximum strictly increased (0 when it never did). */
  function WindowArgMax(idx: seq<int>, data: seq<real>): int
    requires InRange(idx, |data|)
  {
    if |idx| == 0 then 0
    else if data[idx[|idx| - 1]] > WindowMax(idx[..|idx| - 1], data) then idx[|idx| - 1]
    else WindowArgMax(idx[..|idx| - 1], data)
  }

  /** Position (in the window) of the first element attaining the maximum. */
  function FirstMaxPos(idx: seq<int>, data: seq<real>): (k: nat)
    requires InRange(idx, |data|) && |idx| > 0
    ensures k < |idx|
  {
    if |idx| == 1 then 0
    else if data[idx[|idx| - 1]] > WindowMax(idx[..|idx| - 1], data) then |idx| - 1
    else FirstMaxPos(idx[..|idx| - 1], data)
  }

  predicate AboveLowest(idx: seq<int>, data: seq<real>)
    requires InRange(idx, |data|)
  {
    forall k :: 0 <= k < |idx| ==> data[idx[k]] > Lowest
  }

  /** For values above `Lowest` (every finite float but one), the scan
      finds the maximum, and the recorded index is that of the first
      element attaining it. */
  lemma {:induction false} FirstMaxPosFacts(idx: seq<int>, data: seq<real>)
    requires InRange(idx, |data|) && |idx| > 0 && AboveLowest(idx, data)
    ensures data[idx[FirstMaxPos(idx, data)]] == WindowMax(idx, data)
    ensures forall k :: 0 <= k < |idx| ==> data[idx[k]] <= WindowMax(idx, data)
    ensures forall k :: 0 <= k < FirstMaxPos(idx, data) ==> data[idx[k]] < WindowMax(idx, data)
    ensures WindowArgMax(idx, data) == idx[FirstMaxPos(idx, data)]
  {
    var pre := idx[..|idx| - 1];
    if |idx| == 1 {
      assert WindowMax(pre, data) == Lowest;
    } else {
      assert InRange(pre, |data|) && AboveLowest(pre, data);
      FirstMaxPosFacts(pre, data);
      assert forall k :: 0 <= k < |pre| ==> pre[k] == idx[k];
    }
  }

  /** The routing rule of back: the recorded index is i exactly when i
      occupies, in scan order, the first position of the window attaining
      its maximum. */
  lemma ArgMaxIffFirst(idx: seq<int>, data: seq<real>, i: int)
    requires InRange(idx, |data|) && |idx| > 0 && AboveLowest(idx, data)
    ensures WindowArgMax(idx, data) == i <==>
      exists k :: 0 <= k < |idx| && idx[k] == i && data[i] == WindowMax(idx, data) &&
                  forall j :: 0 <= j < k ==> data[idx[j]] < data[i]
  {
    FirstMaxPosFacts(idx, data);
    var f := FirstMaxPos(idx, data);
    if WindowArgMax(idx, data) == i {
      assert idx[f] == i;
    }
    if exists k :: 0 <= k < |idx| && idx[k] == i && data[i] == WindowMax(idx, data) &&
                   forall j :: 0 <= j < k ==> data[idx[j]] < data[i] {
      var k :| 0 <= k < |idx| && idx[k] == i && data[i] == WindowMax(idx, data) &&
               forall j :: 0 <= j < k ==> data[idx[j]] < data[i];
      if k < f {
        assert data[idx[k]] < WindowMax(idx, data);
      }
    }
  }

  /** The forward output of max pooling: each cell's window maximum. */
  function ForwardSpec(o2i: seq<seq<int>>, data: seq<real>): (out: seq<real>)
    requires forall o :: 0 <= o < |o2i| ==> InRange(o2i[o], |data|)
    ensures |out| == |o2i|
  {
    seq(|o2i|, o requires 0 <= o < |o2i| => WindowMax(o2i[o], data))
  }

  /** The backward output of max pooling: input i receives the error of its
      cell when it is the cell's recorded maximum, and 0 otherwise. */
  function BackSpec(o2i: seq<seq<int>>, i2o: seq<int>, inDE: seq<real>, prevOut: seq<real>): (out: seq<real>)
    requires forall o :: 0 <= o < |o2i| ==> InRange(o2i[o], |prevOut|)
    requires InRange(i2o, |o2i|) && |inDE| >= |o2i|
    ensures |out| == |i2o|
  {
    seq(|i2o|, i requires 0 <= i < |i2o| =>
      if WindowArgMax(o2i[i2o[i]], prevOut) == i then inDE[i2o[i]] else 0.0)
  }

  /** forward_propagation: writes the maximum of every window of `data`
      into `out[off..off + |o2i|]`. */
  method Forward(o2i: seq<seq<int>>, data: seq<real>, out: array<real>, off: nat)
    requires forall o :: 0 <= o < |o2i| ==> InRange(o2i[o], |data|)
    requires off + |o2i| <= out.Length
    modifies out
    ensures out[off..off + |o2i|] == ForwardSpec(o2i, data)
    ensures out[..off] == old(out[..off]) && out[off + |o2i|..] == old(out[off + |o2i|..])
  {
    var i := 0;
    while i < |o2i|
      invariant 0 <= i <= |o2i|
      invariant forall o :: 0 <= o < i ==> out[off + o] == WindowMax(o2i[o], data)
      invariant forall k :: 0 <= k < out.Length && !(off <= k < off + i) ==> out[k] == old(out[k])
    {
      var maxValue := Lowest;
      var j := 0;
      while j < |o2i[i]|
        invariant 0 <= j <= |o2i[i]|
        invariant maxValue == WindowMax(o2i[i][..j], data)
      {
        assert o2i[i][..j + 1][..j] == o2i[i][..j];
        if data[o2i[i][j]] > maxValue {
          maxValue := data[o2i[i][j]];
        }
        j := j + 1;
      }
      assert o2i[i][..|o2i[i]|] == o2i[i];
      out[off + i] := maxValue;
      i := i + 1;
    }
  }

  /** back_propagation: recomputes the index of each window's maximum in
      `prevOut` (the layer's input), then gives every input the error of its
      cell when it is that index and 0 otherwise; writes
      `out[off..off + |i2o|]`. */
  method Back(o2i: seq<seq<int>>, i2o: seq<int>, inDE: seq<real>, prevOut: seq<real>,
              out: array<real>, off: nat)
    requires forall o :: 0 <= o < |o2i| ==> InRange(o2i[o], |prevOut|)
    requires InRange(i2o, |o2i|) && |inDE| >= |o2i|
    requires off + |i2o| <= out.Length
    modifies out
    ensures out[off..off + |i2o|] == BackSpec(o2i, i2o, inDE, prevOut)
    ensures out[..off] == old(out[..off]) && out[off + |i2o|..] == old(out[off + |i2o|..])
  {
    var maxIdx := seq(|o2i|, _ => 0);
    var i := 0;
    while i < |o2i|
      invariant 0 <= i <= |o2i| && |maxIdx| == |o2i|
      invariant forall o :: 0 <= o < i ==> maxIdx[o] == WindowArgMax(o2i[o], prevOut)
      invariant forall o :: i <= o < |o2i| ==> maxIdx[o] == 0
    {
      var maxValue := Lowest;
      var j := 0;
      var best := maxIdx[i];
      assert best == 0;
      while j < |o2i[i]|
        invariant 0 <= j <= |o2i[i]|
        invariant maxValue == WindowMax(o2i[i][..j], prevOut)
        invariant best == WindowArgMax(o2i[i][..j], prevOut)
      {
        assert o2i[i][..j + 1][..j] == o2i[i][..j];
        if prevOut[o2i[i][j]] > maxValue {
          maxValue := prevOut[o2i[i][j]];
          best := o2i[i][j];
        }
        j := j + 1;
      }
      assert o2i[i][..|o2i[i]|] == o2i[i];
      maxIdx := maxIdx[i := best];
      i := i + 1;
    }
    i := 0;
    while i < |i2o|
      invariant 0 <= i <= |i2o|
      invariant forall k :: 0 <= k < i ==> out[off + k] == BackSpec(o2i, i2o, inDE, prevOut)[k]
      invariant forall k :: 0 <= k < out.Length && !(off <= k < off + i) ==> out[k] == old(out[k])
    {
      var outi := i2o[i];
      out[off + i] := if maxIdx[outi] == i then inDE[outi] else 0.0;
      i := i + 1;
    }
  }

  /** The routing property: the gradient reaching input i is non-zero only
      if i is the first input of its window attaining the window maximum
      that forward wrote, and an input that is that first maximum receives
      its cell's error unchanged. */
  lemma BackRoutesToForwardMax(o2i: seq<seq<int>>, i2o: seq<int>, inDE: seq<real>, prevOut: seq<real>, i: int)
    requires forall o :: 0 <= o < |o2i| ==> InRange(o2i[o], |prevOut|)
    requires InRange(i2o, |o2i|) && |inDE| >= |o2i|
    requires 0 <= i < |i2o|
    requires |o2i[i2o[i]]| > 0 && AboveLowest(o2i[i2o[i]], prevOut)
    ensures var w := o2i[i2o[i]];
      (exists k :: 0 <= k < |w| && w[k] == i && prevOut[i] == ForwardSpec(o2i, prevOut)[i2o[i]] &&
                   forall j :: 0 <= j < k ==> prevOut[w[j]] < prevOut[i])
      <==> BackSpec(o2i, i2o, inDE, prevOut)[i] == inDE[i2o[i]] && WindowArgMax(w, prevOut) == i
    ensures WindowArgMax(o2i[i2o[i]], prevOut) != i ==> BackSpec(o2i, i2o, inDE, prevOut)[i] == 0.0
  {
    ArgMaxIffFirst(o2i[i2o[i]], prevOut, i);
  }
}
