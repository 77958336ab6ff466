/** iterate_cnn of ml/cnn.hpp: a best-first enumeration of network
    topologies. For each width 20, 40 and 80 a queue of partial topologies
    ordered by accumulated cost (a std::multimap, here a sorted sequence
    with insertion after every equal key) is popped at most `max_list`
    times; each popped topology is extended by a pooling, a convolution or
    a fully connected layer, and, once deep enough, closed by the output
    layer into a result. Results are listed in order of cost. */
module Architectures {
  import opened Shapes
  import opened Text
  import opened Topology

  /** std::numeric_limits<int>::max(), the cut-off while the queue is small. */
  const IntMax: int := 0x7fff_ffff
  /** `layer_cost`, always 0. */
  const LayerCost: int := 0

  /** `previous_layer` (the source's `fully_dropout` value is never used). */
  datatype Kind = Root | Conv | MaxPooling | Fully

  /** iterate_cnn_data: a partial topology, its text so far, its current
      shape and how many convolutions and layers it has. */
  datatype Node = Node(dim: Shape, str: string, numConv: int, depth: int, previous: Kind)

  /** A multimap entry. */
  datatype Entry<T> = Entry(key: int, value: T)

  /** The arguments of iterate_cnn (the source's defaults are 4, 12 and
      10000 for the last three). */
  datatype Limits = Limits(inDim: Shape, outDim: Shape, maxConv: int, maxDepth: int, maxList: int)

  /** The two multimaps: live candidates and finished topologies. */
  datatype Frontier = Frontier(candidates: seq<Entry<Node>>, results: seq<Entry<string>>)

  // ---------------------------------------------------------- multimap

  predicate Sorted<T>(q: seq<Entry<T>>) {
    forall i, j :: 0 <= i < j < |q| ==> q[i].key <= q[j].key
  }

  /** Where std::multimap::insert puts a new key: after every key not
      greater than it. */
  function UpperBound<T>(q: seq<Entry<T>>, key: int): (u: nat)
    requires Sorted(q)
    ensures u <= |q|
    ensures forall i :: 0 <= i < u ==> q[i].key <= key
    ensures forall i :: u <= i < |q| ==> q[i].key > key
    decreases |q|
  {
    if |q| == 0 || q[0].key > key then 0
    else
      assert Sorted(q[1..]) by {
        assert forall i :: 0 <= i < |q| - 1 ==> q[1..][i] == q[i + 1];
      }
      1 + UpperBound(q[1..], key)
  }

  /** std::multimap::insert: the map stays sorted, the new entry sits at
      the upper bound of its key, and every old entry keeps its order. */
  function Insert<T>(q: seq<Entry<T>>, e: Entry<T>): (r: seq<Entry<T>>)
    requires Sorted(q)
    ensures Sorted(r) && |r| == |q| + 1
    ensures var u := UpperBound(q, e.key);
      r[u] == e && (forall i :: 0 <= i < u ==> r[i] == q[i]) && (forall i :: u < i < |r| ==> r[i] == q[i - 1])
  {
    var u := UpperBound(q, e.key);
    var r := q[..u] + [e] + q[u..];
    assert forall i :: 0 <= i < u ==> r[i] == q[i];
    assert forall i :: u < i < |r| ==> r[i] == q[i - 1];
    r
  }

  /** Inserting a list of entries one after another. */
  function InsertAll<T>(q: seq<Entry<T>>, es: seq<Entry<T>>): (r: seq<Entry<T>>)
    requires Sorted(q)
    ensures Sorted(r) && |r| == |q| + |es|
    decreases |es|
  {
    if |es| == 0 then q else InsertAll(Insert(q, es[0]), es[1..])
  }

  /** Inserting a + b is inserting a, then b. */
  lemma {:induction false} InsertAllAppend<T>(q: seq<Entry<T>>, a: seq<Entry<T>>, b: seq<Entry<T>>)
    requires Sorted(q)
    ensures InsertAll(q, a + b) == InsertAll(InsertAll(q, a), b)
    decreases |a|
  {
    if |a| > 0 {
      var ab := a + b;
      assert ab[0] == a[0] && ab[1..] == a[1..] + b;
      var q1 := Insert(q, a[0]);
      assert InsertAll(q, ab) == InsertAll(q1, ab[1..]);
      assert InsertAll(q, a) == InsertAll(q1, a[1..]);
      InsertAllAppend(q1, a[1..], b);
    } else {
      assert a + b == b;
    }
  }

  /** A key in the map after insertion is an old key or a new one. */
  lemma {:induction false} InsertAllKeys<T>(q: seq<Entry<T>>, es: seq<Entry<T>>, low: int)
    requires Sorted(q)
    requires forall i :: 0 <= i < |q| ==> q[i].key >= low
    requires forall i :: 0 <= i < |es| ==> es[i].key >= low
    ensures forall i :: 0 <= i < |InsertAll(q, es)| ==> InsertAll(q, es)[i].key >= low
    decreases |es|
  {
    if |es| > 0 {
      var q1 := Insert(q, es[0]);
      var u := UpperBound(q, es[0].key);
      assert forall i :: 0 <= i < |q1| ==> q1[i].key >= low by {
        forall i | 0 <= i < |q1|
          ensures q1[i].key >= low
        {
          if i > u {
            assert q1[i] == q[i - 1];
          }
        }
      }
      assert forall i :: 0 <= i < |es| - 1 ==> es[1..][i] == es[i + 1];
      InsertAllKeys(q1, es[1..], low);
    }
  }

  /** The values of a map in key order. */
  function Values<T>(q: seq<Entry<T>>): (r: seq<T>)
    ensures |r| == |q| && forall i :: 0 <= i < |q| ==> r[i] == q[i].value
  {
    seq(|q|, i requires 0 <= i < |q| => q[i].value)
  }

  // ---------------------------------------------------------- one step

  /** `max_cost`: with more than max_list live candidates, the largest
      key; otherwise INT_MAX. */
  function MaxCost(q: seq<Entry<Node>>, maxList: int): int {
    if |q| > maxList && |q| > 0 then q[|q| - 1].key else IntMax
  }

  /** The popped candidate after `depth++` and its shape token. */
  function Arrived(n: Node): (r: Node)
    ensures r.depth == n.depth + 1 && r.str == n.str + ShapeToken(n.dim) + "|"
    ensures r.dim == n.dim && r.numConv == n.numConv && r.previous == n.previous
  {
    n.(depth := n.depth + 1, str := n.str + ShapeToken(n.dim) + "|")
  }

  /** An entry survives the cut-off only when strictly below max_cost. */
  function Cut(e: Entry<Node>, maxCost: int): (r: seq<Entry<Node>>)
    ensures r == [] || r == [e]
    ensures r == [e] <==> e.key < maxCost
  {
    if e.key < maxCost then [e] else []
  }

  function Pooled(cur: Node): Node {
    Node(Shape(cur.dim.w / 2, cur.dim.h / 2, cur.dim.d), cur.str + "max_pooling,identity,2|",
         cur.numConv, cur.depth, MaxPooling)
  }

  /** The max-pooling extension: after a convolution wider than the
      output, if the halved shape is still larger than the output. */
  function PoolChild(lim: Limits, cur: Node, curCost: int, maxCost: int): seq<Entry<Node>> {
    if cur.previous == Conv && cur.dim.w > lim.outDim.w && Pooled(cur).dim.Size() > lim.outDim.Size() then
      Cut(Entry(curCost + cur.dim.Size() + LayerCost, Pooled(cur)), maxCost)
    else []
  }

  function Convolved(cur: Node, kernel: int, width: int): Node {
    Node(Shape(cur.dim.w - (kernel - 1), cur.dim.h - (kernel - 1), width / 2),
         cur.str + "conv,relu," + IntToString(kernel) + "|", cur.numConv + 1, cur.depth, Conv)
  }

  /** The convolution extensions from `kernel` on (3, then 5); the first
      kernel that does not fit ends the loop. */
  function ConvFrom(cur: Node, curCost: int, maxCost: int, width: int, kernel: int): seq<Entry<Node>>
    decreases 6 - kernel
  {
    if kernel > 5 || cur.dim.w < kernel + 1 || cur.dim.h < kernel + 1 then []
    else
      Cut(ConvEntry(cur, curCost, width, kernel), maxCost) + ConvFrom(cur, curCost, maxCost, width, kernel + 2)
  }

  /** A convolution extension and its cost: output size times input
      depth times kernel area. */
  function ConvEntry(cur: Node, curCost: int, width: int, kernel: int): Entry<Node> {
    var n := Convolved(cur, kernel, width);
    Entry(curCost + n.dim.Size() * cur.dim.d * kernel * kernel + LayerCost, n)
  }

  predicate MayConvolve(lim: Limits, cur: Node) {
    cur.previous in {Root, Conv, MaxPooling} && cur.numConv < lim.maxConv
  }

  function ConvChildren(lim: Limits, cur: Node, curCost: int, maxCost: int, width: int): seq<Entry<Node>> {
    if MayConvolve(lim, cur) then ConvFrom(cur, curCost, maxCost, width, 3) else []
  }

  function Connected(cur: Node, width: int): Node {
    Node(Shape(1, 1, width), cur.str + "full,relu|1,1," + IntToString(width) + "|dropout,0.1|",
         cur.numConv, cur.depth, Fully)
  }

  /** The fully connected extension, for anything but the input. */
  function FullChild(cur: Node, curCost: int, maxCost: int, width: int): seq<Entry<Node>> {
    if cur.previous != Root then
      Cut(Entry(curCost + cur.dim.Size() * Connected(cur, width).dim.Size() + LayerCost, Connected(cur, width)), maxCost)
    else []
  }

  /** Everything inserted after popping `cur`, in insertion order. */
  function Children(lim: Limits, cur: Node, curCost: int, maxCost: int, width: int): seq<Entry<Node>> {
    PoolChild(lim, cur, curCost, maxCost) + ConvChildren(lim, cur, curCost, maxCost, width)
      + FullChild(cur, curCost, maxCost, width)
  }

  /** The text appended to close a topology by the output layer. */
  function Closing(lim: Limits): string {
    "full,relu|" + ShapeToken(lim.outDim)
  }

  /** The result list after popping `cur`: from depth 3 on, the closed
      topology is inserted when it passes the cut-off. */
  function Finished(lim: Limits, cur: Node, curCost: int, maxCost: int, results: seq<Entry<string>>): (r: seq<Entry<string>>)
    requires Sorted(results)
    ensures Sorted(r)
  {
    var cost := cur.dim.Size() * lim.outDim.Size() + lim.outDim.Size();
    if cur.depth > 2 && cost + curCost < maxCost then Insert(results, Entry(cost + curCost, cur.str + Closing(lim)))
    else results
  }

  /** One pass of the `list_size` loop. */
  function Step(lim: Limits, width: int, f: Frontier): (r: Frontier)
    requires |f.candidates| > 0 && Sorted(f.candidates) && Sorted(f.results)
    ensures Sorted(r.candidates) && Sorted(r.results)
  {
    var maxCost := MaxCost(f.candidates, lim.maxList);
    var curCost := f.candidates[0].key;
    var cur := Arrived(f.candidates[0].value);
    var rest := f.candidates[1..];
    assert Sorted(rest) by {
      assert forall i :: 0 <= i < |rest| ==> rest[i] == f.candidates[i + 1];
    }
    Frontier(if cur.depth <= lim.maxDepth then InsertAll(rest, Children(lim, cur, curCost, maxCost, width)) else rest,
             Finished(lim, cur, curCost, maxCost, f.results))
  }

  /** The `list_size` loop from pass `listSize` on. */
  function Run(lim: Limits, width: int, f: Frontier, listSize: int): (r: Frontier)
    requires Sorted(f.candidates) && Sorted(f.results)
    ensures Sorted(r.candidates) && Sorted(r.results)
    decreases lim.maxList - listSize
  {
    if listSize < lim.maxList && |f.candidates| > 0 then Run(lim, width, Step(lim, width, f), listSize + 1)
    else f
  }

  /** The input topology every width starts from. */
  function Start(lim: Limits): Entry<Node> {
    Entry(0, Node(lim.inDim, "", 0, 0, Root))
  }

  /** The `width` loop from `width` on, accumulating results. */
  function Widths(lim: Limits, width: int, results: seq<Entry<string>>): (r: seq<Entry<string>>)
    requires width > 0 && Sorted(results)
    ensures Sorted(r)
    decreases 81 - width
  {
    if width > 80 then results
    else Widths(lim, 2 * width, Run(lim, width, Frontier([Start(lim)], results), 0).results)
  }

  /** What iterate_cnn appends to `list`: the results in key order. */
  function Enumerated(lim: Limits): seq<string> {
    Values(Widths(lim, 20, []))
  }

  // ------------------------------------------------------ properties

  predicate NonNegative(s: Shape) { s.w >= 0 && s.h >= 0 && s.d >= 0 }

  /** The number of tokens in a topology text: every token ends with '|'. */
  function Bars(s: string): nat
  {
    if s == [] then 0 else Bars(s[..|s| - 1]) + (if s[|s| - 1] == '|' then 1 else 0)
  }

  lemma {:induction false} BarsConcat(s: string, t: string)
    ensures Bars(s + t) == Bars(s) + Bars(t)
    decreases |t|
  {
    if t != [] {
      assert (s + t)[..|s + t| - 1] == s + t[..|t| - 1];
      BarsConcat(s, t[..|t| - 1]);
    } else {
      assert s + t == s;
    }
  }

  lemma {:induction false} BarsNone(t: string)
    requires '|' !in t
    ensures Bars(t) == 0
    decreases |t|
  {
    if t != [] {
      BarsNone(t[..|t| - 1]);
    }
  }

  /** Appending text that ends with a token adds at least one token. */
  lemma BarsGrow(s: string, t: string)
    requires |t| > 0 && t[|t| - 1] == '|'
    ensures Bars(s + t) >= Bars(s) + 1
  {
    BarsConcat(s, t);
  }

  /** Appending a shape token and its bar adds exactly one token. */
  lemma BarsShape(s: string, d: Shape)
    ensures Bars(s + ShapeToken(d) + "|") == Bars(s) + 1
  {
    ShapeTokenFree(d);
    BarsNone(ShapeToken(d));
    BarsConcat(s, ShapeToken(d));
    BarsConcat(s + ShapeToken(d), "|");
  }

  /** What every live candidate satisfies. */
  predicate Wellformed(lim: Limits, n: Node) {
    && NonNegative(n.dim) && 0 <= n.depth
    && (n.depth == 0 <==> n.previous == Root)
    && (n.depth == 0 ==> n == Start(lim).value)
    && (n.depth > 0 ==> n.depth <= lim.maxDepth && ShapeToken(lim.inDim) + "|" <= n.str)
    && (n.depth > 0 ==> Bars(n.str) >= 2 * n.depth)
    && 0 <= n.numConv && (n.numConv == 0 || n.numConv <= lim.maxConv)
    && (n.previous == Conv ==> n.numConv > 0)
    && (n.previous == MaxPooling ==> n.dim.Size() > lim.outDim.Size())
  }

  lemma SizeNonNegative(s: Shape)
    requires NonNegative(s)
    ensures s.Size() >= 0
  {
    assert s.w * s.h >= 0;
    assert s.w * s.h * s.d >= 0;
  }

  lemma ProductNonNegative(a: int, b: int)
    requires a >= 0 && b >= 0
    ensures a * b >= 0
  {
  }

  /** Every entry lies in [low, high) and holds a well-formed topology. */
  predicate Admitted(lim: Limits, es: seq<Entry<Node>>, low: int, high: int) {
    forall i :: 0 <= i < |es| ==> low <= es[i].key < high && Wellformed(lim, es[i].value)
  }

  lemma {:induction false} PoppedFacts(lim: Limits, n: Node)
    requires Wellformed(lim, n) && NonNegative(lim.inDim)
    ensures var cur := Arrived(n);
      cur.depth > 0 && ShapeToken(lim.inDim) + "|" <= cur.str && NonNegative(cur.dim) && 0 <= cur.numConv
    ensures Bars(Arrived(n).str) >= 2 * Arrived(n).depth - 1
  {
    var cur := Arrived(n);
    var p := ShapeToken(lim.inDim) + "|";
    BarsShape(n.str, n.dim);
    if n.depth == 0 {
      assert cur.str == p;
    } else {
      assert cur.str == n.str + (ShapeToken(n.dim) + "|");
      PrefixKept(p, n.str, ShapeToken(n.dim) + "|");
    }
  }

  /** A prefix survives appending. */
  lemma PrefixKept(p: string, a: string, b: string)
    requires p <= a
    ensures p <= a + b
  {
    assert (a + b)[..|a|] == a;
  }

  /** Appending text keeps the input prefix and loses no token. */
  lemma Grown(p: string, a: string, t: string)
    requires p <= a
    ensures p <= a + t && Bars(a + t) >= Bars(a)
  {
    PrefixKept(p, a, t);
    BarsConcat(a, t);
  }

  /** Appending a layer token keeps the input prefix and adds a token. */
  lemma Extended(p: string, a: string, t: string)
    requires p <= a && |t| > 0 && t[|t| - 1] == '|'
    ensures p <= a + t && Bars(a + t) >= Bars(a) + 1
  {
    PrefixKept(p, a, t);
    BarsGrow(a, t);
  }

  /** The pooling extension is cheaper than max_cost, no cheaper than the
      popped candidate, and well formed. */
  lemma PoolAdmitted(lim: Limits, n: Node, curCost: int, maxCost: int)
    requires Wellformed(lim, n) && NonNegative(lim.inDim) && Arrived(n).depth <= lim.maxDepth
    ensures Admitted(lim, PoolChild(lim, Arrived(n), curCost, maxCost), curCost, maxCost)
  {
    var cur := Arrived(n);
    PoppedFacts(lim, n);
    if PoolChild(lim, cur, curCost, maxCost) != [] {
      SizeNonNegative(cur.dim);
      Extended(ShapeToken(lim.inDim) + "|", cur.str, "max_pooling,identity,2|");
    }
  }

  lemma {:induction false} ConvAdmitted(lim: Limits, n: Node, curCost: int, maxCost: int, width: int, kernel: int)
    requires Wellformed(lim, n) && NonNegative(lim.inDim) && Arrived(n).depth <= lim.maxDepth
    requires MayConvolve(lim, Arrived(n)) && width > 0 && kernel >= 1
    ensures Admitted(lim, ConvFrom(Arrived(n), curCost, maxCost, width, kernel), curCost, maxCost)
    decreases 6 - kernel
  {
    var cur := Arrived(n);
    if !(kernel > 5 || cur.dim.w < kernel + 1 || cur.dim.h < kernel + 1) {
      ConvOneAdmitted(lim, n, curCost, maxCost, width, kernel);
      ConvAdmitted(lim, n, curCost, maxCost, width, kernel + 2);
      AdmittedConcat(lim, Cut(ConvEntry(cur, curCost, width, kernel), maxCost),
                     ConvFrom(cur, curCost, maxCost, width, kernel + 2), curCost, maxCost);
    }
  }

  /** The convolution extension of one fitting kernel. */
  lemma ConvOneAdmitted(lim: Limits, n: Node, curCost: int, maxCost: int, width: int, kernel: int)
    requires Wellformed(lim, n) && NonNegative(lim.inDim) && Arrived(n).depth <= lim.maxDepth
    requires MayConvolve(lim, Arrived(n)) && width > 0 && kernel >= 1
    requires kernel <= 5 && Arrived(n).dim.w >= kernel + 1 && Arrived(n).dim.h >= kernel + 1
    ensures Admitted(lim, Cut(ConvEntry(Arrived(n), curCost, width, kernel), maxCost), curCost, maxCost)
  {
    var cur := Arrived(n);
    PoppedFacts(lim, n);
    var c := Convolved(cur, kernel, width);
    assert ConvEntry(cur, curCost, width, kernel) == Entry(curCost + c.dim.Size() * cur.dim.d * kernel * kernel + LayerCost, c);
    assert NonNegative(c.dim);
    SizeNonNegative(c.dim);
    ProductNonNegative(c.dim.Size(), cur.dim.d);
    ProductNonNegative(c.dim.Size() * cur.dim.d, kernel);
    ProductNonNegative(c.dim.Size() * cur.dim.d * kernel, kernel);
    var p := ShapeToken(lim.inDim) + "|";
    Grown(p, cur.str, "conv,relu,");
    Grown(p, cur.str + "conv,relu,", IntToString(kernel));
    Extended(p, cur.str + "conv,relu," + IntToString(kernel), "|");
  }

  lemma AdmittedConcat(lim: Limits, a: seq<Entry<Node>>, b: seq<Entry<Node>>, low: int, high: int)
    requires Admitted(lim, a, low, high) && Admitted(lim, b, low, high)
    ensures Admitted(lim, a + b, low, high)
  {
    assert forall i :: |a| <= i < |a + b| ==> (a + b)[i] == b[i - |a|];
  }

  lemma FullAdmitted(lim: Limits, n: Node, curCost: int, maxCost: int, width: int)
    requires Wellformed(lim, n) && NonNegative(lim.inDim) && Arrived(n).depth <= lim.maxDepth && width > 0
    ensures Admitted(lim, FullChild(Arrived(n), curCost, maxCost, width), curCost, maxCost)
  {
    var cur := Arrived(n);
    if cur.previous != Root {
      var c := Connected(cur, width);
      PoppedFacts(lim, n);
      SizeNonNegative(cur.dim);
      ProductNonNegative(cur.dim.Size(), c.dim.Size());
      FullWellformed(lim, n, width);
    }
  }

  /** The fully connected extension of a popped candidate is well formed. */
  lemma FullWellformed(lim: Limits, n: Node, width: int)
    requires Wellformed(lim, n) && NonNegative(lim.inDim) && Arrived(n).depth <= lim.maxDepth && width > 0
    requires Arrived(n).previous != Root
    ensures Wellformed(lim, Connected(Arrived(n), width))
  {
    var cur := Arrived(n);
    var c := Connected(cur, width);
    var p := ShapeToken(lim.inDim) + "|";
    PoppedFacts(lim, n);
    Grown(p, cur.str, "full,relu|1,1,");
    Grown(p, cur.str + "full,relu|1,1,", IntToString(width));
    Extended(p, cur.str + "full,relu|1,1," + IntToString(width), "|dropout,0.1|");
  }

  /** Every extension of a popped candidate passed the cut-off (its key is
      strictly below max_cost), costs no less than the candidate, and is a
      well-formed topology: depth within max_depth, convolutions within
      max_conv, a pooling only after a convolution. */
  lemma ChildrenAdmitted(lim: Limits, n: Node, curCost: int, maxCost: int, width: int)
    requires Wellformed(lim, n) && NonNegative(lim.inDim) && Arrived(n).depth <= lim.maxDepth && width > 0
    ensures Admitted(lim, Children(lim, Arrived(n), curCost, maxCost, width), curCost, maxCost)
  {
    PoolAdmitted(lim, n, curCost, maxCost);
    if MayConvolve(lim, Arrived(n)) {
      ConvAdmitted(lim, n, curCost, maxCost, width, 3);
    }
    FullAdmitted(lim, n, curCost, maxCost, width);
  }

  /** Every convolution extension from `kernel` on adds one convolution
      to a shape at least `kernel + 1` wide and high. */
  lemma {:induction false} ConvFromKinds(cur: Node, curCost: int, maxCost: int, width: int, kernel: int)
    ensures forall e :: e in ConvFrom(cur, curCost, maxCost, width, kernel) ==>
      e.value.previous == Conv && e.value.numConv == cur.numConv + 1 &&
      cur.dim.w >= kernel + 1 && cur.dim.h >= kernel + 1
    decreases 6 - kernel
  {
    if !(kernel > 5 || cur.dim.w < kernel + 1 || cur.dim.h < kernel + 1) {
      ConvFromKinds(cur, curCost, maxCost, width, kernel + 2);
    }
  }

  /** Which extensions a popped candidate can have: a pooling only right
      after a convolution and only while the halved shape exceeds the
      output, a convolution only below max_conv and on a shape of at least
      4 x 4 (kernel 3 plus one), a full layer never straight after the
      input. */
  lemma ChildKinds(lim: Limits, cur: Node, curCost: int, maxCost: int, width: int)
    ensures forall e :: e in Children(lim, cur, curCost, maxCost, width) ==>
      e.value.previous != Root &&
      (e.value.previous == MaxPooling ==> cur.previous == Conv && e.value.dim.Size() > lim.outDim.Size()) &&
      (e.value.previous == Conv ==>
         MayConvolve(lim, cur) && e.value.numConv == cur.numConv + 1 && cur.dim.w >= 4 && cur.dim.h >= 4) &&
      (e.value.previous == Fully ==> cur.previous != Root && e.value.dim == Shape(1, 1, width))
  {
    ConvFromKinds(cur, curCost, maxCost, width, 3);
  }

  /** Entries of a map, old or new, stay in the map. */
  lemma {:induction false} InsertAllMembers<T>(q: seq<Entry<T>>, es: seq<Entry<T>>)
    requires Sorted(q)
    ensures forall x :: x in q ==> x in InsertAll(q, es)
    ensures forall x :: x in InsertAll(q, es) ==> x in q || x in es
    decreases |es|
  {
    if |es| > 0 {
      var q1 := Insert(q, es[0]);
      var u := UpperBound(q, es[0].key);
      forall x | x in q
        ensures x in q1
      {
        var i :| 0 <= i < |q| && q[i] == x;
        if i < u { assert q1[i] == x; } else { assert q1[i + 1] == x; }
      }
      forall x | x in q1
        ensures x in q || x == es[0]
      {
        var i :| 0 <= i < |q1| && q1[i] == x;
        if i < u { assert x == q[i]; } else if i > u { assert x == q[i - 1]; }
      }
      InsertAllMembers(q1, es[1..]);
      assert forall x :: x in es[1..] ==> x in es;
    }
  }

  /** What every frontier of the `list_size` loop satisfies. */
  predicate Live(lim: Limits, f: Frontier, low: int) {
    && Sorted(f.candidates) && Sorted(f.results)
    && (forall i :: 0 <= i < |f.candidates| ==> f.candidates[i].key >= low && Wellformed(lim, f.candidates[i].value))
    && Closed(lim, f.results)
  }

  /** Every result is a complete topology text: the input shape first, the
      closing output layer last, and at least five tokens before the closing
      (the input shape and two layer-and-shape pairs), which only a
      candidate of depth 3 or more has. */
  predicate Closed(lim: Limits, results: seq<Entry<string>>) {
    forall i :: 0 <= i < |results| ==> Complete(lim, results[i].value)
  }

  predicate Complete(lim: Limits, s: string) {
    |ShapeToken(lim.inDim) + "|"| + |Closing(lim)| <= |s|
    && ShapeToken(lim.inDim) + "|" <= s && s[|s| - |Closing(lim)|..] == Closing(lim)
    && Bars(s[..|s| - |Closing(lim)|]) >= 5
  }

  lemma ClosedInsert(lim: Limits, results: seq<Entry<string>>, e: Entry<string>)
    requires Sorted(results) && Closed(lim, results) && Complete(lim, e.value)
    ensures Closed(lim, Insert(results, e))
  {
    var r := Insert(results, e);
    var u := UpperBound(results, e.key);
    forall i | 0 <= i < |r|
      ensures Complete(lim, r[i].value)
    {
      if i < u { assert r[i] == results[i]; } else if i > u { assert r[i] == results[i - 1]; }
    }
  }

  /** Closing a popped candidate adds only complete texts. */
  lemma FinishedClosed(lim: Limits, n: Node, curCost: int, maxCost: int, results: seq<Entry<string>>)
    requires Wellformed(lim, n) && NonNegative(lim.inDim) && Sorted(results) && Closed(lim, results)
    ensures Closed(lim, Finished(lim, Arrived(n), curCost, maxCost, results))
  {
    var cur := Arrived(n);
    PoppedFacts(lim, n);
    var s := cur.str + Closing(lim);
    PrefixKept(ShapeToken(lim.inDim) + "|", cur.str, Closing(lim));
    assert s[|s| - |Closing(lim)|..] == Closing(lim);
    assert s[..|s| - |Closing(lim)|] == cur.str;
    if Finished(lim, cur, curCost, maxCost, results) != results {
      ClosedInsert(lim, results, Entry(cur.dim.Size() * lim.outDim.Size() + lim.outDim.Size() + curCost, s));
    }
  }

  /** One pass keeps the frontier live, pops in order of cost (nothing
      left is cheaper than what was just popped) and evicts nothing: every
      candidate but the popped one is still there. */
  lemma StepLive(lim: Limits, width: int, f: Frontier, low: int)
    requires Live(lim, f, low) && |f.candidates| > 0 && NonNegative(lim.inDim) && width > 0
    ensures Live(lim, Step(lim, width, f), f.candidates[0].key)
    ensures f.candidates[0].key >= low
    ensures forall x :: x in f.candidates[1..] ==> x in Step(lim, width, f).candidates
  {
    var maxCost := MaxCost(f.candidates, lim.maxList);
    var curCost := f.candidates[0].key;
    var n := f.candidates[0].value;
    var cur := Arrived(n);
    var rest := f.candidates[1..];
    assert Sorted(rest) by {
      assert forall i :: 0 <= i < |rest| ==> rest[i] == f.candidates[i + 1];
    }
    assert forall i :: 0 <= i < |rest| ==> rest[i].key >= curCost && Wellformed(lim, rest[i].value) by {
      assert forall i :: 0 <= i < |rest| ==> rest[i] == f.candidates[i + 1];
    }
    var r := Step(lim, width, f);
    if cur.depth <= lim.maxDepth {
      var cs := Children(lim, cur, curCost, maxCost, width);
      ChildrenAdmitted(lim, n, curCost, maxCost, width);
      InsertAllKeys(rest, cs, curCost);
      InsertAllMembers(rest, cs);
      assert r.candidates == InsertAll(rest, cs);
      forall i | 0 <= i < |r.candidates|
        ensures Wellformed(lim, r.candidates[i].value)
      {
        var x := r.candidates[i];
        assert x in rest || x in cs;
      }
    }
    FinishedClosed(lim, n, curCost, maxCost, f.results);
  }

  /** Whenever more than max_list candidates are live, every candidate a
      pass inserts is strictly cheaper than the most expensive one; with
      fewer, only INT_MAX bounds them. */
  lemma CutOff(lim: Limits, width: int, f: Frontier)
    requires |f.candidates| > 0 && Live(lim, f, f.candidates[0].key) && NonNegative(lim.inDim) && width > 0
    ensures var cur := Arrived(f.candidates[0].value);
      var maxCost := MaxCost(f.candidates, lim.maxList);
      && (|f.candidates| > lim.maxList ==> maxCost == f.candidates[|f.candidates| - 1].key)
      && (|f.candidates| <= lim.maxList ==> maxCost == IntMax)
      && forall x :: x in Step(lim, width, f).candidates && x !in f.candidates[1..] ==> x.key < maxCost
  {
    var maxCost := MaxCost(f.candidates, lim.maxList);
    var n := f.candidates[0].value;
    var cur := Arrived(n);
    var rest := f.candidates[1..];
    assert Sorted(rest) by {
      assert forall i :: 0 <= i < |rest| ==> rest[i] == f.candidates[i + 1];
    }
    if cur.depth <= lim.maxDepth {
      var cs := Children(lim, cur, f.candidates[0].key, maxCost, width);
      ChildrenAdmitted(lim, n, f.candidates[0].key, maxCost, width);
      InsertAllMembers(rest, cs);
    }
  }

  /** The keys popped by the `list_size` loop from pass `listSize` on. */
  function Pops(lim: Limits, width: int, f: Frontier, listSize: int): seq<int>
    requires Sorted(f.candidates) && Sorted(f.results)
    decreases lim.maxList - listSize
  {
    if listSize < lim.maxList && |f.candidates| > 0 then [f.candidates[0].key] + Pops(lim, width, Step(lim, width, f), listSize + 1)
    else []
  }

  predicate Ascending(s: seq<int>) {
    forall i, j :: 0 <= i < j < |s| ==> s[i] <= s[j]
  }

  /** The loop keeps the frontier live and adds at most one result per
      pass. */
  lemma {:induction false} RunLive(lim: Limits, width: int, f: Frontier, low: int, listSize: int)
    requires Live(lim, f, low) && NonNegative(lim.inDim) && width > 0
    ensures Live(lim, Run(lim, width, f, listSize), low)
    ensures |Run(lim, width, f, listSize).results| <= |f.results| + |Pops(lim, width, f, listSize)|
    ensures |Pops(lim, width, f, listSize)| <= if listSize < lim.maxList then lim.maxList - listSize else 0
    decreases lim.maxList - listSize
  {
    if listSize < lim.maxList && |f.candidates| > 0 {
      var key := f.candidates[0].key;
      var g := Step(lim, width, f);
      StepLive(lim, width, f, low);
      RunLive(lim, width, g, key, listSize + 1);
      assert Live(lim, Run(lim, width, g, listSize + 1), low) by {
        var h := Run(lim, width, g, listSize + 1);
        assert forall i :: 0 <= i < |h.candidates| ==> h.candidates[i].key >= key;
      }
    }
  }

  /** Best-first: the loop pops candidates in order of cost, never below
      the bound the frontier started with. */
  lemma {:induction false} PopsAscending(lim: Limits, width: int, f: Frontier, low: int, listSize: int)
    requires Live(lim, f, low) && NonNegative(lim.inDim) && width > 0
    ensures Ascending(Pops(lim, width, f, listSize))
    ensures forall i :: 0 <= i < |Pops(lim, width, f, listSize)| ==> Pops(lim, width, f, listSize)[i] >= low
    decreases lim.maxList - listSize
  {
    if listSize < lim.maxList && |f.candidates| > 0 {
      var key := f.candidates[0].key;
      var g := Step(lim, width, f);
      StepLive(lim, width, f, low);
      PopsAscending(lim, width, g, key, listSize + 1);
      var tail := Pops(lim, width, g, listSize + 1);
      assert Pops(lim, width, f, listSize) == [key] + tail;
      ConsAscending(key, tail, low);
    }
  }

  lemma ConsAscending(key: int, tail: seq<int>, low: int)
    requires key >= low && Ascending(tail) && forall i :: 0 <= i < |tail| ==> tail[i] >= key
    ensures Ascending([key] + tail) && forall i :: 0 <= i < |[key] + tail| ==> ([key] + tail)[i] >= low
  {
    var all := [key] + tail;
    assert forall i :: 0 < i < |all| ==> all[i] == tail[i - 1];
  }

  /** The input topology is well formed. */
  lemma StartLive(lim: Limits, results: seq<Entry<string>>)
    requires NonNegative(lim.inDim) && Sorted(results) && Closed(lim, results)
    ensures Live(lim, Frontier([Start(lim)], results), 0)
  {
  }

  /** Over the widths from `width` on, every result stays a complete
      topology text and each width adds at most max_list results. */
  lemma WidthsClosed(lim: Limits, width: int, results: seq<Entry<string>>)
    requires width > 0 && Sorted(results) && Closed(lim, results) && NonNegative(lim.inDim)
    ensures Closed(lim, Widths(lim, width, results))
    ensures |Widths(lim, width, results)| <= |results| + Budget(width, if lim.maxList > 0 then lim.maxList else 0)
  {
    WidthsComplete(lim, width, results);
    WidthsCount(lim, width, results);
  }

  lemma {:induction false} WidthsComplete(lim: Limits, width: int, results: seq<Entry<string>>)
    requires width > 0 && Sorted(results) && Closed(lim, results) && NonNegative(lim.inDim)
    ensures Closed(lim, Widths(lim, width, results))
    decreases 81 - width
  {
    if width <= 80 {
      var next := Run(lim, width, Frontier([Start(lim)], results), 0).results;
      OneWidth(lim, width, results);
      WidthsComplete(lim, 2 * width, next);
    }
  }

  lemma {:induction false} WidthsCount(lim: Limits, width: int, results: seq<Entry<string>>)
    requires width > 0 && Sorted(results) && Closed(lim, results) && NonNegative(lim.inDim)
    ensures |Widths(lim, width, results)| <= |results| + Budget(width, if lim.maxList > 0 then lim.maxList else 0)
    decreases 81 - width
  {
    if width <= 80 {
      var next := Run(lim, width, Frontier([Start(lim)], results), 0).results;
      OneWidth(lim, width, results);
      WidthsCount(lim, 2 * width, next);
    }
  }

  /** One width keeps the results complete and adds at most max_list. */
  lemma OneWidth(lim: Limits, width: int, results: seq<Entry<string>>)
    requires width > 0 && Sorted(results) && Closed(lim, results) && NonNegative(lim.inDim)
    ensures var next := Run(lim, width, Frontier([Start(lim)], results), 0).results;
      Closed(lim, next) && |next| <= |results| + (if lim.maxList > 0 then lim.maxList else 0)
  {
    StartLive(lim, results);
    RunLive(lim, width, Frontier([Start(lim)], results), 0, 0);
  }

  /** The most the widths from `width` on can add: `m` for each of
      20, 40 and 80 that the loop still visits. */
  function Budget(width: int, m: nat): (b: nat)
    requires width > 0
    ensures width > 80 ==> b == 0
    decreases 81 - width
  {
    if width > 80 then 0 else m + Budget(2 * width, m)
  }

  /** iterate_cnn lists at most 3 · max_list topologies, cheapest first,
      each of them the input shape's token, then layers, then
      "full,relu|" and the output shape's token. */
  lemma EnumeratedFacts(lim: Limits)
    requires NonNegative(lim.inDim)
    ensures Sorted(Widths(lim, 20, [])) && Enumerated(lim) == Values(Widths(lim, 20, []))
    ensures forall i :: 0 <= i < |Enumerated(lim)| ==> Complete(lim, Enumerated(lim)[i])
    ensures |Enumerated(lim)| <= 3 * (if lim.maxList > 0 then lim.maxList else 0)
  {
    WidthsClosed(lim, 20, []);
    var m: nat := if lim.maxList > 0 then lim.maxList else 0;
    assert Budget(20, m) == 3 * m by {
      assert Budget(160, m) == 0;
    }
  }

  // ------------------------------------------------------ the program

  /** Inserting at most one entry. */
  lemma InsertCut(q: seq<Entry<Node>>, e: Entry<Node>, maxCost: int)
    requires Sorted(q)
    ensures InsertAll(q, Cut(e, maxCost)) == if e.key < maxCost then Insert(q, e) else q
  {
    if e.key < maxCost {
      assert Cut(e, maxCost)[1..] == [];
    }
  }

  /** iterate_cnn(in_dim, out_dim, list, max_conv, max_depth, max_list):
      appends to `list` the enumerated topologies in order of cost. */
  method IterateCnn(lim: Limits, list0: seq<string>) returns (list: seq<string>)
    ensures list == list0 + Enumerated(lim)
  {
    var sorted: seq<Entry<string>> := [];
    var width := 20;
    while width <= 80
      invariant width > 0 && Sorted(sorted)
      invariant Widths(lim, width, sorted) == Widths(lim, 20, [])
      decreases 81 - width
    {
      sorted := SearchWidth(lim, width, sorted);
      width := width * 2;
    }
    list := list0;
    var i := 0;
    while i < |sorted|
      invariant 0 <= i <= |sorted| && list == list0 + Values(sorted[..i])
    {
      assert Values(sorted[..i + 1]) == Values(sorted[..i]) + [sorted[i].value];
      list := list + [sorted[i].value];
      i := i + 1;
    }
    assert sorted[..i] == sorted;
  }

  /** One pass of the `width` loop: a fresh candidate map holding the
      input, popped at most max_list times. */
  method SearchWidth(lim: Limits, width: int, results0: seq<Entry<string>>) returns (results: seq<Entry<string>>)
    requires width > 0 && Sorted(results0)
    ensures results == Run(lim, width, Frontier([Start(lim)], results0), 0).results
  {
    var candidates := [Start(lim)];
    results := results0;
    var listSize := 0;
    while listSize < lim.maxList && |candidates| > 0
      invariant Sorted(candidates) && Sorted(results)
      invariant Run(lim, width, Frontier(candidates, results), listSize) == Run(lim, width, Frontier([Start(lim)], results0), 0)
      decreases lim.maxList - listSize
    {
      candidates, results := PopStep(lim, width, candidates, results);
      listSize := listSize + 1;
    }
  }

  /** The body of the `list_size` loop. */
  method PopStep(lim: Limits, width: int, candidates0: seq<Entry<Node>>, results0: seq<Entry<string>>)
    returns (candidates: seq<Entry<Node>>, results: seq<Entry<string>>)
    requires |candidates0| > 0 && Sorted(candidates0) && Sorted(results0)
    ensures Frontier(candidates, results) == Step(lim, width, Frontier(candidates0, results0))
  {
    var maxCost := IntMax;
    if |candidates0| > lim.maxList {
      maxCost := candidates0[|candidates0| - 1].key;
    }
    var curCost := candidates0[0].key;
    var cur := candidates0[0].value;
    cur := cur.(depth := cur.depth + 1);
    candidates := candidates0[1..];
    assert Sorted(candidates) by {
      assert forall i :: 0 <= i < |candidates| ==> candidates[i] == candidates0[i + 1];
    }
    cur := cur.(str := cur.str + ShapeToken(cur.dim) + "|");
    assert cur == Arrived(candidates0[0].value) && maxCost == MaxCost(candidates0, lim.maxList);
    if cur.depth <= lim.maxDepth {
      candidates := Expand(lim, width, cur, curCost, maxCost, candidates);
    }
    results := Close(lim, cur, curCost, maxCost, results0);
  }

  /** The `// end` block: the closed topology joins the results. */
  method Close(lim: Limits, cur: Node, curCost: int, maxCost: int, results0: seq<Entry<string>>)
    returns (results: seq<Entry<string>>)
    requires Sorted(results0)
    ensures results == Finished(lim, cur, curCost, maxCost, results0)
  {
    results := results0;
    if cur.depth > 2 {
      var s := cur.str + "full,relu|" + ShapeToken(lim.outDim);
      assert s == cur.str + Closing(lim);
      var cost := cur.dim.Size() * lim.outDim.Size() + lim.outDim.Size();
      if cost + curCost < maxCost {
        results := Insert(results, Entry(cost + curCost, s));
      }
    }
  }

  /** The three extensions, in the source's order. */
  method Expand(lim: Limits, width: int, cur: Node, curCost: int, maxCost: int, q0: seq<Entry<Node>>)
    returns (q: seq<Entry<Node>>)
    requires Sorted(q0)
    ensures q == InsertAll(q0, Children(lim, cur, curCost, maxCost, width))
  {
    var pool, convs, full := PoolChild(lim, cur, curCost, maxCost), ConvChildren(lim, cur, curCost, maxCost, width),
                             FullChild(cur, curCost, maxCost, width);
    q := AddPool(lim, cur, curCost, maxCost, q0);
    ghost var q1 := q;
    q := AddConvs(lim, width, cur, curCost, maxCost, q);
    ghost var q2 := q;
    q := AddFull(width, cur, curCost, maxCost, q);
    InsertAllAppend(q0, pool, convs);
    InsertAllAppend(q0, pool + convs, full);
  }

  method AddPool(lim: Limits, cur: Node, curCost: int, maxCost: int, q0: seq<Entry<Node>>) returns (q: seq<Entry<Node>>)
    requires Sorted(q0)
    ensures Sorted(q) && q == InsertAll(q0, PoolChild(lim, cur, curCost, maxCost))
  {
    q := q0;
    if cur.previous == Conv && cur.dim.w > lim.outDim.w {
      var n := cur.(dim := Shape(cur.dim.w / 2, cur.dim.h / 2, cur.dim.d), str := cur.str + "max_pooling,identity,2|",
                    previous := MaxPooling);
      var cost := cur.dim.Size() + LayerCost;
      assert n == Pooled(cur);
      InsertCut(q0, Entry(curCost + cost, n), maxCost);
      if curCost + cost < maxCost && n.dim.Size() > lim.outDim.Size() {
        q := Insert(q, Entry(curCost + cost, n));
      }
    }
  }

  /** `for (kernel = 3; kernel <= 5; kernel += 2)` with its `break`. */
  method AddConvs(lim: Limits, width: int, cur: Node, curCost: int, maxCost: int, q0: seq<Entry<Node>>)
    returns (q: seq<Entry<Node>>)
    requires Sorted(q0)
    ensures Sorted(q) && q == InsertAll(q0, ConvChildren(lim, cur, curCost, maxCost, width))
  {
    q := q0;
    if (cur.previous == Root || cur.previous == Conv || cur.previous == MaxPooling) && cur.numConv < lim.maxConv {
      var kernel := 3;
      while kernel <= 5
        invariant kernel == 3 || kernel == 5 || kernel == 7
        invariant Sorted(q) && InsertAll(q, ConvFrom(cur, curCost, maxCost, width, kernel)) == InsertAll(q0, ConvFrom(cur, curCost, maxCost, width, 3))
      {
        if cur.dim.w < kernel + 1 || cur.dim.h < kernel + 1 {
          break;
        }
        q := ConvStep(width, cur, curCost, maxCost, kernel, q);
        kernel := kernel + 2;
      }
    }
  }

  /** One convolution extension. */
  method ConvStep(width: int, cur: Node, curCost: int, maxCost: int, kernel: int, q0: seq<Entry<Node>>)
    returns (q: seq<Entry<Node>>)
    requires Sorted(q0) && kernel <= 5 && cur.dim.w >= kernel + 1 && cur.dim.h >= kernel + 1
    ensures Sorted(q)
    ensures InsertAll(q, ConvFrom(cur, curCost, maxCost, width, kernel + 2)) == InsertAll(q0, ConvFrom(cur, curCost, maxCost, width, kernel))
  {
    var n := cur.(numConv := cur.numConv + 1, dim := Shape(cur.dim.w - (kernel - 1), cur.dim.h - (kernel - 1), width / 2),
                  str := cur.str + "conv,relu," + IntToString(kernel) + "|", previous := Conv);
    assert n == Convolved(cur, kernel, width);
    var cost := n.dim.Size() * cur.dim.d * kernel * kernel + LayerCost;
    var e := Entry(curCost + cost, n);
    assert e == ConvEntry(cur, curCost, width, kernel);
    q := q0;
    if curCost + cost < maxCost {
      q := Insert(q, e);
    }
    InsertCut(q0, e, maxCost);
    InsertAllAppend(q0, Cut(e, maxCost), ConvFrom(cur, curCost, maxCost, width, kernel + 2));
  }

  method AddFull(width: int, cur: Node, curCost: int, maxCost: int, q0: seq<Entry<Node>>) returns (q: seq<Entry<Node>>)
    requires Sorted(q0)
    ensures Sorted(q) && q == InsertAll(q0, FullChild(cur, curCost, maxCost, width))
  {
    q := q0;
    if cur.previous != Root {
      var n := Node(Shape(1, 1, width), cur.str + "full,relu|1,1," + IntToString(width) + "|dropout,0.1|",
                    cur.numConv, cur.depth, Fully);
      var cost := cur.dim.Size() * n.dim.Size() + LayerCost;
      var e := Entry(curCost + cost, n);
      assert FullChild(cur, curCost, maxCost, width) == Cut(e, maxCost);
      InsertCut(q0, e, maxCost);
      if curCost + cost < maxCost {
        q := Insert(q, e);
      }
    }
  }
}
