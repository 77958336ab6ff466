/** The soft-max layer (soft_max_layer in ml/cnn.hpp). The forward pass
    subtracts the largest input before exponentiating, then normalises the
    exponentials to sum to one unless their sum is 0. The exponential is a
    parameter `exp` of the model (the source calls expf). */
module SoftMax {
  import opened Vectors
  import opened Sums

  /** The value std::max_element finds. */
  function MaxOf(s: seq<real>): (m: real)
    requires |s| > 0
    ensures m in s
    ensures forall k :: 0 <= k < |s| ==> s[k] <= m
    decreases |s|
  {
    if |s| == 1 then s[0]
    else
      var m0 := MaxOf(s[..|s| - 1]);
      if m0 < s[|s| - 1] then s[|s| - 1] else m0
  }

  /** exp(x[i] - m) for every i. */
  function Exps(x: seq<real>, m: real, exp: real -> real): (r: seq<real>)
    ensures |r| == |x|
  {
    seq(|x|, i requires 0 <= i < |x| => exp(x[i] - m))
  }

  /** Every entry divided by c. */
  function Divided(s: seq<real>, c: real): (r: seq<real>)
    requires c != 0.0
    ensures |r| == |s|
  {
    seq(|s|, i requires 0 <= i < |s| => s[i] / c)
  }

  /** The layer's output for its first n inputs. */
  function ForwardSpec(data: seq<real>, n: nat, exp: real -> real): (r: seq<real>)
    requires 0 < n <= |data|
    ensures |r| == n
  {
    var e := Exps(data[..n], MaxOf(data[..n]), exp);
    if Sum(e) != 0.0 then Divided(e, Sum(e)) else e
  }

  /** std::max_element over data[..n], which dereferences its result and
      so needs n > 0. */
  method MaxElement(data: seq<real>, n: nat) returns (m: real)
    requires 0 < n <= |data|
    ensures m == MaxOf(data[..n])
  {
    m := data[0];
    assert data[..1] == [data[0]];
    var i := 1;
    while i < n
      invariant 1 <= i <= n
      invariant m == MaxOf(data[..i])
    {
      MaxOfStep(data, i);
      if m < data[i] {
        m := data[i];
      }
      i := i + 1;
    }
  }

  /** The running maximum of a prefix, extended by one entry. */
  lemma MaxOfStep(data: seq<real>, i: nat)
    requires 0 < i < |data|
    ensures MaxOf(data[..i + 1]) == if MaxOf(data[..i]) < data[i] then data[i] else MaxOf(data[..i])
  {
    assert data[..i + 1][..i] == data[..i];
  }

  /** forward_propagation, writing its n outputs at `off`. */
  method Forward(data: seq<real>, n: nat, exp: real -> real, out: array<real>, off: nat)
    requires 0 < n <= |data| && off + n <= out.Length
    modifies out
    ensures out[off..off + n] == ForwardSpec(data, n, exp)
    ensures out[..off] == old(out[..off]) && out[off + n..] == old(out[off + n..])
  {
    var m := MaxElement(data, n);
    WriteExps(data, n, m, exp, out, off);
    var sum := Accumulate(out, off, n);
    if sum != 0.0 {
      DivideConstant(out, off, n, sum);
    }
  }

  /** The first loop of forward_propagation: out[i] = exp(data[i] - m). */
  method WriteExps(data: seq<real>, n: nat, m: real, exp: real -> real, out: array<real>, off: nat)
    requires n <= |data| && off + n <= out.Length
    modifies out
    ensures out[off..off + n] == Exps(data[..n], m, exp)
    ensures out[..off] == old(out[..off]) && out[off + n..] == old(out[off + n..])
  {
    ghost var e := Exps(data[..n], m, exp);
    var i := 0;
    while i < n
      invariant 0 <= i <= n
      invariant out[off..off + i] == e[..i]
      invariant out[..off] == old(out[..off]) && out[off + n..] == old(out[off + n..])
    {
      out[off + i] := exp(data[i] - m);
      assert out[off..off + i + 1] == out[off..off + i] + [out[off + i]];
      assert e[..i + 1] == e[..i] + [e[i]];
      i := i + 1;
    }
    assert e[..n] == e;
  }

  /** std::accumulate of a[off..off + n]. */
  method Accumulate(a: array<real>, off: nat, n: nat) returns (sum: real)
    requires off + n <= a.Length
    ensures sum == Sum(a[off..off + n])
  {
    sum := 0.0;
    var i := 0;
    while i < n
      invariant 0 <= i <= n
      invariant sum == Sum(a[off..off + i])
    {
      assert a[off..off + i + 1][..i] == a[off..off + i];
      sum := sum + a[off + i];
      i := i + 1;
    }
  }

  /** tipl::divide_constant over a[off..off + n]. */
  method DivideConstant(a: array<real>, off: nat, n: nat, c: real)
    requires off + n <= a.Length && c != 0.0
    modifies a
    ensures a[off..off + n] == Divided(old(a[off..off + n]), c)
    ensures a[..off] == old(a[..off]) && a[off + n..] == old(a[off + n..])
  {
    ghost var s := a[off..off + n];
    var i := 0;
    while i < n
      invariant 0 <= i <= n
      invariant forall k :: 0 <= k < i ==> a[off + k] == s[k] / c
      invariant forall k :: i <= k < n ==> a[off + k] == s[k]
      invariant a[..off] == old(a[..off]) && a[off + n..] == old(a[off + n..])
    {
      a[off + i] := a[off + i] / c;
      i := i + 1;
    }
    assert forall k :: 0 <= k < n ==> a[off..off + n][k] == Divided(s, c)[k];
  }

  // ---------------------------------------------------------------------
  // Properties of the forward pass

  lemma {:induction false} SumDivided(s: seq<real>, c: real)
    requires c != 0.0
    ensures Sum(Divided(s, c)) == Sum(s) / c
    decreases |s|
  {
    if |s| > 0 {
      var init := s[..|s| - 1];
      assert Divided(s, c)[..|s| - 1] == Divided(init, c);
      SumDivided(init, c);
      assert Sum(s) / c == Sum(init) / c + s[|s| - 1] / c;
    }
  }

  /** Whenever the exponentials do not sum to 0 the outputs sum to 1. */
  lemma SumToOne(data: seq<real>, n: nat, exp: real -> real)
    requires 0 < n <= |data|
    requires Sum(Exps(data[..n], MaxOf(data[..n]), exp)) != 0.0
    ensures Sum(ForwardSpec(data, n, exp)) == 1.0
  {
    var e := Exps(data[..n], MaxOf(data[..n]), exp);
    SumDivided(e, Sum(e));
    SelfQuotient(Sum(e));
  }

  lemma SelfQuotient(x: real)
    requires x != 0.0
    ensures x / x == 1.0
  {
  }

  /** A sum of positive values is positive and bounds each of them. */
  lemma {:induction false} PositiveSum(s: seq<real>)
    requires |s| > 0 && forall k :: 0 <= k < |s| ==> s[k] > 0.0
    ensures Sum(s) > 0.0
    ensures forall k :: 0 <= k < |s| ==> s[k] <= Sum(s)
    decreases |s|
  {
    if |s| > 1 {
      var init := s[..|s| - 1];
      assert forall k :: 0 <= k < |init| ==> init[k] == s[k];
      PositiveSum(init);
    }
  }

  lemma Fraction(a: real, b: real)
    requires 0.0 < a <= b
    ensures 0.0 < a / b <= 1.0
  {
    assert a / b <= b / b;
  }

  /** With an exponential that is positive everywhere the outputs form a
      probability distribution: each lies in (0, 1] and they sum to 1. */
  lemma Distribution(data: seq<real>, n: nat, exp: real -> real)
    requires 0 < n <= |data|
    requires forall v: real :: exp(v) > 0.0
    ensures Sum(ForwardSpec(data, n, exp)) == 1.0
    ensures forall i :: 0 <= i < n ==> 0.0 < ForwardSpec(data, n, exp)[i] <= 1.0
  {
    var e := Exps(data[..n], MaxOf(data[..n]), exp);
    PositiveSum(e);
    SumToOne(data, n, exp);
    forall i | 0 <= i < n ensures 0.0 < ForwardSpec(data, n, exp)[i] <= 1.0 {
      assert ForwardSpec(data, n, exp)[i] == e[i] / Sum(e);
      Fraction(e[i], Sum(e));
    }
  }

  /** x[i] + c for every i. */
  function Shifted(x: seq<real>, c: real): (r: seq<real>)
    ensures |r| == |x|
  {
    seq(|x|, i requires 0 <= i < |x| => x[i] + c)
  }

  lemma {:induction false} MaxOfShifted(x: seq<real>, c: real)
    requires |x| > 0
    ensures MaxOf(Shifted(x, c)) == MaxOf(x) + c
    decreases |x|
  {
    if |x| > 1 {
      assert Shifted(x, c)[..|x| - 1] == Shifted(x[..|x| - 1], c);
      MaxOfShifted(x[..|x| - 1], c);
    }
  }

  /** Subtracting the maximum makes the layer blind to a common offset of
      its inputs: shifting every input by c leaves the output unchanged. */
  lemma ShiftInvariant(data: seq<real>, n: nat, exp: real -> real, c: real)
    requires 0 < n <= |data|
    ensures ForwardSpec(Shifted(data[..n], c), n, exp) == ForwardSpec(data, n, exp)
  {
    var x := data[..n];
    var xs := Shifted(x, c);
    assert xs[..n] == xs;
    MaxOfShifted(x, c);
    ExpsShifted(x, MaxOf(x), c, exp);
  }

  /** Shifting the inputs and their maximum by the same c leaves the
      exponentials unchanged. */
  lemma ExpsShifted(x: seq<real>, m: real, c: real, exp: real -> real)
    ensures Exps(Shifted(x, c), m + c, exp) == Exps(x, m, exp)
  {
    var xs := Shifted(x, c);
    forall i | 0 <= i < |x|
      ensures Exps(xs, m + c, exp)[i] == Exps(x, m, exp)[i]
    {
      assert xs[i] - (m + c) == x[i] - m;
    }
  }

  // ---------------------------------------------------------------------
  // Backward pass

  function Products(a: seq<real>, b: seq<real>): int -> real {
    k => At(a, k) * At(b, k)
  }

  /** tipl::vec::dot over the first n entries. */
  function Dot(a: seq<real>, b: seq<real>, n: int): real {
    SumF(Products(a, b), n)
  }

  /** The error back_propagation produces from the incoming error g and the
      values `prev` it is handed: (g[i] - dot(g, prev)) * prev[i]. */
  function BackSpec(g: seq<real>, prev: seq<real>, n: nat): (r: seq<real>)
    ensures |r| == n
  {
    seq(n, i => (At(g, i) - Dot(g, prev, n)) * At(prev, i))
  }

  /** back_propagation: copy the error, subtract its dot product with
      `prev`, multiply elementwise by `prev`. */
  method Back(g: seq<real>, prev: seq<real>, n: nat, out: array<real>, off: nat)
    requires n <= |g| && n <= |prev| && off + n <= out.Length
    modifies out
    ensures out[off..off + n] == BackSpec(g, prev, n)
    ensures out[..off] == old(out[..off]) && out[off + n..] == old(out[off + n..])
  {
    CopyInto(g[..n], out, off);
    var d := VecDot(g, prev, n);
    MinusConstant(out, off, n, d);
    Multiply(out, off, n, prev);
    forall i | 0 <= i < n ensures out[off..off + n][i] == BackSpec(g, prev, n)[i] {
      assert g[..n][i] == At(g, i);
    }
  }

  /** tipl::vec::dot, accumulated from the front. */
  method VecDot(a: seq<real>, b: seq<real>, n: nat) returns (d: real)
    requires n <= |a| && n <= |b|
    ensures d == Dot(a, b, n)
  {
    d := 0.0;
    var i := 0;
    while i < n
      invariant 0 <= i <= n
      invariant d == Dot(a, b, i)
    {
      d := d + a[i] * b[i];
      i := i + 1;
    }
  }

  /** Every entry minus c. */
  function Minus(s: seq<real>, c: real): (r: seq<real>)
    ensures |r| == |s|
  {
    seq(|s|, i requires 0 <= i < |s| => s[i] - c)
  }

  /** The elementwise product of s with the first |s| entries of t. */
  function Hadamard(s: seq<real>, t: seq<real>): (r: seq<real>)
    requires |s| <= |t|
    ensures |r| == |s|
  {
    seq(|s|, i requires 0 <= i < |s| => s[i] * t[i])
  }

  /** tipl::minus_constant over a[off..off + n]. */
  method MinusConstant(a: array<real>, off: nat, n: nat, c: real)
    requires off + n <= a.Length
    modifies a
    ensures a[off..off + n] == Minus(old(a[off..off + n]), c)
    ensures a[..off] == old(a[..off]) && a[off + n..] == old(a[off + n..])
  {
    ghost var s := a[off..off + n];
    var i := 0;
    while i < n
      invariant 0 <= i <= n
      invariant a[off..off + i] == Minus(s, c)[..i]
      invariant a[off + i..off + n] == s[i..]
      invariant a[..off] == old(a[..off]) && a[off + n..] == old(a[off + n..])
    {
      assert a[off + i] == s[i..][0];
      a[off + i] := a[off + i] - c;
      assert a[off..off + i + 1] == a[off..off + i] + [a[off + i]];
      assert Minus(s, c)[..i + 1] == Minus(s, c)[..i] + [Minus(s, c)[i]];
      assert a[off + i + 1..off + n] == s[i + 1..];
      i := i + 1;
    }
  }

  /** tipl::multiply of a[off..off + n] by b, elementwise. */
  method Multiply(a: array<real>, off: nat, n: nat, b: seq<real>)
    requires off + n <= a.Length && n <= |b|
    modifies a
    ensures a[off..off + n] == Hadamard(old(a[off..off + n]), b)
    ensures a[..off] == old(a[..off]) && a[off + n..] == old(a[off + n..])
  {
    ghost var s := a[off..off + n];
    var i := 0;
    while i < n
      invariant 0 <= i <= n
      invariant a[off..off + i] == Hadamard(s, b)[..i]
      invariant a[off + i..off + n] == s[i..]
      invariant a[..off] == old(a[..off]) && a[off + n..] == old(a[off + n..])
    {
      assert a[off + i] == s[i..][0];
      var v := a[off + i] * b[i];
      assert v == Hadamard(s, b)[i];
      a[off + i] := v;
      assert a[off..off + i + 1] == a[off..off + i] + [a[off + i]];
      assert Hadamard(s, b)[..i + 1] == Hadamard(s, b)[..i] + [Hadamard(s, b)[i]];
      assert a[off + i + 1..off + n] == s[i + 1..];
      i := i + 1;
    }
  }

  /** The derivative of output j with respect to input i, written through
      the outputs y: y[j] * (delta(i, j) - y[i]). */
  function Jacobian(y: seq<real>, j: int, i: int): real {
    At(y, j) * ((if i == j then 1.0 else 0.0) - At(y, i))
  }

  /** The terms g[j] * dy[j]/dx[i] of the chain rule for input i. */
  function ChainTerm(g: seq<real>, y: seq<real>, i: int): int -> real {
    j => At(g, j) * Jacobian(y, j, i)
  }

  /** Handed the layer's OUTPUT y, back_propagation is the chain rule: entry
      i is the sum over j of g[j] * dy[j]/dx[i]. */
  lemma BackIsChainRule(g: seq<real>, y: seq<real>, n: nat, i: int)
    requires 0 <= i < n
    ensures BackSpec(g, y, n)[i] == SumF(ChainTerm(g, y, i), n)
  {
    var gi, yi, s := At(g, i), At(y, i), SumF(Products(g, y), n);
    var c := -yi;
    ChainSum(g, y, n, i, c);
    Collect(gi, yi, s, c, Products(g, y)(i), At(g, i) - Dot(g, y, n),
            BackSpec(g, y, n)[i], SumF(ChainTerm(g, y, i), n));
  }

  /** The chain-rule sum for input i is g[i] * y[i] + c * dot(g, y), where
      c is -y[i]. */
  lemma ChainSum(g: seq<real>, y: seq<real>, n: nat, i: int, c: real)
    requires 0 <= i < n && c == -At(y, i)
    ensures SumF(ChainTerm(g, y, i), n) == Products(g, y)(i) + c * SumF(Products(g, y), n)
  {
    ChainTermsSplit(g, y, n, i);
    SumSpikeScaled(ChainTerm(g, y, i), Products(g, y), Products(g, y), c, n, i);
  }

  lemma ChainTermsSplit(g: seq<real>, y: seq<real>, n: nat, i: int)
    ensures forall j :: 0 <= j < n ==>
      ChainTerm(g, y, i)(j) == (if j == i then Products(g, y)(j) else 0.0) + -At(y, i) * Products(g, y)(j)
  {
    forall j | 0 <= j < n
      ensures ChainTerm(g, y, i)(j) == (if j == i then Products(g, y)(j) else 0.0) + -At(y, i) * Products(g, y)(j)
    {
      ChainTermSplit(g, y, i, j);
    }
  }

  /** Term j of the chain rule splits into its diagonal part and the part
      proportional to g[j] * y[j]. */
  lemma ChainTermSplit(g: seq<real>, y: seq<real>, i: int, j: int)
    ensures ChainTerm(g, y, i)(j)
         == (if j == i then Products(g, y)(j) else 0.0) + -At(y, i) * Products(g, y)(j)
  {
    if j == i {
      DistributeOwn(At(g, j), At(y, j), At(y, i));
    } else {
      DistributeOther(At(g, j), At(y, j), At(y, i));
    }
  }

  lemma DistributeOwn(gj: real, yj: real, yi: real)
    ensures gj * (yj * (1.0 - yi)) == gj * yj + -yi * (gj * yj)
  {
  }

  lemma DistributeOther(gj: real, yj: real, yi: real)
    ensures gj * (yj * (0.0 - yi)) == 0.0 + -yi * (gj * yj)
  {
  }

  lemma Half(a: real)
    requires a != 0.0
    ensures a / (a + a) == 0.5
  {
  }

  lemma Collect(gi: real, yi: real, s: real, c: real, p: real, e: real, lhs: real, rhs: real)
    requires e == gi - s && p == gi * yi && c == -yi
    requires lhs == e * yi && rhs == p + c * s
    ensures lhs == rhs
  {
  }

  /** Handed the layer's INPUT instead, the result is not the chain rule:
      for inputs (0, 0) the outputs are (1/2, 1/2) with any exponential
      that is not 0 at 0, and the error (1, 0) comes back as (0, 0) where
      the chain rule gives (1/4, -1/4). */
  lemma InputIsNotOutput(exp: real -> real)
    requires exp(0.0) != 0.0
    ensures ForwardSpec([0.0, 0.0], 2, exp) == [0.5, 0.5]
    ensures BackSpec([1.0, 0.0], [0.0, 0.0], 2) == [0.0, 0.0]
    ensures SumF(ChainTerm([1.0, 0.0], [0.5, 0.5], 0), 2) == 0.25
    ensures SumF(ChainTerm([1.0, 0.0], [0.5, 0.5], 1), 2) == -0.25
    ensures BackSpec([1.0, 0.0], [0.5, 0.5], 2) == [0.25, -0.25]
  {
    var x := [0.0, 0.0];
    assert x[..2] == x;
    assert x[..1] == [0.0];
    var e := Exps(x, MaxOf(x), exp);
    assert e == [exp(0.0), exp(0.0)];
    assert MaxOf(x) == 0.0;
    assert e[..1] == [exp(0.0)] && e[..1][..0] == [];
    assert Sum(e[..1]) == exp(0.0);
    assert Sum(e) == Sum(e[..1]) + exp(0.0);
    Half(exp(0.0));
    assert Divided(e, Sum(e)) == [0.5, 0.5];
    var g, y := [1.0, 0.0], [0.5, 0.5];
    assert Dot(g, x, 2) == 0.0;
    assert Dot(g, y, 2) == 0.5;
    BackIsChainRule(g, y, 2, 0);
    BackIsChainRule(g, y, 2, 1);
  }
}
