/** The fully connected layer (fully_connected_layer in ml/cnn.hpp). Its
    weights form an output_size-by-input_size matrix stored row by row:
    weight[j * input_size + i] connects input i to output j. */
module FullyConnected {
  import opened Vectors
  import opened Arith
  import opened Sums

  /** The terms of output j: weight (j, i) times input i. */
  function RowTerm(weight: seq<real>, data: seq<real>, inSize: int, j: int): int -> real {
    i => At(weight, j * inSize + i) * At(data, i)
  }

  /** The terms of input i's error: output error j times weight (j, i). */
  function ColTerm(weight: seq<real>, g: seq<real>, inSize: int, i: int): int -> real {
    j => At(g, j) * At(weight, j * inSize + i)
  }

  /** out[j] = bias[j] + sum over i of weight[j * inSize + i] * data[i]. */
  function ForwardSpec(weight: seq<real>, bias: seq<real>, data: seq<real>, inSize: int, outSize: nat): (out: seq<real>)
    ensures |out| == outSize
  {
    seq(outSize, j => At(bias, j) + SumF(RowTerm(weight, data, inSize, j), inSize))
  }

  /** The error reaching the inputs: the transposed weight matrix applied
      to the output error, out[i] = sum over j of g[j] * weight[j * inSize + i]
      (the semantics assumed of the library's left_vector_product). */
  function BackSpec(weight: seq<real>, g: seq<real>, inSize: nat, outSize: int): (out: seq<real>)
    ensures |out| == inSize
  {
    seq(inSize, i => SumF(ColTerm(weight, g, inSize, i), outSize))
  }

  /** The outputs once the first `i` inputs are added in. */
  function Partial(weight: seq<real>, bias: seq<real>, data: seq<real>, inSize: int, outSize: nat, i: int): (out: seq<real>)
    ensures |out| == outSize
  {
    seq(outSize, j => At(bias, j) + SumF(RowTerm(weight, data, inSize, j), i))
  }

  /** forward_propagation: copy the biases into the output, then add each
      non-zero input's column. Zero inputs are skipped, which adds nothing. */
  method Forward(weight: seq<real>, bias: seq<real>, data: seq<real>, inSize: nat, outSize: nat,
                 out: array<real>, off: nat)
    requires |weight| == inSize * outSize && |bias| == outSize && |data| >= inSize
    requires off + outSize <= out.Length
    modifies out
    ensures out[off..off + outSize] == ForwardSpec(weight, bias, data, inSize, outSize)
    ensures out[..off] == old(out[..off]) && out[off + outSize..] == old(out[off + outSize..])
  {
    CopyInto(bias, out, off);
    assert out[off..off + outSize] == Partial(weight, bias, data, inSize, outSize, 0);
    var i := 0;
    while i < inSize
      invariant 0 <= i <= inSize
      invariant out[off..off + outSize] == Partial(weight, bias, data, inSize, outSize, i)
      invariant out[..off] == old(out[..off]) && out[off + outSize..] == old(out[off + outSize..])
    {
      ghost var before := out[..];
      if data[i] != 0.0 {
        AddColumn(weight, data, inSize, outSize, i, out, off);
      }
      ForwardColumn(weight, bias, data, inSize, outSize, i, off, before, out[..]);
      i := i + 1;
    }
    assert Partial(weight, bias, data, inSize, outSize, inSize) == ForwardSpec(weight, bias, data, inSize, outSize);
  }

  /** One column of forward: every output gains weight (j, i) * data[i],
      or keeps its value when data[i] is zero; nothing else changes. */
  lemma ForwardColumn(weight: seq<real>, bias: seq<real>, data: seq<real>, inSize: nat, outSize: nat,
                      i: nat, off: nat, before: seq<real>, after: seq<real>)
    requires i < |data| && |bias| == outSize && off + outSize <= |before| == |after|
    requires before[off..off + outSize] == Partial(weight, bias, data, inSize, outSize, i)
    requires data[i] == 0.0 ==> after == before
    requires data[i] != 0.0 ==> forall k :: 0 <= k < outSize ==>
      after[off + k] == before[off + k] + At(weight, k * inSize + i) * data[i]
    requires data[i] != 0.0 ==> forall k :: 0 <= k < |after| && !(off <= k < off + outSize) ==> after[k] == before[k]
    ensures after[off..off + outSize] == Partial(weight, bias, data, inSize, outSize, i + 1)
    ensures after[..off] == before[..off] && after[off + outSize..] == before[off + outSize..]
  {
    forall k | 0 <= k < outSize
      ensures after[off + k] == At(bias, k) + SumF(RowTerm(weight, data, inSize, k), i + 1)
    {
      assert before[off + k] == Partial(weight, bias, data, inSize, outSize, i)[k];
      RowStep(weight, data, inSize, k, i);
    }
  }

  lemma RowStep(weight: seq<real>, data: seq<real>, inSize: int, k: int, i: nat)
    requires i < |data|
    ensures SumF(RowTerm(weight, data, inSize, k), i + 1) ==
            SumF(RowTerm(weight, data, inSize, k), i) + At(weight, k * inSize + i) * data[i]
  {
  }

  /** The inner loop of forward: output j gains weight (j, i) * data[i]. */
  method AddColumn(weight: seq<real>, data: seq<real>, inSize: nat, outSize: nat, i: nat,
                   out: array<real>, off: nat)
    requires |weight| == inSize * outSize && i < inSize && i < |data|
    requires off + outSize <= out.Length
    modifies out
    ensures forall k :: 0 <= k < outSize ==> out[off + k] == old(out[off + k]) + At(weight, k * inSize + i) * data[i]
    ensures forall k :: 0 <= k < out.Length && !(off <= k < off + outSize) ==> out[k] == old(out[k])
  {
    var j, pos := 0, i;
    while j < outSize
      invariant 0 <= j <= outSize && pos == j * inSize + i
      invariant forall k :: 0 <= k < j ==> out[off + k] == old(out[off + k]) + At(weight, k * inSize + i) * data[i]
      invariant forall k :: 0 <= k < out.Length && !(off <= k < off + j) ==> out[k] == old(out[k])
    {
      MatrixIndex(j, i, outSize, inSize);
      out[off + j] := out[off + j] + weight[pos] * data[i];
      j, pos := j + 1, pos + inSize;
    }
  }

  /** back_propagation: out[i] = sum over j of g[j] * weight[j * inSize + i],
      written to `out[off..off + inSize]`. */
  method Back(weight: seq<real>, g: seq<real>, inSize: nat, outSize: nat, out: array<real>, off: nat)
    requires |weight| == inSize * outSize && |g| >= outSize
    requires off + inSize <= out.Length
    modifies out
    ensures out[off..off + inSize] == BackSpec(weight, g, inSize, outSize)
    ensures out[..off] == old(out[..off]) && out[off + inSize..] == old(out[off + inSize..])
  {
    var i := 0;
    while i < inSize
      invariant 0 <= i <= inSize
      invariant forall k :: 0 <= k < i ==> out[off + k] == SumF(ColTerm(weight, g, inSize, k), outSize)
      invariant forall k :: 0 <= k < out.Length && !(off <= k < off + i) ==> out[k] == old(out[k])
    {
      var sum := ColumnDot(weight, g, inSize, outSize, i);
      out[off + i] := sum;
      i := i + 1;
    }
    assert out[off..off + inSize] == BackSpec(weight, g, inSize, outSize);
  }

  /** Column i of the weight matrix dotted with the output error. */
  method ColumnDot(weight: seq<real>, g: seq<real>, inSize: nat, outSize: nat, i: nat) returns (sum: real)
    requires |weight| == inSize * outSize && |g| >= outSize && i < inSize
    ensures sum == SumF(ColTerm(weight, g, inSize, i), outSize)
  {
    sum := 0.0;
    var j, pos := 0, i;
    while j < outSize
      invariant 0 <= j <= outSize && pos == j * inSize + i
      invariant sum == SumF(ColTerm(weight, g, inSize, i), j)
    {
      MatrixIndex(j, i, outSize, inSize);
      ColStep(weight, g, inSize, i, j, pos);
      sum := sum + g[j] * weight[pos];
      j, pos := j + 1, pos + inSize;
    }
  }

  lemma ColStep(weight: seq<real>, g: seq<real>, inSize: int, i: int, j: nat, pos: int)
    requires j < |g| && pos == j * inSize + i && 0 <= pos < |weight|
    ensures SumF(ColTerm(weight, g, inSize, i), j + 1) == SumF(ColTerm(weight, g, inSize, i), j) + g[j] * weight[pos]
  {
  }

  /** The accumulated gradients after one sample: the bias gradient gains
      the output error and the weight gradient gains the outer product of
      the output error with the layer's input. */
  function DwSpec(dw: seq<real>, g: seq<real>, prev: seq<real>, inSize: int): (r: seq<real>)
    requires inSize > 0
    ensures |r| == |dw|
  {
    seq(|dw|, k requires 0 <= k < |dw| => dw[k] + At(g, k / inSize) * At(prev, k % inSize))
  }

  /** calculate_dwdb: dbias += g and, for each output j with a non-zero
      error, row j of dweight += g[j] * prev. */
  method CalculateDwDb(g: seq<real>, prev: seq<real>, inSize: nat, outSize: nat, dw: array<real>, db: array<real>)
    requires inSize > 0 && |g| >= outSize && |prev| >= inSize
    requires dw.Length == inSize * outSize && db.Length == outSize && dw != db
    modifies dw, db
    ensures dw[..] == DwSpec(old(dw[..]), g, prev, inSize)
    ensures db[..] == seq(outSize, j requires 0 <= j < outSize => old(db[j]) + g[j])
  {
    AddBias(g, outSize, db);
    AddOuter(g, prev, inSize, outSize, dw);
  }

  /** The bias half of calculate_dwdb: db[j] += g[j]. */
  method AddBias(g: seq<real>, outSize: nat, db: array<real>)
    requires |g| >= outSize && db.Length == outSize
    modifies db
    ensures db[..] == seq(outSize, j requires 0 <= j < outSize => old(db[j]) + g[j])
  {
    var j := 0;
    while j < outSize
      invariant 0 <= j <= outSize
      invariant forall k :: 0 <= k < j ==> db[k] == old(db[k]) + g[k]
      invariant forall k :: j <= k < outSize ==> db[k] == old(db[k])
    {
      db[j] := db[j] + g[j];
      j := j + 1;
    }
  }

  /** The weight half of calculate_dwdb: rows with a zero error are
      skipped, which adds nothing. */
  method AddOuter(g: seq<real>, prev: seq<real>, inSize: nat, outSize: nat, dw: array<real>)
    requires inSize > 0 && |g| >= outSize && |prev| >= inSize
    requires dw.Length == inSize * outSize
    modifies dw
    ensures dw[..] == DwSpec(old(dw[..]), g, prev, inSize)
  {
    ghost var dw0 := dw[..];
    var j, base := 0, 0;
    while j < outSize
      invariant 0 <= j <= outSize && base == j * inSize && |dw0| == dw.Length
      invariant base <= dw.Length
      invariant forall k :: 0 <= k < dw.Length ==>
        dw[k] == if k < base then DwSpec(dw0, g, prev, inSize)[k] else dw0[k]
    {
      MulLeft(j, outSize, inSize);
      assert base + inSize == (j + 1) * inSize;
      ghost var before := dw[..];
      if g[j] != 0.0 {
        AddRow(dw, base, g[j], prev, inSize);
      }
      DwRow(dw0, before, dw[..], g, prev, inSize, j, base);
      j, base := j + 1, base + inSize;
    }
    assert outSize * inSize == dw.Length;
    assert dw[..] == DwSpec(dw0, g, prev, inSize);
  }

  /** Writing row j on top of rows 0 .. j - 1 gives rows 0 .. j. */
  lemma DwRow(dw0: seq<real>, before: seq<real>, after: seq<real>, g: seq<real>, prev: seq<real>,
              inSize: nat, j: nat, base: nat)
    requires inSize > 0 && base == j * inSize && base + inSize <= |dw0| && j < |g| && |prev| >= inSize
    requires |before| == |dw0| == |after|
    requires forall k :: 0 <= k < |before| ==>
      before[k] == if k < base then DwSpec(dw0, g, prev, inSize)[k] else dw0[k]
    requires forall k :: 0 <= k < |after| ==>
      after[k] == if base <= k < base + inSize then before[k] + g[j] * prev[k - base] else before[k]
    ensures forall k :: 0 <= k < |after| ==>
      after[k] == if k < base + inSize then DwSpec(dw0, g, prev, inSize)[k] else dw0[k]
  {
    forall k | base <= k < base + inSize
      ensures DwSpec(dw0, g, prev, inSize)[k] == dw0[k] + g[j] * prev[k - base]
    {
      DivModUnique(k, inSize, j, k - base);
    }
  }

  /** Row `base / inSize` of the weight gradient gains gj * prev. */
  method AddRow(dw: array<real>, base: nat, gj: real, prev: seq<real>, inSize: nat)
    requires base + inSize <= dw.Length && |prev| >= inSize
    modifies dw
    ensures forall k :: 0 <= k < dw.Length ==>
      dw[k] == if base <= k < base + inSize then old(dw[k]) + gj * prev[k - base] else old(dw[k])
  {
    var i := 0;
    while i < inSize
      invariant 0 <= i <= inSize
      invariant forall k :: 0 <= k < dw.Length ==>
        dw[k] == if base <= k < base + i then old(dw[k]) + gj * prev[k - base] else old(dw[k])
    {
      dw[base + i] := dw[base + i] + gj * prev[i];
      i := i + 1;
    }
  }

  /** Weight (j, i) of the gradient gains exactly g[j] * prev[i]. */
  lemma DwIsOuterProduct(dw: seq<real>, g: seq<real>, prev: seq<real>, inSize: int, outSize: int, j: int, i: int)
    requires inSize > 0 && |dw| == inSize * outSize
    requires 0 <= j < outSize && 0 <= i < inSize
    ensures 0 <= j * inSize + i < |dw|
    ensures DwSpec(dw, g, prev, inSize)[j * inSize + i] == dw[j * inSize + i] + At(g, j) * At(prev, i)
  {
    MatrixIndex(j, i, outSize, inSize);
  }

  /** The terms g[j] * weight (j, i) * x[i] of both inner products. */
  function Triple(weight: seq<real>, g: seq<real>, x: seq<real>, inSize: int): (int, int) -> real {
    (j, i) => At(g, j) * At(weight, j * inSize + i) * At(x, i)
  }

  /** g[j] times the weighted part of output j. */
  function ErrorWeighted(g: seq<real>, y: seq<real>, bias: seq<real>): int -> real {
    j => At(g, j) * (At(y, j) - At(bias, j))
  }

  /** Input error i times input i. */
  function InputWeighted(b: seq<real>, x: seq<real>): int -> real {
    i => At(b, i) * At(x, i)
  }

  /** Back is the adjoint of forward: for every input x and output error g,
      the error-weighted change that forward makes to its output (the
      biases aside) equals the inner product of back's result with x. */
  lemma BackIsTranspose(weight: seq<real>, bias: seq<real>, x: seq<real>, g: seq<real>,
                        inSize: nat, outSize: nat)
    ensures SumF(ErrorWeighted(g, ForwardSpec(weight, bias, x, inSize, outSize), bias), outSize) ==
            SumF(InputWeighted(BackSpec(weight, g, inSize, outSize), x), inSize)
  {
    var y := ForwardSpec(weight, bias, x, inSize, outSize);
    var b := BackSpec(weight, g, inSize, outSize);
    var f := Triple(weight, g, x, inSize);
    forall j | 0 <= j < outSize
      ensures ErrorWeighted(g, y, bias)(j) == RowSums(f, inSize)(j)
    {
      TransposeRow(weight, bias, x, g, inSize, outSize, j);
    }
    SumExt(ErrorWeighted(g, y, bias), RowSums(f, inSize), outSize);
    SumSwap(f, outSize, inSize);
    forall i | 0 <= i < inSize
      ensures ColSums(f, outSize)(i) == InputWeighted(b, x)(i)
    {
      TransposeCol(weight, x, g, inSize, outSize, i);
    }
    SumExt(ColSums(f, outSize), InputWeighted(b, x), inSize);
  }

  lemma TransposeRow(weight: seq<real>, bias: seq<real>, x: seq<real>, g: seq<real>,
                     inSize: nat, outSize: nat, j: int)
    requires 0 <= j < outSize
    ensures ErrorWeighted(g, ForwardSpec(weight, bias, x, inSize, outSize), bias)(j) ==
            RowSums(Triple(weight, g, x, inSize), inSize)(j)
  {
    var y := ForwardSpec(weight, bias, x, inSize, outSize);
    var d := SumF(RowTerm(weight, x, inSize, j), inSize);
    assert At(y, j) - At(bias, j) == d;
    RowScaled(weight, x, g, inSize, j);
    MulCongruent(At(g, j), At(y, j) - At(bias, j), d);
  }

  /** Row j of the triple products is g[j] times row j of the forward terms. */
  lemma RowScaled(weight: seq<real>, x: seq<real>, g: seq<real>, inSize: nat, j: int)
    ensures SumF(Row(Triple(weight, g, x, inSize), j), inSize) == At(g, j) * SumF(RowTerm(weight, x, inSize, j), inSize)
  {
    var f := Triple(weight, g, x, inSize);
    forall k | 0 <= k < inSize
      ensures Row(f, j)(k) == At(g, j) * RowTerm(weight, x, inSize, j)(k)
    {
      RowPoint(weight, x, g, inSize, j, k);
    }
    SumScale(RowTerm(weight, x, inSize, j), Row(f, j), At(g, j), inSize);
  }

  lemma TransposeCol(weight: seq<real>, x: seq<real>, g: seq<real>, inSize: nat, outSize: nat, i: int)
    requires 0 <= i < inSize
    ensures ColSums(Triple(weight, g, x, inSize), outSize)(i) ==
            InputWeighted(BackSpec(weight, g, inSize, outSize), x)(i)
  {
    ColScaled(weight, x, g, inSize, outSize, i);
    MulCongruent(At(x, i), At(BackSpec(weight, g, inSize, outSize), i), SumF(ColTerm(weight, g, inSize, i), outSize));
  }

  /** Column i of the triple products is x[i] times the terms of input i's error. */
  lemma ColScaled(weight: seq<real>, x: seq<real>, g: seq<real>, inSize: nat, outSize: nat, i: int)
    ensures SumF(Col(Triple(weight, g, x, inSize), i), outSize) == At(x, i) * SumF(ColTerm(weight, g, inSize, i), outSize)
  {
    var f := Triple(weight, g, x, inSize);
    forall k | 0 <= k < outSize
      ensures Col(f, i)(k) == At(x, i) * ColTerm(weight, g, inSize, i)(k)
    {
      ColPoint(weight, x, g, inSize, i, k);
    }
    SumScale(ColTerm(weight, g, inSize, i), Col(f, i), At(x, i), outSize);
  }

  lemma RowPoint(weight: seq<real>, x: seq<real>, g: seq<real>, inSize: nat, j: int, k: int)
    ensures Row(Triple(weight, g, x, inSize), j)(k) == At(g, j) * RowTerm(weight, x, inSize, j)(k)
  {
    Associate(At(g, j), At(weight, j * inSize + k), At(x, k));
  }

  lemma ColPoint(weight: seq<real>, x: seq<real>, g: seq<real>, inSize: nat, i: int, k: int)
    ensures Col(Triple(weight, g, x, inSize), i)(k) == At(x, i) * ColTerm(weight, g, inSize, i)(k)
  {
    Associate(At(g, k), At(weight, k * inSize + i), At(x, i));
  }

  lemma Associate(a: real, b: real, c: real)
    ensures a * b * c == a * (b * c) && a * b * c == c * (a * b)
  {
  }
}
