/** The integer side of class trainer of ml/cnn.hpp: the training order
    `train` builds (with or without label resampling), the minibatch
    partition of `train_batch`, and the statistics each visited sample
    adds (training count, error count, confusion table). The weight update
    between batches is floating-point arithmetic and is not part of this
    model; the network's output for each visit is supplied instead. */
module Training {
  import opened Arith
  import opened Shapes
  import opened Vectors
  import opened Datasets

  // ----------------------------------------------------------- resampling

  function Pow2(k: nat): (p: nat)
    ensures p >= 1
  {
    if k == 0 then 1 else 2 * Pow2(k - 1)
  }

  /** Passes of `for (count = start; count <= max; count *= 2)`. */
  function Doublings(count: nat, max: nat): nat
    requires count > 0
    decreases max + 1 - count
  {
    if count > max then 0 else 1 + Doublings(2 * count, max)
  }

  /** How many times `train` appends a whole pile of n samples when the
      largest pile has `max`: an empty pile never. */
  function Copies(n: nat, max: nat): nat {
    if n == 0 then 0 else Doublings(n, max)
  }

  /** The loop stops at the first doubling past max. */
  lemma {:induction false} DoublingsFacts(count: nat, max: nat)
    requires count > 0
    ensures count * Pow2(Doublings(count, max)) > max
    ensures Doublings(count, max) > 0 ==> count * Pow2(Doublings(count, max) - 1) <= max
    decreases max + 1 - count
  {
    if count <= max {
      var d := Doublings(2 * count, max);
      DoublingsFacts(2 * count, max);
      var p := Pow2(d);
      assert Pow2(d + 1) == 2 * p;
      assert count * (2 * p) == (2 * count) * p;
      if d > 0 {
        var q := Pow2(d - 1);
        assert p == 2 * q;
        assert count * (2 * q) == (2 * count) * q;
      }
    }
  }

  /** A pile of n samples, 0 < n <= max, is appended c = 1 + ⌊log2(max/n)⌋
      times: c is the exponent with n · 2^(c-1) <= max < n · 2^c. */
  lemma CopiesLog(n: nat, max: nat)
    requires 0 < n <= max
    ensures Copies(n, max) >= 1
    ensures n * Pow2(Copies(n, max) - 1) <= max < n * Pow2(Copies(n, max))
  {
    DoublingsFacts(n, max);
  }

  /** The largest class is appended exactly once. */
  lemma LargestOnce(max: nat)
    requires max > 0
    ensures Copies(max, max) == 1
  {
    assert Doublings(2 * max, max) == 0;
  }

  /** s appended k times. */
  function Repeat(s: seq<nat>, k: nat): seq<nat> {
    if k == 0 then [] else Repeat(s, k - 1) + s
  }

  /** The resampled training sequence: pile after pile, each appended
      Copies times. */
  function Resampled(piles: seq<seq<nat>>, max: nat): seq<nat>
    decreases |piles|
  {
    if |piles| == 0 then []
    else
      var k := |piles| - 1;
      Resampled(piles[..k], max) + Repeat(piles[k], Copies(|piles[k]|, max))
  }

  /** The size of the largest pile (0 without piles). */
  function Largest(piles: seq<seq<nat>>): nat
    decreases |piles|
  {
    if |piles| == 0 then 0
    else
      var k := |piles| - 1;
      var m := Largest(piles[..k]);
      if |piles[k]| > m then |piles[k]| else m
  }

  /** Largest bounds every pile and is attained by one. */
  lemma {:induction false} LargestIsMax(piles: seq<seq<nat>>)
    ensures forall c :: 0 <= c < |piles| ==> |piles[c]| <= Largest(piles)
    ensures |piles| > 0 ==> exists c :: 0 <= c < |piles| && |piles[c]| == Largest(piles)
    decreases |piles|
  {
    if |piles| > 0 {
      var k := |piles| - 1;
      LargestIsMax(piles[..k]);
      assert forall c :: 0 <= c < k ==> piles[..k][c] == piles[c];
    }
  }

  lemma {:induction false} RepeatCount(s: seq<nat>, k: nat, x: nat)
    ensures multiset(Repeat(s, k))[x] == k * multiset(s)[x]
  {
    if k > 0 {
      var front: seq<nat> := Repeat(s, k - 1);
      var all: seq<nat> := front + s;
      RepeatCount(s, k - 1, x);
      var c := multiset(s)[x];
      assert multiset(all) == multiset(front) + multiset(s);
      assert (k - 1) * c + c == k * c;
    }
  }

  /** Pile c of a label list holds sample x once if x is labelled c and
      not at all otherwise. */
  lemma PileCount(labels: seq<nat>, m: nat, c: nat, x: nat)
    requires c < m
    ensures multiset(Piles(labels, m)[c])[x] == if x < |labels| && labels[x] == c then 1 else 0
  {
    PileDistinct(labels, m, c);
    DistinctCount(Piles(labels, m)[c], x);
    PileMembers(labels, m, c, x);
  }

  /** Pile k - 1 adds its copies to the count of x. */
  lemma ResampledStep(piles: seq<seq<nat>>, max: nat, k: nat, x: nat)
    requires 0 < k <= |piles|
    ensures multiset(piles[k - 1])[x] == 0 ==>
      multiset(Resampled(piles[..k], max))[x] == multiset(Resampled(piles[..k - 1], max))[x]
    ensures multiset(piles[k - 1])[x] == 1 ==>
      multiset(Resampled(piles[..k], max))[x] == multiset(Resampled(piles[..k - 1], max))[x] + Copies(|piles[k - 1]|, max)
  {
    var ps := piles[..k];
    assert ps[..k - 1] == piles[..k - 1] && ps[k - 1] == piles[k - 1];
    var c := Copies(|piles[k - 1]|, max);
    var front: seq<nat> := Resampled(piles[..k - 1], max);
    var back: seq<nat> := Repeat(piles[k - 1], c);
    var all: seq<nat> := front + back;
    assert Resampled(ps, max) == all;
    assert multiset(all)[x] == multiset(front)[x] + multiset(back)[x];
    RepeatCount(piles[k - 1], c, x);
  }

  /** After the first k piles, a sample that lies in pile owner alone
      appears Copies times if that pile is among them, and never otherwise. */
  lemma {:induction false} ResampledPrefix(piles: seq<seq<nat>>, max: nat, k: nat, x: nat, owner: int)
    requires k <= |piles|
    requires forall c :: 0 <= c < |piles| ==> multiset(piles[c])[x] == if c == owner then 1 else 0
    ensures multiset(Resampled(piles[..k], max))[x] ==
      if 0 <= owner < k then Copies(|piles[owner]|, max) else 0
    decreases k
  {
    if k > 0 {
      ResampledPrefix(piles, max, k - 1, x, owner);
      ResampledStep(piles, max, k, x);
      assert multiset(piles[k - 1])[x] == if k - 1 == owner then 1 else 0;
    }
  }

  /** With resampling, every sample whose label is a class appears exactly
      as often as its class's pile is copied; a sample with a label outside
      the classes never appears. */
  lemma ResampledOccurrences(labels: seq<nat>, m: nat, x: nat)
    ensures var piles := Piles(labels, m);
      multiset(Resampled(piles, Largest(piles)))[x] ==
        if x < |labels| && labels[x] < m then Copies(|piles[labels[x]]|, Largest(piles)) else 0
  {
    var piles := Piles(labels, m);
    assert piles[..m] == piles;
    var owner: int := if x < |labels| && labels[x] < m then labels[x] else -1;
    forall c | 0 <= c < m
      ensures multiset(piles[c])[x] == if c == owner then 1 else 0
    {
      PileCount(labels, m, c, x);
    }
    ResampledPrefix(piles, Largest(piles), m, x, owner);
  }

  /** One step of Piles on a two-class label list. */
  lemma PileStep(labels: seq<nat>, before: seq<seq<nat>>, after: seq<seq<nat>>)
    requires |labels| > 0 && labels[|labels| - 1] < 2 && Piles(labels[..|labels| - 1], 2) == before
    requires |after| == 2
    requires var l: nat, i: nat := labels[|labels| - 1], |labels| - 1;
      after[l] == before[l] + [i] && after[1 - l] == before[1 - l]
    ensures Piles(labels, 2) == after
  {
  }

  /** A class of 1 sample beside a class of 3 gets 2 copies, fewer than
      the 3 occurrences of the majority class. */
  lemma MinorityStaysBelow()
    ensures var piles := Piles([0, 1, 1, 1], 2);
      Largest(piles) == 3 && |piles[0]| == 1 &&
      multiset(Resampled(piles, Largest(piles)))[0] == 2
  {
    var labels: seq<nat> := [0, 1, 1, 1];
    var piles := Piles(labels, 2);
    var l1: seq<nat>, l2: seq<nat>, l3: seq<nat> := [0], [0, 1], [0, 1, 1];
    assert labels[..3] == l3 && l3[..2] == l2 && l2[..1] == l1 && l1[..0] == [];
    var e: seq<nat>, a: seq<nat>, b1: seq<nat>, b2: seq<nat>, b3: seq<nat> := [], [0], [1], [1, 2], [1, 2, 3];
    var p0 := Piles(l1[..0], 2);
    assert p0 == [e, e] by {
      assert |p0| == 2 && p0[0] == e && p0[1] == e;
    }
    PileStep(l1, [e, e], [a, e]);
    PileStep(l2, [a, e], [a, b1]);
    PileStep(l3, [a, b1], [a, b2]);
    PileStep(labels, [a, b2], [a, b3]);
    assert Largest(piles) == 3 by {
      assert piles[..1] == [a];
      assert Largest(piles[..1]) == 1;
    }
    ResampledOccurrences(labels, 2, 0);
    assert Doublings(4, 3) == 0;
    assert Copies(1, 3) == 2;
  }

  // ---------------------------------------------------------- batching

  /** One minibatch: positions start .. start + size - 1 of the training
      sequence; a weight update follows each. */
  datatype Batch = Batch(start: nat, size: nat)

  /** The batches of `train_batch` from position `start` on. */
  function Batches(n: nat, b: nat, start: nat): seq<Batch>
    requires b > 0
    decreases if start < n then n - start else 0
  {
    if start >= n then []
    else [Batch(start, if b < n - start then b else n - start)] + Batches(n, b, start + b)
  }

  /** Appending the batch at start keeps a prefix of the batch list. */
  lemma BatchesNext(done: seq<Batch>, n: nat, b: nat, start: nat)
    requires b > 0 && start < n
    requires done + Batches(n, b, start) == Batches(n, b, 0)
    ensures (done + [Batch(start, if b < n - start then b else n - start)]) + Batches(n, b, start + b) == Batches(n, b, 0)
  {
    var first := Batch(start, if b < n - start then b else n - start);
    assert Batches(n, b, start) == [first] + Batches(n, b, start + b);
    assert (done + [first]) + Batches(n, b, start + b) == done + ([first] + Batches(n, b, start + b));
  }

  /** The positions a list of batches visits, in order. */
  function Positions(bs: seq<Batch>): seq<nat>
    decreases |bs|
  {
    if |bs| == 0 then [] else seq(bs[0].size, m requires 0 <= m => (bs[0].start + m) as nat) + Positions(bs[1..])
  }

  /** The batches cover the rest of the sequence, each position once and
      in order, every batch holding between 1 and b positions. */
  lemma {:induction false} BatchesCover(n: nat, b: nat, start: nat)
    requires b > 0 && start <= n
    ensures Positions(Batches(n, b, start)) == seq(n - start, m requires 0 <= m => (start + m) as nat)
    ensures forall k :: 0 <= k < |Batches(n, b, start)| ==>
              0 < Batches(n, b, start)[k].size <= b
    decreases n - start
  {
    if start < n {
      var bs := Batches(n, b, start);
      var size := if b < n - start then b else n - start;
      if start + b <= n {
        BatchesCover(n, b, start + b);
      } else {
        assert Batches(n, b, start + b) == [];
      }
      assert bs[1..] == Batches(n, b, start + b);
      assert Positions(bs) == seq(size, m requires 0 <= m => (start + m) as nat) + Positions(bs[1..]);
    }
  }

  // ------------------------------------------------------- statistics

  /** std::max_element: the first position of the maximum, 0 when empty. */
  function FirstMax(s: seq<real>): (r: nat)
    ensures |s| > 0 ==> r < |s|
    ensures |s| == 0 ==> r == 0
    decreases |s|
  {
    if |s| <= 1 then 0
    else
      var b := FirstMax(s[..|s| - 1]);
      if s[|s| - 1] > s[b] then |s| - 1 else b
  }

  /** FirstMax is a maximum, and every earlier value is strictly smaller. */
  lemma {:induction false} FirstMaxIsFirst(s: seq<real>)
    requires |s| > 0
    ensures forall j :: 0 <= j < |s| ==> s[j] <= s[FirstMax(s)]
    ensures forall j :: 0 <= j < FirstMax(s) ==> s[j] < s[FirstMax(s)]
    decreases |s|
  {
    if |s| > 1 {
      var front := s[..|s| - 1];
      FirstMaxIsFirst(front);
      assert forall j :: 0 <= j < |front| ==> front[j] == s[j];
    }
  }

  /** `size_t predicted_label = std::max_element(ptr, ptr + n) - ptr;` */
  method MaxElement(s: seq<real>) returns (r: nat)
    ensures r == FirstMax(s)
  {
    r := 0;
    if |s| == 0 {
      return;
    }
    var j := 1;
    while j < |s|
      invariant 1 <= j <= |s|
      invariant r == FirstMax(s[..j])
    {
      assert s[..j + 1][..j] == s[..j];
      assert s[..j + 1][j] == s[j] && s[..j][r] == s[r] by {
        FirstMaxIsFirst(s[..j]);
      }
      if s[j] > s[r] {
        r := j;
      }
      j := j + 1;
    }
    assert s[..j] == s;
  }

  /** `++error_table[pos]` when `pos` is inside the table. */
  function Tallied(t: seq<int>, pos: nat): (r: seq<int>)
    ensures |r| == |t|
  {
    if pos < |t| then t[pos := t[pos] + 1] else t
  }

  /** Where the sample at `truth` predicted as `predicted` is counted. */
  function TablePos(outputSize: nat, truth: nat, predicted: nat): nat {
    outputSize * truth + predicted
  }

  /** Label of visit j. */
  function LabelOf(labels: seq<nat>, order: seq<nat>, j: nat): nat
    requires j < |order| && order[j] < |labels|
  {
    labels[order[j]]
  }

  ghost predicate Visits(labels: seq<nat>, order: seq<nat>, outputs: seq<seq<real>>) {
    |outputs| == |order| && forall j :: 0 <= j < |order| ==> order[j] < |labels|
  }

  /** The confusion table after the first k visits, from a zeroed table of
      the given size. */
  function Confusion(size: nat, labels: seq<nat>, order: seq<nat>, outputs: seq<seq<real>>, k: nat): (t: seq<int>)
    requires Visits(labels, order, outputs) && k <= |order|
    ensures |t| == size
  {
    if k == 0 then seq(size, _ => 0)
    else
      var j := k - 1;
      Tallied(Confusion(size, labels, order, outputs, j),
              TablePos(|outputs[j]|, LabelOf(labels, order, j), FirstMax(outputs[j])))
  }

  /** Number of the first k visits whose prediction differs from the label. */
  function Mistakes(labels: seq<nat>, order: seq<nat>, outputs: seq<seq<real>>, k: nat): nat
    requires Visits(labels, order, outputs) && k <= |order|
  {
    if k == 0 then 0
    else
      var j := k - 1;
      Mistakes(labels, order, outputs, j) + (if LabelOf(labels, order, j) != FirstMax(outputs[j]) then 1 else 0)
  }

  /** Number of the first k visits labelled l and predicted p. */
  function Cases(labels: seq<nat>, order: seq<nat>, outputs: seq<seq<real>>, k: nat, l: nat, p: nat): nat
    requires Visits(labels, order, outputs) && k <= |order|
  {
    if k == 0 then 0
    else
      var j := k - 1;
      Cases(labels, order, outputs, j, l, p) + (if LabelOf(labels, order, j) == l && FirstMax(outputs[j]) == p then 1 else 0)
  }

  /** 100 · errors / count as a percentage. */
  function ErrorShare(errors: nat, count: nat): (e: real)
    requires errors <= count && count > 0
    ensures 0.0 <= e <= 100.0
    ensures e == 0.0 <==> errors == 0
  {
    var r := 100.0 * errors as real / count as real;
    assert r * count as real == 100.0 * errors as real;
    assert 100.0 * errors as real <= 100.0 * count as real;
    r
  }

  /** At most every visit is a mistake. */
  lemma {:induction false} MistakesBound(labels: seq<nat>, order: seq<nat>, outputs: seq<seq<real>>, k: nat)
    requires Visits(labels, order, outputs) && k <= |order|
    ensures Mistakes(labels, order, outputs, k) <= k
    decreases k
  {
    if k > 0 {
      MistakesBound(labels, order, outputs, k - 1);
    }
  }

  /** With every output of n > 0 values, entry n · l + p of the table
      (p < n, inside the table) counts the visits labelled l and predicted
      p: the table is the confusion matrix of the pass. */
  lemma {:induction false} ConfusionCounts(size: nat, labels: seq<nat>, order: seq<nat>, outputs: seq<seq<real>>,
                                          k: nat, n: nat, l: nat, p: nat)
    requires Visits(labels, order, outputs) && k <= |order|
    requires forall j :: 0 <= j < |outputs| ==> |outputs[j]| == n
    requires n > 0 && p < n && TablePos(n, l, p) < size
    ensures Confusion(size, labels, order, outputs, k)[TablePos(n, l, p)] == Cases(labels, order, outputs, k, l, p)
    decreases k
  {
    if k > 0 {
      var j := k - 1;
      ConfusionCounts(size, labels, order, outputs, j, n, l, p);
      var truth, predicted := LabelOf(labels, order, j), FirstMax(outputs[j]);
      if TablePos(n, truth, predicted) == TablePos(n, l, p) {
        assert n * truth + predicted == l * n + p;
        DivModUnique(n * truth + predicted, n, l, p);
        DivModUnique(n * truth + predicted, n, truth, predicted);
      }
    }
  }

  class Trainer {
    var errorTable: seq<int>
    var trainingCount: int
    var trainingErrorCount: int

    /** reset(): zeroes both counters (the weight-change buffers it also
        clears are not modelled). */
    method Reset()
      modifies this
      ensures trainingCount == 0 && trainingErrorCount == 0 && errorTable == old(errorTable)
    {
      trainingCount, trainingErrorCount := 0, 0;
    }

    /** get_training_error(): the percentage of visits that were mispredicted. */
    function TrainingError(): (e: real)
      reads this
      requires 0 <= trainingErrorCount <= trainingCount && trainingCount > 0
      ensures 0.0 <= e <= 100.0
      ensures e == 0.0 <==> trainingErrorCount == 0
    {
      ErrorShare(trainingErrorCount, trainingCount)
    }

    /** The statistics of one visited sample of train_batch. */
    method Record(truth: nat, out: seq<real>)
      modifies this
      ensures trainingCount == old(trainingCount) + 1
      ensures trainingErrorCount == old(trainingErrorCount) + (if truth != FirstMax(out) then 1 else 0)
      ensures errorTable == Tallied(old(errorTable), TablePos(|out|, truth, FirstMax(out)))
    {
      trainingCount := trainingCount + 1;
      var predicted := MaxElement(out);
      if truth != predicted {
        trainingErrorCount := trainingErrorCount + 1;
      }
      if |errorTable| > 0 {
        var pos := |out| * truth + predicted;
        if pos < |errorTable| {
          errorTable := errorTable[pos := errorTable[pos] + 1];
        }
      }
    }

    /** The visits of one batch: positions start .. stop - 1. */
    method VisitBatch(labels: seq<nat>, order: seq<nat>, outputs: seq<seq<real>>, size0: nat, start: nat, stop: nat)
      requires Visits(labels, order, outputs) && start <= stop <= |order|
      requires trainingCount == start && trainingErrorCount == Mistakes(labels, order, outputs, start)
      requires errorTable == Confusion(size0, labels, order, outputs, start)
      modifies this
      ensures trainingCount == stop && trainingErrorCount == Mistakes(labels, order, outputs, stop)
      ensures errorTable == Confusion(size0, labels, order, outputs, stop)
    {
      var m := start;
      while m < stop
        invariant start <= m <= stop
        invariant trainingCount == m && trainingErrorCount == Mistakes(labels, order, outputs, m)
        invariant errorTable == Confusion(size0, labels, order, outputs, m)
      {
        Record(labels[order[m]], outputs[m]);
        m := m + 1;
      }
    }

    /** train_batch on the training sequence `order`: clears the statistics,
        then visits the sequence batch by batch; visit j sees the network
        output `outputs[j]`. Returns the batches, after each of which the
        source updates the weights. (`i += size` reads the outer `size`,
        which is `batch_size`.) */
    method TrainBatch(labels: seq<nat>, order: seq<nat>, batchSize: int, outputs: seq<seq<real>>)
      returns (batches: seq<Batch>)
      requires batchSize > 0
      requires Visits(labels, order, outputs)
      modifies this
      ensures batches == Batches(|order|, batchSize, 0)
      ensures trainingCount == |order|
      ensures trainingErrorCount == Mistakes(labels, order, outputs, |order|)
      ensures errorTable == Confusion(|old(errorTable)|, labels, order, outputs, |order|)
    {
      var n := |order|;
      var size0 := |errorTable|;
      trainingCount, trainingErrorCount := 0, 0;
      errorTable := seq(|errorTable|, _ => 0);
      batches := [];
      var i := 0;
      ghost var done := 0;
      while i < n
        invariant 0 <= i <= n || (n < i && i < n + batchSize)
        invariant done == if i < n then i else n
        invariant batches + Batches(n, batchSize, i) == Batches(n, batchSize, 0)
        invariant trainingCount == done && trainingErrorCount == Mistakes(labels, order, outputs, done)
        invariant errorTable == Confusion(size0, labels, order, outputs, done)
        decreases n - i
      {
        var size := if batchSize < n - i then batchSize else n - i;
        var stop := i + size;
        VisitBatch(labels, order, outputs, size0, i, stop);
        done := stop;
        BatchesNext(batches, n, batchSize, i);
        batches := batches + [Batch(i, size)];
        i := i + batchSize;
      }
    }
  }

  // ------------------------------------------------------ training order

  /** The training sequence of `train`: with `resample`, every label pile
      appended Copies times; otherwise 0 .. N - 1. */
  method TrainingSequence(data: Dataset, resample: bool) returns (order: seq<nat>)
    ensures resample ==> order == Resampled(Piles(data.dataLabel, Count(data.output.Size())),
                                            Largest(Piles(data.dataLabel, Count(data.output.Size()))))
    ensures !resample ==> order == Range(|data.dataLabel|)
  {
    if resample {
      var piles := data.GetLabelPile();
      var max := LargestPile(piles);
      order := [];
      var i := 0;
      while i < |piles|
        invariant 0 <= i <= |piles|
        invariant order == Resampled(piles[..i], max)
      {
        assert piles[..i + 1][..i] == piles[..i] && piles[..i + 1][i] == piles[i];
        order := AppendCopies(order, piles[i], max);
        i := i + 1;
      }
      assert piles[..i] == piles;
    } else {
      var n := |data.dataLabel|;
      order := seq(n, _ => 0);
      var i := 0;
      while i < n
        invariant 0 <= i <= n && |order| == n
        invariant forall k :: 0 <= k < i ==> order[k] == k
      {
        order := order[i := i];
        i := i + 1;
      }
    }
  }

  /** `max_sample_count`: the size of the largest pile. */
  method LargestPile(piles: seq<seq<nat>>) returns (max: nat)
    ensures max == Largest(piles)
  {
    max := 0;
    var i := 0;
    while i < |piles|
      invariant 0 <= i <= |piles|
      invariant max == Largest(piles[..i])
    {
      assert piles[..i + 1][..i] == piles[..i] && piles[..i + 1][i] == piles[i];
      if |piles[i]| > max {
        max := |piles[i]|;
      }
      i := i + 1;
    }
    assert piles[..i] == piles;
  }

  /** The doubling loop of `train` for one pile. */
  method AppendCopies(order0: seq<nat>, pile: seq<nat>, max: nat) returns (order: seq<nat>)
    ensures order == order0 + Repeat(pile, Copies(|pile|, max))
  {
    order := order0;
    if |pile| == 0 {
      assert Repeat(pile, 0) == [];
      return;
    }
    var count := |pile|;
    ghost var t := 0;
    while |pile| > 0 && count <= max
      invariant count > 0 && t + Doublings(count, max) == Copies(|pile|, max)
      invariant order == order0 + Repeat(pile, t)
      decreases max + 1 - count
    {
      var j := 0;
      while j < |pile|
        invariant 0 <= j <= |pile|
        invariant order == order0 + Repeat(pile, t) + pile[..j]
      {
        assert pile[..j + 1] == pile[..j] + [pile[j]];
        order := order + [pile[j]];
        j := j + 1;
      }
      assert pile[..j] == pile;
      t := t + 1;
      count := count * 2;
    }
  }
}
