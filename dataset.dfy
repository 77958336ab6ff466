/** network_data of ml/cnn.hpp: a list of samples with one label each;
    `get_label_pile` groups the samples by label, and `sample_test_from`
    moves a share of every class of another data set into this one. */
module Datasets {
  import opened Shapes
  import opened Vectors

  /** The indices 0 .. n - 1 in order. */
  function Range(n: nat): (r: seq<nat>)
    ensures |r| == n && forall i :: 0 <= i < n ==> r[i] == i
  {
    seq(n, i requires 0 <= i => i as nat)
  }

  /** No value occurs twice. */
  predicate Distinct(s: seq<nat>) {
    forall j, k :: 0 <= j < k < |s| ==> s[j] != s[k]
  }

  /** Every entry of `idx` is below n. */
  predicate Within(idx: seq<nat>, n: nat) {
    forall j :: 0 <= j < |idx| ==> idx[j] < n
  }

  /** `s` rearranged or restricted by the index list `idx`. */
  function Select<T>(s: seq<T>, idx: seq<nat>): (r: seq<T>)
    requires Within(idx, |s|)
    ensures |r| == |idx| && forall j :: 0 <= j < |idx| ==> r[j] == s[idx[j]]
  {
    seq(|idx|, j requires 0 <= j < |idx| => s[idx[j]])
  }

  // ---------------------------------------------------------------- piles

  /** get_label_pile as a value: one pile per output class; sample i goes to
      the end of pile labels[i] when that label is below the class count. */
  function Piles(labels: seq<nat>, m: nat): (p: seq<seq<nat>>)
    ensures |p| == m
    decreases |labels|
  {
    if |labels| == 0 then seq(m, _ => [])
    else
      var i := |labels| - 1;
      var p := Piles(labels[..i], m);
      if labels[i] < m then p[labels[i] := p[labels[i]] + [i]] else p
  }

  /** Pile c holds exactly the samples labelled c. */
  lemma {:induction false} PileMembers(labels: seq<nat>, m: nat, c: nat, x: nat)
    requires c < m
    ensures x in Piles(labels, m)[c] <==> x < |labels| && labels[x] == c
    decreases |labels|
  {
    if |labels| > 0 {
      var i := |labels| - 1;
      PileMembers(labels[..i], m, c, x);
      if x < i {
        assert labels[..i][x] == labels[x];
      }
    }
  }

  /** Each pile lists its samples in increasing order. */
  lemma {:induction false} PileIncreasing(labels: seq<nat>, m: nat, c: nat)
    requires c < m
    ensures forall j, k :: 0 <= j < k < |Piles(labels, m)[c]| ==> Piles(labels, m)[c][j] < Piles(labels, m)[c][k]
    ensures Within(Piles(labels, m)[c], |labels|)
    decreases |labels|
  {
    if |labels| > 0 {
      var i := |labels| - 1;
      PileIncreasing(labels[..i], m, c);
    }
  }

  /** Hence no sample occurs twice in a pile. */
  lemma PileDistinct(labels: seq<nat>, m: nat, c: nat)
    requires c < m
    ensures Distinct(Piles(labels, m)[c])
  {
    PileIncreasing(labels, m, c);
  }

  /** A rearrangement of a list without repetitions has none. */
  lemma {:induction false} PermutedDistinct(a: seq<nat>, b: seq<nat>)
    requires multiset(a) == multiset(b) && Distinct(b)
    ensures Distinct(a)
  {
    forall j, k | 0 <= j < k < |a| ensures a[j] != a[k] {
      if a[j] == a[k] {
        var x := a[j];
        assert a == a[..j] + [x] + a[j + 1..k] + [x] + a[k + 1..];
        assert multiset(a)[x] >= 2;
        DistinctCount(b, x);
        assert false;
      }
    }
  }

  /** In a list without repetitions every value occurs at most once. */
  lemma {:induction false} DistinctCount(b: seq<nat>, x: nat)
    requires Distinct(b)
    ensures multiset(b)[x] <= 1
    decreases |b|
  {
    if |b| > 0 {
      var r := b[1..];
      assert b == [b[0]] + r;
      assert Distinct(r) by {
        forall j, k | 0 <= j < k < |r| ensures r[j] != r[k] {
          assert r[j] == b[j + 1] && r[k] == b[k + 1];
        }
      }
      DistinctCount(r, x);
      if x == b[0] {
        forall k | 0 <= k < |r| ensures r[k] != x {
          assert r[k] == b[k + 1];
        }
        assert x !in r;
      }
    }
  }

  // -------------------------------------------------------- test sampling

  /** C++ float-to-int conversion: truncation toward zero. */
  function Truncate(x: real): int {
    if x >= 0.0 then x.Floor else -((-x).Floor)
  }

  /** `max<int>(1, size * ratio)`: the number of samples taken from a
      class of n samples. */
  function SampleCount(n: nat, ratio: real): (r: int)
    ensures r >= 1
  {
    var t := Truncate(n as real * ratio);
    if t < 1 then 1 else t
  }

  /** The count is ⌊n · ratio⌋ when that is at least 1, and 1 otherwise
      (a negative product truncates toward zero, and the max lifts it). */
  lemma SampleCountValue(n: nat, ratio: real)
    ensures var x := n as real * ratio;
      (x >= 1.0 ==> SampleCount(n, ratio) as real <= x < SampleCount(n, ratio) as real + 1.0) &&
      (x < 1.0 ==> SampleCount(n, ratio) == 1)
  {
  }

  /** A ratio of at most 1 never asks for more samples than a class has. */
  lemma SampleCountFits(n: nat, ratio: real)
    requires n > 0 && ratio <= 1.0
    ensures SampleCount(n, ratio) <= n
  {
    var x := n as real * ratio;
    assert x <= n as real by {
      if ratio >= 0.0 {
        assert n as real * ratio <= n as real * 1.0;
      }
    }
    SampleCountValue(n, ratio);
  }

  /** A class's shuffled pile stays within itself when sampled. */
  predicate Fits(order: seq<nat>, ratio: real) {
    |order| > 0 ==> SampleCount(|order|, ratio) <= |order|
  }

  /** The samples taken from one shuffled pile: the first SampleCount of
      them, none from an empty pile. */
  function Chosen(order: seq<nat>, ratio: real): (r: seq<nat>)
    requires Fits(order, ratio)
    ensures |order| > 0 ==> |r| == SampleCount(|order|, ratio) && r == order[..|r|]
    ensures |order| == 0 ==> r == []
  {
    if |order| == 0 then [] else order[..SampleCount(|order|, ratio)]
  }

  /** The samples moved by sample_test_from, class after class. */
  function Picks(orders: seq<seq<nat>>, ratio: real): (r: seq<nat>)
    requires forall c :: 0 <= c < |orders| ==> Fits(orders[c], ratio)
    decreases |orders|
  {
    if |orders| == 0 then []
    else
      var k := |orders| - 1;
      Picks(orders[..k], ratio) + Chosen(orders[k], ratio)
  }

  /** The test labels as sample_test_from promises them: class after class,
      each non-empty class c contributing max(1, ⌊n_c · ratio⌋) copies of c. */
  function ClassLabels(orders: seq<seq<nat>>, ratio: real): (r: seq<nat>)
    requires forall c :: 0 <= c < |orders| ==> Fits(orders[c], ratio)
    decreases |orders|
  {
    if |orders| == 0 then []
    else
      var k := |orders| - 1;
      ClassLabels(orders[..k], ratio) + seq(|Chosen(orders[k], ratio)|, _ => k)
  }

  /** The shuffles handed to sample_test_from: pile c rearranged. */
  ghost predicate Shuffled(orders: seq<seq<nat>>, labels: seq<nat>) {
    forall c :: 0 <= c < |orders| ==> multiset(orders[c]) == multiset(Piles(labels, |orders|)[c])
  }

  /** An entry of a shuffled pile c is a sample labelled c. */
  lemma ShuffledMember(orders: seq<seq<nat>>, labels: seq<nat>, c: nat, j: nat)
    requires Shuffled(orders, labels) && c < |orders| && j < |orders[c]|
    ensures orders[c][j] < |labels| && labels[orders[c][j]] == c
  {
    var x := orders[c][j];
    assert x in multiset(orders[c]);
    PileMembers(labels, |orders|, c, x);
  }

  /** A shuffled pile has no repetitions. */
  lemma ShuffledDistinct(orders: seq<seq<nat>>, labels: seq<nat>, c: nat)
    requires Shuffled(orders, labels) && c < |orders|
    ensures Distinct(orders[c])
  {
    PileDistinct(labels, |orders|, c);
    PermutedDistinct(orders[c], Piles(labels, |orders|)[c]);
  }

  /** Every sample picked from the first k classes has a label below k. */
  lemma {:induction false} PicksBelow(orders: seq<seq<nat>>, labels: seq<nat>, ratio: real, k: nat)
    requires Shuffled(orders, labels) && k <= |orders|
    requires forall c :: 0 <= c < |orders| ==> Fits(orders[c], ratio)
    ensures forall j :: 0 <= j < |Picks(orders[..k], ratio)| ==>
              Picks(orders[..k], ratio)[j] < |labels| && labels[Picks(orders[..k], ratio)[j]] < k
    decreases k
  {
    if k > 0 {
      var os := orders[..k];
      assert os[..k - 1] == orders[..k - 1];
      PicksBelow(orders, labels, ratio, k - 1);
      var front, last := Picks(os[..k - 1], ratio), Chosen(os[k - 1], ratio);
      forall j | 0 <= j < |last| ensures last[j] < |labels| && labels[last[j]] == k - 1 {
        ShuffledMember(orders, labels, k - 1, j);
      }
    }
  }

  /** The picks never repeat a sample: within a class the shuffle has no
      repetitions, and different classes have different labels. */
  lemma {:induction false} PicksDistinct(orders: seq<seq<nat>>, labels: seq<nat>, ratio: real, k: nat)
    requires Shuffled(orders, labels) && k <= |orders|
    requires forall c :: 0 <= c < |orders| ==> Fits(orders[c], ratio)
    ensures Distinct(Picks(orders[..k], ratio))
    decreases k
  {
    if k > 0 {
      var os := orders[..k];
      assert os[..k - 1] == orders[..k - 1];
      PicksDistinct(orders, labels, ratio, k - 1);
      PicksBelow(orders, labels, ratio, k - 1);
      ShuffledDistinct(orders, labels, k - 1);
      var front, last := Picks(os[..k - 1], ratio), Chosen(os[k - 1], ratio);
      var all := front + last;
      forall j, i | 0 <= j < i < |all| ensures all[j] != all[i] {
        if i >= |front| {
          ShuffledMember(orders, labels, k - 1, i - |front|);
          if j < |front| {
            assert labels[all[j]] < k - 1;
          } else {
            assert all[j] == orders[k - 1][j - |front|];
          }
        }
      }
    }
  }

  /** Reading through a concatenated index list. */
  lemma SelectConcat<T>(s: seq<T>, a: seq<nat>, b: seq<nat>)
    requires Within(a, |s|) && Within(b, |s|)
    ensures Within(a + b, |s|)
    ensures Select(s, a + b) == Select(s, a) + Select(s, b)
  {
  }

  /** Appending in two steps. */
  lemma Appended<T>(a: seq<T>, b: seq<T>, c: seq<T>, ab: seq<T>, abc: seq<T>)
    requires ab == a + b && abc == ab + c
    ensures abc == a + (b + c)
  {
  }

  /** Reading one more index of a bounded list. */
  lemma SelectStep<T>(s: seq<T>, idx: seq<nat>, j: nat)
    requires Within(idx, |s|) && j < |idx|
    ensures Within(idx[..j], |s|) && Within(idx[..j + 1], |s|)
    ensures Select(s, idx[..j + 1]) == Select(s, idx[..j]) + [s[idx[j]]]
  {
  }

  /** A list that holds the first `j` selected items followed by item
      `j` holds the first `j + 1`. */
  lemma Extended<T>(d0: seq<T>, s: seq<T>, idx: seq<nat>, j: nat, d1: seq<T>, d2: seq<T>)
    requires Within(idx, |s|) && j < |idx|
    requires Within(idx[..j], |s|) && d1 == d0 + Select(s, idx[..j]) && d2 == d1 + [s[idx[j]]]
    ensures Within(idx[..j + 1], |s|) && d2 == d0 + Select(s, idx[..j + 1])
  {
    SelectStep(s, idx, j);
    Appended(d0, Select(s, idx[..j]), [s[idx[j]]], d1, d2);
  }

  /** Marking one more sample. */
  lemma MarkStep(n: nat, picks: seq<nat>, x: nat)
    requires x < n
    ensures Marked(n, picks)[x := true] == Marked(n, picks + [x])
  {
  }

  /** The samples chosen from shuffled pile c all carry label c. */
  lemma ChosenLabels(orders: seq<seq<nat>>, labels: seq<nat>, ratio: real, c: nat)
    requires Shuffled(orders, labels) && c < |orders| && Fits(orders[c], ratio)
    ensures Within(Chosen(orders[c], ratio), |labels|)
    ensures Select(labels, Chosen(orders[c], ratio)) == seq(|Chosen(orders[c], ratio)|, _ => c)
  {
    var last := Chosen(orders[c], ratio);
    forall j | 0 <= j < |last| ensures last[j] < |labels| && labels[last[j]] == c {
      ShuffledMember(orders, labels, c, j);
    }
  }

  /** The labels of the picked samples are ClassLabels: class by class, in
      class order, with the sampled count of each. */
  lemma {:induction false} PicksLabels(orders: seq<seq<nat>>, labels: seq<nat>, ratio: real, k: nat)
    requires Shuffled(orders, labels) && k <= |orders|
    requires forall c :: 0 <= c < |orders| ==> Fits(orders[c], ratio)
    ensures Within(Picks(orders[..k], ratio), |labels|)
    ensures Select(labels, Picks(orders[..k], ratio)) == ClassLabels(orders[..k], ratio)
    decreases k
  {
    PicksBelow(orders, labels, ratio, k);
    if k > 0 {
      var os := orders[..k];
      assert os[..k - 1] == orders[..k - 1];
      assert os[k - 1] == orders[k - 1];
      PicksLabels(orders, labels, ratio, k - 1);
      ChosenLabels(orders, labels, ratio, k - 1);
      SelectConcat(labels, Picks(os[..k - 1], ratio), Chosen(os[k - 1], ratio));
    }
  }

  // ---------------------------------------------------------- swap and pop

  /** Number of unmarked positions from k on. */
  function Kept(m: seq<bool>, k: nat): (r: nat)
    requires k <= |m|
    ensures r <= |m| - k
    decreases |m| - k
  {
    if k == |m| then 0 else (if m[k] then 0 else 1) + Kept(m, k + 1)
  }

  /** `t[k] = t.back(); t.pop_back();` */
  function SwapPop<T>(t: seq<T>, k: nat): (r: seq<T>)
    requires k < |t|
    ensures |r| == |t| - 1
  {
    t[k := t[|t| - 1]][..|t| - 1]
  }

  /** The removal loop of sample_test_from after visiting positions
      |s| - 1 down to k: a marked position is overwritten by the last entry
      and the last entry is dropped. */
  function Swept<T>(s: seq<T>, m: seq<bool>, k: nat): (r: seq<T>)
    requires |s| == |m| && k <= |m|
    ensures |r| == k + Kept(m, k)
    ensures r[..k] == s[..k]
    decreases |m| - k
  {
    if k == |m| then s
    else
      var t := Swept(s, m, k + 1);
      if m[k] then SwapPop(t, k) else t
  }

  /** On a list without repetitions, swap-and-pop removes the entry at k
      and keeps every other one. */
  lemma SwapPopMembers(t: seq<nat>, k: nat)
    requires Distinct(t) && k < |t|
    ensures Distinct(SwapPop(t, k))
    ensures forall x :: x in SwapPop(t, k) <==> x in t && x != t[k]
  {
    var l := |t| - 1;
    var r := SwapPop(t, k);
    assert forall j :: 0 <= j < |r| ==> r[j] == if j == k then t[l] else t[j];
    forall x | x in t && x != t[k] ensures x in r {
      var j :| 0 <= j < |t| && t[j] == x;
      if j == l {
        assert r[k] == x;
      } else {
        assert r[j] == x;
      }
    }
  }

  /** Swap-and-pop commutes with reading through an index list. */
  lemma SwapPopSelect<T>(s: seq<T>, idx: seq<nat>, k: nat)
    requires Within(idx, |s|) && k < |idx|
    ensures Within(SwapPop(idx, k), |s|)
    ensures SwapPop(Select(s, idx), k) == Select(s, SwapPop(idx, k))
  {
    var l := |idx| - 1;
    var ri := SwapPop(idx, k);
    forall j | 0 <= j < |ri| ensures ri[j] == (if j == k then idx[l] else idx[j]) {}
  }

  /** Run on the positions 0 .. n - 1, the loop keeps the positions below
      k and the unmarked ones from k on, each once. */
  lemma {:induction false} SweptPositions(n: nat, m: seq<bool>, k: nat)
    requires |m| == n && k <= n
    ensures Distinct(Swept<nat>(Range(n), m, k))
    ensures forall x: nat :: x in Swept<nat>(Range(n), m, k) <==> x < k || (k <= x < n && !m[x])
    decreases n - k
  {
    var r := Swept<nat>(Range(n), m, k);
    if k < n {
      SweptPositions(n, m, k + 1);
      var t := Swept<nat>(Range(n), m, k + 1);
      assert t[k] == k by { assert t[..k + 1][k] == Range(n)[..k + 1][k]; }
      if m[k] {
        SwapPopMembers(t, k);
        assert r == SwapPop(t, k);
      } else {
        assert r == t;
      }
    } else {
      assert r == Range(n);
      forall x | 0 <= x < n ensures x in r { assert r[x] == x; }
      forall x | x in r ensures x < k {
        var i :| 0 <= i < |r| && r[i] == x;
      }
    }
  }

  /** The loop applied to a sequence is the loop applied to its positions,
      read back through the sequence: entries that stay together (a sample
      and its label) are moved together. */
  lemma {:induction false} SweptSelect<T>(s: seq<T>, m: seq<bool>, k: nat)
    requires |s| == |m| && k <= |m|
    ensures Within(Swept<nat>(Range(|s|), m, k), |s|)
    ensures Swept(s, m, k) == Select(s, Swept<nat>(Range(|s|), m, k))
    decreases |m| - k
  {
    var n := |s|;
    if k < |m| {
      SweptSelect(s, m, k + 1);
      var idx := Swept<nat>(Range(n), m, k + 1);
      if m[k] {
        SwapPopSelect(s, idx, k);
        assert Swept<nat>(Range(n), m, k) == SwapPop(idx, k);
      } else {
        assert Swept<nat>(Range(n), m, k) == idx;
      }
    } else {
      assert Swept<nat>(Range(n), m, k) == Range(n);
      assert s == Select(s, Range(n));
    }
  }

  /** Marks of the picked samples among n. */
  function Marked(n: nat, picks: seq<nat>): (m: seq<bool>)
    ensures |m| == n && forall x :: 0 <= x < n ==> (m[x] <==> x in picks)
  {
    seq(n, x => x in picks)
  }

  /** The samples left behind: every sample that was not picked, once
      each. */
  function Remaining(n: nat, picks: seq<nat>): (r: seq<nat>)
  {
    Swept<nat>(Range(n), Marked(n, picks), 0)
  }

  lemma RemainingExactly(n: nat, picks: seq<nat>)
    ensures Within(Remaining(n, picks), n) && Distinct(Remaining(n, picks))
    ensures forall x: nat :: x in Remaining(n, picks) <==> x < n && x !in picks
  {
    SweptPositions(n, Marked(n, picks), 0);
    SweptSelect(Range(n), Marked(n, picks), 0);
  }

  /** The sample picked next is not marked yet: the loop of sample_test_from
      that retries while the index is marked never runs. */
  lemma FreshPick(orders: seq<seq<nat>>, labels: seq<nat>, ratio: real, c: nat, j: nat)
    requires Shuffled(orders, labels) && c < |orders| && j < |orders[c]|
    requires forall c :: 0 <= c < |orders| ==> Fits(orders[c], ratio)
    ensures orders[c][j] !in Picks(orders[..c], ratio) + orders[c][..j]
  {
    PicksBelow(orders, labels, ratio, c);
    ShuffledMember(orders, labels, c, j);
    ShuffledDistinct(orders, labels, c);
    var front := Picks(orders[..c], ratio);
    forall i | 0 <= i < |front| ensures front[i] != orders[c][j] {
      assert labels[front[i]] < c;
    }
    forall i | 0 <= i < j ensures orders[c][..j][i] != orders[c][j] {
      assert orders[c][..j][i] == orders[c][i];
    }
  }

  /** What sample_test_from promises about the split: the test samples
      are distinct samples of the source set, their labels run class by
      class with the sampled count of each, and every sample not taken
      stays behind exactly once. */
  lemma TestSplit(orders: seq<seq<nat>>, labels: seq<nat>, ratio: real)
    requires Shuffled(orders, labels)
    requires forall c :: 0 <= c < |orders| ==> Fits(orders[c], ratio)
    ensures Distinct(Picks(orders, ratio))
    ensures Within(Picks(orders, ratio), |labels|)
    ensures Select(labels, Picks(orders, ratio)) == ClassLabels(orders, ratio)
    ensures Distinct(Remaining(|labels|, Picks(orders, ratio)))
    ensures forall x: nat :: x in Remaining(|labels|, Picks(orders, ratio)) <==> x < |labels| && x !in Picks(orders, ratio)
  {
    assert orders[..|orders|] == orders;
    PicksDistinct(orders, labels, ratio, |orders|);
    PicksLabels(orders, labels, ratio, |orders|);
    RemainingExactly(|labels|, Picks(orders, ratio));
  }

  // ------------------------------------------------------------- the set

  class Dataset {
    var input: Shape
    var output: Shape
    var data: seq<seq<real>>
    var dataLabel: seq<nat>

    /** get_label_pile: one pile per element of `output`. */
    method GetLabelPile() returns (piles: seq<seq<nat>>)
      ensures piles == Piles(dataLabel, Count(output.Size()))
    {
      var m := Count(output.Size());
      piles := seq(m, _ => []);
      var i := 0;
      while i < |dataLabel|
        invariant 0 <= i <= |dataLabel|
        invariant piles == Piles(dataLabel[..i], m)
      {
        assert dataLabel[..i + 1][..i] == dataLabel[..i];
        if dataLabel[i] < |piles| {
          piles := piles[dataLabel[i] := piles[dataLabel[i]] + [i]];
        }
        i := i + 1;
      }
      assert dataLabel[..i] == dataLabel;
    }

    /** sample_test_from(rhs, ratio): takes the shapes of rhs, then from every
        non-empty class c the first max(1, ⌊n_c · ratio⌋) samples of its
        shuffled pile `orders[c]` (the std::shuffle result), appending them
        with their labels; finally removes the taken samples from rhs by
        swap-and-pop from the back. */
    method SampleTestFrom(rhs: Dataset, ratio: real, orders: seq<seq<nat>>)
      requires rhs != this
      requires |rhs.data| == |rhs.dataLabel|
      requires |orders| == Count(rhs.output.Size())
      requires Shuffled(orders, rhs.dataLabel)
      requires forall c :: 0 <= c < |orders| ==> Fits(orders[c], ratio)
      modifies this, rhs
      ensures input == old(rhs.input) && output == old(rhs.output)
      ensures Within(Picks(orders, ratio), |old(rhs.data)|)
      ensures data == old(data) + Select(old(rhs.data), Picks(orders, ratio))
      ensures dataLabel == old(dataLabel) + Select(old(rhs.dataLabel), Picks(orders, ratio))
      ensures forall j :: 0 <= j < |Remaining(|old(rhs.data)|, Picks(orders, ratio))| ==>
                Remaining(|old(rhs.data)|, Picks(orders, ratio))[j] < |old(rhs.data)|
      ensures rhs.data == Select(old(rhs.data), Remaining(|old(rhs.data)|, Picks(orders, ratio)))
      ensures rhs.dataLabel == Select(old(rhs.dataLabel), Remaining(|old(rhs.data)|, Picks(orders, ratio)))
      ensures rhs.input == old(rhs.input) && rhs.output == old(rhs.output)
    {
      input, output := rhs.input, rhs.output;
      var piles := rhs.GetLabelPile();
      var remove := TakeAll(rhs, ratio, orders, |piles|);
      rhs.RemoveMarked(remove);
      SweptSelect(old(rhs.data), remove, 0);
      SweptSelect(old(rhs.dataLabel), remove, 0);
    }

    /** The class loop of sample_test_from: returns the marks of the taken
        samples. */
    method TakeAll(rhs: Dataset, ratio: real, orders: seq<seq<nat>>, classes: nat) returns (remove: seq<bool>)
      requires rhs != this
      requires |rhs.data| == |rhs.dataLabel|
      requires classes == |orders| && Shuffled(orders, rhs.dataLabel)
      requires forall c :: 0 <= c < |orders| ==> Fits(orders[c], ratio)
      modifies this
      ensures Within(Picks(orders, ratio), |rhs.data|)
      ensures remove == Marked(|rhs.data|, Picks(orders, ratio))
      ensures data == old(data) + Select(rhs.data, Picks(orders, ratio))
      ensures dataLabel == old(dataLabel) + Select(rhs.dataLabel, Picks(orders, ratio))
      ensures input == old(input) && output == old(output)
    {
      var n := |rhs.data|;
      remove := seq(n, _ => false);
      ghost var picked: seq<nat> := [];
      assert orders[..0] == [];
      var c := 0;
      while c < classes
        invariant 0 <= c <= classes
        invariant picked == Picks(orders[..c], ratio)
        invariant Within(picked, n)
        invariant remove == Marked(n, picked)
        invariant data == old(data) + Select(rhs.data, picked)
        invariant dataLabel == old(dataLabel) + Select(rhs.dataLabel, picked)
        invariant input == old(input) && output == old(output)
      {
        ghost var before, d1, l1 := picked, data, dataLabel;
        remove, picked := TakeClass(rhs, ratio, orders, c, remove, picked);
        ghost var chosen := Chosen(orders[c], ratio);
        SelectConcat(rhs.data, before, chosen);
        SelectConcat(rhs.dataLabel, before, chosen);
        Appended(old(data), Select(rhs.data, before), Select(rhs.data, chosen), d1, data);
        Appended(old(dataLabel), Select(rhs.dataLabel, before), Select(rhs.dataLabel, chosen), l1, dataLabel);
        c := c + 1;
      }
      assert orders[..c] == orders;
    }

    /** One class of sample_test_from: appends the first SampleCount samples
        of shuffled pile c (none when the pile is empty) and marks them. */
    method TakeClass(rhs: Dataset, ratio: real, orders: seq<seq<nat>>, c: nat,
                     remove0: seq<bool>, ghost picked0: seq<nat>)
      returns (remove: seq<bool>, ghost picked: seq<nat>)
      requires rhs != this
      requires |rhs.data| == |rhs.dataLabel|
      requires Shuffled(orders, rhs.dataLabel) && c < |orders|
      requires forall c :: 0 <= c < |orders| ==> Fits(orders[c], ratio)
      requires picked0 == Picks(orders[..c], ratio)
      requires Within(picked0, |rhs.data|)
      requires remove0 == Marked(|rhs.data|, picked0)
      modifies this
      ensures picked == Picks(orders[..c + 1], ratio) == picked0 + Chosen(orders[c], ratio)
      ensures Within(picked, |rhs.data|)
      ensures remove == Marked(|rhs.data|, picked)
      ensures Within(Chosen(orders[c], ratio), |rhs.data|)
      ensures data == old(data) + Select(rhs.data, Chosen(orders[c], ratio))
      ensures dataLabel == old(dataLabel) + Select(rhs.dataLabel, Chosen(orders[c], ratio))
      ensures input == old(input) && output == old(output)
    {
      var n := |rhs.data|;
      remove, picked := remove0, picked0;
      assert orders[..c + 1][..c] == orders[..c] && orders[..c + 1][c] == orders[c];
      if |orders[c]| == 0 {
        return;
      }
      var order := orders[c];
      var count := SampleCount(|order|, ratio);
      ChosenLabels(orders, rhs.dataLabel, ratio, c);
      ghost var chosen := order[..count];
      var j := 0;
      while j < count
        invariant 0 <= j <= count
        invariant picked == picked0 + chosen[..j]
        invariant Within(picked, n) && Within(chosen[..j], n)
        invariant remove == Marked(n, picked)
        invariant data == old(data) + Select(rhs.data, chosen[..j])
        invariant dataLabel == old(dataLabel) + Select(rhs.dataLabel, chosen[..j])
        invariant input == old(input) && output == old(output)
      {
        ghost var d1, l1 := data, dataLabel;
        remove, picked := TakeNext(rhs, ratio, orders, c, chosen, j, remove, picked0, picked);
        Extended(old(data), rhs.data, chosen, j, d1, data);
        Extended(old(dataLabel), rhs.dataLabel, chosen, j, l1, dataLabel);
        j := j + 1;
      }
      assert chosen[..count] == chosen;
    }

    /** One pass of the inner loop of sample_test_from: the j-th chosen sample
        of class c is not marked yet; it is appended and marked. */
    method TakeNext(rhs: Dataset, ratio: real, orders: seq<seq<nat>>, c: nat, ghost chosen: seq<nat>, j: nat,
                    remove0: seq<bool>, ghost picked0: seq<nat>, ghost picked1: seq<nat>)
      returns (remove: seq<bool>, ghost picked: seq<nat>)
      requires rhs != this
      requires |rhs.data| == |rhs.dataLabel|
      requires Shuffled(orders, rhs.dataLabel) && c < |orders|
      requires forall c :: 0 <= c < |orders| ==> Fits(orders[c], ratio)
      requires picked0 == Picks(orders[..c], ratio) && chosen == Chosen(orders[c], ratio) && j < |chosen|
      requires Within(chosen, |rhs.data|)
      requires picked1 == picked0 + chosen[..j] && Within(picked1, |rhs.data|)
      requires remove0 == Marked(|rhs.data|, picked1)
      requires Within(chosen[..j], |rhs.data|)
      modifies this
      ensures picked == picked0 + chosen[..j + 1] && Within(picked, |rhs.data|)
      ensures Within(chosen[..j + 1], |rhs.data|)
      ensures remove == Marked(|rhs.data|, picked)
      ensures data == old(data) + [rhs.data[chosen[j]]] && dataLabel == old(dataLabel) + [rhs.dataLabel[chosen[j]]]
      ensures input == old(input) && output == old(output)
    {
      var n := |rhs.data|;
      var index := orders[c][j];
      assert index == chosen[j];
      FreshPick(orders, rhs.dataLabel, ratio, c, j);
      assert orders[c][..j] == chosen[..j];
      // the source retries while `index` is marked; it never is
      assert !remove0[index];
      TakeSample(rhs, index);
      remove := remove0[index := true];
      MarkStep(n, picked1, index);
      picked := picked1 + [index];
      assert chosen[..j + 1] == chosen[..j] + [index];
      Appended(picked0, chosen[..j], [index], picked1, picked);
    }

    /** push_back of one sample of rhs and its label. */
    method TakeSample(rhs: Dataset, index: nat)
      requires rhs != this && index < |rhs.data| && index < |rhs.dataLabel|
      modifies this
      ensures data == old(data) + [rhs.data[index]] && dataLabel == old(dataLabel) + [rhs.dataLabel[index]]
      ensures input == old(input) && output == old(output)
    {
      data := data + [rhs.data[index]];
      dataLabel := dataLabel + [rhs.dataLabel[index]];
    }

    /** The removal loop of sample_test_from: from the last sample down,
        a marked sample is overwritten by the last one and the last one is
        popped, in `data` and `data_label` alike. */
    method RemoveMarked(remove: seq<bool>)
      requires |data| == |dataLabel| == |remove|
      modifies this
      ensures data == Swept(old(data), remove, 0) && dataLabel == Swept(old(dataLabel), remove, 0)
      ensures input == old(input) && output == old(output)
    {
      var i := |data| - 1;
      while i >= 0
        invariant -1 <= i < |remove|
        invariant data == Swept(old(data), remove, i + 1)
        invariant dataLabel == Swept(old(dataLabel), remove, i + 1)
        invariant input == old(input) && output == old(output)
      {
        ghost var d1, l1 := data, dataLabel;
        if remove[i] {
          data := data[i := data[|data| - 1]];
          dataLabel := dataLabel[i := dataLabel[|dataLabel| - 1]];
          data := data[..|data| - 1];
          dataLabel := dataLabel[..|dataLabel| - 1];
          assert data == SwapPop(d1, i) && dataLabel == SwapPop(l1, i);
        }
        i := i - 1;
      }
    }
  }
}
