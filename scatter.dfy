/** Scatter-add: a list of (target, value) terms, each adding its value to
    one slot of a buffer, applied in order. The convolution's backward pass
    is such a list; `Hits` is the gather view of the same terms. */
module Scatter {
  import opened Vectors
  import opened Sums

  datatype Term = Term(target: int, value: real)

  /** `s[t] += v`; a target outside the buffer changes nothing. */
  function AddAt(s: seq<real>, t: int, v: real): (r: seq<real>)
    ensures |r| == |s|
    ensures forall q :: 0 <= q < |s| ==> r[q] == if q == t then s[q] + v else s[q]
  {
    if 0 <= t < |s| then s[t := s[t] + v] else s
  }

  /** The buffer after applying the terms of ts in order. */
  function Apply(acc: seq<real>, ts: seq<Term>): (r: seq<real>)
    ensures |r| == |acc|
    decreases |ts|
  {
    if |ts| == 0 then acc
    else AddAt(Apply(acc, ts[..|ts| - 1]), ts[|ts| - 1].target, ts[|ts| - 1].value)
  }

  /** One more term is one more addition. */
  lemma ApplyStep(acc: seq<real>, ts: seq<Term>, j: int)
    requires 0 <= j < |ts|
    ensures Apply(acc, ts[..j + 1]) == AddAt(Apply(acc, ts[..j]), ts[j].target, ts[j].value)
  {
    assert ts[..j + 1][..j] == ts[..j];
  }

  /** The total of the values aimed at slot q. */
  function Hits(ts: seq<Term>, q: int): real
    decreases |ts|
  {
    if |ts| == 0 then 0.0
    else Hits(ts[..|ts| - 1], q) + (if ts[|ts| - 1].target == q then ts[|ts| - 1].value else 0.0)
  }

  /** Every target of ts is inside [lo, hi). */
  predicate Within(ts: seq<Term>, lo: int, hi: int) {
    forall i :: 0 <= i < |ts| ==> lo <= ts[i].target < hi
  }

  /** Applying terms one after another leaves each slot with its old value
      plus everything aimed at it. */
  lemma {:induction false} ApplyIsGather(acc: seq<real>, ts: seq<Term>, q: int)
    requires 0 <= q < |acc|
    ensures Apply(acc, ts)[q] == acc[q] + Hits(ts, q)
    decreases |ts|
  {
    if |ts| > 0 {
      ApplyIsGather(acc, ts[..|ts| - 1], q);
    }
  }

  /** Nothing is aimed at a slot outside the targets' range. */
  lemma {:induction false} HitsOutside(ts: seq<Term>, lo: int, hi: int, q: int)
    requires Within(ts, lo, hi) && !(lo <= q < hi)
    ensures Hits(ts, q) == 0.0
    decreases |ts|
  {
    if |ts| > 0 {
      var init := ts[..|ts| - 1];
      assert Within(init, lo, hi) by {
        forall i | 0 <= i < |init| ensures lo <= init[i].target < hi {
          assert init[i] == ts[i];
        }
      }
      HitsOutside(ts[..|ts| - 1], lo, hi, q);
      assert lo <= ts[|ts| - 1].target < hi;
    }
  }

  /** Applying a + b is applying a, then b. */
  lemma {:induction false} ApplyAppend(acc: seq<real>, a: seq<Term>, b: seq<Term>)
    ensures Apply(acc, a + b) == Apply(Apply(acc, a), b)
    decreases |b|
  {
    if |b| == 0 {
      assert a + b == a;
    } else {
      assert (a + b)[..|a + b| - 1] == a + b[..|b| - 1];
      ApplyAppend(acc, a, b[..|b| - 1]);
    }
  }

  /** f(0) + f(1) + ... + f(n - 1), the terms of n nested iterations. */
  function Flat(f: int -> seq<Term>, n: int): seq<Term>
    decreases n
  {
    if n <= 0 then [] else Flat(f, n - 1) + f(n - 1)
  }

  /** The targets of a flattening lie where those of its parts lie. */
  lemma {:induction false} FlatWithin(f: int -> seq<Term>, n: int, lo: int, hi: int)
    requires forall i :: 0 <= i < n ==> Within(f(i), lo, hi)
    ensures Within(Flat(f, n), lo, hi)
    decreases n
  {
    if n > 0 {
      FlatWithin(f, n - 1, lo, hi);
      var a: seq<Term>, b: seq<Term> := Flat(f, n - 1), f(n - 1);
      forall i | 0 <= i < |a + b| ensures lo <= (a + b)[i].target < hi {
        if i < |a| { assert (a + b)[i] == a[i]; } else { assert (a + b)[i] == b[i - |a|]; }
      }
    }
  }

  /** The same terms, each aimed `off` slots further on. */
  function Shifted(ts: seq<Term>, off: int): (r: seq<Term>)
    ensures |r| == |ts|
    ensures forall i :: 0 <= i < |ts| ==> r[i].target == ts[i].target + off && r[i].value == ts[i].value
  {
    seq(|ts|, i requires 0 <= i < |ts| => Term(ts[i].target + off, ts[i].value))
  }

  /** Moving every target by `off` moves what each slot gathers by `off`. */
  lemma {:induction false} HitsShifted(ts: seq<Term>, off: int, q: int)
    ensures Hits(Shifted(ts, off), q + off) == Hits(ts, q)
    decreases |ts|
  {
    if |ts| > 0 {
      assert Shifted(ts, off)[..|ts| - 1] == Shifted(ts[..|ts| - 1], off);
      HitsShifted(ts[..|ts| - 1], off, q);
    }
  }

  /** Shifting a flattening shifts each of its parts. */
  lemma {:induction false} FlatShifted(f: int -> seq<Term>, g: int -> seq<Term>, n: int, off: int)
    requires forall i :: 0 <= i < n ==> f(i) == Shifted(g(i), off)
    ensures Flat(f, n) == Shifted(Flat(g, n), off)
    decreases n
  {
    if n > 0 {
      FlatShifted(f, g, n - 1, off);
      assert Shifted(Flat(g, n - 1) + g(n - 1), off) == Shifted(Flat(g, n - 1), off) + Shifted(g(n - 1), off);
    }
  }

  /** The sum of value * x[target] over the terms: the inner product of
      what the terms add with x. */
  function TermDot(ts: seq<Term>, x: seq<real>): real
    decreases |ts|
  {
    if |ts| == 0 then 0.0
    else TermDot(ts[..|ts| - 1], x) + Scale(ts[|ts| - 1].value, At(x, ts[|ts| - 1].target))
  }

  /** Slot q's gathered value times x[q]. */
  function Gathered(ts: seq<Term>, x: seq<real>): int -> real { q => Scale(Hits(ts, q), At(x, q)) }

  /** The terms of ts but the last still lie in [lo, hi). */
  lemma WithinInit(ts: seq<Term>, lo: int, hi: int)
    requires Within(ts, lo, hi) && |ts| > 0
    ensures Within(ts[..|ts| - 1], lo, hi)
  {
    var init := ts[..|ts| - 1];
    forall i | 0 <= i < |init| ensures lo <= init[i].target < hi {
      assert init[i] == ts[i];
    }
  }

  /** What one term adds to the gathered products: value * x[target] at
      its target, nothing elsewhere. */
  function Spike(t: Term, x: seq<real>): int -> real {
    q => if q == t.target then Scale(t.value, At(x, q)) else 0.0
  }

  /** One more term adds its spike to the gathered products. */
  lemma GatheredStep(ts: seq<Term>, x: seq<real>, q: int)
    requires |ts| > 0
    ensures Gathered(ts, x)(q) == Gathered(ts[..|ts| - 1], x)(q) + Spike(ts[|ts| - 1], x)(q)
  {
    var t := ts[|ts| - 1];
    var hit := if t.target == q then t.value else 0.0;
    assert Hits(ts, q) == Hits(ts[..|ts| - 1], q) + hit;
    ScaleAdd(At(x, q), Hits(ts[..|ts| - 1], q), hit);
  }

  /** The gathered buffer's inner product with x is the terms' inner
      product with x, when every target lies in [0, n). */
  lemma {:induction false} GatherDot(ts: seq<Term>, x: seq<real>, n: int)
    requires Within(ts, 0, n)
    ensures SumF(Gathered(ts, x), n) == TermDot(ts, x)
    decreases |ts|
  {
    if |ts| == 0 {
      forall q | 0 <= q < n ensures Gathered(ts, x)(q) == 0.0 {
        assert Hits(ts, q) == 0.0;
      }
      SumZero(Gathered(ts, x), n);
    } else {
      var init, t := ts[..|ts| - 1], ts[|ts| - 1];
      WithinInit(ts, 0, n);
      GatherDot(init, x, n);
      forall q | 0 <= q < n
        ensures Gathered(ts, x)(q) == Gathered(init, x)(q) + Spike(t, x)(q)
      {
        GatheredStep(ts, x, q);
      }
      SumPlus(Gathered(init, x), Spike(t, x), Gathered(ts, x), n);
      assert 0 <= t.target < n;
      SumSingle(Spike(t, x), n, t.target);
      var sum := SumF(Gathered(ts, x), n);
      assert sum == TermDot(init, x) + Spike(t, x)(t.target);
      assert Spike(t, x)(t.target) == Scale(t.value, At(x, t.target));
    }
  }

  lemma {:induction false} TermDotAppend(a: seq<Term>, b: seq<Term>, x: seq<real>)
    ensures TermDot(a + b, x) == TermDot(a, x) + TermDot(b, x)
    decreases |b|
  {
    if |b| == 0 {
      assert a + b == a;
    } else {
      assert (a + b)[..|a + b| - 1] == a + b[..|b| - 1];
      TermDotAppend(a, b[..|b| - 1], x);
    }
  }

  /** The inner products of the parts of a flattening. */
  function FlatDots(f: int -> seq<Term>, x: seq<real>): int -> real { i => TermDot(f(i), x) }

  /** A flattening's inner product is the sum of its parts'. */
  lemma {:induction false} TermDotFlat(f: int -> seq<Term>, n: int, x: seq<real>)
    ensures TermDot(Flat(f, n), x) == SumF(FlatDots(f, x), n)
    decreases n
  {
    if n > 0 {
      TermDotFlat(f, n - 1, x);
      TermDotAppend(Flat(f, n - 1), f(n - 1), x);
    }
  }

  /** A flattening whose every part contributes c times h(i) contributes c
      times the sum of h. */
  lemma FlatScaled(f: int -> seq<Term>, h: int -> real, c: real, n: int, x: seq<real>)
    requires forall i :: 0 <= i < n ==> TermDot(f(i), x) == Scale(c, h(i))
    ensures TermDot(Flat(f, n), x) == Scale(c, SumF(h, n))
  {
    TermDotFlat(f, n, x);
    SumScaled(h, FlatDots(f, x), c, n);
  }

  /** Terms whose values are e times w(i) contribute e times the sum of p,
      where p(i) is w(i) times x at term i's target. */
  lemma ScaledDot(ts: seq<Term>, x: seq<real>, e: real, w: int -> real, p: int -> real, n: int)
    requires |ts| == Count(n)
    requires forall i :: 0 <= i < |ts| ==> ts[i].value == e * w(i) && p(i) == w(i) * At(x, ts[i].target)
    ensures TermDot(ts, x) == Scale(e, SumF(p, n))
  {
    ScaledPrefix(ts, x, e, w, p, |ts|);
    SumCount(p, n);
  }

  lemma {:induction false} ScaledPrefix(ts: seq<Term>, x: seq<real>, e: real, w: int -> real, p: int -> real, n: nat)
    requires |ts| == n
    requires forall i :: 0 <= i < n ==> ts[i].value == e * w(i) && p(i) == w(i) * At(x, ts[i].target)
    ensures TermDot(ts, x) == Scale(e, SumF(p, n))
    decreases n
  {
    if n > 0 {
      ScaledPrefix(ts[..n - 1], x, e, w, p, n - 1);
      ScaleTwice(ts[n - 1].value, e, w(n - 1), At(x, ts[n - 1].target));
      ScaleAdd(e, SumF(p, n - 1), p(n - 1));
    }
  }
}
