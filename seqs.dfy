/** Python list idioms over sequences: negative-index slices and `sum`. */
module Seqs {

  function Min(a: int, b: int): int { if a <= b then a else b }

  function Max(a: int, b: int): int { if a >= b then a else b }

  /** Python's `min(a, b)` and `max(a, b)` on floats (the same value whichever operand wins
      a tie). */
  function RMin(a: real, b: real): (r: real)
    ensures r <= a && r <= b && (r == a || r == b)
  {
    if b < a then b else a
  }

  function RMax(a: real, b: real): (r: real)
    ensures a <= r && b <= r && (r == a || r == b)
  {
    if b > a then b else a
  }

  /** Python's `s[-k:]` for an integer `k`. For `k > 0` it is the last `min(k, |s|)`
      elements; because `-0 == 0`, `s[-0:]` is the WHOLE list; for `k < 0` the slice
      starts at index `-k`. */
  function PyTail<T>(s: seq<T>, k: int): (r: seq<T>)
    ensures |r| <= |s| && r == s[|s| - |r|..]
    ensures k > 0 ==> |r| == Min(k, |s|)
    ensures k == 0 ==> r == s
    ensures k < 0 ==> |r| == Max(|s| + k, 0)
  {
    if k > 0 then
      if k >= |s| then s else s[|s| - k..]
    else
      if -k >= |s| then [] else s[-k..]
  }

  /** Python's `sum(s)`, adding from the left. */
  function Sum(s: seq<real>): real {
    if s == [] then 0.0 else Sum(s[..|s| - 1]) + s[|s| - 1]
  }

  /** `sum(x * x for x in s)` */
  function SumSquares(s: seq<real>): (r: real)
    ensures 0.0 <= r
  {
    if s == [] then 0.0 else SumSquares(s[..|s| - 1]) + s[|s| - 1] * s[|s| - 1]
  }

  /** The largest element. */
  function SeqMax(s: seq<real>): (r: real)
    requires |s| > 0
    ensures forall i :: 0 <= i < |s| ==> s[i] <= r
    ensures exists i :: 0 <= i < |s| && r == s[i]
  {
    if |s| == 1 then s[0]
    else
      var m := SeqMax(s[..|s| - 1]);
      if s[|s| - 1] > m then s[|s| - 1] else m
  }

  /** The smallest element. */
  function SeqMin(s: seq<real>): (r: real)
    requires |s| > 0
    ensures forall i :: 0 <= i < |s| ==> r <= s[i]
    ensures exists i :: 0 <= i < |s| && r == s[i]
  {
    if |s| == 1 then s[0]
    else
      var m := SeqMin(s[..|s| - 1]);
      if s[|s| - 1] < m then s[|s| - 1] else m
  }

  predicate AllPositive(s: seq<real>) {
    forall i :: 0 <= i < |s| ==> s[i] > 0.0
  }

  predicate AllEqual(s: seq<real>, c: real) {
    forall i :: 0 <= i < |s| ==> s[i] == c
  }

  /** A tail of a list of positive numbers holds only positive numbers. */
  lemma PyTailAllPositive(s: seq<real>, k: int)
    requires AllPositive(s)
    ensures AllPositive(PyTail(s, k))
  {
    var r := PyTail(s, k);
    forall i | 0 <= i < |r|
      ensures r[i] > 0.0
    {
      assert r[i] == s[|s| - |r| + i];
    }
  }

  /** A sum of `|s|` terms that all lie in `[lo, hi]` lies in `[|s| * lo, |s| * hi]`. */
  lemma {:induction false} SumBounds(s: seq<real>, lo: real, hi: real)
    requires forall i :: 0 <= i < |s| ==> lo <= s[i] <= hi
    ensures (|s| as real) * lo <= Sum(s) <= (|s| as real) * hi
  {
    if s != [] {
      var init := s[..|s| - 1];
      SumBounds(init, lo, hi);
      assert (|s| as real) * lo == (|init| as real) * lo + lo;
      assert (|s| as real) * hi == (|init| as real) * hi + hi;
    }
  }

  /** Summing from the left adds up consecutive blocks: the sum of `a + b` is the sum of `a`
      plus the sum of `b`. */
  lemma {:induction false} SumAppend(a: seq<real>, b: seq<real>)
    ensures Sum(a + b) == Sum(a) + Sum(b)
    decreases |b|
  {
    if b == [] {
      assert a + b == a;
    } else {
      var b' := b[..|b| - 1];
      assert (a + b)[..|a + b| - 1] == a + b';
      SumAppend(a, b');
    }
  }
}
