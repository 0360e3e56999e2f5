/**
 * The per-category prediction histogram, stated over the sequence of
 * predictions made so far.
 */
module ClassHistogram {

  /** How many of the predictions `ps` are category `c`. */
  function Count(ps: seq<nat>, c: nat): (r: nat)
    ensures r <= |ps|
  {
    if ps == [] then 0
    else Count(ps[..|ps| - 1], c) + (if ps[|ps| - 1] == c then 1 else 0)
  }

  /** The histogram of `ps` over categories `0 .. n-1`. */
  function Histogram(n: nat, ps: seq<nat>): (h: seq<int>)
    ensures |h| == n
    ensures forall c :: 0 <= c < n ==> 0 <= h[c] <= |ps|
  {
    seq(n, (c: nat) => Count(ps, c))
  }

  function Sum(h: seq<int>): int
  {
    if h == [] then 0 else Sum(h[..|h| - 1]) + h[|h| - 1]
  }

  /** Before any prediction, the histogram is all zeros. */
  lemma HistogramEmpty(n: nat)
    ensures Histogram(n, []) == seq(n, _ => 0)
  {
  }

  /** One more prediction adds one to its own slot and changes no other slot. */
  lemma HistogramAppend(n: nat, ps: seq<nat>, p: nat)
    requires p < n
    ensures Histogram(n, ps + [p]) == Histogram(n, ps)[p := Histogram(n, ps)[p] + 1]
  {
    assert (ps + [p])[..|ps|] == ps;
  }

  /** Adding `d` to one entry adds `d` to the sum. */
  lemma {:induction false} SumUpdate(h: seq<int>, p: nat, d: int)
    requires p < |h|
    ensures Sum(h[p := h[p] + d]) == Sum(h) + d
    decreases |h|
  {
    var h' := h[p := h[p] + d];
    assert h'[..|h| - 1] == if p < |h| - 1 then h[..|h| - 1][p := h[p] + d] else h[..|h| - 1];
    if p < |h| - 1 {
      SumUpdate(h[..|h| - 1], p, d);
    }
  }

  /** When every prediction names a category, the histogram adds up to the number of predictions. */
  lemma {:induction false} HistogramSum(n: nat, ps: seq<nat>)
    requires forall i :: 0 <= i < |ps| ==> ps[i] < n
    ensures Sum(Histogram(n, ps)) == |ps|
    decreases |ps|
  {
    if ps == [] {
      HistogramEmpty(n);
      ZeroSum(n);
    } else {
      var init, p := ps[..|ps| - 1], ps[|ps| - 1];
      assert ps == init + [p];
      HistogramSum(n, init);
      HistogramAppend(n, init, p);
      SumUpdate(Histogram(n, init), p, 1);
    }
  }

  lemma {:induction false} ZeroSum(n: nat)
    ensures Sum(seq(n, _ => 0)) == 0
    decreases n
  {
    if n > 0 {
      assert seq(n, _ => 0)[..n - 1] == seq(n - 1, _ => 0);
      ZeroSum(n - 1);
    }
  }

  /** Counts only grow as predictions are added. */
  lemma {:induction false} CountMonotone(ps: seq<nat>, m: nat, c: nat)
    requires m <= |ps|
    ensures Count(ps[..m], c) <= Count(ps, c)
    decreases |ps|
  {
    if m < |ps| {
      assert ps[..m] == ps[..|ps| - 1][..m];
      CountMonotone(ps[..|ps| - 1], m, c);
    } else {
      assert ps[..m] == ps;
    }
  }

  /** The histogram of a prefix is bounded entrywise by the histogram of the whole. */
  lemma HistogramMonotone(n: nat, ps: seq<nat>, m: nat)
    requires m <= |ps|
    ensures forall c :: 0 <= c < n ==> Histogram(n, ps[..m])[c] <= Histogram(n, ps)[c]
  {
    forall c | 0 <= c < n
      ensures Histogram(n, ps[..m])[c] <= Histogram(n, ps)[c]
    {
      CountMonotone(ps, m, c);
    }
  }
}
