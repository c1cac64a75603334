/** Wilder's averages written out: a weighted sum of the rises, or of the falls, with weights that add up to one. */
module Weights {
  import opened Sums
  import opened Signals

  function Power(x: real, m: nat): real { if m == 0 then 1.0 else Times(x, Power(x, m - 1)) }

  /** What one change keeps of its weight whenever another one is averaged in. */
  function Keep(n: nat): real
    requires n > 0
  {
    (n as real - 1.0) / n as real
  }

  /** The weight of change i after k changes: the first n share one average, each later change enters with 1/n. */
  function Weight(n: nat, k: nat, i: nat): real
    requires 0 < n <= k && i <= k
  {
    Times(Power(Keep(n), if i <= n then k - n else k - i), 1.0 / n as real)
  }

  /** How far the close rose, or fell, on day i. */
  function Move(closes: seq<real>, up: bool, i: nat): real
    requires 0 < i < |closes|
  {
    var change := closes[i] - closes[i - 1];
    if up then (if change > 0.0 then change else 0.0) else (if change < 0.0 then -change else 0.0)
  }

  function Weighted(closes: seq<real>, up: bool, n: nat, k: nat, i: nat): real
    requires 0 < n <= k < |closes| && i <= k
  {
    if i == 0 then 0.0
    else Weighted(closes, up, n, k, i - 1) + Times(Move(closes, up, i), Weight(n, k, i))
  }

  function Weights(n: nat, k: nat, i: nat): real
    requires 0 < n <= k && i <= k
  {
    if i == 0 then 0.0 else Weights(n, k, i - 1) + Weight(n, k, i)
  }

  function Side(a: Averages, up: bool): real { if up then a.gain else a.loss }

  lemma TimesTurns(a: real, b: real, c: real)
    ensures Times(a, Times(b, c)) == Times(Times(a, c), b) && Times(Times(a, b), c) == Times(a, Times(b, c))
  {
    assert a * (b * c) == (a * c) * b;
  }

  lemma Older(n: nat, k: nat, i: nat)
    requires 0 < n < k && i < k
    ensures Weight(n, k, i) == Times(Weight(n, k - 1, i), Keep(n))
  {
    var m := if i <= n then k - 1 - n else k - 1 - i;
    TimesTurns(Keep(n), Power(Keep(n), m), 1.0 / n as real);
    TimesTurns(Power(Keep(n), m), Keep(n), 1.0 / n as real);
  }

  /** One more change: what was averaged already keeps its share. */
  lemma {:induction false} OlderSum(closes: seq<real>, up: bool, n: nat, k: nat, i: nat)
    requires 0 < n < k < |closes| && i < k
    ensures Weighted(closes, up, n, k, i) == Times(Weighted(closes, up, n, k - 1, i), Keep(n))
    ensures Weights(n, k, i) == Times(Weights(n, k - 1, i), Keep(n))
  {
    if i > 0 {
      OlderSum(closes, up, n, k, i - 1);
      Older(n, k, i);
      var move, w := Move(closes, up, i), Weight(n, k - 1, i);
      TimesTurns(move, w, Keep(n));
      TimesAdds(Weighted(closes, up, n, k - 1, i - 1), Times(move, w), Keep(n));
      TimesAdds(Weights(n, k - 1, i - 1), w, Keep(n));
    }
  }

  lemma {:induction false} FirstMean(closes: seq<real>, up: bool, n: nat, i: nat)
    requires 0 < n < |closes| && i <= n
    ensures Weighted(closes, up, n, n, i) == Times(Side(Totals(closes, i), up), 1.0 / n as real)
    ensures Weights(n, n, i) == Times(i as real, 1.0 / n as real)
  {
    if i > 0 {
      FirstMean(closes, up, n, i - 1);
      TimesAdds(Side(Totals(closes, i - 1), up), Move(closes, up, i), 1.0 / n as real);
      TimesAdds(i as real - 1.0, 1.0, 1.0 / n as real);
    }
  }

  lemma Quotient(a: real, n: real)
    requires n > 0.0
    ensures a / n == Times(a, 1.0 / n)
  {
  }

  lemma WholeAndPart(n: nat)
    requires n > 0
    ensures Keep(n) + 1.0 / n as real == 1.0
  {
  }

  lemma SmoothSplits(average: real, seen: real, n: nat)
    requires n > 0
    ensures Smooth(average, seen, n) == Times(average, Keep(n)) + Times(seen, 1.0 / n as real)
  {
    Quotient(average * (n as real - 1.0) + seen, n as real);
    Quotient(n as real - 1.0, n as real);
    TimesAdds(average * (n as real - 1.0), seen, 1.0 / n as real);
    TimesTurns(average, n as real - 1.0, 1.0 / n as real);
  }

  lemma StartsAsMean(closes: seq<real>, up: bool, n: nat)
    requires 0 < n < |closes|
    ensures Side(Wilder(closes, n, n), up) == Weighted(closes, up, n, n, n)
    ensures Weights(n, n, n) == 1.0
  {
    FirstMean(closes, up, n, n);
    Quotient(Side(Totals(closes, n), up), n as real);
    Quotient(n as real, n as real);
  }

  /** One more change enters with weight 1/n. */
  lemma NewestEnters(closes: seq<real>, up: bool, n: nat, k: nat, average: real, weights: real)
    requires 0 < n < k < |closes|
    requires average == Weighted(closes, up, n, k - 1, k - 1) && weights == Weights(n, k - 1, k - 1)
    ensures Smooth(average, Move(closes, up, k), n) == Weighted(closes, up, n, k, k)
    ensures Weights(n, k, k) == Times(weights, Keep(n)) + 1.0 / n as real
  {
    OlderSum(closes, up, n, k, k - 1);
    SmoothSplits(average, Move(closes, up, k), n);
  }

  /** After k changes each average is the weighted sum of all k rises, or falls, and the weights add up to one. */
  lemma {:induction false} WilderIsAWeightedMean(closes: seq<real>, up: bool, n: nat, k: nat)
    requires 0 < n <= k < |closes|
    ensures Side(Wilder(closes, n, k), up) == Weighted(closes, up, n, k, k)
    ensures Weights(n, k, k) == 1.0
    decreases k
  {
    if k == n {
      StartsAsMean(closes, up, n);
    } else {
      WilderIsAWeightedMean(closes, up, n, k - 1);
      NewestEnters(closes, up, n, k, Side(Wilder(closes, n, k - 1), up), 1.0);
      WholeAndPart(n);
    }
  }
}
