/** Two indicators over daily closes: the running-peak drawdown and Wilder's RSI. */
module Signals {
  import opened Log
  import opened Sums

  /** The fall from day i to day j, as a percentage of the close on day i. */
  function Fall(closes: seq<real>, i: nat, j: nat): real
    requires i <= j < |closes| && closes[i] > 0.0
  {
    (closes[i] - closes[j]) / closes[i] * 100.0
  }

  /** Day i is where day j's fall is measured from: the highest close so far, if it is positive. */
  ghost predicate PeakOf(closes: seq<real>, i: nat, j: nat) {
    i <= j < |closes| && closes[i] > 0.0 && forall m :: 0 <= m <= j ==> closes[m] <= closes[i]
  }

  lemma FallIsOneMinus(x: real, y: real)
    requires x > 0.0
    ensures (x - y) / x == 1.0 - y / x
  {
    var q, a := (x - y) / x, y / x;
    assert q * x == x - y && a * x == y;
    assert (1.0 - a) * x == x - a * x;
    Cancel(q, 1.0 - a, x);
  }

  lemma Cancel(a: real, b: real, x: real)
    requires x > 0.0 && a * x == b * x
    ensures a == b
  {
    MulMono(a, b, x);
    MulMono(b, a, x);
  }

  lemma SmallerQuotient(low: real, peak: real, a: real, b: real, close: real)
    requires 0.0 < low <= peak && close >= 0.0 && a * low == close && b * peak == close
    ensures b <= a
  {
    MulMono(0.0, b, peak);
    assert 0.0 * peak == 0.0;
    assert b >= 0.0;
    assert b * (peak - low) >= 0.0;
    assert b * low <= close;
    MulMono(b, a, low);
  }

  lemma HigherPeakFallsFurther(low: real, peak: real, close: real)
    requires 0.0 < low <= peak && close >= 0.0
    ensures (low - close) / low * 100.0 <= (peak - close) / peak * 100.0
  {
    var a, b := close / low, close / peak;
    assert a * low == close && b * peak == close;
    FallIsOneMinus(low, close);
    FallIsOneMinus(peak, close);
    SmallerQuotient(low, peak, a, b, close);
    assert (low - close) / low == 1.0 - a;
  }

  lemma NoFallAtAPeak(peak: real, close: real)
    requires 0.0 < peak
    ensures close >= peak ==> (peak - close) / peak * 100.0 <= 0.0
    ensures close < peak ==> (peak - close) / peak * 100.0 > 0.0
  {
    var q := (peak - close) / peak;
    assert q * peak == peak - close;
  }

  /** `peak` is the highest close so far and `worst` the largest fall from a running peak, zero if there was none. */
  ghost predicate Worst(closes: seq<real>, n: nat, peak: real, worst: real)
    requires n <= |closes|
  {
    && (forall i :: 0 <= i < n ==> closes[i] <= peak)
    && (exists p :: 0 <= p < n && closes[p] == peak)
    && worst >= 0.0
    && (forall i, j :: 0 <= i <= j < n && PeakOf(closes, i, j) ==> Fall(closes, i, j) <= worst)
    && (worst == 0.0 || exists i, j :: 0 <= i <= j < n && PeakOf(closes, i, j) && Fall(closes, i, j) == worst)
  }

  lemma WorstStarts(closes: seq<real>)
    requires closes != []
    ensures Worst(closes, 1, closes[0], 0.0)
  {
    if closes[0] > 0.0 {
      NoFallAtAPeak(closes[0], closes[0]);
    }
  }

  lemma WorstExtends(closes: seq<real>, n: nat, peak: real, worst: real, peak': real, worst': real)
    requires n < |closes| && Worst(closes, n, peak, worst)
    requires peak' == Max(peak, closes[n])
    requires worst' ==
             if closes[n] > peak || peak <= 0.0 then worst else Max(worst, (peak - closes[n]) / peak * 100.0)
    ensures Worst(closes, n + 1, peak', worst')
  {
    var p :| 0 <= p < n && closes[p] == peak;
    assert closes[n] == peak' || closes[p] == peak';
    forall i, j | 0 <= i <= j < n + 1 && PeakOf(closes, i, j) ensures Fall(closes, i, j) <= worst' {
      if j == n {
        assert closes[p] <= closes[i] && closes[n] <= closes[i] <= peak';
        NoFallAtAPeak(closes[i], closes[n]);
      }
    }
    if worst' != worst {
      assert PeakOf(closes, p, n) && Fall(closes, p, n) == worst';
    } else if worst != 0.0 {
      var i, j :| 0 <= i <= j < n && PeakOf(closes, i, j) && Fall(closes, i, j) == worst;
    }
  }

  lemma {:induction false} SomePeak(closes: seq<real>, i: nat, j: nat) returns (p: nat)
    requires i <= j < |closes| && closes[i] > 0.0
    ensures PeakOf(closes, p, j) && closes[p] >= closes[i]
    decreases j
  {
    if i == j {
      if j > 0 && exists m :: 0 <= m < j && closes[m] > closes[j] {
        var m :| 0 <= m < j && closes[m] > closes[j];
        p := SomePeak(closes, m, j - 1);
      } else {
        p := j;
      }
    } else {
      p := SomePeak(closes, i, j - 1);
      if closes[j] > closes[p] {
        p := j;
      }
    }
  }

  /** No drawdown exactly when the series never falls once it is positive. */
  lemma ZeroMeansNeverFalls(closes: seq<real>, peak: real, worst: real)
    requires Worst(closes, |closes|, peak, worst)
    ensures worst == 0.0 <==> forall i, j :: 0 <= i <= j < |closes| && closes[i] > 0.0 ==> closes[i] <= closes[j]
  {
    if worst == 0.0 {
      forall i, j | 0 <= i <= j < |closes| && closes[i] > 0.0 ensures closes[i] <= closes[j] {
        var p := SomePeak(closes, i, j);
        assert Fall(closes, p, j) <= worst;
        NoFallAtAPeak(closes[p], closes[j]);
      }
    } else {
      var i, j :| 0 <= i <= j < |closes| && PeakOf(closes, i, j) && Fall(closes, i, j) == worst;
      NoFallAtAPeak(closes[i], closes[j]);
    }
  }

  /** With no close below zero no other pair of days shows a larger fall either. */
  lemma NoPairFallsFurther(closes: seq<real>, peak: real, worst: real)
    requires Worst(closes, |closes|, peak, worst) && forall i :: 0 <= i < |closes| ==> closes[i] >= 0.0
    ensures forall i, j :: 0 <= i <= j < |closes| && closes[i] > 0.0 ==> Fall(closes, i, j) <= worst
  {
    forall i, j | 0 <= i <= j < |closes| && closes[i] > 0.0 ensures Fall(closes, i, j) <= worst {
      var p := SomePeak(closes, i, j);
      HigherPeakFallsFurther(closes[i], closes[p], closes[j]);
      assert Fall(closes, p, j) <= worst;
    }
  }

  /**
   * One pass with a running peak, for any series: the largest fall of any day from the highest close before it, zero
   * exactly when the series never falls once positive; without negative closes, the largest fall between any two days.
   */
  method MaxDrawdownPct(closes: seq<real>) returns (r: Option<real>)
    ensures r.None? <==> closes == []
    ensures r.Some? ==>
              && r.value >= 0.0
              && (forall i, j :: PeakOf(closes, i, j) ==> Fall(closes, i, j) <= r.value)
              && (r.value == 0.0 || exists i, j :: PeakOf(closes, i, j) && Fall(closes, i, j) == r.value)
              && (r.value == 0.0 <==>
                    forall i, j :: 0 <= i <= j < |closes| && closes[i] > 0.0 ==> closes[i] <= closes[j])
    ensures r.Some? && (forall i :: 0 <= i < |closes| ==> closes[i] >= 0.0) ==>
              forall i, j :: 0 <= i <= j < |closes| && closes[i] > 0.0 ==> Fall(closes, i, j) <= r.value
  {
    if closes == [] { return None; }
    var peak, worst := closes[0], 0.0;
    var k := 0;
    while k < |closes|
      invariant 0 <= k <= |closes|
      invariant if k == 0 then peak == closes[0] && worst == 0.0 else Worst(closes, k, peak, worst)
    {
      var close := closes[k];
      ghost var peakWas, worstWas := peak, worst;
      if close > peak {
        peak := close;
      } else if peak > 0.0 {
        var dd := (peak - close) / peak * 100.0;
        if dd > worst {
          worst := dd;
        }
      }
      if k == 0 {
        WorstStarts(closes);
        if peak > 0.0 { NoFallAtAPeak(peak, close); }
      } else {
        WorstExtends(closes, k, peakWas, worstWas, peak, worst);
      }
      k := k + 1;
    }
    ZeroMeansNeverFalls(closes, peak, worst);
    if forall i :: 0 <= i < |closes| ==> closes[i] >= 0.0 {
      NoPairFallsFurther(closes, peak, worst);
    }
    r := Some(worst);
  }

  // ---------------------------------------------------------------- RSI

  /** Wilder's smoothing keeps an average between its old value and the new observation. */
  lemma SmoothingIsAnAverage(average: real, seen: real, n: real)
    requires n >= 1.0 && average >= 0.0 && seen >= 0.0
    ensures var r := (average * (n - 1.0) + seen) / n;
      && Min(average, seen) <= r <= Max(average, seen)
      && (r == 0.0 <==> seen == 0.0 && (average == 0.0 || n == 1.0))
  {
    var total := average * (n - 1.0) + seen;
    var r := total / n;
    assert r * n == total;
    assert total == average * n + (seen - average);
    SmoothBounds(average, seen, n, r, average * n, r * n);
    if seen == 0.0 && average == 0.0 { assert total == 0.0; }
    if r == 0.0 {
      assert average * (n - 1.0) >= 0.0;
      if average > 0.0 && n > 1.0 { assert average * (n - 1.0) > 0.0; }
    }
  }

  lemma SmoothBounds(average: real, seen: real, n: real, r: real, an: real, rn: real)
    requires n >= 1.0 && an == average * n && rn == r * n && rn == an + (seen - average)
    ensures Min(average, seen) <= r <= Max(average, seen)
  {
    var d, gap := r - average, seen - average;
    assert d * n == gap;
    if gap >= 0.0 {
      if d > gap { assert d * n >= d; }
    } else {
      if d < gap { assert d * n <= d; }
    }
  }

  lemma RatioToIndex(gain: real, loss: real)
    requires gain >= 0.0 && loss > 0.0
    ensures 1.0 + gain / loss >= 1.0
    ensures var r := 100.0 - 100.0 / (1.0 + gain / loss);
      0.0 <= r < 100.0 && (r == 0.0 <==> gain == 0.0) && (100.0 - r) * (gain + loss) == 100.0 * loss
  {
    var rs := gain / loss;
    assert rs * loss == gain;
    if rs > 0.0 { assert rs * loss > 0.0; }
    var share := 100.0 / (1.0 + rs);
    assert share * (1.0 + rs) == 100.0;
    assert share * (1.0 + rs) == share + share * rs;
    assert share * rs >= 0.0;
    if rs > 0.0 { assert share * rs > 0.0; }
    if rs == 0.0 { assert share * rs == 0.0; }
    assert share * (gain + loss) == (share * rs + share) * loss;
  }

  function Gain(closes: seq<real>, i: nat): (r: real)
    requires 0 < i < |closes|
    ensures r >= 0.0 && (r == 0.0 <==> closes[i] <= closes[i - 1])
  {
    Max(0.0, closes[i] - closes[i - 1])
  }

  function Loss(closes: seq<real>, i: nat): (r: real)
    requires 0 < i < |closes|
    ensures r >= 0.0 && (r == 0.0 <==> closes[i] >= closes[i - 1])
  {
    Max(0.0, closes[i - 1] - closes[i])
  }

  datatype Averages = Averages(gain: real, loss: real)

  /** Gains and losses of the first k changes, added up. */
  function Totals(closes: seq<real>, k: nat): Averages
    requires k < |closes|
  {
    if k == 0 then Averages(0.0, 0.0)
    else
      var t := Totals(closes, k - 1);
      Averages(t.gain + Gain(closes, k), t.loss + Loss(closes, k))
  }

  function Smooth(average: real, seen: real, n: nat): real
    requires n > 0
  {
    (average * (n as real - 1.0) + seen) / n as real
  }

  /** Wilder's averages after k changes: the plain mean of the first n, then smoothed one change at a time. */
  function Wilder(closes: seq<real>, n: nat, k: nat): Averages
    requires 0 < n <= k < |closes|
    decreases k
  {
    if k == n then Averages(Totals(closes, n).gain / n as real, Totals(closes, n).loss / n as real)
    else
      var a := Wilder(closes, n, k - 1);
      Averages(Smooth(a.gain, Gain(closes, k), n), Smooth(a.loss, Loss(closes, k), n))
  }

  /** The changes that still weigh in: all of them, except that a one-day average remembers only the last. */
  function Oldest(n: nat, k: nat): nat { if n > 1 then 1 else k }

  predicate NoRise(closes: seq<real>, lo: nat, hi: nat)
    requires 0 < lo && hi < |closes|
  {
    forall i :: lo <= i <= hi ==> closes[i] <= closes[i - 1]
  }

  predicate NoFall(closes: seq<real>, lo: nat, hi: nat)
    requires 0 < lo && hi < |closes|
  {
    forall i :: lo <= i <= hi ==> closes[i] >= closes[i - 1]
  }

  predicate Signs(closes: seq<real>, lo: nat, hi: nat, a: Averages)
    requires 0 < lo && hi < |closes|
  {
    && a.gain >= 0.0 && (a.gain == 0.0 <==> NoRise(closes, lo, hi))
    && a.loss >= 0.0 && (a.loss == 0.0 <==> NoFall(closes, lo, hi))
  }

  lemma {:induction false} TotalSigns(closes: seq<real>, k: nat)
    requires k < |closes|
    ensures Signs(closes, 1, k, Totals(closes, k))
  {
    if k > 0 {
      TotalSigns(closes, k - 1);
    }
  }

  lemma MeanSign(total: real, n: nat)
    requires n > 0 && total >= 0.0
    ensures total / n as real >= 0.0 && (total / n as real == 0.0 <==> total == 0.0)
  {
    var q := total / n as real;
    assert q * n as real == total;
  }

  lemma SmoothZero(average: real, seen: real, n: nat)
    requires n > 0 && average >= 0.0 && seen >= 0.0
    ensures Smooth(average, seen, n) >= 0.0
    ensures Smooth(average, seen, n) == 0.0 <==> seen == 0.0 && (average == 0.0 || n == 1)
  {
    SmoothingIsAnAverage(average, seen, n as real);
  }

  lemma SignsStep(closes: seq<real>, n: nat, k: nat, a: Averages, r: Averages)
    requires 0 < n < k < |closes| && Signs(closes, Oldest(n, k - 1), k - 1, a)
    requires r.gain >= 0.0 && (r.gain == 0.0 <==> Gain(closes, k) == 0.0 && (a.gain == 0.0 || n == 1))
    requires r.loss >= 0.0 && (r.loss == 0.0 <==> Loss(closes, k) == 0.0 && (a.loss == 0.0 || n == 1))
    ensures Signs(closes, Oldest(n, k), k, r)
  {
    if n > 1 {
      assert NoRise(closes, 1, k) <==> NoRise(closes, 1, k - 1) && closes[k] <= closes[k - 1];
      assert NoFall(closes, 1, k) <==> NoFall(closes, 1, k - 1) && closes[k] >= closes[k - 1];
    } else {
      assert NoRise(closes, k, k) <==> closes[k] <= closes[k - 1];
      assert NoFall(closes, k, k) <==> closes[k] >= closes[k - 1];
    }
  }

  lemma SmoothSigns(closes: seq<real>, n: nat, k: nat, a: Averages)
    requires 0 < n < k < |closes| && Signs(closes, Oldest(n, k - 1), k - 1, a)
    ensures Signs(closes, Oldest(n, k), k,
                  Averages(Smooth(a.gain, Gain(closes, k), n), Smooth(a.loss, Loss(closes, k), n)))
  {
    SmoothZero(a.gain, Gain(closes, k), n);
    SmoothZero(a.loss, Loss(closes, k), n);
    SignsStep(closes, n, k, a, Averages(Smooth(a.gain, Gain(closes, k), n), Smooth(a.loss, Loss(closes, k), n)));
  }

  /** An average is zero exactly when no change that weighs in went its way. */
  lemma {:induction false} WilderSigns(closes: seq<real>, n: nat, k: nat)
    requires 0 < n <= k < |closes|
    ensures Signs(closes, Oldest(n, k), k, Wilder(closes, n, k))
    decreases k
  {
    if k == n {
      TotalSigns(closes, n);
      MeanSign(Totals(closes, n).gain, n);
      MeanSign(Totals(closes, n).loss, n);
    } else {
      WilderSigns(closes, n, k - 1);
      SmoothSigns(closes, n, k, Wilder(closes, n, k - 1));
    }
  }

  /** The index from the two averages: 100 without losses, otherwise 100 minus the losses' share of all movement. */
  method Index(a: Averages) returns (r: real)
    requires a.gain >= 0.0 && a.loss >= 0.0
    ensures 0.0 <= r <= 100.0
    ensures (100.0 - r) * (a.gain + a.loss) == 100.0 * a.loss
    ensures r == 100.0 <==> a.loss == 0.0
    ensures r == 0.0 <==> a.gain == 0.0 && a.loss != 0.0
  {
    if a.loss == 0.0 { return 100.0; }
    RatioToIndex(a.gain, a.loss);
    var rs := a.gain / a.loss;
    r := 100.0 - 100.0 / (1.0 + rs);
  }

  method Averaged(closes: seq<real>, n: nat) returns (a: Averages)
    requires 0 < n < |closes|
    ensures a == Wilder(closes, n, |closes| - 1)
  {
    var avgGain, avgLoss := 0.0, 0.0;
    var k := 1;
    while k <= n
      invariant 1 <= k <= n + 1
      invariant Averages(avgGain, avgLoss) == Totals(closes, k - 1)
    {
      var change := closes[k] - closes[k - 1];
      if change > 0.0 {
        avgGain := avgGain + change;
      } else {
        avgLoss := avgLoss - change;
      }
      k := k + 1;
    }
    a := Averages(avgGain / n as real, avgLoss / n as real);
    while k < |closes|
      invariant n < k <= |closes|
      invariant a == Wilder(closes, n, k - 1)
    {
      var change := closes[k] - closes[k - 1];
      var gain, loss := if change > 0.0 then change else 0.0, if change > 0.0 then 0.0 else -change;
      assert gain == Gain(closes, k) && loss == Loss(closes, k);
      a := Averages(Smooth(a.gain, gain, n), Smooth(a.loss, loss, n));
      k := k + 1;
    }
  }

  /**
   * Wilder's RSI lies between 0 and 100: it is 100 exactly when no change that weighs in is a fall, and 0 exactly when
   * there is a fall but no rise.
   */
  method Rsi(closes: seq<real>, n: nat) returns (r: Option<real>)
    ensures r.None? <==> n == 0 || |closes| < n + 1
    ensures r.Some? ==>
              var a, last := Wilder(closes, n, |closes| - 1), |closes| - 1;
              && 0.0 <= r.value <= 100.0
              && (100.0 - r.value) * (a.gain + a.loss) == 100.0 * a.loss
              && (r.value == 100.0 <==> NoFall(closes, Oldest(n, last), last))
              && (r.value == 0.0 <==> NoRise(closes, Oldest(n, last), last) && !NoFall(closes, Oldest(n, last), last))
  {
    if n == 0 || |closes| < n + 1 { return None; }
    var a := Averaged(closes, n);
    WilderSigns(closes, n, |closes| - 1);
    var value := Index(a);
    r := Some(value);
  }
}
