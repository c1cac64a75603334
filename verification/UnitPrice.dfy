/**
 * What the two rates of return mean: the time-weighted one is the growth of the price of one unit of the account, and
 * the money-weighted one is the rate at which an account that takes all the flows ends up empty.
 */
module UnitPrice {
  import opened History
  import opened Sums
  import opened Returns

  // ---------------------------------------------------------------- time-weighted

  /** A day of an account kept in units: money buys or sells units at the price before the day. */
  predicate UnitDay(before: real, flow: real, after: real, units: real, price: real, units': real, price': real) {
    && price > 0.0 && price' > 0.0 && before == units * price && after == units' * price'
    && (units' - units) * price == flow
  }

  ghost predicate InUnits(points: seq<DayPoint>, units: seq<real>, prices: seq<real>) {
    && |units| == |prices| == |points|
    && (forall i :: 1 <= i < |points| ==>
          UnitDay(points[i - 1].equity, points[i].flow, points[i].equity,
                  units[i - 1], prices[i - 1], units[i], prices[i]))
  }

  lemma LinkIsPriceMove(before: real, flow: real, after: real, units: real, price: real, units': real, price': real)
    requires UnitDay(before, flow, after, units, price, units', price') && after > 0.0
    ensures Link(before, flow, after).valid && Times(price, Link(before, flow, after).factor) == price'
  {
    BaseIs(units, units', price);
    PositiveFactor(units', price');
    SamePart(units', price, price', before + flow, after);
  }

  lemma BaseIs(units: real, units': real, price: real)
    ensures units * price + (units' - units) * price == units' * price
  {
  }

  lemma PositiveFactor(a: real, b: real)
    requires b > 0.0 && a * b > 0.0
    ensures a > 0.0
  {
    MulMono(0.0, a, b);
  }

  lemma SamePart(units: real, price: real, price': real, base: real, after: real)
    requires units > 0.0 && price > 0.0 && base == units * price && after == units * price'
    ensures base > 0.0 && Times(price, after / base) == price'
  {
    var q := after / base;
    assert q * base == after;
    assert units * (q * price - price') == 0.0;
  }

  lemma ChainStep(c: Chain, link: Chain, first: real, before: real, after: real)
    requires c.valid && link.valid && Times(first, c.factor) == before && Times(before, link.factor) == after
    ensures Join(c, link).valid && Times(first, Join(c, link).factor) == after
  {
  }

  lemma {:induction false} UnitPriceGrowsTo(points: seq<DayPoint>, units: seq<real>, prices: seq<real>, n: nat)
    requires InUnits(points, units, prices) && 0 < n <= |points|
    requires forall i :: 0 <= i < |points| ==> points[i].equity > 0.0
    ensures Twr(points[..n]).valid && Times(prices[0], Twr(points[..n]).factor) == prices[n - 1]
  {
    if n >= 2 {
      UnitPriceGrowsTo(points, units, prices, n - 1);
      TwrSnoc(points, n - 1);
      var before, flow, after := points[n - 2].equity, points[n - 1].flow, points[n - 1].equity;
      LinkIsPriceMove(before, flow, after, units[n - 2], prices[n - 2], units[n - 1], prices[n - 1]);
      ChainStep(Twr(points[..n - 1]), Link(before, flow, after), prices[0], prices[n - 2], prices[n - 1]);
    }
  }

  /** With any flows whatever, the return is the growth of the price of a unit from the first day to the last. */
  lemma ReturnIsUnitPriceGrowth(points: seq<DayPoint>, units: seq<real>, prices: seq<real>)
    requires points != [] && InUnits(points, units, prices)
    requires forall i :: 0 <= i < |points| ==> points[i].equity > 0.0
    ensures Twr(points).valid && Times(prices[0], Twr(points).factor) == prices[|points| - 1]
  {
    UnitPriceGrowsTo(points, units, prices, |points|);
    assert points[..|points|] == points;
  }

  /** A day that starts or ends without equity leaves the growth factor as it was. */
  lemma EmptyDayGrowsNothing(points: seq<DayPoint>, day: DayPoint)
    requires points != []
    requires points[|points| - 1].equity + day.flow <= 0.0 || day.equity <= 0.0
    ensures Twr(points + [day]).factor == Twr(points).factor
  {
    TwrSnoc(points + [day], |points|);
    assert (points + [day])[..|points|] == points && (points + [day])[..|points| + 1] == points + [day];
    TimesOne(Twr(points).factor);
  }

  lemma TimesOne(a: real)
    ensures a * 1.0 == a
  {
  }

  /** The benchmark account as if it were the account itself. */
  function AsAccount(p: DayPoint): DayPoint
    requires p.benchmark.Some?
  {
    p.(equity := p.benchmark.value)
  }

  function AsAccounts(points: seq<DayPoint>): (r: seq<DayPoint>)
    requires forall i :: 0 <= i < |points| ==> points[i].benchmark.Some?
    ensures |r| == |points| && forall i :: 0 <= i < |points| ==> r[i] == AsAccount(points[i])
  {
    if points == [] then [] else AsAccounts(points[..|points| - 1]) + [AsAccount(points[|points| - 1])]
  }

  /** Where the benchmark has a value every day, its return is that of an account with those values. */
  lemma {:induction false} BenchmarkIsAnAccount(points: seq<DayPoint>)
    requires forall i :: 0 <= i < |points| ==> points[i].benchmark.Some?
    ensures BenchTwr(points) == Twr(AsAccounts(points))
  {
    if |points| >= 2 {
      var n := |points|;
      BenchmarkIsAnAccount(points[..n - 1]);
      assert AsAccounts(points)[..n - 1] == AsAccounts(points[..n - 1]);
    }
  }

  /** A day without a benchmark value, or right behind one, counts for nothing. */
  lemma UnvaluedDayCountsNothing(points: seq<DayPoint>, day: DayPoint)
    requires points != [] && (day.benchmark.None? || points[|points| - 1].benchmark.None?)
    ensures BenchTwr(points + [day]) == BenchTwr(points)
  {
    assert (points + [day])[..|points|] == points;
    JoinUnit(BenchTwr(points));
  }

  // ---------------------------------------------------------------- money-weighted

  /** An account that grows at the rate from one flow to the next and takes each flow on its date. */
  function Balance(flows: seq<Flow>, growth: (real, int) -> real, rate: real): real {
    if flows == [] then 0.0
    else if |flows| == 1 then flows[0].value
    else
      var n := |flows| - 1;
      Times(Balance(flows[..n], growth, rate), growth(rate, flows[n].date - flows[n - 1].date)) + flows[n].value
  }

  /** Growing over two stretches one after the other is growing over both together. */
  ghost predicate Compounds(growth: (real, int) -> real, rate: real) {
    forall a, b {:trigger Times(growth(rate, a), growth(rate, b))} ::
      growth(rate, a + b) == Times(growth(rate, a), growth(rate, b))
  }

  lemma {:induction false} NpvSnoc(flows: seq<Flow>, f: Flow, t0: int, growth: (real, int) -> real, rate: real)
    requires Grows(growth) && rate > -1.0
    ensures Npv(flows + [f], t0, growth, rate) == Npv(flows, t0, growth, rate) + f.value / growth(rate, f.date - t0)
  {
    if flows == [] {
      assert flows + [f] == [f] && [f][1..] == [];
    } else {
      assert (flows + [f])[1..] == flows[1..] + [f];
      NpvSnoc(flows[1..], f, t0, growth, rate);
    }
  }

  lemma GrownAlong(npv: real, value: real, before: real, step: real, after: real, balance: real)
    requires before > 0.0 && after > 0.0 && after == Times(before, step) && balance == Times(npv, before)
    ensures Times(balance, step) + value == Times(npv + value / after, after)
  {
    var q := value / after;
    assert q * after == value;
    assert balance * step == npv * (before * step);
  }

  lemma Stretches(growth: (real, int) -> real, rate: real, a: int, b: int, c: int)
    requires Compounds(growth, rate) && c == a + b
    ensures growth(rate, c) == Times(growth(rate, a), growth(rate, b))
  {
    assert growth(rate, a + b) == Times(growth(rate, a), growth(rate, b));
  }

  lemma AnotherFlow(flows: seq<Flow>, growth: (real, int) -> real, rate: real, before: real, step: real, after: real)
    requires Grows(growth) && rate > -1.0 && |flows| >= 2
    requires var n, t0 := |flows| - 1, flows[0].date;
      && before == growth(rate, flows[n - 1].date - t0) && after == growth(rate, flows[n].date - t0)
      && step == growth(rate, flows[n].date - flows[n - 1].date) && after == Times(before, step)
      && Balance(flows[..n], growth, rate) == Times(Npv(flows[..n], t0, growth, rate), before)
    ensures Balance(flows, growth, rate) == Times(Npv(flows, flows[0].date, growth, rate), after)
  {
    var t0, n := flows[0].date, |flows| - 1;
    assert flows == flows[..n] + [flows[n]];
    NpvSnoc(flows[..n], flows[n], t0, growth, rate);
    GrownAlong(Npv(flows[..n], t0, growth, rate), flows[n].value, before, step, after,
               Balance(flows[..n], growth, rate));
  }

  lemma DividedAndBack(a: real, g: real)
    requires g > 0.0
    ensures a == Times(a / g, g)
  {
  }

  lemma OneFlow(f: Flow, growth: (real, int) -> real, rate: real)
    requires Grows(growth) && rate > -1.0
    ensures Balance([f], growth, rate) == Times(Npv([f], f.date, growth, rate), growth(rate, 0))
  {
    var npv := f.value / growth(rate, 0);
    assert [f][1..] == [] && Npv([f], f.date, growth, rate) == npv;
    DividedAndBack(f.value, growth(rate, 0));
  }

  /** The present value is the account's final balance, discounted back to the first date. */
  lemma {:induction false} PresentValueIsTheBalance(flows: seq<Flow>, growth: (real, int) -> real, rate: real)
    requires Grows(growth) && rate > -1.0 && Compounds(growth, rate) && flows != []
    ensures Balance(flows, growth, rate) ==
            Times(Npv(flows, flows[0].date, growth, rate), growth(rate, flows[|flows| - 1].date - flows[0].date))
  {
    if |flows| == 1 {
      assert flows == [flows[0]];
      OneFlow(flows[0], growth, rate);
    } else {
      var n := |flows| - 1;
      PresentValueIsTheBalance(flows[..n], growth, rate);
      Stretches(growth, rate, flows[n - 1].date - flows[0].date, flows[n].date - flows[n - 1].date,
                flows[n].date - flows[0].date);
      NextFlow(flows, growth, rate);
    }
  }

  lemma NextFlow(flows: seq<Flow>, growth: (real, int) -> real, rate: real)
    requires Grows(growth) && rate > -1.0 && |flows| >= 2
    requires var n, t0 := |flows| - 1, flows[0].date;
      && Balance(flows[..n], growth, rate) ==
         Times(Npv(flows[..n], t0, growth, rate), growth(rate, flows[n - 1].date - t0))
      && growth(rate, flows[n].date - t0) ==
         Times(growth(rate, flows[n - 1].date - t0), growth(rate, flows[n].date - flows[n - 1].date))
    ensures Balance(flows, growth, rate) ==
            Times(Npv(flows, flows[0].date, growth, rate), growth(rate, flows[|flows| - 1].date - flows[0].date))
  {
    var t0, n := flows[0].date, |flows| - 1;
    var before, step := growth(rate, flows[n - 1].date - t0), growth(rate, flows[n].date - flows[n - 1].date);
    AnotherFlow(flows, growth, rate, before, step, growth(rate, flows[n].date - t0));
  }

  /** So the rate sought is the one at which the account that takes all the flows ends up empty. */
  lemma RateEmptiesTheAccount(flows: seq<Flow>, growth: (real, int) -> real, rate: real)
    requires Grows(growth) && rate > -1.0 && Compounds(growth, rate) && flows != []
    ensures Npv(flows, flows[0].date, growth, rate) == 0.0 <==> Balance(flows, growth, rate) == 0.0
  {
    PresentValueIsTheBalance(flows, growth, rate);
    NoZeroProduct(Npv(flows, flows[0].date, growth, rate), growth(rate, flows[|flows| - 1].date - flows[0].date));
  }

  lemma NoZeroProduct(a: real, b: real)
    requires b > 0.0
    ensures Times(a, b) == 0.0 <==> a == 0.0
  {
  }

  /** Halving so many times divides by so many powers of two. */
  lemma {:induction false} HalvedIs(width: real, times: nat)
    ensures Halved(width, times) * Doubled(times) as real == width
  {
    if times > 0 {
      HalvedIs(width, times - 1);
      HalfTwice(Halved(width, times - 1), Doubled(times - 1) as real);
    }
  }

  function Doubled(times: nat): int { if times == 0 then 1 else 2 * Doubled(times - 1) }

  lemma HalfTwice(a: real, b: real)
    ensures (a / 2.0) * (2.0 * b) == a * b
  {
  }
}
