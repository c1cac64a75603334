/** Performance over a window of day points: chained time-weighted return and the bisection for the money-weighted. */
module Returns {
  import opened Log
  import opened History
  import opened Sums

  /** The growth factor of a stretch of days, and whether it exists. */
  datatype Chain = Chain(factor: real, valid: bool)

  const UNIT := Chain(1.0, true)

  function Join(a: Chain, b: Chain): Chain { Chain(a.factor * b.factor, a.valid && b.valid) }

  /** One day's link: growth over the previous value plus the day's flow; a flat zero day contributes nothing. */
  function Link(before: real, flow: real, after: real): Chain {
    var base := before + flow;
    if base > 0.0 && after > 0.0 then Chain(after / base, true)
    else Chain(1.0, after == base)
  }

  function Twr(points: seq<DayPoint>): Chain {
    if |points| < 2 then UNIT
    else
      var n := |points|;
      Join(Twr(points[..n - 1]), Link(points[n - 2].equity, points[n - 1].flow, points[n - 1].equity))
  }

  /** The benchmark chains only over neighbouring days that both have a value. */
  function BenchLink(before: Option<real>, flow: real, after: Option<real>): Chain {
    if before.None? || after.None? then UNIT else Link(before.value, flow, after.value)
  }

  function BenchTwr(points: seq<DayPoint>): Chain {
    if |points| < 2 then UNIT
    else
      var n := |points|;
      Join(BenchTwr(points[..n - 1]), BenchLink(points[n - 2].benchmark, points[n - 1].flow, points[n - 1].benchmark))
  }

  lemma JoinAssociates(a: Chain, b: Chain, c: Chain)
    ensures Join(Join(a, b), c) == Join(a, Join(b, c))
  {
    assert (a.factor * b.factor) * c.factor == a.factor * (b.factor * c.factor);
  }

  /** Over two windows that share a boundary day, factors multiply and validity is joint. */
  lemma {:induction false} TwrChains(xs: seq<DayPoint>, boundary: DayPoint, ys: seq<DayPoint>)
    ensures Twr(xs + [boundary] + ys) == Join(Twr(xs + [boundary]), Twr([boundary] + ys))
    decreases |ys|
  {
    var n := |ys|;
    if n == 0 {
      assert xs + [boundary] + ys == xs + [boundary] && [boundary] + ys == [boundary];
    } else {
      var all, right := xs + [boundary] + ys, [boundary] + ys;
      TwrChains(xs, boundary, ys[..n - 1]);
      assert all[..|all| - 1] == xs + [boundary] + ys[..n - 1];
      assert right[..n] == [boundary] + ys[..n - 1];
      assert all[|all| - 2] == right[n - 1] && all[|all| - 1] == right[n];
      var link := Link(right[n - 1].equity, right[n].flow, right[n].equity);
      JoinAssociates(Twr(xs + [boundary]), Twr(right[..n]), link);
    }
  }

  lemma TwrSnoc(points: seq<DayPoint>, i: nat)
    requires 1 <= i < |points|
    ensures Twr(points[..i + 1]) ==
            Join(Twr(points[..i]), Link(points[i - 1].equity, points[i].flow, points[i].equity))
    ensures BenchTwr(points[..i + 1]) ==
            Join(BenchTwr(points[..i]), BenchLink(points[i - 1].benchmark, points[i].flow, points[i].benchmark))
  {
    assert points[..i + 1][..i] == points[..i];
  }

  lemma LinkWithoutFlow(first: real, before: real, after: real)
    requires before > 0.0 && after > 0.0 && first > 0.0
    ensures Join(Chain(before / first, true), Link(before, 0.0, after)) == Chain(after / first, true)
  {
    var factor, step := before / first, after / before;
    assert step * before == after && factor * first == before;
    assert factor * step * first == after;
  }

  lemma {:induction false} TwrTelescopesTo(points: seq<DayPoint>, n: nat)
    requires 0 < n <= |points| && forall i :: 0 <= i < |points| ==> points[i].equity > 0.0
    requires forall i :: 1 <= i < |points| ==> points[i].flow == 0.0
    ensures Twr(points[..n]) == Chain(points[n - 1].equity / points[0].equity, true)
  {
    if n >= 2 {
      TwrTelescopesTo(points, n - 1);
      TwrSnoc(points, n - 1);
      LinkWithoutFlow(points[0].equity, points[n - 2].equity, points[n - 1].equity);
    } else {
      assert points[0].equity / points[0].equity == 1.0;
    }
  }

  /** Without flows after the first day and with positive equity throughout, the return is last over first. */
  lemma TwrTelescopes(points: seq<DayPoint>)
    requires points != [] && forall i :: 0 <= i < |points| ==> points[i].equity > 0.0
    requires forall i :: 1 <= i < |points| ==> points[i].flow == 0.0
    ensures Twr(points) == Chain(points[|points| - 1].equity / points[0].equity, true)
  {
    TwrTelescopesTo(points, |points|);
    assert points[..|points|] == points;
  }

  function ScalePoint(p: DayPoint, k: real): DayPoint { p.(equity := p.equity * k, flow := p.flow * k) }

  function Scaled(points: seq<DayPoint>, k: real): (s: seq<DayPoint>)
    ensures |s| == |points|
  {
    if points == [] then [] else [ScalePoint(points[0], k)] + Scaled(points[1..], k)
  }

  lemma LinkScales(before: real, flow: real, after: real, k: real)
    requires k > 0.0
    ensures Link(before * k, flow * k, after * k) == Link(before, flow, after)
  {
    var base := before + flow;
    assert before * k + flow * k == base * k;
    MulMono(0.0, base, k);
    MulMono(0.0, after, k);
    MulMono(after, base, k);
    MulMono(base, after, k);
    if base > 0.0 {
      RatioScales(after, base, k);
    }
  }

  lemma RatioScales(a: real, b: real, k: real)
    requires b > 0.0 && k > 0.0
    ensures b * k > 0.0 && (a * k) / (b * k) == a / b
  {
    var q := a / b;
    assert q * b == a;
    assert q * (b * k) == a * k;
  }

  lemma LinkScalesTo(before: real, flow: real, after: real, k: real, before': real, flow': real, after': real)
    requires k > 0.0 && before' == before * k && flow' == flow * k && after' == after * k
    ensures Link(before', flow', after') == Link(before, flow, after)
  {
    LinkScales(before, flow, after, k);
  }

  lemma ScaledLink(p: DayPoint, q: DayPoint, k: real)
    requires k > 0.0
    ensures var u, v := ScalePoint(p, k), ScalePoint(q, k);
      Link(u.equity, v.flow, v.equity) == Link(p.equity, q.flow, q.equity)
  {
    var u, v := ScalePoint(p, k), ScalePoint(q, k);
    LinkScalesTo(p.equity, q.flow, q.equity, k, u.equity, v.flow, v.equity);
  }

  lemma {:induction false} ScaledAt(points: seq<DayPoint>, k: real, i: nat)
    requires i < |points|
    ensures Scaled(points, k)[i] == ScalePoint(points[i], k)
  {
    if i > 0 {
      ScaledAt(points[1..], k, i - 1);
    }
  }

  lemma {:induction false} TwrScalesTo(points: seq<DayPoint>, k: real, n: nat)
    requires k > 0.0 && n <= |points|
    ensures Twr(Scaled(points, k)[..n]) == Twr(points[..n])
  {
    if n >= 2 {
      TwrScalesTo(points, k, n - 1);
      TwrSnoc(points, n - 1);
      TwrSnoc(Scaled(points, k), n - 1);
      ScaledAt(points, k, n - 2);
      ScaledAt(points, k, n - 1);
      ScaledLink(points[n - 2], points[n - 1], k);
    }
  }

  /** Measuring the same account in another currency unit changes nothing. */
  lemma TwrScales(points: seq<DayPoint>, k: real)
    requires k > 0.0
    ensures Twr(Scaled(points, k)) == Twr(points)
  {
    TwrScalesTo(points, k, |points|);
    assert points[..|points|] == points && Scaled(points, k)[..|points|] == Scaled(points, k);
  }

  /** A day whose change the chain can represent: no change at all, or growth between positive values. */
  predicate Representable(before: real, flow: real, after: real) {
    after == before + flow || (before + flow > 0.0 && after > 0.0)
  }

  lemma {:induction false} TwrExistsTo(points: seq<DayPoint>, n: nat)
    requires n <= |points|
    ensures Twr(points[..n]).valid <==>
            forall i :: 1 <= i < n ==> Representable(points[i - 1].equity, points[i].flow, points[i].equity)
    ensures Twr(points[..n]).factor > 0.0
  {
    if n >= 2 {
      TwrExistsTo(points, n - 1);
      TwrSnoc(points, n - 1);
      JoinPositive(Twr(points[..n - 1]), points[n - 2].equity, points[n - 1].flow, points[n - 1].equity);
    }
  }

  /** The return is absent exactly when some day moved through zero or negative equity; the factor stays positive. */
  lemma TwrExistsExactlyWhen(points: seq<DayPoint>)
    ensures Twr(points).valid <==>
            forall i :: 1 <= i < |points| ==> Representable(points[i - 1].equity, points[i].flow, points[i].equity)
    ensures Twr(points).factor > 0.0
  {
    TwrExistsTo(points, |points|);
    assert points[..|points|] == points;
  }

  lemma JoinPositive(c: Chain, before: real, flow: real, after: real)
    requires c.factor > 0.0
    ensures Join(c, Link(before, flow, after)).factor > 0.0
    ensures Join(c, Link(before, flow, after)).valid <==> c.valid && Representable(before, flow, after)
  {
    var base, step := before + flow, Link(before, flow, after).factor;
    if base > 0.0 && after > 0.0 {
      assert step * base == after;
    }
    assert step > 0.0;
  }

  // ---------------------------------------------------------------- the loops

  datatype Metrics = Metrics(twr: Option<real>, bench: Option<real>)

  /** The growth factors the percentages are rounded from: none for a window of fewer than two days. */
  method ChainReturns(points: seq<DayPoint>) returns (m: Metrics)
    ensures |points| < 2 ==> m == Metrics(None, None)
    ensures |points| >= 2 ==>
              m.twr == (if Twr(points).valid then Some(Twr(points).factor) else None)
    ensures |points| >= 2 ==>
              m.bench == (if points[0].benchmark.Some? && BenchTwr(points).valid
                          then Some(BenchTwr(points).factor) else None)
  {
    if |points| < 2 { return Metrics(None, None); }
    var twr, bench := UNIT, UNIT;
    var i := 1;
    while i < |points|
      invariant 1 <= i <= |points|
      invariant twr == Twr(points[..i]) && bench == BenchTwr(points[..i])
    {
      TwrSnoc(points, i);
      var prev, day := points[i - 1], points[i];
      twr := Extend(twr, prev.equity, day.flow, day.equity);
      if prev.benchmark.Some? && day.benchmark.Some? {
        bench := Extend(bench, prev.benchmark.value, day.flow, day.benchmark.value);
      } else {
        JoinUnit(bench);
      }
      i := i + 1;
    }
    assert points[..i] == points;
    m := Metrics(if twr.valid then Some(twr.factor) else None,
                 if bench.valid && points[0].benchmark.Some? then Some(bench.factor) else None);
  }

  lemma JoinUnit(c: Chain)
    ensures Join(c, UNIT) == c
  {
  }

  method Extend(c: Chain, before: real, flow: real, after: real) returns (r: Chain)
    ensures r == Join(c, Link(before, flow, after))
  {
    r := c;
    var base := before + flow;
    if base > 0.0 && after > 0.0 {
      r := r.(factor := r.factor * (after / base));
    } else if after != base {
      r := r.(valid := false);
    }
  }

  // ---------------------------------------------------------------- the money-weighted return

  datatype Flow = Flow(date: int, value: real)

  /** Growth over a number of days at an annual rate; only its sign matters here. */
  ghost predicate Grows(growth: (real, int) -> real) {
    forall rate, days :: rate > -1.0 ==> growth(rate, days) > 0.0
  }

  function Npv(flows: seq<Flow>, t0: int, growth: (real, int) -> real, rate: real): real
    requires Grows(growth) && rate > -1.0
  {
    if flows == [] then 0.0
    else flows[0].value / growth(rate, flows[0].date - t0) + Npv(flows[1..], t0, growth, rate)
  }

  const LOWEST := -0.9999
  const HIGHEST := 1000.0
  const ROUNDS := 200
  const CLOSE_ENOUGH := 0.000000001

  predicate BothSigns(flows: seq<Flow>) {
    (exists i :: 0 <= i < |flows| && flows[i].value < 0.0) && (exists i :: 0 <= i < |flows| && flows[i].value > 0.0)
  }

  function Halved(width: real, times: nat): real {
    if times == 0 then width else Halved(width, times - 1) / 2.0
  }

  /** Some interval of this width around the rate still has a change of sign. */
  ghost predicate Bracketed(flows: seq<Flow>, growth: (real, int) -> real, rate: real, width: real)
    requires Grows(growth) && flows != []
  {
    exists lo, hi ::
      && LOWEST <= lo <= rate <= hi && hi - lo == width
      && (Npv(flows, flows[0].date, growth, lo) >= 0.0) != (Npv(flows, flows[0].date, growth, hi) >= 0.0)
  }

  /**
   * Bisection for the rate of zero net present value. There is no answer for one-sided flows or when both ends of
   * the search range have the same sign; an answer is a near-zero, or sits where the sign changes within the last
   * interval.
   */
  method Xirr(flows: seq<Flow>, growth: (real, int) -> real) returns (rate: Option<real>)
    requires Grows(growth)
    ensures rate.Some? <==>
              && |flows| >= 2
              && (exists i :: 0 <= i < |flows| && flows[i].value < 0.0)
              && (exists i :: 0 <= i < |flows| && flows[i].value > 0.0)
              && (Npv(flows, flows[0].date, growth, -0.9999) >= 0.0) !=
                 (Npv(flows, flows[0].date, growth, 1000.0) >= 0.0)
    ensures rate.Some? ==>
              -0.9999 <= rate.value <= 1000.0
              && (-0.000000001 < Npv(flows, flows[0].date, growth, rate.value) < 0.000000001
                  || Bracketed(flows, growth, rate.value, Halved(1000.9999, 200)))
  {
    if |flows| < 2 || !BothSigns(flows) { return None; }
    var t0 := flows[0].date;
    var lo, hi := LOWEST, HIGHEST;
    var npvLo, npvHi := Npv(flows, t0, growth, lo), Npv(flows, t0, growth, hi);
    if (npvLo >= 0.0) == (npvHi >= 0.0) { return None; }
    var round := 0;
    while round < ROUNDS
      invariant 0 <= round <= ROUNDS
      invariant LOWEST <= lo <= hi <= HIGHEST && hi - lo == Halved(HIGHEST - LOWEST, round)
      invariant (Npv(flows, t0, growth, lo) >= 0.0) == (npvLo >= 0.0)
      invariant (Npv(flows, t0, growth, hi) >= 0.0) != (npvLo >= 0.0)
    {
      var mid := (lo + hi) / 2.0;
      var v := Npv(flows, t0, growth, mid);
      if Abs(v) < CLOSE_ENOUGH { return Some(mid); }
      if (v >= 0.0) == (npvLo >= 0.0) {
        lo := mid;
      } else {
        hi := mid;
      }
      round := round + 1;
    }
    rate := Some((lo + hi) / 2.0);
  }

  function FlowValue(f: Flow): real { f.value }

  function PointFlow(p: DayPoint): real { p.flow }

  /** What one day pays in or out, seen from the investor; a day without a flow has no entry. */
  function Paid(p: DayPoint): seq<Flow> { if p.flow == 0.0 then [] else [Flow(p.date, -p.flow)] }

  function AllPaid(points: seq<DayPoint>): seq<Flow> {
    if points == [] then [] else AllPaid(points[..|points| - 1]) + Paid(points[|points| - 1])
  }

  /** Equity in the window before the first day's flow. */
  function Opening(points: seq<DayPoint>): real
    requires points != []
  {
    points[0].equity - points[0].flow
  }

  /** The flows the rate is solved for: opening equity in, every day's flow in or out, closing equity out. */
  function WindowFlows(points: seq<DayPoint>): seq<Flow>
    requires points != []
  {
    (if Opening(points) > 0.0 then [Flow(points[0].date, -Opening(points))] else [])
    + AllPaid(points)
    + [Flow(points[|points| - 1].date, points[|points| - 1].equity)]
  }

  lemma PaidNext(points: seq<DayPoint>, i: nat)
    requires i < |points|
    ensures AllPaid(points[..i + 1]) == AllPaid(points[..i]) + Paid(points[i])
  {
    assert points[..i + 1][..i] == points[..i];
  }

  lemma PaidAfter(head: seq<Flow>, paid: seq<Flow>, next: seq<Flow>)
    ensures head + (paid + next) == (head + paid) + next && (head + paid) + [] == head + paid
  {
  }

  method CollectFlows(points: seq<DayPoint>) returns (flows: Option<seq<Flow>>)
    requires |points| >= 2
    ensures flows == if Opening(points) < 0.0 then None else Some(WindowFlows(points))
  {
    var opening := points[0].equity - points[0].flow;
    if opening < 0.0 { return None; }
    var list: seq<Flow> := [];
    if opening > 0.0 {
      list := [Flow(points[0].date, -opening)];
    }
    ghost var head := list;
    var i := 0;
    while i < |points|
      invariant 0 <= i <= |points|
      invariant list == head + AllPaid(points[..i])
    {
      PaidNext(points, i);
      PaidAfter(head, AllPaid(points[..i]), Paid(points[i]));
      if points[i].flow != 0.0 {
        list := list + [Flow(points[i].date, -points[i].flow)];
      }
      i := i + 1;
    }
    var last := points[|points| - 1];
    assert points[..i] == points;
    flows := Some(list + [Flow(last.date, last.equity)]);
  }

  /** What the flows of one day add up to. */
  function OnDay(flows: seq<Flow>, day: int): real {
    if flows == [] then 0.0 else (if flows[0].date == day then flows[0].value else 0.0) + OnDay(flows[1..], day)
  }

  lemma {:induction false} OnDayAppend(a: seq<Flow>, b: seq<Flow>, day: int)
    ensures OnDay(a + b, day) == OnDay(a, day) + OnDay(b, day)
  {
    if a == [] {
      assert a + b == b;
    } else {
      AppendTail(a, b);
      OnDayAppend(a[1..], b, day);
    }
  }

  lemma OnDayOne(f: Flow, day: int)
    ensures OnDay([f], day) == if f.date == day then f.value else 0.0
  {
    assert [f][1..] == [];
  }

  lemma {:induction false} AllPaidOnDay(points: seq<DayPoint>, k: nat)
    requires k < |points| && forall i, j :: 0 <= i < j < |points| ==> points[i].date != points[j].date
    ensures OnDay(AllPaid(points), points[k].date) == -points[k].flow
  {
    var n := |points| - 1;
    var last := points[n];
    OnDayAppend(AllPaid(points[..n]), Paid(last), points[k].date);
    OnDayOne(Flow(last.date, -last.flow), points[k].date);
    if k < n {
      AllPaidOnDay(points[..n], k);
    } else {
      NothingPaidOn(points[..n], last.date);
    }
  }

  lemma {:induction false} NothingPaidOn(points: seq<DayPoint>, day: int)
    requires forall i :: 0 <= i < |points| ==> points[i].date != day
    ensures OnDay(AllPaid(points), day) == 0.0
  {
    if points != [] {
      var n := |points| - 1;
      NothingPaidOn(points[..n], day);
      OnDayAppend(AllPaid(points[..n]), Paid(points[n]), day);
      OnDayOne(Flow(points[n].date, -points[n].flow), day);
    }
  }

  /**
   * Each day of the window contributes its own flow with the sign turned; the first day also the opening equity as an
   * inflow and the last day the closing equity. No other day contributes anything.
   */
  lemma FlowsByDay(points: seq<DayPoint>, k: nat)
    requires k < |points| && Opening(points) >= 0.0
    requires forall i, j :: 0 <= i < j < |points| ==> points[i].date != points[j].date
    ensures OnDay(WindowFlows(points), points[k].date) ==
            -points[k].flow - (if k == 0 then Opening(points) else 0.0)
            + (if k == |points| - 1 then points[k].equity else 0.0)
  {
    var first, last, day := points[0], points[|points| - 1], points[k].date;
    var head := if Opening(points) > 0.0 then [Flow(first.date, -Opening(points))] else [];
    OnDayOne(Flow(first.date, -Opening(points)), day);
    OnDayOne(Flow(last.date, last.equity), day);
    OnDayAppend(head, AllPaid(points), day);
    OnDayAppend(head + AllPaid(points), [Flow(last.date, last.equity)], day);
    AllPaidOnDay(points, k);
  }

  lemma {:induction false} PaidInAll(points: seq<DayPoint>)
    ensures Sum(AllPaid(points), FlowValue) == -Sum(points, PointFlow)
  {
    if points != [] {
      var n := |points| - 1;
      PaidInAll(points[..n]);
      assert points == points[..n] + [points[n]] && [Flow(points[n].date, -points[n].flow)][1..] == [];
      SumSnoc(points[..n], points[n], PointFlow);
      SumAppend(AllPaid(points[..n]), Paid(points[n]), FlowValue);
    }
  }

  /** All flows of the window add up to its profit: closing less opening equity less everything paid in between. */
  lemma FlowsSumToProfit(points: seq<DayPoint>)
    requires points != [] && Opening(points) >= 0.0
    ensures Sum(WindowFlows(points), FlowValue) ==
            points[|points| - 1].equity - points[0].equity - Sum(points[1..], PointFlow)
  {
    var last := points[|points| - 1];
    var head := if Opening(points) > 0.0 then [Flow(points[0].date, -Opening(points))] else [];
    assert [Flow(points[0].date, -Opening(points))][1..] == [];
    PaidInAll(points);
    SumAppend(head, AllPaid(points), FlowValue);
    SumSnoc(head + AllPaid(points), Flow(last.date, last.equity), FlowValue);
  }
}
