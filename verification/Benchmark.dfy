/** What the benchmark account buys, over any closes: each day's money at the first positive close from that day on. */
module Benchmark {
  import opened Log
  import opened Portfolio
  import opened History
  import opened Sums

  /** The benchmark can be bought on this day. */
  predicate Open(spy: seq<Bar>, day: int) { CloseAt(spy, day).Some? && CloseAt(spy, day).value > 0.0 }

  /** The first day from this one through `date` on which it can be bought. */
  function FirstOpen(spy: seq<Bar>, day: int, date: int): (r: Option<int>)
    ensures r.Some? ==> day <= r.value <= date && Open(spy, r.value)
    ensures forall k :: day <= k <= date && (r.None? || k < r.value) ==> !Open(spy, k)
    decreases date - day + 1
  {
    if date < day then None
    else if Open(spy, day) then Some(day)
    else FirstOpen(spy, day + 1, date)
  }

  /** The shares that the money of one day has bought by `date`, and the money of that day still waiting. */
  function SharesFor(txs: seq<Tx>, spy: seq<Bar>, day: int, date: int): real {
    var e := FirstOpen(spy, day, date);
    if e.None? then 0.0 else FlowOn(txs, day) / CloseAt(spy, e.value).value
  }

  function WaitingFor(txs: seq<Tx>, spy: seq<Bar>, day: int, date: int): real {
    if FirstOpen(spy, day, date).None? then FlowOn(txs, day) else 0.0
  }

  /** The same of all the days from the first through `last`. */
  function SharesBought(txs: seq<Tx>, spy: seq<Bar>, first: int, last: int, date: int): real
    decreases last - first + 1
  {
    if last < first then 0.0
    else SharesBought(txs, spy, first, last - 1, date) + SharesFor(txs, spy, last, date)
  }

  function Waiting(txs: seq<Tx>, spy: seq<Bar>, first: int, last: int, date: int): real
    decreases last - first + 1
  {
    if last < first then 0.0 else Waiting(txs, spy, first, last - 1, date) + WaitingFor(txs, spy, last, date)
  }

  lemma {:induction false} FirstOpenNext(spy: seq<Bar>, day: int, date: int)
    requires day <= date
    ensures FirstOpen(spy, day, date) ==
            if FirstOpen(spy, day, date - 1).Some? then FirstOpen(spy, day, date - 1)
            else if Open(spy, date) then Some(date) else None
    decreases date - day
  {
    if day < date && !Open(spy, day) {
      FirstOpenNext(spy, day + 1, date);
    }
  }

  lemma QuotientAdds(a: real, b: real, c: real)
    requires c > 0.0
    ensures (a + b) / c == a / c + b / c
  {
  }

  /** What another day does to the money of the days before it: on an open day all that waited is invested. */
  lemma {:induction false} AnotherDay(txs: seq<Tx>, spy: seq<Bar>, first: int, last: int, date: int)
    requires last < date
    ensures var close := CloseAt(spy, date);
      SharesBought(txs, spy, first, last, date) ==
      SharesBought(txs, spy, first, last, date - 1)
      + if Open(spy, date) then Waiting(txs, spy, first, last, date - 1) / close.value else 0.0
    ensures Waiting(txs, spy, first, last, date) ==
            if Open(spy, date) then 0.0 else Waiting(txs, spy, first, last, date - 1)
    decreases last - first + 1
  {
    if first <= last {
      AnotherDay(txs, spy, first, last - 1, date);
      FirstOpenNext(spy, last, date);
      if Open(spy, date) {
        QuotientAdds(Waiting(txs, spy, first, last - 1, date - 1), WaitingFor(txs, spy, last, date - 1),
                     CloseAt(spy, date).value);
      }
    }
  }

  /** The most shares by which withdrawals have ever overdrawn the account. */
  function Overdrawn(txs: seq<Tx>, spy: seq<Bar>, start: int, date: int): real
    decreases date - start + 1
  {
    if date < start then 0.0
    else Max(Overdrawn(txs, spy, start, date - 1), -SharesBought(txs, spy, start, date, date))
  }

  /** However much is withdrawn, the account never holds fewer than no shares. */
  lemma {:induction false} NeverShort(txs: seq<Tx>, spy: seq<Bar>, start: int, date: int)
    ensures BenchAt(txs, spy, start, date).shares >= 0.0
    decreases date - start + 1
  {
    if date >= start {
      NeverShort(txs, spy, start, date - 1);
    }
  }

  /** One more day, with its own money: on an open day that is invested with all that waited. */
  lemma OneMoreDay(txs: seq<Tx>, spy: seq<Bar>, start: int, date: int, bought: real, waiting: real, money: real)
    requires start <= date && money == FlowOn(txs, date)
    requires bought == SharesBought(txs, spy, start, date - 1, date - 1)
    requires waiting == Waiting(txs, spy, start, date - 1, date - 1)
    ensures SharesBought(txs, spy, start, date, date) ==
            bought + if Open(spy, date) then (waiting + money) / CloseAt(spy, date).value else 0.0
    ensures Waiting(txs, spy, start, date, date) == if Open(spy, date) then 0.0 else waiting + money
  {
    AnotherDay(txs, spy, start, date - 1, date);
    FirstOpenNext(spy, date, date);
    if Open(spy, date) {
      QuotientAdds(waiting, money, CloseAt(spy, date).value);
    }
  }

  /** One day of the account, whose shares are those bought and those it was once short of; `more` is the day's own. */
  lemma NextDay(before: Bench, after: Bench, money: real, close: Option<real>, bought: real, short: real, more: real)
    requires before.shares == bought + short && before.shares >= 0.0 && after == BenchDay(before, money, close)
    requires more == if close.Some? && close.value > 0.0 then (before.pending + money) / close.value else 0.0
    ensures after.shares == bought + more + Max(short, -(bought + more))
    ensures after.pending == if close.Some? && close.value > 0.0 then 0.0 else before.pending + money
  {
  }

  /**
   * At every date the account holds the shares bought, and what withdrawals have overdrawn at most is given back; what
   * still waits is the money of the days without a close since.
   */
  lemma {:induction false} BuysAtTheNextClose(txs: seq<Tx>, spy: seq<Bar>, start: int, date: int)
    requires date >= start - 1
    ensures BenchAt(txs, spy, start, date) ==
            Bench(SharesBought(txs, spy, start, date, date) + Overdrawn(txs, spy, start, date),
                  Waiting(txs, spy, start, date, date))
    decreases date - start + 1
  {
    if date >= start {
      BuysAtTheNextClose(txs, spy, start, date - 1);
      NeverShort(txs, spy, start, date - 1);
      var bought := SharesBought(txs, spy, start, date - 1, date - 1);
      var waiting := Waiting(txs, spy, start, date - 1, date - 1);
      OneMoreDay(txs, spy, start, date, bought, waiting, FlowOn(txs, date));
      NextDay(BenchAt(txs, spy, start, date - 1), BenchAt(txs, spy, start, date), FlowOn(txs, date), CloseAt(spy, date),
              bought, Overdrawn(txs, spy, start, date - 1), SharesBought(txs, spy, start, date, date) - bought);
    }
  }

  lemma ValueAtTheClose(spy: seq<Bar>, bench: Bench, date: int)
    ensures BenchValue(bench, CloseAt(spy, date)) ==
            if Open(spy, date) then Some(Times(bench.shares, CloseAt(spy, date).value)) else None
  {
  }

  /** Charted is the value of the shares, on the days that have a positive close. */
  lemma ChartedAtTheClose(txs: seq<Tx>, quotes: Quotes, spy: seq<Bar>, date: int, bench: Bench)
    requires txs != [] && Replay(EMPTY, UpTo(txs, date)).Ok? && bench == BenchAt(txs, spy, Day(txs[0]), date)
    ensures PointAt(txs, quotes, Some(spy), date).benchmark ==
            if Open(spy, date) then Some(Times(bench.shares, CloseAt(spy, date).value)) else None
  {
    ValueAtTheClose(spy, bench, date);
  }

  /** A day is twenty-four hours from midnight. */
  lemma DayOfAnInstant(tx: Tx)
    ensures Day(tx) * 86_400_000_000_000 <= tx.ts < (Day(tx) + 1) * 86_400_000_000_000
  {
  }
}
