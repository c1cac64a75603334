/** The daily equity series: one incremental replay against a from-scratch valuation of every day. */
module History {
  import opened Log
  import opened Portfolio
  import opened Sums

  /** The calendar day in UTC, counted from the epoch. */
  function Day(tx: Tx): int { tx.ts / NANOS_PER_DAY }

  datatype Bar = Bar(date: int, close: real)

  /** Ascending by date, one bar a day. */
  ghost predicate Chronological(bars: seq<Bar>) {
    forall i, j :: 0 <= i < j < |bars| ==> bars[i].date < bars[j].date
  }

  function CloseAt(bars: seq<Bar>, date: int): Option<real> {
    if bars == [] then None
    else if bars[|bars| - 1].date <= date then Some(bars[|bars| - 1].close)
    else CloseAt(bars[..|bars| - 1], date)
  }

  /** Bar i is the last one dated at or before the date. */
  ghost predicate Latest(bars: seq<Bar>, date: int, i: nat) {
    i < |bars| && bars[i].date <= date && forall j :: i < j < |bars| ==> bars[j].date > date
  }

  /** The last close at or before the date, and none exactly when every bar is later. */
  lemma {:induction false} CloseAtIsTheLatest(bars: seq<Bar>, date: int)
    requires Chronological(bars)
    ensures CloseAt(bars, date).None? <==> forall i :: 0 <= i < |bars| ==> bars[i].date > date
    ensures CloseAt(bars, date).Some? ==>
              exists i: nat :: Latest(bars, date, i) && CloseAt(bars, date).value == bars[i].close
  {
    var n := |bars|;
    if bars != [] && bars[n - 1].date > date {
      var front := bars[..n - 1];
      assert forall i :: 0 <= i < n - 1 ==> front[i] == bars[i];
      CloseAtIsTheLatest(front, date);
      if CloseAt(front, date).Some? {
        var i: nat :| Latest(front, date, i) && CloseAt(front, date).value == front[i].close;
        assert Latest(bars, date, i);
      }
    } else if bars != [] {
      assert Latest(bars, date, n - 1);
    }
  }

  datatype DayPoint = DayPoint(date: int, equity: real, cash: real, netDeposited: real, benchmark: Option<real>,
                               flow: real)

  type Quotes = map<string, seq<Bar>>

  // ---------------------------------------------------------------- the value of a book on one day

  function AvgCost(p: Position): Option<real> {
    if p.qty > 0.0 then Some(p.costBasis / p.qty) else None
  }

  function Price(quotes: Quotes, sym: string, p: Position, date: int): Option<real> {
    var close := if sym in quotes then CloseAt(quotes[sym], date) else None;
    if close.Some? then close else AvgCost(p)
  }

  function Worth(quotes: Quotes, sym: string, p: Position, date: int): real {
    var price := Price(quotes, sym, p, date);
    if p.qty == 0.0 || price.None? then 0.0 else price.value * p.qty
  }

  ghost function Worths(quotes: Quotes, positions: map<string, Position>, date: int): map<string, real> {
    map s | s in positions :: Worth(quotes, s, positions[s], date)
  }

  ghost function Holdings(quotes: Quotes, positions: map<string, Position>, date: int): real {
    Total(Worths(quotes, positions, date))
  }

  ghost function Equity(quotes: Quotes, b: Book, date: int): real {
    b.cash + Holdings(quotes, b.positions, date)
  }

  lemma HoldingsRemove(quotes: Quotes, positions: map<string, Position>, sym: string, date: int)
    requires sym in positions
    ensures Holdings(quotes, positions, date) ==
            Worth(quotes, sym, positions[sym], date) + Holdings(quotes, positions - {sym}, date)
  {
    TotalRemove(Worths(quotes, positions, date), sym);
    assert Worths(quotes, positions, date) - {sym} == Worths(quotes, positions - {sym}, date);
  }

  lemma HoldingsEmpty(quotes: Quotes, date: int)
    ensures Holdings(quotes, map[], date) == 0.0
  {
    assert Worths(quotes, map[], date) == map[];
  }

  /** A position counts at its last close, if it has one by then, and otherwise at what it cost. */
  ghost predicate Valued(quotes: Quotes, sym: string, p: Position, date: int, worth: real) {
    && (forall i: nat :: sym in quotes && Latest(quotes[sym], date, i) ==> worth == quotes[sym][i].close * p.qty)
    && (sym !in quotes || (forall i :: 0 <= i < |quotes[sym]| ==> quotes[sym][i].date > date) ==>
          worth == p.costBasis)
  }

  /** The positions together come to this much. */
  ghost predicate ValuedTogether(quotes: Quotes, positions: map<string, Position>, date: int, sum: real) {
    exists worths: map<string, real> ::
      && worths.Keys == positions.Keys && sum == Total(worths)
      && forall s :: s in positions ==> Valued(quotes, s, positions[s], date, worths[s])
  }

  lemma {:induction false} CloseIsTheLatest(bars: seq<Bar>, date: int, i: nat)
    requires Latest(bars, date, i)
    ensures CloseAt(bars, date) == Some(bars[i].close)
  {
    var n := |bars|;
    if i < n - 1 {
      assert bars[n - 1].date > date;
      assert forall j :: 0 <= j < n - 1 ==> bars[..n - 1][j] == bars[j];
      CloseIsTheLatest(bars[..n - 1], date, i);
    }
  }

  lemma {:induction false} NoCloseYet(bars: seq<Bar>, date: int)
    requires forall i :: 0 <= i < |bars| ==> bars[i].date > date
    ensures CloseAt(bars, date).None?
  {
    if bars != [] {
      NoCloseYet(bars[..|bars| - 1], date);
    }
  }

  lemma WorthIsValue(quotes: Quotes, sym: string, p: Position, date: int)
    requires GoodPosition(p)
    ensures Valued(quotes, sym, p, date, Worth(quotes, sym, p, date))
  {
    FlatCostsNothing(p);
    if sym in quotes {
      forall i: nat | Latest(quotes[sym], date, i)
        ensures Worth(quotes, sym, p, date) == quotes[sym][i].close * p.qty
      {
        CloseIsTheLatest(quotes[sym], date, i);
      }
      if forall i :: 0 <= i < |quotes[sym]| ==> quotes[sym][i].date > date {
        NoCloseYet(quotes[sym], date);
      }
    }
  }

  lemma HoldingsAreValued(quotes: Quotes, positions: map<string, Position>, date: int)
    requires forall s :: s in positions ==> GoodPosition(positions[s])
    ensures ValuedTogether(quotes, positions, date, Holdings(quotes, positions, date))
  {
    var worths := Worths(quotes, positions, date);
    forall s | s in positions ensures Valued(quotes, s, positions[s], date, worths[s]) {
      WorthIsValue(quotes, s, positions[s], date);
    }
    assert worths.Keys == positions.Keys;
  }

  method ValuePosition(quotes: Quotes, sym: string, position: Position, date: int) returns (worth: real)
    ensures worth == Worth(quotes, sym, position, date)
  {
    worth := 0.0;
    if position.qty != 0.0 {
      var price := Price(quotes, sym, position, date);
      if price.Some? {
        worth := price.value * position.qty;
      }
    }
  }

  /** Adds up cash and the positions, visiting them in any order. */
  method ValueBook(quotes: Quotes, cash: real, positions: map<string, Position>, date: int) returns (equity: real)
    ensures equity == cash + Holdings(quotes, positions, date)
    ensures (forall s :: s in positions ==> GoodPosition(positions[s])) ==>
              ValuedTogether(quotes, positions, date, equity - cash)
  {
    equity := cash;
    var rest := positions;
    while rest != map[]
      invariant equity + Holdings(quotes, rest, date) == cash + Holdings(quotes, positions, date)
      decreases |rest|
    {
      var sym :| sym in rest;
      var worth := ValuePosition(quotes, sym, rest[sym], date);
      HoldingsRemove(quotes, rest, sym, date);
      equity := equity + worth;
      rest := rest - {sym};
    }
    HoldingsEmpty(quotes, date);
    if forall s :: s in positions ==> GoodPosition(positions[s]) {
      HoldingsAreValued(quotes, positions, date);
    }
  }

  /** A position without any close counts at cost, so a book nobody quotes is worth its cash plus its cost basis. */
  lemma UnquotedBookIsWorthItsCost(b: Book, date: int)
    requires GoodBook(b)
    ensures Equity(map[], b, date) == b.cash + Total(Costs(b))
  {
    forall s | s in b.positions ensures Worth(map[], s, b.positions[s], date) == b.positions[s].costBasis {
      FlatCostsNothing(b.positions[s]);
    }
    assert Worths(map[], b.positions, date) == Costs(b);
  }

  lemma FlatCostsNothing(p: Position)
    requires GoodPosition(p)
    ensures p.qty >= 0.0 && (p.qty == 0.0 ==> p.costBasis == 0.0)
  {
    PositiveSum(p.lots);
  }

  lemma {:induction false} PositiveSum(lots: seq<Lot>)
    requires Positive(lots)
    ensures Sum(lots, LotQty) >= 0.0 && (Sum(lots, LotQty) == 0.0 ==> lots == [])
  {
    if lots != [] {
      PositiveSum(lots[1..]);
    }
  }

  // ---------------------------------------------------------------- what one day should show

  function UpTo(txs: seq<Tx>, date: int): seq<Tx> {
    if txs == [] then []
    else if Day(txs[0]) <= date then [txs[0]] + UpTo(txs[1..], date)
    else UpTo(txs[1..], date)
  }

  function ExternalFlow(tx: Tx): real {
    match tx.kind
    case Deposit => tx.price
    case Withdrawal => -tx.price
    case _ => 0.0
  }

  function FlowOn(txs: seq<Tx>, date: int): real {
    if txs == [] then 0.0
    else (if Day(txs[0]) == date then ExternalFlow(txs[0]) else 0.0) + FlowOn(txs[1..], date)
  }

  datatype Bench = Bench(shares: real, pending: real)

  /** Money waits until the benchmark has a positive close, then buys in at it; overdrawing clamps at no shares. */
  function BenchDay(s: Bench, flow: real, close: Option<real>): Bench {
    var due := s.pending + flow;
    if close.None? || close.value <= 0.0 then Bench(s.shares, due)
    else if due == 0.0 then Bench(s.shares, 0.0)
    else Bench(Max(0.0, s.shares + due / close.value), 0.0)
  }

  function BenchValue(s: Bench, close: Option<real>): Option<real> {
    if close.None? || close.value <= 0.0 then None else Some(Times(s.shares, close.value))
  }

  /** The benchmark account at the end of a day, from the flows alone. */
  function BenchAt(txs: seq<Tx>, spy: seq<Bar>, start: int, date: int): Bench
    decreases date - start + 1
  {
    if date < start then Bench(0.0, 0.0)
    else BenchDay(BenchAt(txs, spy, start, date - 1), FlowOn(txs, date), CloseAt(spy, date))
  }

  ghost function PointAt(txs: seq<Tx>, quotes: Quotes, spy: Option<seq<Bar>>, date: int): DayPoint
    requires txs != [] && Replay(EMPTY, UpTo(txs, date)).Ok?
  {
    var b := Replay(EMPTY, UpTo(txs, date)).value;
    var benchmark := if spy.None? then None
                     else BenchValue(BenchAt(txs, spy.value, Day(txs[0]), date), CloseAt(spy.value, date));
    DayPoint(date, Equity(quotes, b, date), b.cash, b.deposited - b.withdrawn, benchmark, FlowOn(txs, date))
  }

  /** How many days the series has: through `end`, or up to the day before the first transaction that fails. */
  ghost function SeriesLength(txs: seq<Tx>, end: int): nat
    requires txs != []
  {
    var last := if Replay(EMPTY, txs).Err? then
                  var failing := Day(txs[Reach(EMPTY, txs)]);
                  if failing <= end then failing - 1 else end
                else end;
    if last < Day(txs[0]) then 0 else last - Day(txs[0]) + 1
  }

  // ---------------------------------------------------------------- days of an ordered log

  ghost predicate DaysAscend(txs: seq<Tx>) {
    forall i, j :: 0 <= i < j < |txs| ==> Day(txs[i]) <= Day(txs[j])
  }

  lemma OrderedDays(txs: seq<Tx>)
    requires Ordered(txs)
    ensures DaysAscend(txs)
  {
    forall i, j | 0 <= i < j < |txs| ensures Day(txs[i]) <= Day(txs[j]) {
      assert Before(txs[i], txs[j]);
    }
  }

  /** The transactions dated up to a day are a prefix, cut where the loop's index stands. */
  lemma {:induction false} UpToIsPrefix(txs: seq<Tx>, date: int, n: nat)
    requires n <= |txs|
    requires forall i :: 0 <= i < n ==> Day(txs[i]) <= date
    requires forall i :: n <= i < |txs| ==> Day(txs[i]) > date
    ensures UpTo(txs, date) == txs[..n]
  {
    if txs != [] {
      if n == 0 {
        UpToIsPrefix(txs[1..], date, 0);
      } else {
        UpToIsPrefix(txs[1..], date, n - 1);
        assert txs[..n] == [txs[0]] + txs[1..][..n - 1];
      }
    }
  }

  lemma {:induction false} FlowSplits(xs: seq<Tx>, ys: seq<Tx>, date: int)
    ensures FlowOn(xs + ys, date) == FlowOn(xs, date) + FlowOn(ys, date)
  {
    if xs == [] {
      assert xs + ys == ys;
    } else {
      FlowSplits(xs[1..], ys, date);
      assert (xs + ys)[1..] == xs[1..] + ys;
    }
  }

  lemma {:induction false} NoFlow(txs: seq<Tx>, date: int)
    requires forall i :: 0 <= i < |txs| ==> Day(txs[i]) != date
    ensures FlowOn(txs, date) == 0.0
  {
    if txs != [] {
      NoFlow(txs[1..], date);
    }
  }

  lemma {:induction false} NetIsTheFlows(b: Book, txs: seq<Tx>)
    requires Replay(b, txs).Ok?
    ensures var r := Replay(b, txs).value;
      r.deposited - r.withdrawn == b.deposited - b.withdrawn + Sum(txs, ExternalFlow)
    decreases txs
  {
    if txs != [] {
      NetIsTheFlows(Step(b, txs[0]).book, txs[1..]);
    }
  }

  /** The flows of the days `first` through `last`, added up. */
  function FlowsBetween(txs: seq<Tx>, first: int, last: int): real
    decreases last - first + 1
  {
    if last < first then 0.0 else FlowsBetween(txs, first, last - 1) + FlowOn(txs, last)
  }

  lemma {:induction false} UpToGrows(txs: seq<Tx>, date: int)
    ensures Sum(UpTo(txs, date), ExternalFlow) == Sum(UpTo(txs, date - 1), ExternalFlow) + FlowOn(txs, date)
  {
    if txs != [] {
      UpToGrows(txs[1..], date);
    }
  }

  lemma {:induction false} UpToNothing(txs: seq<Tx>, date: int)
    requires forall i :: 0 <= i < |txs| ==> Day(txs[i]) > date
    ensures UpTo(txs, date) == []
  {
    if txs != [] {
      UpToNothing(txs[1..], date);
    }
  }

  lemma {:induction false} FlowsAddUp(txs: seq<Tx>, first: int, last: int)
    requires last >= first - 1 && forall i :: 0 <= i < |txs| ==> Day(txs[i]) >= first
    ensures FlowsBetween(txs, first, last) == Sum(UpTo(txs, last), ExternalFlow)
    decreases last - first + 1
  {
    if last == first - 1 {
      UpToNothing(txs, last);
    } else {
      FlowsAddUp(txs, first, last - 1);
      UpToGrows(txs, last);
    }
  }

  /** The flows charted from the first day through any day add up to the net deposits charted on that day. */
  lemma FlowsAreNetDeposits(txs: seq<Tx>, quotes: Quotes, spy: Option<seq<Bar>>, date: int)
    requires Ordered(txs) && txs != [] && date >= Day(txs[0])
    requires Replay(EMPTY, UpTo(txs, date)).Ok?
    ensures FlowsBetween(txs, Day(txs[0]), date) == PointAt(txs, quotes, spy, date).netDeposited
  {
    OrderedDays(txs);
    NetIsTheFlows(EMPTY, UpTo(txs, date));
    FlowsAddUp(txs, Day(txs[0]), date);
  }

  /** Before its first positive close the benchmark holds no shares: everything deposited so far is still waiting. */
  lemma {:induction false} BenchWaits(txs: seq<Tx>, spy: seq<Bar>, start: int, date: int)
    requires date >= start - 1
    requires forall k :: start <= k <= date ==> BenchValue(Bench(0.0, 0.0), CloseAt(spy, k)).None?
    ensures BenchAt(txs, spy, start, date) == Bench(0.0, FlowsBetween(txs, start, date))
    decreases date - start + 1
  {
    if date >= start {
      BenchWaits(txs, spy, start, date - 1);
      assert BenchValue(Bench(0.0, 0.0), CloseAt(spy, date)).None?;
    }
  }

  lemma FlatDay(s: Bench, flow: real, close: real, invested: real)
    requires close > 0.0 && s.pending == 0.0 && s.shares * close == invested && invested + flow >= 0.0
    ensures var r := BenchDay(s, flow, Some(close));
      r.pending == 0.0 && r.shares * close == invested + flow
  {
    var bought := flow / close;
    assert bought * close == flow;
    assert (s.shares + bought) * close == invested + flow;
    if s.shares + bought < 0.0 {
      assert (s.shares + bought) * close < 0.0;
    }
  }

  /** A benchmark whose price never moves is worth exactly the money put in, as long as that never goes negative. */
  lemma {:induction false} FlatBenchmarkIsNetDeposits(txs: seq<Tx>, spy: seq<Bar>, start: int, date: int, close: real)
    requires date >= start - 1 && close > 0.0
    requires forall k :: start <= k <= date ==> CloseAt(spy, k) == Some(close)
    requires forall k :: start <= k <= date ==> FlowsBetween(txs, start, k) >= 0.0
    ensures BenchAt(txs, spy, start, date).pending == 0.0
    ensures BenchAt(txs, spy, start, date).shares * close == FlowsBetween(txs, start, date)
    decreases date - start + 1
  {
    if date >= start {
      FlatBenchmarkIsNetDeposits(txs, spy, start, date - 1, close);
      assert FlowsBetween(txs, start, date) >= 0.0;
      FlatDay(BenchAt(txs, spy, start, date - 1), FlowOn(txs, date), close, FlowsBetween(txs, start, date - 1));
    }
  }

  // ---------------------------------------------------------------- where an inconsistent log stops the series

  /** A day's prefix fails to replay exactly when the first failing transaction is dated by then. */
  lemma FailureDay(txs: seq<Tx>, date: int, n: nat)
    requires n <= |txs|
    requires UpTo(txs, date) == txs[..n]
    ensures Replay(EMPTY, UpTo(txs, date)).Err? <==> Replay(EMPTY, txs).Err? && Reach(EMPTY, txs) < n
  {
    assert txs == txs[..n] + txs[n..];
    ReplayAppend(EMPTY, txs[..n], txs[n..]);
    if Replay(EMPTY, txs).Err? {
      var at := Reach(EMPTY, txs);
      if at < n {
        assert txs[..n] == txs[..at] + ([txs[at]] + txs[at + 1..n]);
        ReplayAppend(EMPTY, txs[..at], [txs[at]] + txs[at + 1..n]);
      } else {
        assert txs[..at] == txs[..n] + txs[n..at];
        ReplayAppend(EMPTY, txs[..n], txs[n..at]);
      }
    }
  }

  lemma {:induction false} ReachIs(b: Book, txs: seq<Tx>, n: nat)
    requires n < |txs| && Replay(b, txs[..n]).Ok?
    requires Step(Replay(b, txs[..n]).value, txs[n]).error.Some?
    ensures Replay(b, txs).Err? && Reach(b, txs) == n
    decreases txs
  {
    if n == 0 {
      assert txs[..0] == [];
    } else {
      assert txs[..n][1..] == txs[1..][..n - 1] && txs[..n][0] == txs[0];
      ReachIs(Step(b, txs[0]).book, txs[1..], n - 1);
    }
  }

  // ---------------------------------------------------------------- the incremental series

  /** The loop index stands right behind the transactions dated up to `date`. */
  ghost predicate Caught(txs: seq<Tx>, date: int, n: nat) {
    && n <= |txs|
    && (forall i :: 0 <= i < n ==> Day(txs[i]) <= date)
    && (forall i :: n <= i < |txs| ==> Day(txs[i]) > date)
  }

  ghost predicate Played(txs: seq<Tx>, n: nat, b: Book)
    requires n <= |txs|
  {
    Replay(EMPTY, txs[..n]) == Ok(b)
  }

  lemma PlayedNext(txs: seq<Tx>, n: nat, b: Book)
    requires n < |txs| && Played(txs, n, b)
    ensures Step(b, txs[n]).error.None? ==> Played(txs, n + 1, Step(b, txs[n]).book)
    ensures Step(b, txs[n]).error.Some? ==> Replay(EMPTY, txs).Err? && Reach(EMPTY, txs) == n
  {
    assert txs[..n + 1] == txs[..n] + [txs[n]];
    assert [txs[n]][1..] == [];
    ReplayAppend(EMPTY, txs[..n], [txs[n]]);
    if Step(b, txs[n]).error.Some? {
      ReachIs(EMPTY, txs, n);
    }
  }

  lemma FlowOfTheDay(txs: seq<Tx>, date: int, lo: nat, hi: nat)
    requires lo <= hi && Caught(txs, date - 1, lo) && Caught(txs, date, hi)
    ensures FlowOn(txs, date) == FlowOn(txs[lo..hi], date)
  {
    assert txs == txs[..lo] + (txs[lo..hi] + txs[hi..]);
    FlowSplits(txs[..lo], txs[lo..hi] + txs[hi..], date);
    FlowSplits(txs[lo..hi], txs[hi..], date);
    NoFlow(txs[..lo], date);
    NoFlow(txs[hi..], date);
  }

  lemma FlowNext(txs: seq<Tx>, lo: nat, k: nat, date: int)
    requires lo <= k < |txs|
    ensures FlowOn(txs[lo..k + 1], date) ==
            FlowOn(txs[lo..k], date) + (if Day(txs[k]) == date then ExternalFlow(txs[k]) else 0.0)
  {
    assert txs[lo..k + 1] == txs[lo..k] + [txs[k]];
    assert [txs[k]][1..] == [];
    FlowSplits(txs[lo..k], [txs[k]], date);
  }

  /** Applies the next transaction, if it applies, and adds its part to the day's flow. */
  method PlayNext(txs: seq<Tx>, ghost lo: nat, k: nat, basis: PortfolioBasis, date: int, flow: real)
    returns (dayFlow: real, failed: bool)
    requires lo <= k < |txs| && basis.Valid() && Played(txs, k, basis.Contents())
    requires flow == FlowOn(txs[lo..k], date) && Day(txs[k]) == date
    modifies basis
    ensures basis.Valid()
    ensures !failed ==> Played(txs, k + 1, basis.Contents()) && dayFlow == FlowOn(txs[lo..k + 1], date)
    ensures failed ==> Replay(EMPTY, txs).Err? && Reach(EMPTY, txs) == k
  {
    var tx := txs[k];
    dayFlow := flow;
    if tx.kind == Deposit {
      dayFlow := dayFlow + tx.price;
    } else if tx.kind == Withdrawal {
      dayFlow := dayFlow - tx.price;
    }
    PlayedNext(txs, k, basis.Contents());
    FlowNext(txs, lo, k, date);
    var error := basis.ApplyTx(tx);
    failed := error.Some?;
  }

  lemma FromToday(txs: seq<Tx>, date: int, lo: nat, k: nat)
    requires Caught(txs, date - 1, lo) && lo <= k < |txs| && Day(txs[k]) <= date
    ensures Day(txs[k]) == date
  {
  }

  /** Advances the replay through one day's transactions; stops at the first that does not apply. */
  method PlayDay(txs: seq<Tx>, lo: nat, basis: PortfolioBasis, date: int)
    returns (txIdx: nat, dayFlow: real, failed: bool)
    requires DaysAscend(txs) && Caught(txs, date - 1, lo)
    requires basis.Valid() && Played(txs, lo, basis.Contents())
    modifies basis
    ensures basis.Valid() && lo <= txIdx <= |txs|
    ensures !failed ==> Caught(txs, date, txIdx) && Played(txs, txIdx, basis.Contents())
    ensures !failed ==> dayFlow == FlowOn(txs, date)
    ensures failed ==> Replay(EMPTY, txs).Err? && Day(txs[Reach(EMPTY, txs)]) == date
  {
    dayFlow, txIdx, failed := 0.0, lo, false;
    while txIdx < |txs| && Day(txs[txIdx]) <= date
      invariant lo <= txIdx <= |txs| && basis.Valid() && Played(txs, txIdx, basis.Contents())
      invariant forall i :: 0 <= i < txIdx ==> Day(txs[i]) <= date
      invariant dayFlow == FlowOn(txs[lo..txIdx], date)
    {
      FromToday(txs, date, lo, txIdx);
      dayFlow, failed := PlayNext(txs, lo, txIdx, basis, date, dayFlow);
      if failed { return; }
      txIdx := txIdx + 1;
    }
    failed := false;
    FlowOfTheDay(txs, date, lo, txIdx);
  }

  /** The point is the valuation of a replay, from scratch, of everything dated up to its day. */
  ghost predicate Right(txs: seq<Tx>, quotes: Quotes, spy: Option<seq<Bar>>, date: int, point: DayPoint)
    requires txs != []
  {
    Replay(EMPTY, UpTo(txs, date)).Ok? && point == PointAt(txs, quotes, spy, date)
  }

  /**
   * What a point shows of its day: the book that everything dated up to the day replays to, its cash, its net deposits,
   * and cash plus the value of every position.
   */
  ghost predicate Shows(txs: seq<Tx>, quotes: Quotes, date: int, point: DayPoint) {
    var r := Replay(EMPTY, UpTo(txs, date));
    && r.Ok? && point.date == date && point.cash == r.value.cash
    && point.netDeposited == r.value.deposited - r.value.withdrawn
    && ValuedTogether(quotes, r.value.positions, date, point.equity - point.cash)
  }

  lemma PointFields(txs: seq<Tx>, quotes: Quotes, spy: Option<seq<Bar>>, date: int, b: Book)
    requires txs != [] && Replay(EMPTY, UpTo(txs, date)) == Ok(b)
    ensures var point := PointAt(txs, quotes, spy, date);
      && point.date == date && point.cash == b.cash && point.netDeposited == b.deposited - b.withdrawn
      && point.equity - point.cash == Holdings(quotes, b.positions, date)
  {
  }

  lemma RightPointShows(txs: seq<Tx>, quotes: Quotes, spy: Option<seq<Bar>>, date: int, point: DayPoint)
    requires txs != [] && Right(txs, quotes, spy, date, point)
    ensures Shows(txs, quotes, date, point)
  {
    var b := Replay(EMPTY, UpTo(txs, date)).value;
    EmptyIsGood();
    ReplayGood(EMPTY, UpTo(txs, date));
    PointFields(txs, quotes, spy, date, b);
    HoldingsAreValued(quotes, b.positions, date);
  }

  lemma ChartShows(txs: seq<Tx>, quotes: Quotes, spy: Option<seq<Bar>>, points: seq<DayPoint>)
    requires txs != [] && Charted(txs, quotes, spy, points)
    ensures forall i :: 0 <= i < |points| ==> Shows(txs, quotes, Day(txs[0]) + i, points[i])
  {
    forall i | 0 <= i < |points| ensures Shows(txs, quotes, Day(txs[0]) + i, points[i]) {
      RightPointShows(txs, quotes, spy, Day(txs[0]) + i, points[i]);
    }
  }

  /** The points are right, one day after another from the first transaction's. */
  ghost predicate Charted(txs: seq<Tx>, quotes: Quotes, spy: Option<seq<Bar>>, points: seq<DayPoint>)
    requires txs != []
  {
    forall i :: 0 <= i < |points| ==> Right(txs, quotes, spy, Day(txs[0]) + i, points[i])
  }

  lemma RightPoint(txs: seq<Tx>, quotes: Quotes, spy: Option<seq<Bar>>, date: int, n: nat, b: Book, bench: Bench,
                   point: DayPoint)
    requires txs != [] && Caught(txs, date, n) && Played(txs, n, b)
    requires spy.Some? ==> bench == BenchAt(txs, spy.value, Day(txs[0]), date)
    requires point == DayPoint(date, Equity(quotes, b, date), b.cash, b.deposited - b.withdrawn,
                               if spy.Some? then BenchValue(bench, CloseAt(spy.value, date)) else None,
                               FlowOn(txs, date))
    ensures Right(txs, quotes, spy, date, point)
  {
    UpToIsPrefix(txs, date, n);
  }

  /** Values the book at the day's closes and routes the day's flow into the benchmark. */
  method ValueDay(txs: seq<Tx>, quotes: Quotes, spy: Option<seq<Bar>>, basis: PortfolioBasis, bench: Bench,
                  dayFlow: real, date: int, ghost n: nat)
    returns (point: DayPoint, after: Bench)
    requires txs != [] && date >= Day(txs[0]) && Caught(txs, date, n) && Played(txs, n, basis.Contents())
    requires spy.Some? ==> bench == BenchAt(txs, spy.value, Day(txs[0]), date - 1)
    requires dayFlow == FlowOn(txs, date)
    ensures Right(txs, quotes, spy, date, point)
    ensures spy.Some? ==> after == BenchAt(txs, spy.value, Day(txs[0]), date)
  {
    var equity := ValueBook(quotes, basis.cash, basis.positions, date);
    var benchmark := None;
    after := bench;
    if spy.Some? {
      var close := CloseAt(spy.value, date);
      after := BenchDay(bench, dayFlow, close);
      benchmark := BenchValue(after, close);
    }
    point := DayPoint(date, equity, basis.cash, basis.deposited - basis.withdrawn, benchmark, dayFlow);
    RightPoint(txs, quotes, spy, date, n, basis.Contents(), after, point);
  }

  lemma WholeSeries(txs: seq<Tx>, end: int, n: nat, b: Book)
    requires txs != [] && Day(txs[0]) <= end && Caught(txs, end, n) && Played(txs, n, b)
    ensures SeriesLength(txs, end) == end - Day(txs[0]) + 1
  {
    UpToIsPrefix(txs, end, n);
    FailureDay(txs, end, n);
  }

  lemma NoSeries(txs: seq<Tx>, end: int)
    requires txs != [] && DaysAscend(txs) && Day(txs[0]) > end
    ensures SeriesLength(txs, end) == 0
  {
  }

  lemma CutSeries(txs: seq<Tx>, end: int, date: int)
    requires txs != [] && Day(txs[0]) <= date <= end
    requires Replay(EMPTY, txs).Err? && Day(txs[Reach(EMPTY, txs)]) == date
    ensures SeriesLength(txs, end) == date - Day(txs[0])
  {
  }

  lemma ChartedNext(txs: seq<Tx>, quotes: Quotes, spy: Option<seq<Bar>>, points: seq<DayPoint>, point: DayPoint,
                    date: int)
    requires txs != [] && Charted(txs, quotes, spy, points) && date == Day(txs[0]) + |points|
    requires Right(txs, quotes, spy, date, point)
    ensures Charted(txs, quotes, spy, points + [point])
  {
    assert forall i :: 0 <= i < |points| ==> (points + [point])[i] == points[i];
  }

  /** Charts the account from the first transaction's day on, one point a day, replaying the log only once. */
  method EquitySeries(txs: seq<Tx>, quotes: Quotes, spy: Option<seq<Bar>>, end: int) returns (points: seq<DayPoint>)
    requires Ordered(txs)
    ensures txs == [] ==> points == []
    ensures txs != [] ==> |points| == SeriesLength(txs, end) && Charted(txs, quotes, spy, points)
    ensures txs != [] ==> forall i :: 0 <= i < |points| ==> Shows(txs, quotes, Day(txs[0]) + i, points[i])
  {
    points := [];
    if txs == [] { return; }
    OrderedDays(txs);
    var start := Day(txs[0]);
    var basis := new PortfolioBasis();
    var bench := Bench(0.0, 0.0);
    var txIdx, date := 0, start;
    while date <= end
      invariant basis.Valid() && fresh(basis)
      invariant Caught(txs, date - 1, txIdx) && Played(txs, txIdx, basis.Contents())
      invariant spy.Some? ==> bench == BenchAt(txs, spy.value, start, date - 1)
      invariant start <= date && (date <= end + 1 || date == start) && |points| == date - start
      invariant Charted(txs, quotes, spy, points)
      decreases end - date
    {
      var dayFlow, failed;
      txIdx, dayFlow, failed := PlayDay(txs, txIdx, basis, date);
      if failed {
        CutSeries(txs, end, date);
        ChartShows(txs, quotes, spy, points);
        return;
      }
      var point;
      point, bench := ValueDay(txs, quotes, spy, basis, bench, dayFlow, date, txIdx);
      ChartedNext(txs, quotes, spy, points, point, date);
      points := points + [point];
      date := date + 1;
    }
    if start <= end {
      WholeSeries(txs, end, txIdx, basis.Contents());
    } else {
      NoSeries(txs, end);
    }
    ChartShows(txs, quotes, spy, points);
  }
}
