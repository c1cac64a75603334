/** The book ledger: FIFO lots, cash and realized P&L replayed from the log. */
module Portfolio {
  import opened Log
  import opened Sums

  datatype Lot = Lot(qty: real, unitCost: real, acquired: int)

  datatype Position = Position(qty: real, costBasis: real, realizedPnl: real, dividends: real, lots: seq<Lot>)

  datatype Event = Event(ts: int, amount: real)

  datatype Book = Book(cash: real, positions: map<string, Position>, deposited: real, withdrawn: real,
                       events: seq<Event>)

  /** A step leaves a book behind even when it fails: an oversell still creates the empty position. */
  datatype Applied = Applied(book: Book, error: Option<Error>)

  datatype Taken = Taken(basis: real, rest: seq<Lot>)

  const FLAT := Position(0.0, 0.0, 0.0, 0.0, [])

  const EMPTY := Book(0.0, map[], 0.0, 0.0, [])

  function LotQty(l: Lot): real { l.qty }

  function LotCost(l: Lot): real { l.qty * l.unitCost }

  function PositionOf(b: Book, sym: string): Position {
    if sym in b.positions then b.positions[sym] else FLAT
  }

  // ---------------------------------------------------------------- specification of the steps

  /** Take `want` shares from the front. */
  function Consume(lots: seq<Lot>, want: real): Taken {
    if want <= 0.0 || lots == [] then Taken(0.0, lots)
    else
      var take := Min(want, lots[0].qty);
      if take == lots[0].qty then
        var t := Consume(lots[1..], want - take);
        Taken(take * lots[0].unitCost + t.basis, t.rest)
      else
        Taken(take * lots[0].unitCost, [lots[0].(qty := lots[0].qty - take)] + lots[1..])
  }

  function ScaleLot(l: Lot, ratio: real): Lot
    requires ratio > 0.0
  {
    l.(qty := l.qty * ratio, unitCost := l.unitCost / ratio)
  }

  function ScaleLots(lots: seq<Lot>, ratio: real): seq<Lot>
    requires ratio > 0.0
  {
    if lots == [] then [] else [ScaleLot(lots[0], ratio)] + ScaleLots(lots[1..], ratio)
  }

  function Step(b: Book, tx: Tx): Applied {
    match tx.kind
    case Deposit =>
      Applied(b.(cash := b.cash + tx.price, deposited := b.deposited + tx.price), None)
    case Withdrawal =>
      Applied(b.(cash := b.cash - tx.price, withdrawn := b.withdrawn + tx.price), None)
    case _ =>
      if tx.Symbol().None? then Applied(b, Some(MissingSymbol(tx.id, tx.kind)))
      else SymbolStep(b, tx, tx.Symbol().value)
  }

  function Bought(p: Position, tx: Tx): Position
    requires tx.qty > 0.0
  {
    p.(qty := p.qty + tx.qty, costBasis := p.costBasis + tx.Cost(),
       lots := p.lots + [Lot(tx.qty, tx.Cost() / tx.qty, tx.ts)])
  }

  function SoldFrom(p: Position, tx: Tx): Position {
    var t := Consume(p.lots, tx.qty);
    p.(qty := p.qty - tx.qty, costBasis := p.costBasis - t.basis,
       realizedPnl := p.realizedPnl + (tx.NetProceeds() - t.basis), lots := t.rest)
  }

  function SplitBy(p: Position, ratio: real): Position
    requires ratio > 0.0
  {
    p.(qty := p.qty * ratio, lots := ScaleLots(p.lots, ratio))
  }

  function SymbolStep(b: Book, tx: Tx, sym: string): Applied {
    var p := PositionOf(b, sym);
    if tx.kind == Dividend then
      Applied(b.(cash := b.cash + tx.price,
                 positions := b.positions[sym := p.(dividends := p.dividends + tx.price)]), None)
    else if tx.qty <= 0.0 then
      Applied(b, Some(if tx.kind == Split then BadSplitRatio(tx.id, tx.qty) else NonPositive(tx.id)))
    else if tx.kind == Buy then
      Applied(b.(cash := b.cash - tx.Cost(), positions := b.positions[sym := Bought(p, tx)]), None)
    else if tx.kind == Sell then
      if tx.qty > p.qty then
        Applied(b.(positions := b.positions[sym := p]), Some(Oversell(tx.id, sym, p.qty, tx.qty)))
      else
        var pnl := tx.NetProceeds() - Consume(p.lots, tx.qty).basis;
        Applied(b.(cash := b.cash + tx.NetProceeds(), positions := b.positions[sym := SoldFrom(p, tx)],
                   events := b.events + [Event(tx.ts, pnl)]), None)
    else
      Applied(b.(positions := b.positions[sym := SplitBy(p, tx.qty)]), None)
  }

  function Replay(b: Book, txs: seq<Tx>): Result<Book>
    decreases txs
  {
    if txs == [] then Ok(b)
    else
      var s := Step(b, txs[0]);
      if s.error.Some? then Err(s.error.value) else Replay(s.book, txs[1..])
  }

  // ---------------------------------------------------------------- invariants

  ghost predicate Positive(lots: seq<Lot>) {
    forall i :: 0 <= i < |lots| ==> lots[i].qty > 0.0
  }

  /** Quantity and cost basis are exactly what the open lots add up to. */
  ghost predicate GoodPosition(p: Position) {
    Positive(p.lots) && p.qty == Sum(p.lots, LotQty) && p.costBasis == Sum(p.lots, LotCost)
  }

  ghost function Costs(b: Book): map<string, real> { map s | s in b.positions :: b.positions[s].costBasis }

  ghost function Gains(b: Book): map<string, real> { map s | s in b.positions :: b.positions[s].realizedPnl }

  ghost function Dividends(b: Book): map<string, real> { map s | s in b.positions :: b.positions[s].dividends }

  /** Cash is accounted for: every dollar is a deposit, a dividend, a realized gain or sits in open cost. */
  ghost predicate CashBalances(b: Book) {
    b.cash + Total(Costs(b)) == b.deposited - b.withdrawn + Total(Dividends(b)) + Total(Gains(b))
  }

  ghost predicate GoodPositions(b: Book) {
    forall s :: s in b.positions ==> GoodPosition(b.positions[s])
  }

  ghost predicate GoodBook(b: Book) {
    GoodPositions(b) && CashBalances(b)
  }

  function EventAmount(e: Event): real { e.amount }

  lemma {:induction false} ConsumeQty(lots: seq<Lot>, want: real)
    requires Positive(lots) && 0.0 <= want <= Sum(lots, LotQty)
    ensures Positive(Consume(lots, want).rest)
    ensures Sum(Consume(lots, want).rest, LotQty) == Sum(lots, LotQty) - want
  {
    if want > 0.0 && lots != [] {
      if want >= lots[0].qty {
        ConsumeQty(lots[1..], want - lots[0].qty);
      } else {
        assert Consume(lots, want).rest[1..] == lots[1..];
      }
    }
  }

  lemma CostOfRest(l: Lot, part: real)
    ensures LotCost(l.(qty := l.qty - part)) == LotCost(l) - part * l.unitCost
  {
    assert (l.qty - part) * l.unitCost == l.qty * l.unitCost - part * l.unitCost;
  }

  lemma CostCutsHead(lots: seq<Lot>, part: real)
    requires lots != [] && 0.0 < part < lots[0].qty
    ensures Sum(Consume(lots, part).rest, LotCost) == Sum(lots, LotCost) - Consume(lots, part).basis
  {
    var left := lots[0].(qty := lots[0].qty - part);
    assert Consume(lots, part).rest == [left] + lots[1..] && ([left] + lots[1..])[1..] == lots[1..];
    CostOfRest(lots[0], part);
  }

  lemma {:induction false} ConsumeCost(lots: seq<Lot>, want: real)
    ensures Sum(Consume(lots, want).rest, LotCost) == Sum(lots, LotCost) - Consume(lots, want).basis
  {
    if want > 0.0 && lots != [] {
      if want >= lots[0].qty {
        ConsumeCost(lots[1..], want - lots[0].qty);
      } else {
        CostCutsHead(lots, want);
      }
    }
  }

  lemma {:induction false} ScaledAt(lots: seq<Lot>, ratio: real, k: nat)
    requires ratio > 0.0 && k < |lots|
    ensures |ScaleLots(lots, ratio)| == |lots| && ScaleLots(lots, ratio)[k].qty == Times(lots[k].qty, ratio)
    ensures lots[k].qty > 0.0 ==> ScaleLots(lots, ratio)[k].qty > 0.0
  {
    MulMono(0.0, lots[k].qty, ratio);
    if |lots| > 1 {
      ScaledAt(lots[1..], ratio, if k > 0 then k - 1 else 0);
    }
  }

  lemma ScaleQty(lots: seq<Lot>, ratio: real)
    requires ratio > 0.0
    ensures Sum(ScaleLots(lots, ratio), LotQty) == Sum(lots, LotQty) * ratio
    ensures Positive(lots) ==> Positive(ScaleLots(lots, ratio))
  {
    forall k | 0 <= k < |lots|
      ensures |ScaleLots(lots, ratio)| == |lots| && ScaleLots(lots, ratio)[k].qty == Times(lots[k].qty, ratio)
      ensures lots[k].qty > 0.0 ==> ScaleLots(lots, ratio)[k].qty > 0.0
    {
      ScaledAt(lots, ratio, k);
    }
    SumScales(lots, ScaleLots(lots, ratio), LotQty, ratio);
  }

  lemma ScaleLotCost(l: Lot, ratio: real)
    requires ratio > 0.0
    ensures LotCost(ScaleLot(l, ratio)) == LotCost(l)
  {
  }

  /** A split leaves the cost of every single lot, and so their sum, what it was. */
  lemma {:induction false} ScaleCost(lots: seq<Lot>, ratio: real)
    requires ratio > 0.0
    ensures var scaled := ScaleLots(lots, ratio);
      && |scaled| == |lots| && (forall k :: 0 <= k < |lots| ==> LotCost(scaled[k]) == LotCost(lots[k]))
      && Sum(scaled, LotCost) == Sum(lots, LotCost)
  {
    if lots != [] {
      var rest := ScaleLots(lots[1..], ratio);
      ScaleCost(lots[1..], ratio);
      ScaleLotCost(lots[0], ratio);
      assert ScaleLots(lots, ratio) == [ScaleLot(lots[0], ratio)] + rest;
      forall k | 0 <= k < |lots| ensures LotCost(ScaleLots(lots, ratio)[k]) == LotCost(lots[k]) {
        assert k > 0 ==> LotCost(rest[k - 1]) == LotCost(lots[1..][k - 1]);
      }
    }
  }

  /** Replacing one position moves each total by the change in that position. */
  lemma PositionWrite(b: Book, sym: string, p: Position)
    ensures var b' := b.(positions := b.positions[sym := p]);
      var q := PositionOf(b, sym);
      && Total(Costs(b')) == Total(Costs(b)) - q.costBasis + p.costBasis
      && Total(Gains(b')) == Total(Gains(b)) - q.realizedPnl + p.realizedPnl
      && Total(Dividends(b')) == Total(Dividends(b)) - q.dividends + p.dividends
  {
    var b' := b.(positions := b.positions[sym := p]);
    assert Costs(b') == Costs(b)[sym := p.costBasis];
    assert Gains(b') == Gains(b)[sym := p.realizedPnl];
    assert Dividends(b') == Dividends(b)[sym := p.dividends];
    TotalUpdate(Costs(b), sym, p.costBasis);
    TotalUpdate(Gains(b), sym, p.realizedPnl);
    TotalUpdate(Dividends(b), sym, p.dividends);
  }

  lemma BoughtGood(p: Position, tx: Tx)
    requires GoodPosition(p) && tx.qty > 0.0
    ensures GoodPosition(Bought(p, tx))
  {
    var lot := Lot(tx.qty, tx.Cost() / tx.qty, tx.ts);
    SumSnoc(p.lots, lot, LotQty);
    SumSnoc(p.lots, lot, LotCost);
    assert LotCost(lot) == tx.Cost();
  }

  lemma SoldGood(p: Position, tx: Tx)
    requires GoodPosition(p) && 0.0 <= tx.qty <= p.qty
    ensures GoodPosition(SoldFrom(p, tx))
  {
    ConsumeQty(p.lots, tx.qty);
    ConsumeCost(p.lots, tx.qty);
  }

  lemma SplitGood(p: Position, ratio: real)
    requires GoodPosition(p) && ratio > 0.0
    ensures GoodPosition(SplitBy(p, ratio))
  {
    var q := SplitBy(p, ratio);
    ScaleQty(p.lots, ratio);
    ScaleCost(p.lots, ratio);
    var n := Sum(q.lots, LotQty);
    assert q.qty == n;
  }

  /** A step on one symbol writes at most that symbol's position, and writes a consistent one. */
  lemma SymbolStepPosition(b: Book, tx: Tx, sym: string)
    requires GoodPosition(PositionOf(b, sym))
    requires !tx.kind.Deposit? && !tx.kind.Withdrawal?
    ensures var r := SymbolStep(b, tx, sym).book;
      && GoodPosition(PositionOf(r, sym))
      && (r.positions == b.positions || r.positions == b.positions[sym := PositionOf(r, sym)])
  {
    var p := PositionOf(b, sym);
    if tx.kind == Buy && tx.qty > 0.0 {
      BoughtGood(p, tx);
    } else if tx.kind == Sell && 0.0 < tx.qty <= p.qty {
      SoldGood(p, tx);
    } else if tx.kind == Split && tx.qty > 0.0 {
      SplitGood(p, tx.qty);
    }
  }

  lemma TradeKeepsGood(b: Book, tx: Tx, sym: string)
    requires GoodPositions(b) && !tx.kind.Deposit? && !tx.kind.Withdrawal?
    ensures GoodPositions(SymbolStep(b, tx, sym).book)
  {
    assert GoodPosition(PositionOf(b, sym));
    SymbolStepPosition(b, tx, sym);
  }

  lemma SymbolStepCash(b: Book, tx: Tx, sym: string)
    requires !tx.kind.Deposit? && !tx.kind.Withdrawal?
    ensures var r := SymbolStep(b, tx, sym).book;
      var p, q := PositionOf(b, sym), PositionOf(r, sym);
      && r.cash + q.costBasis - q.dividends - q.realizedPnl == b.cash + p.costBasis - p.dividends - p.realizedPnl
      && r.deposited == b.deposited && r.withdrawn == b.withdrawn
  {
  }

  lemma SymbolStepGood(b: Book, tx: Tx, sym: string)
    requires GoodBook(b)
    requires !tx.kind.Deposit? && !tx.kind.Withdrawal?
    ensures GoodBook(SymbolStep(b, tx, sym).book)
  {
    assert GoodPosition(PositionOf(b, sym));
    var r := SymbolStep(b, tx, sym).book;
    var q := PositionOf(r, sym);
    SymbolStepPosition(b, tx, sym);
    SymbolStepCash(b, tx, sym);
    WriteGood(b, r, sym, q);
  }

  lemma WriteGood(b: Book, r: Book, sym: string, q: Position)
    requires GoodBook(b) && GoodPosition(q) && PositionOf(r, sym) == q
    requires r.positions == b.positions || r.positions == b.positions[sym := q]
    requires var p := PositionOf(b, sym);
      r.cash + q.costBasis - q.dividends - q.realizedPnl == b.cash + p.costBasis - p.dividends - p.realizedPnl
    requires r.deposited == b.deposited && r.withdrawn == b.withdrawn
    ensures GoodBook(r)
  {
    PositionWrite(b, sym, q);
    var moved := b.(positions := b.positions[sym := q]);
    if r.positions == moved.positions {
      assert Costs(r) == Costs(moved) && Gains(r) == Gains(moved) && Dividends(r) == Dividends(moved);
    } else {
      assert Costs(r) == Costs(b) && Gains(r) == Gains(b) && Dividends(r) == Dividends(b);
    }
  }

  /** Every step, failed ones included, keeps quantities, cost bases and cash exact. */
  lemma StepGood(b: Book, tx: Tx)
    requires GoodBook(b)
    ensures GoodBook(Step(b, tx).book)
  {
    if tx.kind.Deposit? || tx.kind.Withdrawal? {
      var r := Step(b, tx).book;
      assert Costs(r) == Costs(b) && Gains(r) == Gains(b) && Dividends(r) == Dividends(b);
    } else if tx.Symbol().Some? {
      SymbolStepGood(b, tx, tx.Symbol().value);
    }
  }

  lemma {:induction false} ReplayGood(b: Book, txs: seq<Tx>)
    requires GoodBook(b) && Replay(b, txs).Ok?
    ensures GoodBook(Replay(b, txs).value)
    decreases txs
  {
    if txs != [] {
      StepGood(b, txs[0]);
      ReplayGood(Step(b, txs[0]).book, txs[1..]);
    }
  }

  lemma {:induction false} ReplayAppend(b: Book, xs: seq<Tx>, ys: seq<Tx>)
    ensures Replay(b, xs + ys) ==
            (if Replay(b, xs).Err? then Replay(b, xs) else Replay(Replay(b, xs).value, ys))
    decreases xs
  {
    if xs == [] {
      assert xs + ys == ys;
    } else {
      assert (xs + ys)[1..] == xs[1..] + ys;
      var s := Step(b, xs[0]);
      if s.error.None? {
        ReplayAppend(s.book, xs[1..], ys);
      }
    }
  }

  /** How many rows a failing replay applies before the one that fails. */
  function Reach(b: Book, txs: seq<Tx>): (n: nat)
    requires Replay(b, txs).Err?
    ensures n < |txs| && Replay(b, txs[..n]).Ok?
    ensures Step(Replay(b, txs[..n]).value, txs[n]).error == Some(Replay(b, txs).error)
    ensures Replay(b, txs).error.id == txs[n].id
    decreases txs
  {
    var s := Step(b, txs[0]);
    if s.error.Some? then
      assert txs[..0] == [];
      0
    else
      var n := 1 + Reach(s.book, txs[1..]);
      assert txs[..n][1..] == txs[1..][..n - 1] && txs[..n][0] == txs[0];
      n
  }

  lemma EmptyIsGood()
    ensures GoodBook(EMPTY)
  {
    assert Costs(EMPTY) == map[] && Gains(EMPTY) == map[] && Dividends(EMPTY) == map[];
  }

  // ---------------------------------------------------------------- realized profit by time

  function RealizedSince(events: seq<Event>, since: int): real {
    if events == [] then 0.0
    else (if events[0].ts >= since then events[0].amount else 0.0) + RealizedSince(events[1..], since)
  }

  /** A replay only appends events, stamped with the times of its own transactions. */
  lemma {:induction false} EventsAppend(b: Book, txs: seq<Tx>)
    requires Replay(b, txs).Ok?
    ensures b.events <= Replay(b, txs).value.events
    ensures forall i :: |b.events| <= i < |Replay(b, txs).value.events| ==>
              exists k :: 0 <= k < |txs| && txs[k].ts == Replay(b, txs).value.events[i].ts
    decreases txs
  {
    if txs != [] {
      var next := Step(b, txs[0]).book;
      EventsAppend(next, txs[1..]);
      var all := Replay(b, txs).value.events;
      forall i | |b.events| <= i < |all| ensures exists k :: 0 <= k < |txs| && txs[k].ts == all[i].ts {
        if i < |next.events| {
          assert txs[0].ts == all[i].ts;
        } else {
          var k :| 0 <= k < |txs| - 1 && txs[1..][k].ts == all[i].ts;
          assert txs[k + 1].ts == all[i].ts;
        }
      }
    }
  }

  lemma {:induction false} RealizedSinceCut(before: seq<Event>, after: seq<Event>, since: int)
    requires forall i :: 0 <= i < |before| ==> before[i].ts < since
    requires forall i :: 0 <= i < |after| ==> after[i].ts >= since
    ensures RealizedSince(before + after, since) == Sum(after, EventAmount)
  {
    if before != [] {
      AppendTail(before, after);
      RealizedSinceCut(before[1..], after, since);
    } else {
      assert before + after == after;
      if after != [] {
        assert [] + after[1..] == after[1..];
        RealizedSinceCut([], after[1..], since);
      }
    }
  }

  /** The breaker's input: profit since a moment is all realized profit less what the log before it had realized. */
  lemma RealizedSinceIsTheDifference(txs: seq<Tx>, n: nat, since: int)
    requires n <= |txs| && Replay(EMPTY, txs).Ok?
    requires forall i :: 0 <= i < n ==> txs[i].ts < since
    requires forall i :: n <= i < |txs| ==> txs[i].ts >= since
    ensures Replay(EMPTY, txs[..n]).Ok?
    ensures RealizedSince(Replay(EMPTY, txs).value.events, since) ==
            Sum(Replay(EMPTY, txs).value.events, EventAmount)
            - Sum(Replay(EMPTY, txs[..n]).value.events, EventAmount)
  {
    assert txs == txs[..n] + txs[n..];
    ReplayAppend(EMPTY, txs[..n], txs[n..]);
    var before, all := Replay(EMPTY, txs[..n]).value, Replay(EMPTY, txs).value.events;
    EventsAppend(EMPTY, txs[..n]);
    EventsAppend(before, txs[n..]);
    var after := all[|before.events|..];
    assert all == before.events + after;
    RealizedSinceCut(before.events, after, since);
    SumAppend(before.events, after, EventAmount);
  }

  // ---------------------------------------------------------------- the mutable ledger

  /** The FIFO loop: removes lots from the front, and never runs out of them. */
  method ConsumeFifo(lots: seq<Lot>, want: real) returns (basisSold: real, rest: seq<Lot>)
    requires Positive(lots) && want <= Sum(lots, LotQty)
    ensures Taken(basisSold, rest) == Consume(lots, want)
  {
    var remaining := want;
    basisSold, rest := 0.0, lots;
    while remaining > 0.0
      invariant Positive(rest) && remaining <= Sum(rest, LotQty)
      invariant Consume(lots, want) ==
                Taken(basisSold + Consume(rest, remaining).basis, Consume(rest, remaining).rest)
      decreases remaining > 0.0, |rest|
    {
      ghost var ahead := Consume(rest, remaining);
      var lot := rest[0];
      var take := Min(remaining, lot.qty);
      var paid := take * lot.unitCost;
      basisSold := basisSold + paid;
      remaining := remaining - take;
      if lot.qty - take == 0.0 {
        rest := rest[1..];
      } else {
        var left := lot.(qty := lot.qty - take);
        assert ([left] + rest[1..])[1..] == rest[1..];
        rest := [left] + rest[1..];
      }
      assert ahead == Taken(paid + Consume(rest, remaining).basis, Consume(rest, remaining).rest);
    }
  }

  /** Multiplies every open lot by the split ratio, one after the other. */
  method ScaleInPlace(lots: seq<Lot>, ratio: real) returns (scaled: seq<Lot>)
    requires ratio > 0.0
    ensures scaled == ScaleLots(lots, ratio)
  {
    scaled := lots;
    var i := 0;
    assert lots[0..] == lots;
    while i < |lots|
      invariant 0 <= i <= |lots| == |scaled|
      invariant scaled[i..] == lots[i..]
      invariant ScaleLots(lots, ratio) == scaled[..i] + ScaleLots(lots[i..], ratio)
    {
      var before := scaled[..i];
      assert lots[i..][0] == lots[i] == scaled[i] && lots[i..][1..] == lots[i + 1..];
      scaled := scaled[i := ScaleLot(scaled[i], ratio)];
      i := i + 1;
      assert scaled[..i] == before + [scaled[i - 1]];
    }
    assert scaled[..i] == scaled;
  }

  class PortfolioBasis {
    var cash: real
    var positions: map<string, Position>
    var deposited: real
    var withdrawn: real
    var events: seq<Event>

    ghost function Contents(): Book
      reads this
    {
      Book(cash, positions, deposited, withdrawn, events)
    }

    ghost predicate Valid()
      reads this
    {
      GoodPositions(Contents())
    }

    constructor ()
      ensures Valid() && Contents() == EMPTY
    {
      cash, positions, deposited, withdrawn, events := 0.0, map[], 0.0, 0.0, [];
    }

    /** Applies one transaction in place; on an error the book may still have gained an empty position. */
    method ApplyTx(tx: Tx) returns (error: Option<Error>)
      requires Valid()
      modifies this
      ensures Valid()
      ensures Applied(Contents(), error) == Step(old(Contents()), tx)
    {
      if tx.kind == Deposit {
        cash, deposited := cash + tx.price, deposited + tx.price;
        return None;
      } else if tx.kind == Withdrawal {
        cash, withdrawn := cash - tx.price, withdrawn + tx.price;
        return None;
      }
      if tx.symbol.None? || tx.symbol.value == "" {
        return Some(MissingSymbol(tx.id, tx.kind));
      }
      error := ApplyTrade(tx, tx.symbol.value);
    }

    method ApplyTrade(tx: Tx, sym: string) returns (error: Option<Error>)
      requires Valid() && !tx.kind.Deposit? && !tx.kind.Withdrawal?
      modifies this
      ensures Valid()
      ensures Applied(Contents(), error) == SymbolStep(old(Contents()), tx, sym)
    {
      TradeKeepsGood(Contents(), tx, sym);
      error := None;
      if tx.kind == Dividend {
        ApplyDividend(tx, sym);
      } else if tx.qty <= 0.0 {
        error := Some(if tx.kind == Split then BadSplitRatio(tx.id, tx.qty) else NonPositive(tx.id));
      } else if tx.kind == Buy {
        ApplyBuy(tx, sym);
      } else if tx.kind == Sell {
        error := ApplySell(tx, sym);
      } else {
        ApplySplit(tx, sym);
      }
    }

    method ApplyDividend(tx: Tx, sym: string)
      requires tx.kind == Dividend
      modifies this
      ensures Applied(Contents(), None) == SymbolStep(old(Contents()), tx, sym)
    {
      var position := if sym in positions then positions[sym] else FLAT;
      cash := cash + tx.price;
      positions := positions[sym := position.(dividends := position.dividends + tx.price)];
    }

    method ApplyBuy(tx: Tx, sym: string)
      requires tx.kind == Buy && tx.qty > 0.0
      modifies this
      ensures Applied(Contents(), None) == SymbolStep(old(Contents()), tx, sym)
    {
      var cost := tx.Cost();
      cash := cash - cost;
      var position := if sym in positions then positions[sym] else FLAT;
      position := position.(qty := position.qty + tx.qty, costBasis := position.costBasis + cost,
                            lots := position.lots + [Lot(tx.qty, cost / tx.qty, tx.ts)]);
      assert position == Bought(PositionOf(old(Contents()), sym), tx);
      positions := positions[sym := position];
    }

    method ApplySplit(tx: Tx, sym: string)
      requires tx.kind == Split && tx.qty > 0.0
      modifies this
      ensures Applied(Contents(), None) == SymbolStep(old(Contents()), tx, sym)
    {
      var position := if sym in positions then positions[sym] else FLAT;
      var lots := ScaleInPlace(position.lots, tx.qty);
      position := position.(qty := position.qty * tx.qty, lots := lots);
      assert position == SplitBy(PositionOf(old(Contents()), sym), tx.qty);
      positions := positions[sym := position];
    }

    method ApplySell(tx: Tx, sym: string) returns (error: Option<Error>)
      requires Valid() && tx.kind == Sell && tx.qty > 0.0
      modifies this
      ensures Applied(Contents(), error) == SymbolStep(old(Contents()), tx, sym)
    {
      var position := if sym in positions then positions[sym] else FLAT;
      positions := positions[sym := position];
      if tx.qty > position.qty {
        return Some(Oversell(tx.id, sym, position.qty, tx.qty));
      }
      assert GoodPosition(position);
      var basisSold, lots := ConsumeFifo(position.lots, tx.qty);
      var proceeds := tx.NetProceeds();
      var pnl := proceeds - basisSold;
      cash := cash + proceeds;
      position := position.(qty := position.qty - tx.qty, costBasis := position.costBasis - basisSold,
                            realizedPnl := position.realizedPnl + pnl, lots := lots);
      assert position == SoldFrom(PositionOf(old(Contents()), sym), tx);
      positions := positions[sym := position];
      assert positions == old(positions)[sym := position];
      events := events + [Event(tx.ts, pnl)];
      error := None;
    }
  }

  /** Folds the whole log, stopping at the first transaction that fails. */
  method ComputeBasis(txs: seq<Tx>) returns (book: PortfolioBasis, error: Option<Error>)
    ensures fresh(book) && book.Valid()
    ensures error.None? ==> Replay(EMPTY, txs) == Ok(book.Contents())
    ensures error.Some? ==> Replay(EMPTY, txs) == Err(error.value)
  {
    book := new PortfolioBasis();
    var i := 0;
    assert txs[0..] == txs;
    while i < |txs|
      invariant 0 <= i <= |txs|
      invariant book.Valid()
      invariant Replay(EMPTY, txs) == Replay(book.Contents(), txs[i..])
    {
      assert txs[i..][0] == txs[i] && txs[i..][1..] == txs[i + 1..];
      error := book.ApplyTx(txs[i]);
      if error.Some? { return; }
      i := i + 1;
    }
    error := None;
  }
}
