/** What first-in-first-out means, stated over the whole log instead of one sell at a time. */
module Fifo {
  import opened Log
  import opened Sums
  import opened Portfolio

  /** The piecewise-linear cost of the first `x` shares of a run of lots. */
  function CostCurve(lots: seq<Lot>, x: real): real {
    if x <= 0.0 || lots == [] then 0.0
    else if x <= lots[0].qty then x * lots[0].unitCost
    else LotCost(lots[0]) + CostCurve(lots[1..], x - lots[0].qty)
  }

  /** What one valid transaction does to the open lots of `sym`. */
  function LotsAfter(lots: seq<Lot>, tx: Tx, sym: string): seq<Lot> {
    if !tx.IsFor(sym) || tx.qty <= 0.0 then lots
    else if tx.kind == Buy then lots + [Lot(tx.qty, tx.Cost() / tx.qty, tx.ts)]
    else if tx.kind == Sell then Consume(lots, tx.qty).rest
    else if tx.kind == Split then ScaleLots(lots, tx.qty)
    else lots
  }

  /** Every lot the log ever bought of `sym`, in today's split-adjusted shares. */
  function Acquired(txs: seq<Tx>, sym: string): seq<Lot> {
    if txs == [] then []
    else
      var lots, tx := Acquired(txs[..|txs| - 1], sym), txs[|txs| - 1];
      if tx.kind == Sell then lots else LotsAfter(lots, tx, sym)
  }

  /** Every share the log ever sold of `sym`, in today's split-adjusted shares. */
  function SoldShares(txs: seq<Tx>, sym: string): real {
    if txs == [] then 0.0
    else
      var sold, tx := SoldShares(txs[..|txs| - 1], sym), txs[|txs| - 1];
      if !tx.IsFor(sym) then sold
      else if tx.kind == Sell then sold + tx.qty
      else if tx.kind == Split then Times(sold, tx.qty)
      else sold
  }

  // ---------------------------------------------------------------- algebra of taking from the front

  lemma {:induction false} ConsumeFollowsCurve(lots: seq<Lot>, want: real)
    requires Positive(lots) && want >= 0.0
    ensures Consume(lots, want).basis == CostCurve(lots, want)
  {
    if want > 0.0 && lots != [] {
      if want >= lots[0].qty {
        ConsumeFollowsCurve(lots[1..], want - lots[0].qty);
        ConsumeWholeHead(lots, want);
        CurveWholeHead(lots, want);
      } else {
        ConsumePartHead(lots, want);
      }
    }
  }

  lemma CurveWholeHead(lots: seq<Lot>, want: real)
    requires lots != [] && 0.0 < lots[0].qty <= want
    ensures CostCurve(lots, want) == LotCost(lots[0]) + CostCurve(lots[1..], want - lots[0].qty)
  {
  }

  /** A want that covers the whole front lot takes it and goes on. */
  lemma ConsumeWholeHead(lots: seq<Lot>, want: real)
    requires lots != [] && 0.0 < lots[0].qty <= want
    ensures var t := Consume(lots[1..], want - lots[0].qty);
      Consume(lots, want) == Taken(LotCost(lots[0]) + t.basis, t.rest)
  {
  }

  lemma ConsumePartHead(lots: seq<Lot>, want: real)
    requires lots != [] && 0.0 < want < lots[0].qty
    ensures Consume(lots, want) ==
            Taken(want * lots[0].unitCost, [lots[0].(qty := lots[0].qty - want)] + lots[1..])
  {
  }

  /** Taking in two goes is taking once. */
  lemma {:induction false} ConsumeTwice(lots: seq<Lot>, a: real, b: real)
    requires Positive(lots) && a >= 0.0 && b >= 0.0
    ensures var first := Consume(lots, a);
      var second := Consume(first.rest, b);
      Consume(lots, a + b) == Taken(first.basis + second.basis, second.rest)
  {
    if a > 0.0 && lots != [] {
      if a >= lots[0].qty {
        ConsumeTwice(lots[1..], a - lots[0].qty, b);
        ConsumeWholeHead(lots, a);
        ConsumeWholeHead(lots, a + b);
        assert a + b - lots[0].qty == a - lots[0].qty + b;
      } else {
        ConsumeTwiceHead(lots, a, b);
      }
    }
  }

  lemma ConsumeTwiceHead(lots: seq<Lot>, a: real, b: real)
    requires lots != [] && 0.0 < a < lots[0].qty && b >= 0.0
    ensures var first := Consume(lots, a);
      var second := Consume(first.rest, b);
      Consume(lots, a + b) == Taken(first.basis + second.basis, second.rest)
  {
    var l := lots[0];
    var left := l.(qty := l.qty - a);
    ConsumePartHead(lots, a);
    var rest := [left] + lots[1..];
    assert rest[1..] == lots[1..];
    if a + b >= l.qty {
      TwiceOver(lots, rest, a, b);
    } else if b > 0.0 {
      TwiceWithin(lots, rest, a, b);
    }
  }

  lemma TwiceOver(lots: seq<Lot>, rest: seq<Lot>, a: real, b: real)
    requires lots != [] && 0.0 < a < lots[0].qty <= a + b
    requires rest != [] && rest[0] == lots[0].(qty := lots[0].qty - a) && rest[1..] == lots[1..]
    ensures var second := Consume(rest, b);
      Consume(lots, a + b) == Taken(a * lots[0].unitCost + second.basis, second.rest)
  {
    ConsumeWholeHead(lots, a + b);
    ConsumeWholeHead(rest, b);
    assert a + b - lots[0].qty == b - rest[0].qty;
    CostInTwo(a, rest[0].qty, lots[0].unitCost);
  }

  lemma TwiceWithin(lots: seq<Lot>, rest: seq<Lot>, a: real, b: real)
    requires lots != [] && 0.0 < a && 0.0 < b && a + b < lots[0].qty
    requires rest != [] && rest[0] == lots[0].(qty := lots[0].qty - a) && rest[1..] == lots[1..]
    ensures var second := Consume(rest, b);
      Consume(lots, a + b) == Taken(a * lots[0].unitCost + second.basis, second.rest)
  {
    ConsumePartHead(lots, a + b);
    ConsumePartHead(rest, b);
    CostInTwo(a, b, lots[0].unitCost);
  }

  lemma CostInTwo(a: real, b: real, unit: real)
    ensures a * unit + b * unit == (a + b) * unit
  {
  }

  lemma PartBeforeAppend(lots: seq<Lot>, tail: seq<Lot>, want: real)
    requires lots != [] && 0.0 < want < lots[0].qty
    ensures Consume(lots + tail, want) == Taken(Consume(lots, want).basis, Consume(lots, want).rest + tail)
  {
    var left, rest := lots[0].(qty := lots[0].qty - want), lots[1..];
    AppendTail(lots, tail);
    ConsumePartHead(lots, want);
    ConsumePartHead(lots + tail, want);
    assert [left] + (rest + tail) == ([left] + rest) + tail;
  }

  lemma {:induction false} ConsumeBeforeAppend(lots: seq<Lot>, tail: seq<Lot>, want: real)
    requires Positive(lots) && want <= Sum(lots, LotQty)
    ensures Consume(lots + tail, want) == Taken(Consume(lots, want).basis, Consume(lots, want).rest + tail)
  {
    if lots != [] {
      AppendTail(lots, tail);
      if want > 0.0 && want >= lots[0].qty {
        ConsumeBeforeAppend(lots[1..], tail, want - lots[0].qty);
        ConsumeWholeHead(lots, want);
        ConsumeWholeHead(lots + tail, want);
      } else if want > 0.0 {
        PartBeforeAppend(lots, tail, want);
      }
    }
  }

  lemma ScaledSign(a: real, ratio: real)
    requires ratio > 0.0
    ensures a > 0.0 <==> a * ratio > 0.0
  {
    if a <= 0.0 { assert -a * ratio >= 0.0; }
  }

  lemma ScaledOrder(a: real, b: real, ratio: real, x: real, y: real)
    requires ratio > 0.0 && x == a * ratio && y == b * ratio
    ensures (a < b <==> x < y) && (a - b) * ratio == x - y
  {
    MulMono(a, b, ratio);
    MulMono(b, a, ratio);
  }

  lemma RestWholeHead(lots: seq<Lot>, want: real)
    requires lots != [] && 0.0 < lots[0].qty <= want
    ensures Consume(lots, want).rest == Consume(lots[1..], want - lots[0].qty).rest
  {
  }

  lemma ScaledHead(lots: seq<Lot>, ratio: real)
    requires lots != [] && ratio > 0.0
    ensures ScaleLots(lots, ratio) != [] && ScaleLots(lots, ratio)[0].qty == lots[0].qty * ratio
    ensures ScaleLots(lots, ratio)[1..] == ScaleLots(lots[1..], ratio)
  {
  }

  /** A split commutes with taking from the front: `want` old shares are `scaledWant` new ones. */
  lemma {:induction false} ConsumeScaled(lots: seq<Lot>, want: real, ratio: real, scaledWant: real)
    requires Positive(lots) && ratio > 0.0 && scaledWant == want * ratio
    ensures Consume(ScaleLots(lots, ratio), scaledWant).rest == ScaleLots(Consume(lots, want).rest, ratio)
  {
    ScaledSign(want, ratio);
    if want > 0.0 && lots != [] {
      var first := lots[0].qty * ratio;
      ScaledSign(lots[0].qty, ratio);
      ScaledOrder(want, lots[0].qty, ratio, scaledWant, first);
      if want >= lots[0].qty {
        ConsumeScaled(lots[1..], want - lots[0].qty, ratio, scaledWant - first);
        ScaledHead(lots, ratio);
        RestWholeHead(lots, want);
        RestWholeHead(ScaleLots(lots, ratio), scaledWant);
      } else {
        ConsumeScaledHead(lots, want, ratio, scaledWant);
      }
    }
  }

  lemma ConsumeScaledHead(lots: seq<Lot>, want: real, ratio: real, scaledWant: real)
    requires lots != [] && 0.0 < want < lots[0].qty && ratio > 0.0
    requires scaledWant == want * ratio && 0.0 < scaledWant < lots[0].qty * ratio
    ensures Consume(ScaleLots(lots, ratio), scaledWant).rest == ScaleLots(Consume(lots, want).rest, ratio)
  {
    var l := lots[0];
    var left, rest := l.(qty := l.qty - want), lots[1..];
    assert Consume(lots, want).rest == [left] + rest && ([left] + rest)[1..] == rest;
    var scaled := ScaleLots(lots, ratio);
    assert scaled[0] == ScaleLot(l, ratio) && scaled[1..] == ScaleLots(rest, ratio);
    assert (l.qty - want) * ratio == l.qty * ratio - scaledWant;
    assert ScaleLot(left, ratio) == scaled[0].(qty := scaled[0].qty - scaledWant);
    assert Consume(scaled, scaledWant).rest == [ScaleLot(left, ratio)] + scaled[1..];
  }

  // ---------------------------------------------------------------- the closed form

  /** After any valid log the open lots are everything bought, less the first shares sold. */
  lemma {:induction false} OpenLotsAreTheUnsoldTail(txs: seq<Tx>, sym: string)
    requires Replay(EMPTY, txs).Ok?
    ensures UnsoldTail(PositionOf(Replay(EMPTY, txs).value, sym).lots, Acquired(txs, sym), SoldShares(txs, sym))
  {
    if txs != [] {
      var before, tx := txs[..|txs| - 1], txs[|txs| - 1];
      assert txs == before + [tx];
      ReplayAppend(EMPTY, before, [tx]);
      OpenLotsAreTheUnsoldTail(before, sym);
      EmptyIsGood();
      ReplayGood(EMPTY, before);
      TailStep(Replay(EMPTY, before).value, before, tx, sym);
    }
  }

  /** The closed form at one point of the log. */
  ghost predicate UnsoldTail(open: seq<Lot>, lots: seq<Lot>, sold: real) {
    Positive(lots) && 0.0 <= sold <= Sum(lots, LotQty) && open == Consume(lots, sold).rest
  }

  lemma StepLots(b: Book, tx: Tx, sym: string)
    requires Step(b, tx).error.None?
    ensures PositionOf(Step(b, tx).book, sym).lots == LotsAfter(PositionOf(b, sym).lots, tx, sym)
    ensures tx.kind == Sell && tx.IsFor(sym) ==> 0.0 < tx.qty <= PositionOf(b, sym).qty
    ensures (tx.kind == Buy || tx.kind == Split) && tx.IsFor(sym) ==> tx.qty > 0.0
  {
  }

  lemma TailStep(b: Book, before: seq<Tx>, tx: Tx, sym: string)
    requires GoodPositions(b) && Step(b, tx).error.None?
    requires UnsoldTail(PositionOf(b, sym).lots, Acquired(before, sym), SoldShares(before, sym))
    ensures UnsoldTail(PositionOf(Step(b, tx).book, sym).lots,
                       Acquired(before + [tx], sym), SoldShares(before + [tx], sym))
  {
    StepLots(b, tx, sym);
    assert GoodPosition(PositionOf(b, sym));
    TailLots(PositionOf(b, sym).lots, before, tx, sym);
  }

  lemma TailLots(open: seq<Lot>, before: seq<Tx>, tx: Tx, sym: string)
    requires UnsoldTail(open, Acquired(before, sym), SoldShares(before, sym))
    requires tx.kind == Sell && tx.IsFor(sym) ==> 0.0 < tx.qty <= Sum(open, LotQty)
    requires (tx.kind == Buy || tx.kind == Split) && tx.IsFor(sym) ==> tx.qty > 0.0
    ensures UnsoldTail(LotsAfter(open, tx, sym), Acquired(before + [tx], sym), SoldShares(before + [tx], sym))
  {
    assert (before + [tx])[..|before|] == before;
    var lots, sold := Acquired(before, sym), SoldShares(before, sym);
    if tx.IsFor(sym) && tx.kind == Buy {
      TailBuy(open, lots, sold, Lot(tx.qty, tx.Cost() / tx.qty, tx.ts));
    } else if tx.IsFor(sym) && tx.kind == Sell {
      TailSell(open, lots, sold, tx.qty);
    } else if tx.IsFor(sym) && tx.kind == Split {
      SplitOfHistory(before, tx, sym);
      TailSplit(open, lots, sold, tx.qty, LotsAfter(open, tx, sym), Acquired(before + [tx], sym),
                SoldShares(before + [tx], sym));
    }
  }

  lemma SplitOfHistory(before: seq<Tx>, tx: Tx, sym: string)
    requires tx.kind == Split && tx.IsFor(sym) && tx.qty > 0.0
    ensures Acquired(before + [tx], sym) == ScaleLots(Acquired(before, sym), tx.qty)
    ensures SoldShares(before + [tx], sym) == Times(SoldShares(before, sym), tx.qty)
  {
    assert (before + [tx])[..|before|] == before;
  }

  lemma TailBuy(open: seq<Lot>, lots: seq<Lot>, sold: real, lot: Lot)
    requires UnsoldTail(open, lots, sold) && lot.qty > 0.0
    ensures UnsoldTail(open + [lot], lots + [lot], sold)
  {
    ConsumeBeforeAppend(lots, [lot], sold);
    SumSnoc(lots, lot, LotQty);
  }

  lemma TailSell(open: seq<Lot>, lots: seq<Lot>, sold: real, want: real)
    requires UnsoldTail(open, lots, sold) && 0.0 < want <= Sum(open, LotQty)
    ensures UnsoldTail(Consume(open, want).rest, lots, sold + want)
  {
    ConsumeTwice(lots, sold, want);
    ConsumeQty(lots, sold);
  }

  lemma ScaledBounds(lots: seq<Lot>, sold: real, ratio: real, scaledSold: real)
    requires 0.0 <= sold <= Sum(lots, LotQty) && ratio > 0.0 && scaledSold == sold * ratio
    ensures 0.0 <= scaledSold <= Sum(ScaleLots(lots, ratio), LotQty)
  {
    MulMono(sold, Sum(lots, LotQty), ratio);
    MulMono(0.0, sold, ratio);
    ScaleQty(lots, ratio);
  }

  lemma TailSplit(open: seq<Lot>, lots: seq<Lot>, sold: real, ratio: real, open': seq<Lot>, lots': seq<Lot>,
                  sold': real)
    requires UnsoldTail(open, lots, sold) && ratio > 0.0
    requires open' == ScaleLots(open, ratio) && lots' == ScaleLots(lots, ratio) && sold' == Times(sold, ratio)
    ensures UnsoldTail(open', lots', sold')
  {
    ScaledBounds(lots, sold, ratio, sold');
    ConsumeScaled(lots, sold, ratio, sold');
    ScaleQty(lots, ratio);
  }

  /**
   * A sell of `q` shares after `S` earlier ones realizes its net proceeds less C(S+q) - C(S), where C is the cost
   * curve of everything bought; and the open cost basis is the rest of the curve.
   */
  lemma SellConsumesCurveSegment(txs: seq<Tx>, tx: Tx, sym: string)
    requires tx.kind == Sell && tx.IsFor(sym)
    requires Replay(EMPTY, txs + [tx]).Ok?
    ensures Replay(EMPTY, txs).Ok?
    ensures var lots, sold := Acquired(txs, sym), SoldShares(txs, sym);
      var p, q := PositionOf(Replay(EMPTY, txs).value, sym), PositionOf(Replay(EMPTY, txs + [tx]).value, sym);
      && q.realizedPnl == p.realizedPnl + tx.NetProceeds()
                          - (CostCurve(lots, sold + tx.qty) - CostCurve(lots, sold))
      && p.costBasis == Sum(lots, LotCost) - CostCurve(lots, sold)
      && q.costBasis == Sum(lots, LotCost) - CostCurve(lots, sold + tx.qty)
  {
    ReplayAppend(EMPTY, txs, [tx]);
    var b := Replay(EMPTY, txs).value;
    assert Replay(EMPTY, txs + [tx]) == Ok(Step(b, tx).book);
    EmptyIsGood();
    ReplayGood(EMPTY, txs);
    assert GoodPosition(PositionOf(b, sym));
    OpenLotsAreTheUnsoldTail(txs, sym);
    CurveSegment(PositionOf(b, sym).lots, Acquired(txs, sym), SoldShares(txs, sym), tx.qty);
    assert PositionOf(Step(b, tx).book, sym) == SoldFrom(PositionOf(b, sym), tx);
  }

  lemma CurveSegment(open: seq<Lot>, lots: seq<Lot>, sold: real, want: real)
    requires UnsoldTail(open, lots, sold) && want >= 0.0
    ensures Consume(open, want).basis == CostCurve(lots, sold + want) - CostCurve(lots, sold)
    ensures Sum(open, LotCost) == Sum(lots, LotCost) - CostCurve(lots, sold)
  {
    ConsumeTwice(lots, sold, want);
    ConsumeFollowsCurve(lots, sold);
    ConsumeFollowsCurve(lots, sold + want);
    ConsumeCost(lots, sold);
  }

  /** Two books that agree on every position and on cash; the log of realized amounts may be cut differently. */
  predicate SameHoldings(a: Book, b: Book) { a.positions == b.positions && a.cash == b.cash }

  lemma CutInTwo(b: Book, whole: Tx, first: Tx, second: Tx, sym: string)
    requires GoodPositions(b)
    requires whole.kind == first.kind == second.kind == Sell
    requires whole.IsFor(sym) && first.IsFor(sym) && second.IsFor(sym)
    requires first.qty > 0.0 && second.qty > 0.0 && whole.qty == first.qty + second.qty
    requires whole.NetProceeds() == first.NetProceeds() + second.NetProceeds()
    ensures Step(b, whole).error.None? <==> Step(b, first).error.None? && Step(Step(b, first).book, second).error.None?
    ensures Step(b, whole).error.None? ==> SameHoldings(Step(b, whole).book, Step(Step(b, first).book, second).book)
  {
    var p := PositionOf(b, sym);
    assert GoodPosition(p);
    var b1 := Step(b, first).book;
    if whole.qty <= p.qty {
      ConsumeTwice(p.lots, first.qty, second.qty);
      assert SoldFrom(SoldFrom(p, first), second) == SoldFrom(p, whole);
      assert Step(b, whole).book.positions == Step(b1, second).book.positions;
    }
  }

  ghost predicate SellsOf(pieces: seq<Tx>, sym: string) {
    forall i :: 0 <= i < |pieces| ==> pieces[i].kind == Sell && pieces[i].IsFor(sym) && pieces[i].qty > 0.0
  }

  function TxQty(tx: Tx): real { tx.qty }

  function TxProceeds(tx: Tx): real { tx.NetProceeds() }

  /** One sell of this many shares for these net proceeds. */
  function OneSell(sym: string, qty: real, proceeds: real): Tx {
    Tx(0, Sell, Some(sym), qty, 0.0, -proceeds, 0.0, 0)
  }

  lemma {:induction false} SellsSumPositive(pieces: seq<Tx>, sym: string)
    requires SellsOf(pieces, sym) && pieces != []
    ensures Sum(pieces, TxQty) > 0.0
  {
    if |pieces| > 1 {
      SellsSumPositive(pieces[1..], sym);
    } else {
      assert pieces[1..] == [];
    }
  }

  lemma SellKeepsGood(b: Book, tx: Tx, sym: string)
    requires GoodPositions(b) && tx.kind == Sell && tx.IsFor(sym)
    ensures GoodPositions(Step(b, tx).book)
  {
    assert GoodPosition(PositionOf(b, sym));
    SymbolStepPosition(b, tx, sym);
  }

  lemma SameSellStep(b: Book, x: Tx, y: Tx, sym: string)
    requires x.kind == y.kind == Sell && x.IsFor(sym) && y.IsFor(sym)
    requires x.qty == y.qty && x.NetProceeds() == y.NetProceeds()
    ensures Step(b, x).error.None? <==> Step(b, y).error.None?
    ensures Step(b, x).error.None? ==> SameHoldings(Step(b, x).book, Step(b, y).book)
  {
    assert SoldFrom(PositionOf(b, sym), x) == SoldFrom(PositionOf(b, sym), y);
  }

  /**
   * Cutting one sell into any number of sells with the same shares and net proceeds in all: they go through exactly
   * when it does, and leave every position and the cash as it does.
   */
  lemma {:induction false} CuttingASellChangesNothing(b: Book, whole: Tx, pieces: seq<Tx>, sym: string)
    requires GoodPositions(b) && whole.kind == Sell && whole.IsFor(sym)
    requires pieces != [] && SellsOf(pieces, sym)
    requires whole.qty == Sum(pieces, TxQty) && whole.NetProceeds() == Sum(pieces, TxProceeds)
    ensures Step(b, whole).error.None? <==> Replay(b, pieces).Ok?
    ensures Step(b, whole).error.None? ==> SameHoldings(Step(b, whole).book, Replay(b, pieces).value)
    decreases |pieces|
  {
    var first, rest := pieces[0], pieces[1..];
    var b1 := Step(b, first).book;
    if rest == [] {
      SameSellStep(b, whole, first, sym);
    } else {
      var second := OneSell(sym, Sum(rest, TxQty), Sum(rest, TxProceeds));
      SellsSumPositive(rest, sym);
      CutInTwo(b, whole, first, second, sym);
      SellKeepsGood(b, first, sym);
      CuttingASellChangesNothing(b1, second, rest, sym);
    }
  }
}
