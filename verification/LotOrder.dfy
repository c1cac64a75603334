/**
 * Open tax lots share by share: the x-th share of a symbol has a buy, a unit basis and a clock. This is what selling,
 * designating replacement shares, buying and splitting do to each of them, whatever lots they are kept in.
 */
module LotOrder {
  import opened Sums
  import opened Log
  import opened TaxLots
  import opened WashSale
  import opened TaxLedger

  datatype Share = Share(buyId: int, unit: real, since: int)

  function ShareOf(l: TaxLot): Share { Share(l.buyId, l.unitBasis, l.holdingFrom) }

  /** The share at distance x from the front. */
  function ShareAt(lots: seq<TaxLot>, x: real): Share
    requires Positive(lots) && 0.0 <= x < Sum(lots, LotQty)
  {
    if x < lots[0].qty then ShareOf(lots[0])
    else ShareAt(lots[1..], x - lots[0].qty)
  }

  lemma FrontShare(lots: seq<TaxLot>, front: TaxLot, rest: seq<TaxLot>, x: real)
    requires lots == [front] + rest && Positive(lots) && 0.0 <= x < Sum(lots, LotQty)
    ensures Positive(rest) && Sum(lots, LotQty) == front.qty + Sum(rest, LotQty)
    ensures ShareAt(lots, x) ==
            if x < front.qty then ShareOf(front) else ShareAt(rest, x - front.qty)
  {
    assert lots[1..] == rest;
  }

  // ---------------------------------------------------------------- selling

  /** The chunk that closes the x-th share sold. */
  function ChunkAt(chunks: seq<Chunk>, x: real): Chunk
    requires PositiveChunks(chunks) && 0.0 <= x < Sum(chunks, ChunkQty)
  {
    if x < chunks[0].qty then chunks[0] else ChunkAt(chunks[1..], x - chunks[0].qty)
  }

  /** A chunk closes a share of this kind: from its buy, with its clock, at its basis. */
  predicate Closes(c: Chunk, s: Share) {
    c.buyId == s.buyId && c.holdingFrom == s.since && c.basis == Times(c.qty, s.unit)
  }

  lemma FrontChunk(chunks: seq<Chunk>, front: Chunk, rest: seq<Chunk>, x: real)
    requires chunks == [front] + rest && PositiveChunks(chunks) && 0.0 <= x < Sum(chunks, ChunkQty)
    ensures PositiveChunks(rest) && Sum(chunks, ChunkQty) == front.qty + Sum(rest, ChunkQty)
    ensures ChunkAt(chunks, x) == if x < front.qty then front else ChunkAt(rest, x - front.qty)
  {
    assert chunks[1..] == rest;
  }

  /** The x-th share is closed at its own basis when it is among the first `want`, and kept as it is if not. */
  ghost predicate Follows(lots: seq<TaxLot>, t: Taken, want: real, x: real)
    requires Positive(lots) && 0.0 <= x < Sum(lots, LotQty)
  {
    && Positive(t.rest) && PositiveChunks(t.chunks)
    && Sum(t.chunks, ChunkQty) == want && Sum(t.rest, LotQty) == Sum(lots, LotQty) - want
    && (0.0 <= x < want ==> Closes(ChunkAt(t.chunks, x), ShareAt(lots, x)))
    && (x >= want ==> ShareAt(t.rest, x - want) == ShareAt(lots, x))
  }

  lemma {:induction false} WholeLotFollows(lots: seq<TaxLot>, front: Chunk, tail: Taken, t: Taken, want: real, x: real)
    requires Positive(lots) && 0.0 <= x < Sum(lots, LotQty) && t == Taken([front] + tail.chunks, tail.rest)
    requires front.qty == lots[0].qty <= want && Closes(front, ShareOf(lots[0]))
    requires PositiveChunks(t.chunks) && Sum(t.chunks, ChunkQty) == want
    requires Positive(t.rest) && Sum(t.rest, LotQty) == Sum(lots, LotQty) - want
    requires x >= lots[0].qty ==> Follows(lots[1..], tail, want - lots[0].qty, x - lots[0].qty)
    ensures Follows(lots, t, want, x)
  {
    if x < want {
      FrontChunk(t.chunks, front, tail.chunks, x);
    }
  }

  lemma {:induction false} PartFollows(lots: seq<TaxLot>, front: Chunk, left: TaxLot, t: Taken, want: real, x: real)
    requires Positive(lots) && 0.0 <= x < Sum(lots, LotQty) && t == Taken([front], [left] + lots[1..])
    requires front.qty == want < lots[0].qty && Closes(front, ShareOf(lots[0])) && ShareOf(left) == ShareOf(lots[0])
    requires left.qty == lots[0].qty - want && Positive(t.rest)
    requires PositiveChunks(t.chunks) && Sum(t.chunks, ChunkQty) == want
    requires Sum(t.rest, LotQty) == Sum(lots, LotQty) - want
    ensures Follows(lots, t, want, x)
  {
    if x >= want {
      FrontShare(t.rest, left, lots[1..], x - want);
    }
  }

  lemma TakenWhole(lots: seq<TaxLot>, want: real) returns (front: Chunk)
    requires lots != [] && Positive(lots) && want >= lots[0].qty
    ensures var tail := TakeChunks(lots[1..], want - lots[0].qty);
      TakeChunks(lots, want) == Taken([front] + tail.chunks, tail.rest)
    ensures front.qty == lots[0].qty && Closes(front, ShareOf(lots[0]))
  {
    front := ChunkOf(lots[0], lots[0].qty);
  }

  lemma TakenInPart(lots: seq<TaxLot>, want: real) returns (front: Chunk, left: TaxLot)
    requires lots != [] && 0.0 < want < lots[0].qty
    ensures TakeChunks(lots, want) == Taken([front], [left] + lots[1..])
    ensures front.qty == want && Closes(front, ShareOf(lots[0]))
    ensures ShareOf(left) == ShareOf(lots[0]) && left.qty == lots[0].qty - want
  {
    front, left := ChunkOf(lots[0], want), lots[0].(qty := lots[0].qty - want);
  }

  lemma FrontLotFollows(lots: seq<TaxLot>, want: real, x: real)
    requires Positive(lots) && 0.0 < want <= Sum(lots, LotQty) && 0.0 <= x < Sum(lots, LotQty)
    requires lots[0].qty <= want && lots[0].qty <= x ==>
               Follows(lots[1..], TakeChunks(lots[1..], want - lots[0].qty), want - lots[0].qty, x - lots[0].qty)
    ensures Follows(lots, TakeChunks(lots, want), want, x)
  {
    TakeQty(lots, want);
    if want >= lots[0].qty {
      var front := TakenWhole(lots, want);
      WholeLotFollows(lots, front, TakeChunks(lots[1..], want - lots[0].qty), TakeChunks(lots, want), want, x);
    } else {
      var front, left := TakenInPart(lots, want);
      PartFollows(lots, front, left, TakeChunks(lots, want), want, x);
    }
  }

  /** A sell closes the first `want` shares, each at its own basis, and moves the others to the front as they are. */
  lemma {:induction false} TakesFromTheFront(lots: seq<TaxLot>, want: real, x: real)
    requires Positive(lots) && 0.0 <= want <= Sum(lots, LotQty) && 0.0 <= x < Sum(lots, LotQty)
    ensures Follows(lots, TakeChunks(lots, want), want, x)
  {
    if want <= 0.0 {
      assert TakeChunks(lots, want) == Taken([], lots);
    } else {
      if lots[0].qty <= want && lots[0].qty <= x {
        TailFits(lots, want, x);
        TakesFromTheFront(lots[1..], want - lots[0].qty, x - lots[0].qty);
      }
      FrontLotFollows(lots, want, x);
    }
  }

  lemma TailFits(lots: seq<TaxLot>, want: real, x: real)
    requires lots != [] && Positive(lots) && want <= Sum(lots, LotQty) && x < Sum(lots, LotQty)
    ensures Positive(lots[1..]) && want - lots[0].qty <= Sum(lots[1..], LotQty)
    ensures x - lots[0].qty < Sum(lots[1..], LotQty)
  {
  }

  // ---------------------------------------------------------------- designating replacement shares

  /** Shares of one buy in front of the x-th share. */
  function Ahead(lots: seq<TaxLot>, id: int, x: real): real
    requires Positive(lots) && 0.0 <= x < Sum(lots, LotQty)
  {
    if x < lots[0].qty then (if lots[0].buyId == id then x else 0.0)
    else (if lots[0].buyId == id then lots[0].qty else 0.0) + Ahead(lots[1..], id, x - lots[0].qty)
  }

  lemma {:induction false} AheadAtLeast(lots: seq<TaxLot>, id: int, x: real)
    requires Positive(lots) && 0.0 <= x < Sum(lots, LotQty)
    ensures Ahead(lots, id, x) >= 0.0
  {
    if x >= lots[0].qty {
      AheadAtLeast(lots[1..], id, x - lots[0].qty);
    }
  }

  /** The share after `qty` shares of the buy have been designated, with so many of that buy in front of it. */
  function Designated(s: Share, buyId: int, qty: real, add: real, anchor: int, ahead: real): Share {
    if s.buyId == buyId && ahead < qty then Share(buyId, s.unit + add, anchor) else s
  }

  /** Designation touches the first `qty` shares of the buy, wherever they stand; every other share stays as it is. */
  lemma {:induction false} DesignatesTheFirst(lots: seq<TaxLot>, buyId: int, qty: real, add: real, anchor: int, x: real)
    requires Positive(lots) && 0.0 <= x < Sum(lots, LotQty)
    ensures var a := Adjusted(lots, buyId, qty, add, anchor);
      && Positive(a) && Sum(a, LotQty) == Sum(lots, LotQty)
      && ShareAt(a, x) == Designated(ShareAt(lots, x), buyId, qty, add, anchor, Ahead(lots, buyId, x))
  {
    AdjustedQty(lots, buyId, qty, add, anchor);
    AheadAtLeast(lots, buyId, x);
    if qty > 0.0 {
      if lots[0].buyId == buyId && qty < lots[0].qty {
        DesignatesAPart(lots, buyId, qty, add, anchor, x);
      } else {
        var l, own := lots[0], lots[0].buyId == buyId;
        var left := if own then qty - l.qty else qty;
        var front := if own then TaxLot(buyId, l.qty, l.unitBasis + add, anchor) else l;
        FrontShare(Adjusted(lots, buyId, qty, add, anchor), front, Adjusted(lots[1..], buyId, left, add, anchor), x);
        if x >= l.qty {
          DesignatesTheFirst(lots[1..], buyId, left, add, anchor, x - l.qty);
        }
      }
    }
  }

  lemma DesignatesAPart(lots: seq<TaxLot>, buyId: int, qty: real, add: real, anchor: int, x: real)
    requires Positive(lots) && 0.0 <= x < Sum(lots, LotQty) && lots[0].buyId == buyId && 0.0 < qty < lots[0].qty
    ensures var a := Adjusted(lots, buyId, qty, add, anchor);
      && Positive(a) && Sum(a, LotQty) == Sum(lots, LotQty)
      && ShareAt(a, x) == Designated(ShareAt(lots, x), buyId, qty, add, anchor, Ahead(lots, buyId, x))
  {
    AdjustedQty(lots, buyId, qty, add, anchor);
    var l, a := lots[0], Adjusted(lots, buyId, qty, add, anchor);
    var bumped, left := TaxLot(buyId, qty, l.unitBasis + add, anchor), l.(qty := l.qty - qty);
    FrontShare(a, bumped, [left] + lots[1..], x);
    if x >= qty {
      FrontShare([left] + lots[1..], left, lots[1..], x - qty);
      if x >= l.qty { AheadAtLeast(lots[1..], buyId, x - l.qty); }
    }
  }

  // ---------------------------------------------------------------- buying

  /** The adjustment owed to the x-th share of a buy, if one is: they take its shares in the order they were owed. */
  function OwedTo(adjs: seq<PendingAdj>, x: real): Option<PendingAdj> {
    if adjs == [] then None
    else if x < adjs[0].qty then Some(adjs[0])
    else OwedTo(adjs[1..], x - Max(0.0, adjs[0].qty))
  }

  function Bought(id: int, adjs: seq<PendingAdj>, unit: real, date: int, x: real): Share {
    match OwedTo(adjs, x)
    case Some(adj) => Share(id, unit + adj.perShareAdd, adj.holdingFrom)
    case None => Share(id, unit, date)
  }

  lemma {:induction false} EntersAsOwed(id: int, qty: real, adjs: seq<PendingAdj>, unit: real, date: int, x: real)
    requires 0.0 <= x < qty
    ensures var lots := Entering(id, qty, adjs, unit, date);
      Positive(lots) && Sum(lots, LotQty) == qty && ShareAt(lots, x) == Bought(id, adjs, unit, date, x)
    decreases adjs
  {
    EnteringQty(id, qty, adjs, unit, date);
    var lots := Entering(id, qty, adjs, unit, date);
    if adjs != [] {
      var take := Min(qty, adjs[0].qty);
      if take > 0.0 {
        var rest := Entering(id, qty - take, adjs[1..], unit, date);
        FrontShare(lots, TaxLot(id, take, unit + adjs[0].perShareAdd, adjs[0].holdingFrom), rest, x);
        if x >= take {
          EntersAsOwed(id, qty - take, adjs[1..], unit, date, x - take);
        }
      } else {
        EntersAsOwed(id, qty, adjs[1..], unit, date, x);
      }
    }
  }

  lemma {:induction false} NotNegative(lots: seq<TaxLot>)
    requires Positive(lots)
    ensures Sum(lots, LotQty) >= 0.0
  {
    if lots != [] {
      NotNegative(lots[1..]);
    }
  }

  lemma {:induction false} BehindTheOthers(lots: seq<TaxLot>, more: seq<TaxLot>, x: real)
    requires Positive(lots) && Positive(more) && 0.0 <= x < Sum(lots, LotQty) + Sum(more, LotQty)
    ensures Positive(lots + more) && Sum(lots + more, LotQty) == Sum(lots, LotQty) + Sum(more, LotQty)
    ensures ShareAt(lots + more, x) ==
            if x < Sum(lots, LotQty) then ShareAt(lots, x) else ShareAt(more, x - Sum(lots, LotQty))
  {
    SumAppend(lots, more, LotQty);
    NotNegative(lots);
    if lots == [] {
      assert lots + more == more;
    } else {
      AppendTail(lots, more);
      NotNegative(lots[1..]);
      if x >= lots[0].qty {
        BehindTheOthers(lots[1..], more, x - lots[0].qty);
      }
    }
  }

  /**
   * A buy's shares stand behind all others: first those owed an adjustment, in order, then the rest with the buy's own
   * date, all at the price paid with fees and taxes spread over its shares. Nothing is owed to it any more.
   */
  lemma BuysAtTheBack(rules: Rules, l: Ledger, tx: Tx, sym: string, unit: real, x: real)
    requires AllPositive(l) && tx.qty > 0.0 && unit * tx.qty == tx.qty * tx.price + tx.fees + tx.taxes
    requires 0.0 <= x < Sum(LotsOf(l, sym), LotQty) + tx.qty
    ensures var l', held := BuyStep(rules, l, tx, sym), Sum(LotsOf(l, sym), LotQty);
      && Positive(LotsOf(l, sym)) && Positive(LotsOf(l', sym)) && Sum(LotsOf(l', sym), LotQty) == held + tx.qty
      && ShareAt(LotsOf(l', sym), x) ==
         (if x < held then ShareAt(LotsOf(l, sym), x)
          else Bought(tx.id, Owed(l.pending, tx.id), unit, rules.ny(tx.ts), x - held))
      && l'.pending == l.pending - {tx.id} && l'.caps == l.caps && l'.out == l.out
  {
    OnlyQuotient(unit, tx.Cost(), tx.qty);
    var adjs, held := Owed(l.pending, tx.id), Sum(LotsOf(l, sym), LotQty);
    EnteringQty(tx.id, tx.qty, adjs, unit, rules.ny(tx.ts));
    BehindTheOthers(LotsOf(l, sym), Entering(tx.id, tx.qty, adjs, unit, rules.ny(tx.ts)), x);
    if x >= held {
      EntersAsOwed(tx.id, tx.qty, adjs, unit, rules.ny(tx.ts), x - held);
    }
  }

  lemma OnlyQuotient(q: real, a: real, b: real)
    requires b > 0.0 && q * b == a
    ensures a / b == q
  {
  }

  // ---------------------------------------------------------------- splitting

  function SplitShare(s: Share, ratio: real): Share
    requires ratio > 0.0
  {
    Share(s.buyId, s.unit / ratio, s.since)
  }

  lemma SplitLot(l: TaxLot, ratio: real)
    requires ratio > 0.0
    ensures ShareOf(ScaleLot(l, ratio)) == SplitShare(ShareOf(l), ratio)
    ensures ScaleLot(l, ratio).qty == Times(l.qty, ratio)
  {
  }

  lemma SplitFront(scaled: seq<TaxLot>, front: TaxLot, rest: seq<TaxLot>, x: real, qty: real, whole: real, ratio: real)
    requires ratio > 0.0 && scaled == [front] + rest && Positive(scaled) && Sum(scaled, LotQty) == Times(whole, ratio)
    requires front.qty == Times(qty, ratio) && 0.0 <= x < whole
    ensures Positive(rest) && 0.0 <= Times(x, ratio) < Sum(scaled, LotQty)
    ensures Sum(rest, LotQty) == Times(whole - qty, ratio)
    ensures x < qty ==> ShareAt(scaled, Times(x, ratio)) == ShareOf(front)
    ensures x >= qty ==>
              0.0 <= Times(x - qty, ratio) < Sum(rest, LotQty)
              && ShareAt(scaled, Times(x, ratio)) == ShareAt(rest, Times(x - qty, ratio))
  {
    Stretched(x, whole, ratio);
    Stretched(x, qty, ratio);
    FrontShare(scaled, front, rest, Times(x, ratio));
    TimesAdds(whole - qty, qty, ratio);
    TimesAdds(x - qty, qty, ratio);
    if x >= qty {
      Stretched(x - qty, whole - qty, ratio);
    }
  }

  /** A split stretches the line of shares by its ratio and divides every unit basis by it. */
  lemma {:induction false} SplitStretches(lots: seq<TaxLot>, ratio: real, x: real)
    requires ratio > 0.0 && Positive(lots) && 0.0 <= x < Sum(lots, LotQty)
    ensures var scaled := ScaleLots(lots, ratio);
      && Positive(scaled) && Sum(scaled, LotQty) == Times(Sum(lots, LotQty), ratio)
      && 0.0 <= Times(x, ratio) < Sum(scaled, LotQty)
      && ShareAt(scaled, Times(x, ratio)) == SplitShare(ShareAt(lots, x), ratio)
  {
    ScalePositive(lots, ratio);
    ScaleQty(lots, ratio);
    SplitLot(lots[0], ratio);
    SplitFront(ScaleLots(lots, ratio), ScaleLot(lots[0], ratio), ScaleLots(lots[1..], ratio), x, lots[0].qty,
               Sum(lots, LotQty), ratio);
    if x >= lots[0].qty {
      SplitStretches(lots[1..], ratio, x - lots[0].qty);
    }
  }

  lemma Stretched(x: real, bound: real, ratio: real)
    requires ratio > 0.0 && x >= 0.0
    ensures Times(x, ratio) >= 0.0 && (x < bound <==> Times(x, ratio) < Times(bound, ratio))
  {
    MulMono(0.0, x, ratio);
    MulMono(x, bound, ratio);
    MulMono(bound, x, ratio);
  }
}
