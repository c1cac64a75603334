/** The tax lots refine the book's FIFO lots: merging adjacent lots of one buy gives the book's quantities, in order. */
module Refinement {
  import opened Sums
  import opened Log
  import opened TaxLots
  import opened Allocation
  import opened WashSale
  import opened TaxLedger
  import opened LedgerInvariant
  import opened TaxLaws
  import P = Portfolio

  /** Quantities of the runs of adjacent lots that belong to the same buy. */
  function Merged(lots: seq<TaxLot>): (r: seq<real>)
    ensures lots != [] ==> r != []
  {
    if lots == [] then []
    else
      Prepend(lots[0].qty, |lots| > 1 && lots[1].buyId == lots[0].buyId, Merged(lots[1..]))
  }

  /** Put a lot in front of the runs, joining the first one when it is of the same buy. */
  function Prepend(q: real, join: bool, m: seq<real>): seq<real> {
    if join && m != [] then [q + m[0]] + m[1..] else [q] + m
  }

  lemma PrependAppend(q: real, join: bool, m: seq<real>, n: seq<real>)
    requires m != []
    ensures Prepend(q, join, m + n) == Prepend(q, join, m) + n
  {
    assert (m + n)[1..] == m[1..] + n;
  }

  function BookQtys(lots: seq<P.Lot>): seq<real> {
    if lots == [] then [] else [lots[0].qty] + BookQtys(lots[1..])
  }

  /** First in, first out on bare quantities. */
  function TakeFront(qs: seq<real>, want: real): seq<real> {
    if want <= 0.0 || qs == [] then qs
    else if want >= qs[0] then TakeFront(qs[1..], want - qs[0])
    else [qs[0] - want] + qs[1..]
  }

  function ScaleAll(qs: seq<real>, ratio: real): seq<real> {
    if qs == [] then [] else [Times(qs[0], ratio)] + ScaleAll(qs[1..], ratio)
  }

  lemma ScaleAllHead(q: real, rest: seq<real>, ratio: real)
    ensures ScaleAll([q] + rest, ratio) == [Times(q, ratio)] + ScaleAll(rest, ratio)
  {
    assert ([q] + rest)[0] == q && ([q] + rest)[1..] == rest;
  }

  // ---------------------------------------------------------------- the book side

  lemma {:induction false} BookTakes(lots: seq<P.Lot>, want: real)
    ensures BookQtys(P.Consume(lots, want).rest) == TakeFront(BookQtys(lots), want)
  {
    if want > 0.0 && lots != [] {
      if want >= lots[0].qty {
        BookTakes(lots[1..], want - lots[0].qty);
      } else {
        assert P.Consume(lots, want).rest[1..] == lots[1..];
      }
    }
  }

  lemma {:induction false} BookAppends(a: seq<P.Lot>, b: seq<P.Lot>)
    ensures BookQtys(a + b) == BookQtys(a) + BookQtys(b)
  {
    if a == [] {
      assert a + b == b;
    } else {
      BookAppends(a[1..], b);
      assert (a + b)[1..] == a[1..] + b;
    }
  }

  lemma {:induction false} BookScales(lots: seq<P.Lot>, ratio: real)
    requires ratio > 0.0
    ensures BookQtys(P.ScaleLots(lots, ratio)) == ScaleAll(BookQtys(lots), ratio)
  {
    if lots != [] {
      BookScales(lots[1..], ratio);
      assert P.ScaleLots(lots, ratio)[1..] == P.ScaleLots(lots[1..], ratio);
      assert P.ScaleLots(lots, ratio)[0].qty == Times(lots[0].qty, ratio);
      ScaleAllHead(lots[0].qty, BookQtys(lots[1..]), ratio);
    }
  }

  // ---------------------------------------------------------------- the tax side

  /** The first run is the first lot and whatever of its buy follows. */
  lemma MergedHead(l: TaxLot, rest: seq<TaxLot>)
    ensures Merged([l] + rest) ==
            Prepend(l.qty, rest != [] && rest[0].buyId == l.buyId, Merged(rest))
  {
    assert ([l] + rest)[1..] == rest;
  }

  lemma {:induction false} MergedPositive(lots: seq<TaxLot>)
    requires Positive(lots)
    ensures forall i :: 0 <= i < |Merged(lots)| ==> Merged(lots)[i] > 0.0
  {
    if lots != [] {
      MergedPositive(lots[1..]);
    }
  }

  /** Taking from the front of the runs when the first lot goes whole, or only in part. */
  lemma TakesFromRuns(q: real, join: bool, m: seq<real>, want: real)
    requires 0.0 < q && 0.0 < want && forall i :: 0 <= i < |m| ==> m[i] > 0.0
    ensures want >= q ==> TakeFront(Prepend(q, join, m), want) == TakeFront(m, want - q)
    ensures want < q ==> TakeFront(Prepend(q, join, m), want) == Prepend(q - want, join, m)
  {
    if want >= q && !(join && m != []) {
      assert ([q] + m)[1..] == m;
    } else if join && m != [] {
      assert ([q + m[0]] + m[1..])[1..] == m[1..];
    }
  }

  lemma RestOfTake(l: TaxLot, rest: seq<TaxLot>, want: real)
    requires 0.0 < l.qty && 0.0 < want
    ensures want >= l.qty ==> TakeChunks([l] + rest, want).rest == TakeChunks(rest, want - l.qty).rest
    ensures want < l.qty ==> TakeChunks([l] + rest, want).rest == [l.(qty := l.qty - want)] + rest
  {
    assert ([l] + rest)[1..] == rest;
  }

  lemma {:induction false} TaxTakes(lots: seq<TaxLot>, want: real)
    requires Positive(lots)
    ensures Merged(TakeChunks(lots, want).rest) == TakeFront(Merged(lots), want)
  {
    if want > 0.0 && lots != [] {
      var l, rest := lots[0], lots[1..];
      assert lots == [l] + rest;
      MergedHead(l, rest);
      MergedPositive(rest);
      TakesFromRuns(l.qty, rest != [] && rest[0].buyId == l.buyId, Merged(rest), want);
      RestOfTake(l, rest, want);
      if want >= l.qty {
        TaxTakes(rest, want - l.qty);
      } else {
        MergedHead(l.(qty := l.qty - want), rest);
      }
    }
  }

  /** Cutting a lot in two leaves the run it belongs to as long as it was. */
  lemma CutMerged(l: TaxLot, rest: seq<TaxLot>, qty: real, unit: real, anchor: int)
    ensures Merged([TaxLot(l.buyId, qty, unit, anchor), l.(qty := l.qty - qty)] + rest) == Merged([l] + rest)
  {
    var front, left := TaxLot(l.buyId, qty, unit, anchor), l.(qty := l.qty - qty);
    MergedHead(l, rest);
    MergedHead(left, rest);
    MergedHead(front, [left] + rest);
    assert [front, left] + rest == [front] + ([left] + rest);
  }

  lemma {:induction false} AdjustedMerged(lots: seq<TaxLot>, buyId: int, qty: real, add: real, anchor: int)
    requires Positive(lots)
    ensures var a := Adjusted(lots, buyId, qty, add, anchor);
      && Merged(a) == Merged(lots)
      && (a != [] <==> lots != []) && (a != [] ==> a[0].buyId == lots[0].buyId)
  {
    if lots != [] && qty > 0.0 {
      var l, rest := lots[0], lots[1..];
      assert lots == [l] + rest;
      MergedHead(l, rest);
      if l.buyId != buyId {
        AdjustedMerged(rest, buyId, qty, add, anchor);
        MergedHead(l, Adjusted(rest, buyId, qty, add, anchor));
      } else if qty >= l.qty {
        AdjustedMerged(rest, buyId, qty - l.qty, add, anchor);
        MergedHead(TaxLot(buyId, l.qty, l.unitBasis + add, anchor), Adjusted(rest, buyId, qty - l.qty, add, anchor));
      } else {
        CutMerged(l, rest, qty, l.unitBasis + add, anchor);
        assert Adjusted(lots, buyId, qty, add, anchor) ==
               [TaxLot(buyId, qty, l.unitBasis + add, anchor), l.(qty := l.qty - qty)] + rest;
      }
    }
  }

  lemma {:induction false} CarryAllMerged(rules: Rules, tx: Tx, w: Wash, ms: seq<Match>, disallowed: real,
                                          replaced: real, given: real, held: int)
    requires Positive(w.lots) && replaced > 0.0 && forall i :: 0 <= i < |ms| ==> ms[i].qty > 0.0
    ensures Merged(CarryAll(rules, tx, w, ms, disallowed, replaced, given, held).lots) == Merged(w.lots)
    decreases |ms|
  {
    if ms != [] {
      var amount := Piece(disallowed, ms[0].qty, replaced, |ms| == 1, given, rules.round6);
      var add, anchor := amount / ms[0].qty, Tack(rules, ms[0].date, held);
      AdjustedQty(w.lots, ms[0].id, ms[0].qty, add, anchor);
      AdjustedMerged(w.lots, ms[0].id, ms[0].qty, add, anchor);
      CarryAllMerged(rules, tx, Carry(rules, tx, w, ms[0], amount, held), ms[1..], disallowed, replaced,
                     given + amount, held);
    }
  }

  lemma WashChunkMerged(rules: Rules, tx: Tx, sym: string, w: Wash, c: Chunk, proceeds: real)
    requires Positive(w.lots) && c.qty > 0.0
    ensures Merged(WashChunk(rules, tx, sym, w, c, proceeds).lots) == Merged(w.lots)
  {
    var sold := rules.ny(tx.ts);
    var m := MatchBuys(w.caps, 0, sym, sold - 30, sold + 30, c.qty);
    var replaced, loss := Sum(m.matches, MatchQty), c.basis - proceeds;
    if loss > 0.0 && replaced > 0.0 {
      CarryAllMerged(rules, tx, w.(caps := m.caps), m.matches, Disallowed(rules, loss, replaced, c.qty), replaced, 0.0,
                     sold - c.holdingFrom);
    }
  }

  lemma {:induction false} WashChunksMerged(rules: Rules, tx: Tx, sym: string, w: Wash, chunks: seq<Chunk>, given: real)
    requires Positive(w.lots) && tx.qty > 0.0 && PositiveChunks(chunks)
    ensures Merged(WashChunks(rules, tx, sym, w, chunks, given).lots) == Merged(w.lots)
    decreases |chunks|
  {
    if chunks != [] {
      var proceeds := Piece(tx.NetProceeds(), chunks[0].qty, tx.qty, |chunks| == 1, given, rules.round6);
      WashChunkQty(rules, tx, sym, w, chunks[0], proceeds);
      WashChunkMerged(rules, tx, sym, w, chunks[0], proceeds);
      WashChunksMerged(rules, tx, sym, WashChunk(rules, tx, sym, w, chunks[0], proceeds), chunks[1..],
                       given + proceeds);
    }
  }

  lemma SellMerged(rules: Rules, tx: Tx, sym: string, w: Wash)
    requires Positive(w.lots) && 0.0 < tx.qty <= Sum(w.lots, LotQty)
    ensures Merged(SellStep(rules, tx, sym, w).lots) == TakeFront(Merged(w.lots), tx.qty)
  {
    TakeQty(w.lots, tx.qty);
    TaxTakes(w.lots, tx.qty);
    var t := TakeChunks(w.lots, tx.qty);
    WashChunksMerged(rules, tx, sym, w.(lots := t.rest, caps := Burn(w.caps, t.chunks)), t.chunks, 0.0);
  }

  /** All lots a buy enters with form one run. */
  lemma {:induction false} EnteringMerged(id: int, remaining: real, adjs: seq<PendingAdj>, unit: real, date: int)
    requires remaining >= 0.0
    ensures var lots := Entering(id, remaining, adjs, unit, date);
      && Merged(lots) == (if remaining > 0.0 then [remaining] else [])
      && (remaining > 0.0 <==> lots != []) && (lots != [] ==> lots[0].buyId == id)
    decreases adjs
  {
    if adjs == [] {
      if remaining > 0.0 {
        MergedHead(TaxLot(id, remaining, unit, date), []);
        assert Entering(id, remaining, adjs, unit, date) == [TaxLot(id, remaining, unit, date)] + [];
      }
    } else {
      var take := Min(remaining, adjs[0].qty);
      if take > 0.0 {
        EnteringMerged(id, remaining - take, adjs[1..], unit, date);
        MergedHead(TaxLot(id, take, unit + adjs[0].perShareAdd, adjs[0].holdingFrom),
                   Entering(id, remaining - take, adjs[1..], unit, date));
      } else {
        EnteringMerged(id, remaining, adjs[1..], unit, date);
      }
    }
  }

  /** A run of a new buy starts a run of its own. */
  lemma {:induction false} MergedAppend(a: seq<TaxLot>, b: seq<TaxLot>)
    requires a != [] && b != [] ==> a[|a| - 1].buyId != b[0].buyId
    ensures Merged(a + b) == Merged(a) + Merged(b)
  {
    if a == [] {
      assert a + b == b;
    } else {
      var l, rest := a[0], a[1..];
      assert a == [l] + rest && a + b == [l] + (rest + b);
      if rest == [] {
        assert rest + b == b && a == [l] + [];
        MergedHead(l, b);
        MergedHead(l, []);
      } else {
        MergedAppend(rest, b);
        MergedAppendHead(l, rest, b);
      }
    }
  }

  lemma MergedAppendHead(l: TaxLot, rest: seq<TaxLot>, b: seq<TaxLot>)
    requires rest != [] && Merged(rest + b) == Merged(rest) + Merged(b)
    ensures Merged([l] + (rest + b)) == Merged([l] + rest) + Merged(b)
  {
    MergedHead(l, rest + b);
    MergedHead(l, rest);
    assert (rest + b)[0] == rest[0];
    PrependAppend(l.qty, rest[0].buyId == l.buyId, Merged(rest), Merged(b));
  }

  lemma PrependScales(q: real, join: bool, m: seq<real>, ratio: real)
    ensures Prepend(Times(q, ratio), join, ScaleAll(m, ratio)) == ScaleAll(Prepend(q, join, m), ratio)
  {
    ScaleAllHead(q, m, ratio);
    if join && m != [] {
      assert m == [m[0]] + m[1..];
      ScaleAllHead(m[0], m[1..], ratio);
      ScaleAllHead(q + m[0], m[1..], ratio);
      TimesAdds(q, m[0], ratio);
    }
  }

  lemma ScaledLots(l: TaxLot, rest: seq<TaxLot>, ratio: real)
    requires ratio > 0.0
    ensures ScaleLots([l] + rest, ratio) == [ScaleLot(l, ratio)] + ScaleLots(rest, ratio)
    ensures ScaleLots(rest, ratio) == [] <==> rest == []
    ensures rest != [] ==> ScaleLots(rest, ratio)[0].buyId == rest[0].buyId
  {
    assert ([l] + rest)[1..] == rest;
  }

  lemma {:induction false} TaxScales(lots: seq<TaxLot>, ratio: real)
    requires ratio > 0.0
    ensures Merged(ScaleLots(lots, ratio)) == ScaleAll(Merged(lots), ratio)
  {
    if lots != [] {
      var l, rest := lots[0], lots[1..];
      TaxScales(rest, ratio);
      assert lots == [l] + rest;
      ScaledLots(l, rest, ratio);
      MergedHead(l, rest);
      MergedHead(ScaleLot(l, ratio), ScaleLots(rest, ratio));
      var join := rest != [] && rest[0].buyId == l.buyId;
      PrependScales(l.qty, join, Merged(rest), ratio);
      assert ScaleLot(l, ratio).qty == Times(l.qty, ratio);
      assert Merged(ScaleLots(lots, ratio)) == Prepend(Times(l.qty, ratio), join, Merged(ScaleLots(rest, ratio)));
      assert Merged(lots) == Prepend(l.qty, join, Merged(rest));
    }
  }

  // ---------------------------------------------------------------- step by step

  ghost predicate Refines(b: P.Book, l: Ledger, sym: string) {
    Merged(LotsOf(l, sym)) == BookQtys(P.PositionOf(b, sym).lots)
  }

  lemma BuyRefines(rules: Rules, all: seq<BuyCap>, n: nat, b: P.Book, l: Ledger, tx: Tx, sym: string)
    requires LedgerInv(rules, all, n, l) && n < |all| && all[n] == CapOf(rules, tx) && tx.qty > 0.0
    requires tx.kind == Buy && all[n].symbol == sym && Refines(b, l, sym)
    ensures Refines(P.SymbolStep(b, tx, sym).book, BuyStep(rules, l, tx, sym), sym)
  {
    assert SymbolInv(all, n, l, sym);
    DatesFromOk(all, n, sym);
    var lots := LotsOf(l, sym);
    var adjs, unit, date := Owed(l.pending, tx.id), tx.Cost() / tx.qty, rules.ny(tx.ts);
    var entering := Entering(tx.id, tx.qty, adjs, unit, date);
    EnteringMerged(tx.id, tx.qty, adjs, unit, date);
    assert all[n].id !in DatesFrom(all, n, sym);
    MergedAppend(lots, entering);
    var p := P.PositionOf(b, sym);
    var lot := P.Lot(tx.qty, unit, tx.ts);
    BookAppends(p.lots, [lot]);
    assert [lot][1..] == [];
  }

  lemma StepRefines(rules: Rules, txs: seq<Tx>, i: nat, b: P.Book, l: Ledger, sym: string)
    requires LogOk(txs) && CalendarOk(rules) && i < |txs| && AllPositive(l)
    requires LedgerInv(rules, InitialCaps(rules, txs), BuysDone(rules, txs, i), l)
    requires Step(rules, l, txs[i]).Ok? && P.Step(b, txs[i]).error.None? && Refines(b, l, sym)
    ensures Refines(P.Step(b, txs[i]).book, Step(rules, l, txs[i]).value, sym)
  {
    var tx := txs[i];
    if tx.IsFor(sym) {
      if tx.kind == Buy {
        FrontierAt(rules, txs, i);
        BuyRefines(rules, InitialCaps(rules, txs), BuysDone(rules, txs, i), b, l, tx, sym);
      } else if tx.kind == Sell {
        SellMerged(rules, tx, sym, WashOf(l, sym));
        BookTakes(P.PositionOf(b, sym).lots, tx.qty);
      } else if tx.kind == Split {
        SplitRefines(b, l, tx, sym);
      }
    }
  }

  lemma SplitRefines(b: P.Book, l: Ledger, tx: Tx, sym: string)
    requires Refines(b, l, sym) && tx.kind == Split && tx.qty > 0.0
    ensures Refines(P.SymbolStep(b, tx, sym).book, SplitStep(l, tx, sym), sym)
  {
    TaxScales(LotsOf(l, sym), tx.qty);
    BookScales(P.PositionOf(b, sym).lots, tx.qty);
  }

  /** After any prefix that replays, the two engines hold the same FIFO quantities for every symbol. */
  lemma {:induction false} LotsRefine(rules: Rules, txs: seq<Tx>, i: nat, sym: string)
    requires LogOk(txs) && CalendarOk(rules) && i <= |txs| && LedgerAt(rules, txs, i).Ok?
    requires P.Replay(P.EMPTY, txs[..i]).Ok?
    ensures Refines(P.Replay(P.EMPTY, txs[..i]).value, LedgerAt(rules, txs, i).value, sym)
  {
    if i > 0 {
      var before, tx := txs[..i - 1], txs[i - 1];
      assert txs[..i] == before + [tx] && [tx][1..] == [];
      ReplayAppend(rules, Start(rules, txs), before, [tx]);
      P.ReplayAppend(P.EMPTY, before, [tx]);
      LotsRefine(rules, txs, i - 1, sym);
      PrefixLaws(rules, txs, i - 1, sym);
      var b, l := P.Replay(P.EMPTY, before).value, LedgerAt(rules, txs, i - 1).value;
      assert LedgerAt(rules, txs, i) == Step(rules, l, tx);
      assert P.Replay(P.EMPTY, txs[..i]) == Ok(P.Step(b, tx).book);
      StepRefines(rules, txs, i - 1, b, l, sym);
    }
  }
}
