/** The two engines accept and reject exactly the same logs, with the same error. */
module Verdicts {
  import opened Log
  import opened Sums
  import P = Portfolio
  import T = TaxLedger
  import L = TaxLots
  import W = WashSale

  /** The share counts agree, symbol by symbol. */
  ghost predicate SameShares(b: P.Book, l: T.Ledger) {
    && P.GoodPositions(b) && T.AllPositive(l)
    && forall sym: string :: SharesAgree(b, l, sym)
  }

  ghost predicate SharesAgree(b: P.Book, l: T.Ledger, sym: string) {
    P.PositionOf(b, sym).qty == Sum(T.LotsOf(l, sym), L.LotQty)
  }

  /** One transaction: both succeed, with share counts still equal, or both fail with the same error. */
  lemma SameStep(rules: W.Rules, b: P.Book, l: T.Ledger, tx: Tx)
    requires SameShares(b, l)
    ensures var p, t := P.Step(b, tx), T.Step(rules, l, tx);
      && (p.error.None? <==> t.Ok?)
      && (p.error.Some? ==> t == Err(p.error.value))
      && (t.Ok? ==> SameShares(p.book, t.value))
  {
    if !tx.kind.Deposit? && !tx.kind.Withdrawal? && tx.Symbol().Some? {
      SameSymbolStep(rules, b, l, tx, tx.Symbol().value);
    } else {
      var p := P.Step(b, tx);
      assert p.book.positions == b.positions;
      assert forall sym: string :: SharesAgree(b, l, sym) ==> SharesAgree(p.book, l, sym);
    }
  }

  lemma SameSymbolStep(rules: W.Rules, b: P.Book, l: T.Ledger, tx: Tx, sym: string)
    requires SameShares(b, l) && !tx.kind.Deposit? && !tx.kind.Withdrawal?
    ensures var p, t := P.SymbolStep(b, tx, sym), T.SymbolStep(rules, l, tx, sym);
      && (p.error.None? <==> t.Ok?)
      && (p.error.Some? ==> t == Err(p.error.value))
      && (t.Ok? ==> SameShares(p.book, t.value))
  {
    assert SharesAgree(b, l, sym);
    SameError(rules, b, l, tx, sym);
    if T.SymbolStep(rules, l, tx, sym).Ok? {
      SameSymbolShares(rules, b, l, tx, sym);
      SameAfter(rules, b, l, tx, sym);
    }
  }

  lemma SameError(rules: W.Rules, b: P.Book, l: T.Ledger, tx: Tx, sym: string)
    requires SharesAgree(b, l, sym) && T.AllPositive(l) && !tx.kind.Deposit? && !tx.kind.Withdrawal?
    ensures var p, t := P.SymbolStep(b, tx, sym), T.SymbolStep(rules, l, tx, sym);
      && (p.error.None? <==> t.Ok?)
      && (p.error.Some? ==> t == Err(p.error.value))
  {
  }

  lemma SameAfter(rules: W.Rules, b: P.Book, l: T.Ledger, tx: Tx, sym: string)
    requires SameShares(b, l) && !tx.kind.Deposit? && !tx.kind.Withdrawal?
    requires T.SymbolStep(rules, l, tx, sym).Ok?
    requires SharesAgree(P.SymbolStep(b, tx, sym).book, T.SymbolStep(rules, l, tx, sym).value, sym)
    ensures SameShares(P.SymbolStep(b, tx, sym).book, T.SymbolStep(rules, l, tx, sym).value)
  {
    var b', l' := P.SymbolStep(b, tx, sym).book, T.SymbolStep(rules, l, tx, sym).value;
    assert P.GoodPosition(P.PositionOf(b, sym));
    P.SymbolStepPosition(b, tx, sym);
    T.SymbolStepOthers(rules, l, tx, sym);
    forall s: string
      ensures SharesAgree(b', l', s)
    {
      assert SharesAgree(b, l, s);
    }
  }

  lemma SameSymbolShares(rules: W.Rules, b: P.Book, l: T.Ledger, tx: Tx, sym: string)
    requires SharesAgree(b, l, sym) && T.AllPositive(l) && !tx.kind.Deposit? && !tx.kind.Withdrawal?
    requires T.SymbolStep(rules, l, tx, sym).Ok?
    ensures SharesAgree(P.SymbolStep(b, tx, sym).book, T.SymbolStep(rules, l, tx, sym).value, sym)
  {
    var lots := T.LotsOf(l, sym);
    assert L.Positive(lots);
    if tx.kind == Buy {
      var adjs, unit, date := W.Owed(l.pending, tx.id), tx.Cost() / tx.qty, rules.ny(tx.ts);
      T.EnteringQty(tx.id, tx.qty, adjs, unit, date);
      SumAppend(lots, T.Entering(tx.id, tx.qty, adjs, unit, date), L.LotQty);
    } else if tx.kind == Sell {
      T.SellQty(rules, tx, sym, T.WashOf(l, sym));
    } else if tx.kind == Split {
      SameSplit(b, l, tx, sym);
    }
  }

  lemma BookSplit(b: P.Book, tx: Tx, sym: string, have: real)
    requires tx.kind == Split && tx.qty > 0.0 && P.PositionOf(b, sym).qty == have
    ensures P.PositionOf(P.SymbolStep(b, tx, sym).book, sym).qty == Times(have, tx.qty)
  {
  }

  lemma SameSplit(b: P.Book, l: T.Ledger, tx: Tx, sym: string)
    requires SharesAgree(b, l, sym) && tx.kind == Split && tx.qty > 0.0
    ensures SharesAgree(P.SymbolStep(b, tx, sym).book, T.SplitStep(l, tx, sym), sym)
  {
    L.ScaleQty(T.LotsOf(l, sym), tx.qty);
    BookSplit(b, tx, sym, Sum(T.LotsOf(l, sym), L.LotQty));
  }

  lemma {:induction false} SameReplay(rules: W.Rules, b: P.Book, l: T.Ledger, txs: seq<Tx>)
    requires SameShares(b, l)
    ensures var p, t := P.Replay(b, txs), T.Replay(rules, l, txs);
      && (p.Ok? <==> t.Ok?)
      && (p.Err? ==> t == Err(p.error))
      && (p.Ok? ==> SameShares(p.value, t.value))
    decreases txs
  {
    if txs != [] {
      SameStep(rules, b, l, txs[0]);
      var t := T.Step(rules, l, txs[0]);
      if t.Ok? {
        SameReplay(rules, P.Step(b, txs[0]).book, t.value, txs[1..]);
      }
    }
  }

  /** For every log whatsoever, ordered or not, the tax report fails exactly as the portfolio does. */
  lemma SameVerdict(rules: W.Rules, txs: seq<Tx>)
    ensures P.Replay(P.EMPTY, txs).Ok? <==> T.Disposals(rules, txs).Ok?
    ensures P.Replay(P.EMPTY, txs).Err? ==> T.Disposals(rules, txs) == Err(P.Replay(P.EMPTY, txs).error)
  {
    assert forall sym: string :: SharesAgree(P.EMPTY, T.Start(rules, txs), sym);
    SameReplay(rules, P.EMPTY, T.Start(rules, txs), txs);
  }
}
