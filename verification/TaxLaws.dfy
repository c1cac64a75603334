/** What holds of the tax ledger after every prefix of an ordered log, and how it agrees with the book. */
module TaxLaws {
  import opened Sums
  import opened Log
  import opened TaxLots
  import opened WashSale
  import opened Capacity
  import opened Carrying
  import opened Selling
  import opened TaxLedger
  import opened LedgerInvariant
  import P = Portfolio

  /** Calendar dates follow the clock and stay above the floor. */
  ghost predicate CalendarOk(rules: Rules) {
    (forall a, b :: a <= b ==> rules.ny(a) <= rules.ny(b)) && (forall t :: rules.minDate <= rules.ny(t))
  }

  ghost predicate LogOk(txs: seq<Tx>) { Ordered(txs) && UniqueIds(txs) }

  /** Buys among the first `i` transactions. */
  function BuysDone(rules: Rules, txs: seq<Tx>, i: nat): nat
    requires i <= |txs|
  {
    |InitialCaps(rules, txs[..i])|
  }

  ghost function LedgerAt(rules: Rules, txs: seq<Tx>, i: nat): Result<Ledger>
    requires i <= |txs|
  {
    Replay(rules, Start(rules, txs), txs[..i])
  }

  function BuyCost(txs: seq<Tx>, sym: string): real {
    if txs == [] then 0.0
    else
      var tx := txs[|txs| - 1];
      BuyCost(txs[..|txs| - 1], sym) + (if tx.kind == Buy && tx.IsFor(sym) then tx.Cost() else 0.0)
  }

  function SellProceeds(txs: seq<Tx>, sym: string): real {
    if txs == [] then 0.0
    else
      var tx := txs[|txs| - 1];
      SellProceeds(txs[..|txs| - 1], sym) + (if tx.kind == Sell && tx.IsFor(sym) then tx.NetProceeds() else 0.0)
  }

  // ---------------------------------------------------------------- the capacity table and the log

  lemma {:induction false} CapsAppend(rules: Rules, xs: seq<Tx>, ys: seq<Tx>)
    ensures InitialCaps(rules, xs + ys) == InitialCaps(rules, xs) + InitialCaps(rules, ys)
  {
    if xs == [] {
      assert xs + ys == ys;
    } else {
      assert (xs + ys)[1..] == xs[1..] + ys;
      CapsAppend(rules, xs[1..], ys);
    }
  }

  /** Every entry of the table is some buy of the log. */
  lemma {:induction false} CapSource(rules: Rules, xs: seq<Tx>, k: nat) returns (j: nat)
    requires k < |InitialCaps(rules, xs)|
    ensures j < |xs| && xs[j].kind == Buy && InitialCaps(rules, xs)[k] == CapOf(rules, xs[j])
  {
    if xs[0].kind == Buy {
      if k == 0 {
        j := 0;
      } else {
        j := CapSource(rules, xs[1..], k - 1);
        j := j + 1;
      }
    } else {
      j := CapSource(rules, xs[1..], k);
      j := j + 1;
    }
  }

  lemma {:induction false} CapsDistinct(rules: Rules, xs: seq<Tx>)
    requires UniqueIds(xs)
    ensures DistinctIds(InitialCaps(rules, xs))
  {
    if xs != [] {
      assert forall i :: 0 <= i < |xs| - 1 ==> xs[1..][i] == xs[i + 1];
      CapsDistinct(rules, xs[1..]);
      var rest := InitialCaps(rules, xs[1..]);
      forall k | 0 <= k < |rest|
        ensures rest[k].id != xs[0].id
      {
        var j := CapSource(rules, xs[1..], k);
        assert xs[1..][j] == xs[j + 1];
      }
    }
  }

  lemma FrontierEntry(rules: Rules, txs: seq<Tx>, i: nat, k: nat)
    requires LogOk(txs) && CalendarOk(rules) && i < |txs|
    requires InitialCaps(rules, txs) == InitialCaps(rules, txs[..i]) + InitialCaps(rules, txs[i..])
    requires k < |InitialCaps(rules, txs)|
    ensures var b := InitialCaps(rules, txs)[k];
      && (k < BuysDone(rules, txs, i) <==> Earlier(b.ts, b.id, txs[i]))
      && (k < BuysDone(rules, txs, i) ==> b.date <= rules.ny(txs[i].ts))
  {
    var n := BuysDone(rules, txs, i);
    if k < n {
      DoneEntry(rules, txs, i, k);
    } else {
      ComingEntry(rules, txs, i, k - n);
    }
  }

  lemma DoneEntry(rules: Rules, txs: seq<Tx>, i: nat, k: nat)
    requires LogOk(txs) && CalendarOk(rules) && i < |txs| && k < |InitialCaps(rules, txs[..i])|
    ensures var b := InitialCaps(rules, txs[..i])[k]; Earlier(b.ts, b.id, txs[i]) && b.date <= rules.ny(txs[i].ts)
  {
    var j := CapSource(rules, txs[..i], k);
    assert txs[..i][j] == txs[j] && Before(txs[j], txs[i]);
  }

  lemma ComingEntry(rules: Rules, txs: seq<Tx>, i: nat, k: nat)
    requires LogOk(txs) && i < |txs| && k < |InitialCaps(rules, txs[i..])|
    ensures var b := InitialCaps(rules, txs[i..])[k]; !Earlier(b.ts, b.id, txs[i])
  {
    var j := CapSource(rules, txs[i..], k);
    assert txs[i..][j] == txs[i + j];
    assert j > 0 ==> Before(txs[i], txs[i + j]);
  }

  lemma CapsSplitAt(rules: Rules, txs: seq<Tx>, i: nat)
    requires i < |txs|
    ensures InitialCaps(rules, txs) == InitialCaps(rules, txs[..i]) + InitialCaps(rules, txs[i..])
    ensures InitialCaps(rules, txs[..i + 1]) ==
            InitialCaps(rules, txs[..i]) + (if txs[i].kind == Buy then [CapOf(rules, txs[i])] else [])
    ensures txs[i].kind == Buy ==> |InitialCaps(rules, txs[i..])| > 0 &&
                                   InitialCaps(rules, txs[i..])[0] == CapOf(rules, txs[i])
  {
    assert txs == txs[..i] + txs[i..] && txs[..i + 1] == txs[..i] + [txs[i]];
    CapsAppend(rules, txs[..i], txs[i..]);
    CapsAppend(rules, txs[..i], [txs[i]]);
    assert [txs[i]][1..] == [];
  }

  /** In replay order, the table splits exactly at the transaction being replayed. */
  lemma FrontierAt(rules: Rules, txs: seq<Tx>, i: nat)
    requires LogOk(txs) && CalendarOk(rules) && i < |txs|
    ensures var all, n := InitialCaps(rules, txs), BuysDone(rules, txs, i);
      && Frontier(all, n, txs[i]) && DatesUpTo(all, n, rules.ny(txs[i].ts))
      && BuysDone(rules, txs, i + 1) == (if txs[i].kind == Buy then n + 1 else n)
      && (txs[i].kind == Buy ==> n < |all| && all[n] == CapOf(rules, txs[i]))
  {
    CapsSplitAt(rules, txs, i);
    var all, n := InitialCaps(rules, txs), BuysDone(rules, txs, i);
    forall k | 0 <= k < |all|
      ensures k < n <==> Earlier(all[k].ts, all[k].id, txs[i])
      ensures k < n ==> all[k].date <= rules.ny(txs[i].ts)
    {
      FrontierEntry(rules, txs, i, k);
    }
  }

  // ---------------------------------------------------------------- every prefix

  lemma {:induction false} ReplayAppend(rules: Rules, l: Ledger, xs: seq<Tx>, ys: seq<Tx>)
    requires AllPositive(l)
    ensures Replay(rules, l, xs + ys) ==
            (if Replay(rules, l, xs).Err? then Replay(rules, l, xs) else Replay(rules, Replay(rules, l, xs).value, ys))
    decreases xs
  {
    if xs == [] {
      assert xs + ys == ys;
    } else {
      assert (xs + ys)[1..] == xs[1..] + ys;
      var s := Step(rules, l, xs[0]);
      if s.Ok? {
        ReplayAppend(rules, s.value, xs[1..], ys);
      }
    }
  }

  lemma SameBuysSplit(rules: Rules, a: seq<BuyCap>, b: seq<BuyCap>, n: nat, tx: Tx)
    requires SameBuys(a, b) && Frontier(b, n, tx)
    ensures Frontier(a, n, tx)
  {
  }

  lemma StepKeeps(rules: Rules, txs: seq<Tx>, i: nat, l: Ledger)
    requires LogOk(txs) && CalendarOk(rules) && i < |txs| && AllPositive(l)
    requires LedgerInv(rules, InitialCaps(rules, txs), BuysDone(rules, txs, i), l)
    requires Step(rules, l, txs[i]).Ok?
    ensures LedgerInv(rules, InitialCaps(rules, txs), BuysDone(rules, txs, i + 1), Step(rules, l, txs[i]).value)
  {
    var tx, all, n := txs[i], InitialCaps(rules, txs), BuysDone(rules, txs, i);
    FrontierAt(rules, txs, i);
    SameBuysSplit(rules, l.caps, all, n, tx);
    if tx.kind == Buy {
      BuyKeeps(rules, all, n, l, tx);
    } else if tx.kind == Sell {
      SellKeepsLedger(rules, all, n, l, tx, tx.Symbol().value);
    } else if tx.kind == Split {
      SplitKeeps(rules, all, n, l, tx, tx.Symbol().value);
    }
  }

  lemma StepWorth(rules: Rules, txs: seq<Tx>, i: nat, l: Ledger, s: string)
    requires LogOk(txs) && CalendarOk(rules) && i < |txs| && AllPositive(l)
    requires LedgerInv(rules, InitialCaps(rules, txs), BuysDone(rules, txs, i), l)
    requires Step(rules, l, txs[i]).Ok?
    ensures var l', tx := Step(rules, l, txs[i]).value, txs[i];
      && Worth(l', s) == Worth(l, s) + (if tx.kind == Buy && tx.IsFor(s) then tx.Cost() else 0.0)
      && Column(l'.out, s, RowProceeds) ==
         Column(l.out, s, RowProceeds) + (if tx.kind == Sell && tx.IsFor(s) then tx.NetProceeds() else 0.0)
  {
    var tx, all, n := txs[i], InitialCaps(rules, txs), BuysDone(rules, txs, i);
    FrontierAt(rules, txs, i);
    SameBuysSplit(rules, l.caps, all, n, tx);
    if tx.kind == Buy {
      BuyWorth(rules, all, n, l, tx, s);
    } else if tx.kind == Sell {
      SellWorth(rules, all, n, l, tx, tx.Symbol().value, s);
    } else if tx.kind == Split {
      SplitWorth(l, tx, tx.Symbol().value, s);
    }
  }

  lemma {:induction false} NothingPending(caps: seq<BuyCap>, sym: string)
    ensures PendingValue(caps, map[], sym) == 0.0
  {
    if caps != [] { NothingPending(caps[1..], sym); }
  }

  lemma StartOk(rules: Rules, txs: seq<Tx>)
    requires LogOk(txs) && CalendarOk(rules)
    ensures LedgerInv(rules, InitialCaps(rules, txs), 0, Start(rules, txs))
  {
    var all := InitialCaps(rules, txs);
    CapsDistinct(rules, txs);
    forall k | 0 <= k < |all|
      ensures rules.minDate <= all[k].date
    {
      var j := CapSource(rules, txs, k);
    }
    forall s: string
      ensures SymbolInv(all, 0, Start(rules, txs), s)
    {
      forall k | 0 <= k < |all| && all[k].symbol == s
        ensures CapInvAt([], all[k], map[], Qtys(all)[k], k < 0, [])
      {
      }
    }
  }

  /** The invariant and the dollar law, after any prefix that replays. */
  lemma {:induction false} PrefixLaws(rules: Rules, txs: seq<Tx>, i: nat, sym: string)
    requires LogOk(txs) && CalendarOk(rules) && i <= |txs| && LedgerAt(rules, txs, i).Ok?
    ensures var l := LedgerAt(rules, txs, i).value;
      && LedgerInv(rules, InitialCaps(rules, txs), BuysDone(rules, txs, i), l)
      && Worth(l, sym) == BuyCost(txs[..i], sym)
      && Column(l.out, sym, RowProceeds) == SellProceeds(txs[..i], sym)
  {
    if i == 0 {
      StartOk(rules, txs);
      NothingPending(InitialCaps(rules, txs), sym);
    } else {
      var before, tx := txs[..i - 1], txs[i - 1];
      assert txs[..i] == before + [tx] && txs[..i][..i - 1] == before;
      ReplayAppend(rules, Start(rules, txs), before, [tx]);
      PrefixLaws(rules, txs, i - 1, sym);
      var l := LedgerAt(rules, txs, i - 1).value;
      assert [tx][1..] == [];
      assert LedgerAt(rules, txs, i) == Step(rules, l, tx);
      StepKeeps(rules, txs, i - 1, l);
      StepWorth(rules, txs, i - 1, l, sym);
    }
  }

  /**
   * No deferred loss is lost or created: what was paid, plus what was disallowed, is the basis reported, plus the
   * basis still open, plus the basis owed to buys to come.
   */
  lemma BasisConservation(rules: Rules, txs: seq<Tx>, i: nat, sym: string)
    requires LogOk(txs) && CalendarOk(rules) && i <= |txs| && LedgerAt(rules, txs, i).Ok?
    ensures var l := LedgerAt(rules, txs, i).value;
      BuyCost(txs[..i], sym) + Column(l.out, sym, RowDisallowed) ==
      Column(l.out, sym, RowBasis) + Sum(LotsOf(l, sym), LotBasis) + PendingValue(l.caps, l.pending, sym)
  {
    PrefixLaws(rules, txs, i, sym);
  }

  /** After a whole valid log nothing is owed to anyone. */
  lemma NothingOwedAtTheEnd(rules: Rules, txs: seq<Tx>)
    requires LogOk(txs) && CalendarOk(rules) && LedgerAt(rules, txs, |txs|).Ok?
    ensures LedgerAt(rules, txs, |txs|).value.pending == map[]
  {
    PrefixLaws(rules, txs, |txs|, "");
    assert txs[..|txs|] == txs;
    var l := LedgerAt(rules, txs, |txs|).value;
    forall id: int
      ensures id !in l.pending
    {
      if id in l.pending {
        assert false;
      }
    }
  }

  /**
   * The capacity invariant at every point: a replayed buy can replace at most what is held of it; a later buy's
   * quantity is its capacity plus what it is owed, and nothing is ever owed to a replayed buy.
   */
  lemma CapacityInvariant(rules: Rules, txs: seq<Tx>, i: nat, k: nat)
    requires LogOk(txs) && CalendarOk(rules) && i <= |txs| && LedgerAt(rules, txs, i).Ok?
    requires k < |InitialCaps(rules, txs)|
    ensures var l, all := LedgerAt(rules, txs, i).value, InitialCaps(rules, txs);
      && |l.caps| == |all| && l.caps[k].id == all[k].id
      && (k < BuysDone(rules, txs, i) ==>
            && 0.0 <= l.caps[k].cap <= Held(LotsOf(l, all[k].symbol), all[k].id)
            && all[k].id !in l.pending)
      && (k >= BuysDone(rules, txs, i) ==>
            && l.caps[k].cap + OwedQty(l.pending, all[k].id) == all[k].cap
            && (all[k].cap >= 0.0 ==> l.caps[k].cap >= 0.0))
  {
    PrefixLaws(rules, txs, i, "");
    var l, all, n := LedgerAt(rules, txs, i).value, InitialCaps(rules, txs), BuysDone(rules, txs, i);
    assert SymbolInv(all, n, l, all[k].symbol);
    assert l.caps[k] == all[k].(cap := l.caps[k].cap);
    assert CapInvAt(LotsOf(l, all[k].symbol), l.caps[k], l.pending, Qtys(all)[k], k < n, []);
  }

  /** Tacking only ever moves a holding period back: no lot or row is acquired after its own buy, nor after its sale. */
  lemma HoldingPeriods(rules: Rules, txs: seq<Tx>, i: nat, sym: string)
    requires LogOk(txs) && CalendarOk(rules) && i <= |txs| && LedgerAt(rules, txs, i).Ok?
    ensures var l := LedgerAt(rules, txs, i).value;
      && RowsDated(l.out) && BuysDone(rules, txs, i) <= |InitialCaps(rules, txs)|
      && Dated(LotsOf(l, sym), DatesFrom(InitialCaps(rules, txs), BuysDone(rules, txs, i), sym))
      && PendingDated(l.pending, l.caps)
  {
    PrefixLaws(rules, txs, i, "");
    var l, all, n := LedgerAt(rules, txs, i).value, InitialCaps(rules, txs), BuysDone(rules, txs, i);
    assert SymbolInv(all, n, l, sym);
  }

  // ---------------------------------------------------------------- taxable against economic profit

  function RowReported(d: Disposal): real { d.proceeds - d.basis + d.disallowed }

  lemma {:induction false} ReportedColumn(rows: seq<Disposal>, sym: string)
    ensures Column(rows, sym, RowReported) ==
            Column(rows, sym, RowProceeds) - Column(rows, sym, RowBasis) + Column(rows, sym, RowDisallowed)
  {
    if rows != [] { ReportedColumn(rows[1..], sym); }
  }

  /** The book's realized profit is proceeds less purchases, give or take the cost still open. */
  lemma {:induction false} BookProfit(txs: seq<Tx>, sym: string)
    requires P.Replay(P.EMPTY, txs).Ok?
    ensures var p := P.PositionOf(P.Replay(P.EMPTY, txs).value, sym);
      p.realizedPnl == SellProceeds(txs, sym) - BuyCost(txs, sym) + p.costBasis
  {
    if txs != [] {
      var before, tx := txs[..|txs| - 1], txs[|txs| - 1];
      assert txs == before + [tx];
      P.ReplayAppend(P.EMPTY, before, [tx]);
      BookProfit(before, sym);
      BookStepProfit(P.Replay(P.EMPTY, before).value, tx, sym);
      assert P.Replay(P.EMPTY, txs) == Ok(P.Step(P.Replay(P.EMPTY, before).value, tx).book);
    }
  }

  lemma BookStepProfit(b: P.Book, tx: Tx, sym: string)
    requires P.Step(b, tx).error.None?
    ensures var p, q := P.PositionOf(b, sym), P.PositionOf(P.Step(b, tx).book, sym);
      q.realizedPnl - q.costBasis == p.realizedPnl - p.costBasis
        + (if tx.kind == Sell && tx.IsFor(sym) then tx.NetProceeds() else 0.0)
        - (if tx.kind == Buy && tx.IsFor(sym) then tx.Cost() else 0.0)
  {
  }

  /**
   * Over any valid log, taxable profit (gain plus disallowed) exceeds the book's realized profit by exactly the
   * deferred loss still sitting in open tax basis.
   */
  lemma TaxableVersusEconomic(rules: Rules, txs: seq<Tx>, sym: string)
    requires LogOk(txs) && CalendarOk(rules) && P.Replay(P.EMPTY, txs).Ok? && LedgerAt(rules, txs, |txs|).Ok?
    ensures var l, p := LedgerAt(rules, txs, |txs|).value, P.PositionOf(P.Replay(P.EMPTY, txs).value, sym);
      Column(l.out, sym, RowReported) - p.realizedPnl == Sum(LotsOf(l, sym), LotBasis) - p.costBasis
  {
    PrefixLaws(rules, txs, |txs|, sym);
    NothingOwedAtTheEnd(rules, txs);
    assert txs[..|txs|] == txs;
    var l := LedgerAt(rules, txs, |txs|).value;
    NothingPending(l.caps, sym);
    ReportedColumn(l.out, sym);
    BookProfit(txs, sym);
  }
}
