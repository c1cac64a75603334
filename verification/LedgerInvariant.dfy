/** The invariant of the whole tax ledger, kept by every transaction, and the dollar law each one obeys. */
module LedgerInvariant {
  import opened Sums
  import opened Log
  import opened TaxLots
  import opened WashSale
  import opened Capacity
  import opened Carrying
  import opened Selling
  import opened TaxLedger

  function Qtys(caps: seq<BuyCap>): (r: seq<real>)
    ensures |r| == |caps|
    ensures forall k :: 0 <= k < |caps| ==> r[k] == caps[k].cap
  {
    if caps == [] then [] else [caps[0].cap] + Qtys(caps[1..])
  }

  /** The first `n` buys that are for `sym`, with their own dates. */
  function DatesFrom(caps: seq<BuyCap>, n: nat, sym: string): map<int, int>
    requires n <= |caps|
  {
    if n == 0 then map[]
    else
      var dates := DatesFrom(caps, n - 1, sym);
      if caps[n - 1].symbol == sym then dates[caps[n - 1].id := caps[n - 1].date] else dates
  }

  lemma {:induction false} DatesFromOk(caps: seq<BuyCap>, n: nat, sym: string)
    requires DistinctIds(caps) && n <= |caps|
    ensures DatesOf(DatesFrom(caps, n, sym), caps, n, sym)
  {
    if n > 0 { DatesFromOk(caps, n - 1, sym); }
  }

  /** `all` is the capacity table before the replay, `n` how many of its buys have been replayed. */
  ghost predicate LedgerInv(rules: Rules, all: seq<BuyCap>, n: nat, l: Ledger) {
    && n <= |all| && DistinctIds(all) && FloorHolds(rules, all)
    && SameBuys(l.caps, all) && PendingOk(l.pending, l.caps, n) && RowsDated(l.out)
    && forall sym: string :: SymbolInv(all, n, l, sym)
  }

  ghost predicate SymbolInv(all: seq<BuyCap>, n: nat, l: Ledger, sym: string)
    requires n <= |all| == |l.caps|
  {
    && LotsOk(LotsOf(l, sym), DatesFrom(all, n, sym))
    && CapInv(sym, LotsOf(l, sym), l.caps, l.pending, Qtys(all), n, [])
  }

  /** Basis of `sym` still in the ledger plus the basis reported net of disallowed losses. */
  function Worth(l: Ledger, sym: string): real { Ledgered(WashOf(l, sym), sym) }

  lemma DatesOfSame(dates: map<int, int>, a: seq<BuyCap>, b: seq<BuyCap>, n: nat, sym: string)
    requires SameBuys(a, b) && DatesOf(dates, b, n, sym)
    ensures DatesOf(dates, a, n, sym)
  {
    forall k | 0 <= k < |a| && a[k].id in dates
      ensures k < n && a[k].symbol == sym
    {
      assert b[k].id in dates;
    }
    forall k | 0 <= k < n <= |a| && a[k].symbol == sym
      ensures a[k].id in dates && dates[a[k].id] == a[k].date
    {
      assert a[k] == b[k].(cap := a[k].cap);
    }
  }

  // ---------------------------------------------------------------- a buy

  lemma {:induction false} EnteringOther(id: int, remaining: real, adjs: seq<PendingAdj>, unit: real, date: int,
                                         other: int)
    requires other != id
    ensures Held(Entering(id, remaining, adjs, unit, date), other) == 0.0
    decreases adjs
  {
    if adjs != [] {
      var take := Min(remaining, adjs[0].qty);
      if take > 0.0 {
        EnteringOther(id, remaining - take, adjs[1..], unit, date, other);
      } else {
        EnteringOther(id, remaining, adjs[1..], unit, date, other);
      }
    }
  }

  lemma {:induction false} HeldAppend(a: seq<TaxLot>, b: seq<TaxLot>, id: int)
    ensures Held(a + b, id) == Held(a, id) + Held(b, id)
  {
    if a == [] {
      assert a + b == b;
    } else {
      HeldAppend(a[1..], b, id);
      assert (a + b)[1..] == a[1..] + b;
    }
  }

  lemma {:induction false} EnteringDated(id: int, remaining: real, adjs: seq<PendingAdj>, unit: real, date: int,
                                         dates: map<int, int>)
    requires id in dates && date <= dates[id]
    requires forall i :: 0 <= i < |adjs| ==> adjs[i].holdingFrom <= dates[id]
    ensures Dated(Entering(id, remaining, adjs, unit, date), dates)
    decreases adjs
  {
    if adjs != [] {
      var take := Min(remaining, adjs[0].qty);
      EnteringDated(id, if take > 0.0 then remaining - take else remaining, adjs[1..], unit, date, dates);
    }
  }

  lemma {:induction false} AdjQtyNonNegative(adjs: seq<PendingAdj>)
    requires forall i :: 0 <= i < |adjs| ==> adjs[i].qty > 0.0
    ensures Sum(adjs, AdjQty) >= 0.0
  {
    if adjs != [] { AdjQtyNonNegative(adjs[1..]); }
  }

  /** Nothing owed is truncated: the entering lots carry the whole cost and the whole deferred loss. */
  lemma {:induction false} EnteringBasis(id: int, remaining: real, adjs: seq<PendingAdj>, unit: real, date: int,
                                         cost: real)
    requires forall i :: 0 <= i < |adjs| ==> adjs[i].qty > 0.0
    requires Sum(adjs, AdjQty) <= remaining && cost == remaining * unit
    ensures Sum(Entering(id, remaining, adjs, unit, date), LotBasis) == cost + Sum(adjs, AdjValue)
    decreases adjs
  {
    var lots := Entering(id, remaining, adjs, unit, date);
    if adjs == [] {
      if remaining > 0.0 {
        assert lots == [TaxLot(id, remaining, unit, date)] && lots[1..] == [];
        assert LotBasis(lots[0]) == cost;
      } else {
        assert remaining == 0.0 && 0.0 * unit == cost;
      }
    } else {
      AdjQtyNonNegative(adjs[1..]);
      var a := adjs[0];
      var part := a.qty * unit;
      var rest := Entering(id, remaining - a.qty, adjs[1..], unit, date);
      Distribute(remaining, a.qty, unit);
      EnteringBasis(id, remaining - a.qty, adjs[1..], unit, date, cost - part);
      var lot := TaxLot(id, a.qty, unit + a.perShareAdd, a.holdingFrom);
      assert lots == [lot] + rest && ([lot] + rest)[1..] == rest;
      EnteringLotBasis(lot, a, unit, part);
    }
  }

  lemma EnteringLotBasis(lot: TaxLot, a: PendingAdj, unit: real, part: real)
    requires lot.qty == a.qty && lot.unitBasis == unit + a.perShareAdd && part == a.qty * unit
    ensures LotBasis(lot) == part + AdjValue(a)
  {
  }

  lemma BuyPending(pending: Pending, caps: seq<BuyCap>, n: nat)
    requires PendingOk(pending, caps, n) && DistinctIds(caps) && n < |caps|
    ensures PendingOk(pending - {caps[n].id}, caps, n + 1)
  {
    forall id | id in pending - {caps[n].id}
      ensures n + 1 <= CapIndex(caps, id) < |caps|
    {
      assert id in pending;
    }
  }

  lemma {:induction false} SettledValue(caps: seq<BuyCap>, pending: Pending, k: nat, sym: string)
    requires DistinctIds(caps) && k < |caps|
    ensures PendingValue(caps, pending - {caps[k].id}, sym) ==
            PendingValue(caps, pending, sym)
            - (if caps[k].symbol == sym then Sum(Owed(pending, caps[k].id), AdjValue) else 0.0)
  {
    if k == 0 {
      SettledElsewhere(caps[1..], pending, caps[0].id, sym);
    } else {
      assert caps[1..][k - 1] == caps[k];
      SettledValue(caps[1..], pending, k - 1, sym);
      assert caps[0].id != caps[k].id;
      assert Owed(pending - {caps[k].id}, caps[0].id) == Owed(pending, caps[0].id);
    }
  }

  lemma {:induction false} SettledElsewhere(caps: seq<BuyCap>, pending: Pending, id: int, sym: string)
    requires forall k :: 0 <= k < |caps| ==> caps[k].id != id
    ensures PendingValue(caps, pending - {id}, sym) == PendingValue(caps, pending, sym)
  {
    if caps != [] {
      SettledElsewhere(caps[1..], pending, id, sym);
      assert Owed(pending - {id}, caps[0].id) == Owed(pending, caps[0].id);
    }
  }

  lemma EnteringCovers(b: BuyCap, lots: seq<TaxLot>, adjs: seq<PendingAdj>, pending: Pending, tx: Tx, unit: real,
                       date: int)
    requires tx.qty > 0.0 && b.id == tx.id && adjs == Owed(pending, tx.id) && PositivePending(pending)
    requires Positive(lots) && CapInvAt(lots, b, pending, tx.qty, false, [])
    ensures CapInvAt(lots + Entering(tx.id, tx.qty, adjs, unit, date), b, pending - {tx.id}, tx.qty, true, [])
  {
    AdjQtyNonNegative(adjs);
    EnteringQty(tx.id, tx.qty, adjs, unit, date);
    HeldAppend(lots, Entering(tx.id, tx.qty, adjs, unit, date), b.id);
    HeldNonNegative(lots, b.id);
  }

  lemma EnteringElsewhere(b: BuyCap, lots: seq<TaxLot>, adjs: seq<PendingAdj>, pending: Pending, tx: Tx, unit: real,
                          date: int, qty: real, replayed: bool)
    requires tx.qty > 0.0 && b.id != tx.id && CapInvAt(lots, b, pending, qty, replayed, [])
    ensures CapInvAt(lots + Entering(tx.id, tx.qty, adjs, unit, date), b, pending - {tx.id}, qty, replayed, [])
    ensures CapInvAt(lots, b, pending - {tx.id}, qty, replayed, [])
  {
    EnteringOther(tx.id, tx.qty, adjs, unit, date, b.id);
    HeldAppend(lots, Entering(tx.id, tx.qty, adjs, unit, date), b.id);
    assert Owed(pending - {tx.id}, b.id) == Owed(pending, b.id);
  }

  /** The entering buy: its capacity is covered by the shares it brings. */
  lemma BuyCapacity(rules: Rules, all: seq<BuyCap>, n: nat, l: Ledger, tx: Tx, s: string)
    requires LedgerInv(rules, all, n, l) && n < |all| && all[n] == CapOf(rules, tx) && tx.qty > 0.0
    ensures CapInv(s, LotsOf(BuyStep(rules, l, tx, all[n].symbol), s), l.caps, l.pending - {tx.id}, Qtys(all), n + 1,
                   [])
  {
    assert SymbolInv(all, n, l, s) && SymbolInv(all, n, l, all[n].symbol);
    forall k | 0 <= k < |l.caps| && l.caps[k].symbol == s
      ensures CapInvAt(LotsOf(BuyStep(rules, l, tx, all[n].symbol), s), l.caps[k], l.pending - {tx.id}, Qtys(all)[k],
                       k < n + 1, [])
    {
      assert CapInvAt(LotsOf(l, s), l.caps[k], l.pending, Qtys(all)[k], k < n, []);
      assert l.caps[k] == all[k].(cap := l.caps[k].cap);
      assert k == n <==> l.caps[k].id == tx.id;
      BuyCapacityAt(rules, l, tx, all[n].symbol, s, l.caps[k], Qtys(all)[k], k < n, k < n + 1);
    }
  }

  lemma BuyCapacityAt(rules: Rules, l: Ledger, tx: Tx, sym: string, s: string, b: BuyCap, qty: real, before: bool,
                      after: bool)
    requires tx.qty > 0.0 && PositivePending(l.pending) && Positive(LotsOf(l, sym))
    requires CapInvAt(LotsOf(l, s), b, l.pending, qty, before, [])
    requires b.id == tx.id ==> !before && after && qty == tx.qty && s == sym
    requires b.id != tx.id ==> after == before
    ensures CapInvAt(LotsOf(BuyStep(rules, l, tx, sym), s), b, l.pending - {tx.id}, qty, after, [])
  {
    var adjs, unit, date := Owed(l.pending, tx.id), tx.Cost() / tx.qty, rules.ny(tx.ts);
    if b.id == tx.id {
      EnteringCovers(b, LotsOf(l, sym), adjs, l.pending, tx, unit, date);
    } else {
      EnteringElsewhere(b, LotsOf(l, s), adjs, l.pending, tx, unit, date, qty, before);
    }
  }

  lemma BuyLots(rules: Rules, all: seq<BuyCap>, n: nat, l: Ledger, tx: Tx, s: string)
    requires LedgerInv(rules, all, n, l) && n < |all| && all[n] == CapOf(rules, tx) && tx.qty > 0.0
    ensures LotsOk(LotsOf(BuyStep(rules, l, tx, all[n].symbol), s), DatesFrom(all, n + 1, s))
  {
    var sym := all[n].symbol;
    var adjs, unit, date := Owed(l.pending, tx.id), tx.Cost() / tx.qty, rules.ny(tx.ts);
    assert SymbolInv(all, n, l, s);
    DatesFromOk(all, n, s);
    DatesFromOk(all, n + 1, s);
    if s == sym {
      EnteringQty(tx.id, tx.qty, adjs, unit, date);
      assert l.caps[n].date == date && l.caps[n].id == tx.id;
      EnteringDated(tx.id, tx.qty, adjs, unit, date, DatesFrom(all, n + 1, s));
    }
  }

  lemma BuyKeeps(rules: Rules, all: seq<BuyCap>, n: nat, l: Ledger, tx: Tx)
    requires LedgerInv(rules, all, n, l) && n < |all| && all[n] == CapOf(rules, tx) && tx.qty > 0.0
    ensures LedgerInv(rules, all, n + 1, BuyStep(rules, l, tx, all[n].symbol))
  {
    var l' := BuyStep(rules, l, tx, all[n].symbol);
    assert l.caps[n].id == tx.id;
    BuyPending(l.pending, l.caps, n);
    var next := n + 1;
    forall s: string
      ensures SymbolInv(all, next, l', s)
    {
      BuyCapacity(rules, all, n, l, tx, s);
      BuyLots(rules, all, n, l, tx, s);
    }
  }

  /** A buy adds exactly its cost to what the ledger carries for its symbol. */
  lemma BuyWorth(rules: Rules, all: seq<BuyCap>, n: nat, l: Ledger, tx: Tx, s: string)
    requires LedgerInv(rules, all, n, l) && n < |all| && all[n] == CapOf(rules, tx) && tx.qty > 0.0
    ensures Worth(BuyStep(rules, l, tx, all[n].symbol), s) ==
            Worth(l, s) + (if s == all[n].symbol then tx.Cost() else 0.0)
  {
    var sym := all[n].symbol;
    assert l.caps[n].id == tx.id && l.caps[n].symbol == sym;
    SettledValue(l.caps, l.pending, n, s);
    if s == sym {
      BuyOwedFits(rules, all, n, l, tx);
      var adjs, unit, date := Owed(l.pending, tx.id), tx.Cost() / tx.qty, rules.ny(tx.ts);
      UnitCost(tx);
      EnteringBasis(tx.id, tx.qty, adjs, unit, date, tx.Cost());
      SumAppend(LotsOf(l, s), Entering(tx.id, tx.qty, adjs, unit, date), LotBasis);
    }
  }

  lemma UnitCost(tx: Tx)
    requires tx.qty > 0.0
    ensures tx.Cost() == tx.qty * (tx.Cost() / tx.qty)
  {
  }

  lemma BuyOwedFits(rules: Rules, all: seq<BuyCap>, n: nat, l: Ledger, tx: Tx)
    requires LedgerInv(rules, all, n, l) && n < |all| && all[n] == CapOf(rules, tx) && tx.qty > 0.0
    ensures var adjs := Owed(l.pending, tx.id);
      && (forall i :: 0 <= i < |adjs| ==> adjs[i].qty > 0.0)
      && Sum(adjs, AdjQty) <= tx.qty
  {
    assert SymbolInv(all, n, l, all[n].symbol);
    assert CapInvAt(LotsOf(l, all[n].symbol), l.caps[n], l.pending, Qtys(all)[n], n < n, []);
  }

  // ---------------------------------------------------------------- a split

  lemma ScaledCover(cap: real, held: real, ratio: real, cap': real, held': real)
    requires ratio > 0.0 && 0.0 <= cap <= held && cap' == cap * ratio && held' == held * ratio
    ensures 0.0 <= cap' <= held'
  {
    MulMono(0.0, cap, ratio);
    MulMono(cap, held, ratio);
  }

  lemma SplitCovers(lots: seq<TaxLot>, b: BuyCap, pending: Pending, qty: real, ratio: real, scaled: BuyCap)
    requires ratio > 0.0 && CapInvAt(lots, b, pending, qty, true, [])
    requires scaled.cap == b.cap * ratio && scaled.id == b.id
    ensures CapInvAt(ScaleLots(lots, ratio), scaled, pending, qty, true, [])
  {
    ScaleHeld(lots, ratio, b.id);
    ScaledCover(b.cap, Held(lots, b.id), ratio, scaled.cap, Held(ScaleLots(lots, ratio), b.id));
  }

  lemma SplitAt(lots: seq<TaxLot>, b: BuyCap, pending: Pending, qty: real, tx: Tx, sym: string)
    requires tx.qty > 0.0 && CapInvAt(lots, b, pending, qty, Earlier(b.ts, b.id, tx), [])
    ensures CapInvAt(if b.symbol == sym then ScaleLots(lots, tx.qty) else lots, ScaleCap(b, sym, tx), pending, qty,
                     Earlier(b.ts, b.id, tx), [])
  {
    if b.symbol == sym && Earlier(b.ts, b.id, tx) {
      SplitCovers(lots, b, pending, qty, tx.qty, ScaleCap(b, sym, tx));
    } else {
      assert ScaleCap(b, sym, tx) == b;
    }
  }

  lemma SplitCapacity(s: string, lots: seq<TaxLot>, caps: seq<BuyCap>, pending: Pending, qtys: seq<real>, n: nat,
                      tx: Tx, sym: string)
    requires |caps| == |qtys| && CapInv(s, lots, caps, pending, qtys, n, [])
    requires Frontier(caps, n, tx) && tx.qty > 0.0
    ensures CapInv(s, if s == sym then ScaleLots(lots, tx.qty) else lots, ScaleCaps(caps, sym, tx), pending, qtys, n,
                   [])
  {
    var lots', caps' := if s == sym then ScaleLots(lots, tx.qty) else lots, ScaleCaps(caps, sym, tx);
    forall k | 0 <= k < |caps| && caps'[k].symbol == s
      ensures CapInvAt(lots', caps'[k], pending, qtys[k], k < n, [])
    {
      assert CapInvAt(lots, caps[k], pending, qtys[k], k < n, []);
      SplitAt(lots, caps[k], pending, qtys[k], tx, sym);
    }
  }

  lemma SplitKeeps(rules: Rules, all: seq<BuyCap>, n: nat, l: Ledger, tx: Tx, sym: string)
    requires LedgerInv(rules, all, n, l) && Frontier(l.caps, n, tx) && tx.qty > 0.0
    ensures LedgerInv(rules, all, n, SplitStep(l, tx, sym))
  {
    var l' := SplitStep(l, tx, sym);
    assert SameBuys(l'.caps, l.caps);
    SamePending(l.pending, l'.caps, l.caps, n);
    forall s: string
      ensures SymbolInv(all, n, l', s)
    {
      assert SymbolInv(all, n, l, s);
      SplitCapacity(s, LotsOf(l, s), l.caps, l.pending, Qtys(all), n, tx, sym);
      if s == sym {
        ScalePositive(LotsOf(l, s), tx.qty);
        ScaleDated(LotsOf(l, s), tx.qty, DatesFrom(all, n, s));
      }
    }
  }

  lemma SplitWorth(l: Ledger, tx: Tx, sym: string, s: string)
    requires tx.qty > 0.0
    ensures Worth(SplitStep(l, tx, sym), s) == Worth(l, s)
  {
    PendingValueSame(ScaleCaps(l.caps, sym, tx), l.caps, l.pending, s);
    if s == sym {
      ScaleBasis(LotsOf(l, s), tx.qty);
    }
  }

  // ---------------------------------------------------------------- a sell

  /** The day of the sell is no earlier than the date of any buy replayed so far. */
  ghost predicate DatesUpTo(all: seq<BuyCap>, n: nat, day: int) {
    forall k :: 0 <= k < n <= |all| ==> all[k].date <= day
  }

  lemma {:induction false} DatesFromBefore(all: seq<BuyCap>, n: nat, sym: string, day: int)
    requires n <= |all| && DatesUpTo(all, n, day)
    ensures DatesBefore(DatesFrom(all, n, sym), day)
  {
    if n > 0 { DatesFromBefore(all, n - 1, sym, day); }
  }

  lemma SellStart(rules: Rules, all: seq<BuyCap>, n: nat, l: Ledger, tx: Tx, sym: string)
    requires LedgerInv(rules, all, n, l) && Frontier(l.caps, n, tx) && DatesUpTo(all, n, rules.ny(tx.ts))
    ensures SellInv(rules, tx, sym, WashOf(l, sym), Qtys(all), n, DatesFrom(all, n, sym))
  {
    assert SymbolInv(all, n, l, sym);
    DatesFromOk(all, n, sym);
    DatesOfSame(DatesFrom(all, n, sym), l.caps, all, n, sym);
    DatesFromBefore(all, n, sym, rules.ny(tx.ts));
  }

  lemma CapInvElsewhere(sym: string, s: string, w: Wash, w': Wash, lots: seq<TaxLot>, qtys: seq<real>, n: nat)
    requires OthersSame(sym, w, w') && s != sym && |w.caps| == |qtys|
    requires CapInv(s, lots, w.caps, w.pending, qtys, n, [])
    ensures CapInv(s, lots, w'.caps, w'.pending, qtys, n, [])
  {
    forall k | 0 <= k < |w'.caps| && w'.caps[k].symbol == s
      ensures CapInvAt(lots, w'.caps[k], w'.pending, qtys[k], k < n, [])
    {
      assert CapInvAt(lots, w.caps[k], w.pending, qtys[k], k < n, []);
    }
  }

  lemma {:induction false} PendingValueElsewhere(sym: string, s: string, caps: seq<BuyCap>, p: Pending, p': Pending)
    requires OthersOwedSame(sym, caps, p, p') && s != sym
    ensures PendingValue(caps, p', s) == PendingValue(caps, p, s)
  {
    if caps != [] {
      assert forall k :: 0 <= k < |caps| - 1 ==> caps[1..][k] == caps[k + 1];
      PendingValueElsewhere(sym, s, caps[1..], p, p');
    }
  }

  lemma SellKeepsLedger(rules: Rules, all: seq<BuyCap>, n: nat, l: Ledger, tx: Tx, sym: string)
    requires LedgerInv(rules, all, n, l) && Frontier(l.caps, n, tx) && DatesUpTo(all, n, rules.ny(tx.ts))
    requires Positive(LotsOf(l, sym)) && 0.0 < tx.qty <= Sum(LotsOf(l, sym), LotQty)
    ensures LedgerInv(rules, all, n, WithWash(l, sym, SellStep(rules, tx, sym, WashOf(l, sym))))
  {
    var w, dates := WashOf(l, sym), DatesFrom(all, n, sym);
    SellStart(rules, all, n, l, tx, sym);
    SellKeeps(rules, tx, sym, w, Qtys(all), n, dates);
    var w' := SellStep(rules, tx, sym, w);
    var l' := WithWash(l, sym, w');
    forall s: string
      ensures SymbolInv(all, n, l', s)
    {
      assert SymbolInv(all, n, l, s);
      if s != sym {
        CapInvElsewhere(sym, s, w, w', LotsOf(l, s), Qtys(all), n);
      }
    }
  }

  /** A sell reports its whole net proceeds and leaves the carried worth of every symbol unchanged. */
  lemma SellWorth(rules: Rules, all: seq<BuyCap>, n: nat, l: Ledger, tx: Tx, sym: string, s: string)
    requires LedgerInv(rules, all, n, l) && Frontier(l.caps, n, tx) && DatesUpTo(all, n, rules.ny(tx.ts))
    requires Positive(LotsOf(l, sym)) && 0.0 < tx.qty <= Sum(LotsOf(l, sym), LotQty)
    ensures var l' := WithWash(l, sym, SellStep(rules, tx, sym, WashOf(l, sym)));
      && Worth(l', s) == Worth(l, s)
      && Column(l'.out, s, RowProceeds) ==
         Column(l.out, s, RowProceeds) + (if s == sym then tx.NetProceeds() else 0.0)
  {
    var w, dates := WashOf(l, sym), DatesFrom(all, n, sym);
    SellStart(rules, all, n, l, tx, sym);
    SellKeeps(rules, tx, sym, w, Qtys(all), n, dates);
    var w' := SellStep(rules, tx, sym, w);
    if s != sym {
      WorthElsewhere(l, sym, w', s, tx.NetProceeds());
    }
  }

  lemma WorthElsewhere(l: Ledger, sym: string, w': Wash, s: string, proceeds: real)
    requires Reported(sym, WashOf(l, sym), w', 0.0, proceeds) && s != sym
    ensures Worth(WithWash(l, sym, w'), s) == Worth(l, s)
  {
    var w := WashOf(l, sym);
    PendingValueElsewhere(sym, s, w.caps, w.pending, w'.pending);
    PendingValueSame(w'.caps, w.caps, w'.pending, s);
    assert LotsOf(WithWash(l, sym, w'), s) == LotsOf(l, s);
  }
}
