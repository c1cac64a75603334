/** The tax ledger: replays the log into wash-adjusted disposals, failing exactly where the log is inconsistent. */
module TaxLedger {
  import opened Sums
  import opened Log
  import opened TaxLots
  import opened Allocation
  import opened WashSale

  datatype Ledger = Ledger(caps: seq<BuyCap>, positions: map<string, seq<TaxLot>>, pending: Pending,
                           out: seq<Disposal>)

  function LotsOf(l: Ledger, sym: string): seq<TaxLot> {
    if sym in l.positions then l.positions[sym] else []
  }

  ghost predicate AllPositive(l: Ledger) {
    forall s :: s in l.positions ==> Positive(l.positions[s])
  }

  function SymbolOrBlank(tx: Tx): string {
    if tx.symbol.Some? then tx.symbol.value else ""
  }

  function CapOf(rules: Rules, tx: Tx): BuyCap {
    BuyCap(tx.id, SymbolOrBlank(tx), tx.ts, rules.ny(tx.ts), tx.qty)
  }

  /** Capacity is collected over all buys up front: a loss can be washed by a purchase still to come. */
  function InitialCaps(rules: Rules, txs: seq<Tx>): seq<BuyCap> {
    if txs == [] then []
    else (if txs[0].kind == Buy then [CapOf(rules, txs[0])] else []) + InitialCaps(rules, txs[1..])
  }

  /** The lots a buy enters with: adjusted parts first, in the order they were owed, then the rest as bought. */
  function Entering(id: int, remaining: real, adjs: seq<PendingAdj>, unit: real, date: int): seq<TaxLot>
    decreases adjs
  {
    if adjs == [] then
      if remaining > 0.0 then [TaxLot(id, remaining, unit, date)] else []
    else
      var take := Min(remaining, adjs[0].qty);
      if take > 0.0 then
        [TaxLot(id, take, unit + adjs[0].perShareAdd, adjs[0].holdingFrom)]
        + Entering(id, remaining - take, adjs[1..], unit, date)
      else
        Entering(id, remaining, adjs[1..], unit, date)
  }

  /** A split multiplies the capacity of every earlier buy of its symbol. */
  function ScaleCaps(caps: seq<BuyCap>, sym: string, tx: Tx): (r: seq<BuyCap>)
    ensures |r| == |caps|
    ensures forall k :: 0 <= k < |caps| ==> r[k] == ScaleCap(caps[k], sym, tx)
  {
    if caps == [] then [] else [ScaleCap(caps[0], sym, tx)] + ScaleCaps(caps[1..], sym, tx)
  }

  function ScaleCap(b: BuyCap, sym: string, tx: Tx): BuyCap {
    if b.symbol == sym && Earlier(b.ts, b.id, tx) then b.(cap := b.cap * tx.qty) else b
  }

  function WashOf(l: Ledger, sym: string): Wash { Wash(LotsOf(l, sym), l.caps, l.pending, l.out) }

  function WithWash(l: Ledger, sym: string, w: Wash): Ledger {
    Ledger(w.caps, l.positions[sym := w.lots], w.pending, w.out)
  }

  function BuyStep(rules: Rules, l: Ledger, tx: Tx, sym: string): Ledger
    requires tx.qty > 0.0
  {
    var lots := LotsOf(l, sym) + Entering(tx.id, tx.qty, Owed(l.pending, tx.id), tx.Cost() / tx.qty, rules.ny(tx.ts));
    l.(positions := l.positions[sym := lots], pending := l.pending - {tx.id})
  }

  function SplitStep(l: Ledger, tx: Tx, sym: string): Ledger
    requires tx.qty > 0.0
  {
    l.(positions := l.positions[sym := ScaleLots(LotsOf(l, sym), tx.qty)], caps := ScaleCaps(l.caps, sym, tx))
  }

  ghost function Step(rules: Rules, l: Ledger, tx: Tx): (r: Result<Ledger>)
    requires AllPositive(l)
    ensures r.Ok? ==> AllPositive(r.value)
  {
    match tx.kind
    case Deposit => Ok(l)
    case Withdrawal => Ok(l)
    case _ =>
      if tx.Symbol().None? then Err(MissingSymbol(tx.id, tx.kind))
      else SymbolStep(rules, l, tx, tx.Symbol().value)
  }

  ghost function SymbolStep(rules: Rules, l: Ledger, tx: Tx, sym: string): (r: Result<Ledger>)
    requires AllPositive(l)
    ensures r.Ok? ==> AllPositive(r.value)
  {
    if tx.kind == Dividend then Ok(l)
    else if tx.qty <= 0.0 then Err(if tx.kind == Split then BadSplitRatio(tx.id, tx.qty) else NonPositive(tx.id))
    else if tx.kind == Buy then
      EnteringQty(tx.id, tx.qty, Owed(l.pending, tx.id), tx.Cost() / tx.qty, rules.ny(tx.ts));
      Ok(BuyStep(rules, l, tx, sym))
    else if tx.kind == Sell then
      assert Positive(LotsOf(l, sym));
      var have := Sum(LotsOf(l, sym), LotQty);
      if tx.qty > have then Err(Oversell(tx.id, sym, have, tx.qty))
      else
        SellQty(rules, tx, sym, WashOf(l, sym));
        Ok(WithWash(l, sym, SellStep(rules, tx, sym, WashOf(l, sym))))
    else
      assert Positive(LotsOf(l, sym));
      ScalePositive(LotsOf(l, sym), tx.qty);
      Ok(SplitStep(l, tx, sym))
  }

  lemma SymbolStepOthers(rules: Rules, l: Ledger, tx: Tx, sym: string)
    requires AllPositive(l) && SymbolStep(rules, l, tx, sym).Ok?
    ensures forall s :: s != sym ==> LotsOf(SymbolStep(rules, l, tx, sym).value, s) == LotsOf(l, s)
  {
  }

  ghost function Replay(rules: Rules, l: Ledger, txs: seq<Tx>): (r: Result<Ledger>)
    requires AllPositive(l)
    ensures r.Ok? ==> AllPositive(r.value)
    decreases txs
  {
    if txs == [] then Ok(l)
    else
      var s := Step(rules, l, txs[0]);
      if s.Err? then s else Replay(rules, s.value, txs[1..])
  }

  function Start(rules: Rules, txs: seq<Tx>): Ledger { Ledger(InitialCaps(rules, txs), map[], map[], []) }

  /** The report rows of a whole log, or the error of the first inconsistent transaction. */
  ghost function Disposals(rules: Rules, txs: seq<Tx>): Result<seq<Disposal>> {
    var r := Replay(rules, Start(rules, txs), txs);
    if r.Ok? then Ok(r.value.out) else Err(r.error)
  }

  // ---------------------------------------------------------------- share counts, whatever the capacities

  lemma {:induction false} EnteringQty(id: int, remaining: real, adjs: seq<PendingAdj>, unit: real, date: int)
    requires remaining >= 0.0
    ensures var lots := Entering(id, remaining, adjs, unit, date);
      Positive(lots) && Sum(lots, LotQty) == remaining && Held(lots, id) == remaining
    decreases adjs
  {
    if adjs != [] {
      var take := Min(remaining, adjs[0].qty);
      if take > 0.0 {
        EnteringQty(id, remaining - take, adjs[1..], unit, date);
        var rest := Entering(id, remaining - take, adjs[1..], unit, date);
        assert Entering(id, remaining, adjs, unit, date)[1..] == rest;
      } else {
        EnteringQty(id, remaining, adjs[1..], unit, date);
      }
    } else if remaining > 0.0 {
      assert Entering(id, remaining, adjs, unit, date)[1..] == [];
    }
  }

  lemma {:induction false} CarryAllQty(rules: Rules, tx: Tx, w: Wash, ms: seq<Match>, disallowed: real,
                                       replaced: real, given: real, held: int)
    requires Positive(w.lots) && replaced > 0.0 && forall i :: 0 <= i < |ms| ==> ms[i].qty > 0.0
    ensures var w' := CarryAll(rules, tx, w, ms, disallowed, replaced, given, held);
      Positive(w'.lots) && Sum(w'.lots, LotQty) == Sum(w.lots, LotQty)
    decreases |ms|
  {
    if ms != [] {
      var amount := Piece(disallowed, ms[0].qty, replaced, |ms| == 1, given, rules.round6);
      AdjustedQty(w.lots, ms[0].id, ms[0].qty, amount / ms[0].qty, Tack(rules, ms[0].date, held));
      CarryAllQty(rules, tx, Carry(rules, tx, w, ms[0], amount, held), ms[1..], disallowed, replaced, given + amount,
                  held);
    }
  }

  lemma WashChunkQty(rules: Rules, tx: Tx, sym: string, w: Wash, c: Chunk, proceeds: real)
    requires Positive(w.lots) && c.qty > 0.0
    ensures var w' := WashChunk(rules, tx, sym, w, c, proceeds);
      Positive(w'.lots) && Sum(w'.lots, LotQty) == Sum(w.lots, LotQty)
  {
    var sold := rules.ny(tx.ts);
    var m := MatchBuys(w.caps, 0, sym, sold - 30, sold + 30, c.qty);
    var replaced, loss := Sum(m.matches, MatchQty), c.basis - proceeds;
    if loss > 0.0 && replaced > 0.0 {
      CarryAllQty(rules, tx, w.(caps := m.caps), m.matches, Disallowed(rules, loss, replaced, c.qty), replaced, 0.0,
                  sold - c.holdingFrom);
    }
  }

  lemma {:induction false} WashChunksQty(rules: Rules, tx: Tx, sym: string, w: Wash, chunks: seq<Chunk>, given: real)
    requires Positive(w.lots) && tx.qty > 0.0 && PositiveChunks(chunks)
    ensures var w' := WashChunks(rules, tx, sym, w, chunks, given);
      Positive(w'.lots) && Sum(w'.lots, LotQty) == Sum(w.lots, LotQty)
    decreases |chunks|
  {
    if chunks != [] {
      var proceeds := Piece(tx.NetProceeds(), chunks[0].qty, tx.qty, |chunks| == 1, given, rules.round6);
      WashChunkQty(rules, tx, sym, w, chunks[0], proceeds);
      WashChunksQty(rules, tx, sym, WashChunk(rules, tx, sym, w, chunks[0], proceeds), chunks[1..], given + proceeds);
    }
  }

  /** Washing never changes how many shares are open: a sell removes exactly what it sells. */
  lemma SellQty(rules: Rules, tx: Tx, sym: string, w: Wash)
    requires Positive(w.lots) && 0.0 < tx.qty <= Sum(w.lots, LotQty)
    ensures var w' := SellStep(rules, tx, sym, w);
      Positive(w'.lots) && Sum(w'.lots, LotQty) == Sum(w.lots, LotQty) - tx.qty
  {
    TakeQty(w.lots, tx.qty);
    var t := TakeChunks(w.lots, tx.qty);
    WashChunksQty(rules, tx, sym, w.(lots := t.rest, caps := Burn(w.caps, t.chunks)), t.chunks, 0.0);
  }

  // ---------------------------------------------------------------- the replay loop

  method CollectCaps(rules: Rules, txs: seq<Tx>) returns (caps: seq<BuyCap>)
    ensures caps == InitialCaps(rules, txs)
  {
    caps := [];
    var i := 0;
    assert txs[0..] == txs;
    while i < |txs|
      invariant 0 <= i <= |txs|
      invariant InitialCaps(rules, txs) == caps + InitialCaps(rules, txs[i..])
    {
      assert txs[i..][0] == txs[i] && txs[i..][1..] == txs[i + 1..];
      if txs[i].kind == Buy {
        caps := caps + [CapOf(rules, txs[i])];
      }
      i := i + 1;
    }
  }

  /** Enters a buy: the owed adjustments one by one, then whatever is left unadjusted. */
  method EnterBuy(lots: seq<TaxLot>, id: int, qty: real, adjs: seq<PendingAdj>, unit: real, date: int)
    returns (result: seq<TaxLot>)
    ensures result == lots + Entering(id, qty, adjs, unit, date)
  {
    result := lots;
    var remaining, i := qty, 0;
    assert adjs[0..] == adjs;
    while i < |adjs|
      invariant 0 <= i <= |adjs|
      invariant lots + Entering(id, qty, adjs, unit, date) ==
                result + Entering(id, remaining, adjs[i..], unit, date)
    {
      assert adjs[i..][0] == adjs[i] && adjs[i..][1..] == adjs[i + 1..];
      var take := Min(remaining, adjs[i].qty);
      if take > 0.0 {
        ghost var rest := Entering(id, remaining - take, adjs[i + 1..], unit, date);
        var lot := TaxLot(id, take, unit + adjs[i].perShareAdd, adjs[i].holdingFrom);
        assert result + ([lot] + rest) == (result + [lot]) + rest;
        result := result + [lot];
        remaining := remaining - take;
      }
      i := i + 1;
    }
    if remaining > 0.0 {
      result := result + [TaxLot(id, remaining, unit, date)];
    }
  }

  method ScaleCapacities(caps: seq<BuyCap>, sym: string, tx: Tx) returns (scaled: seq<BuyCap>)
    ensures scaled == ScaleCaps(caps, sym, tx)
  {
    scaled := caps;
    var k := 0;
    while k < |caps|
      invariant 0 <= k <= |caps| == |scaled|
      invariant forall j :: 0 <= j < k ==> scaled[j] == ScaleCap(caps[j], sym, tx)
      invariant forall j :: k <= j < |caps| ==> scaled[j] == caps[j]
    {
      if scaled[k].symbol == sym && Earlier(scaled[k].ts, scaled[k].id, tx) {
        scaled := scaled[k := scaled[k].(cap := scaled[k].cap * tx.qty)];
      }
      k := k + 1;
    }
  }

  method TotalShares(lots: seq<TaxLot>) returns (have: real)
    ensures have == Sum(lots, LotQty)
  {
    have := 0.0;
    var i := 0;
    assert lots[0..] == lots;
    while i < |lots|
      invariant 0 <= i <= |lots|
      invariant Sum(lots, LotQty) == have + Sum(lots[i..], LotQty)
    {
      assert lots[i..][0] == lots[i] && lots[i..][1..] == lots[i + 1..];
      have := have + lots[i].qty;
      i := i + 1;
    }
  }

  method ApplyTx(rules: Rules, l: Ledger, tx: Tx) returns (r: Result<Ledger>)
    requires AllPositive(l)
    ensures r == Step(rules, l, tx)
  {
    if tx.kind == Deposit || tx.kind == Withdrawal {
      return Ok(l);
    }
    if tx.symbol.None? || tx.symbol.value == "" {
      return Err(MissingSymbol(tx.id, tx.kind));
    }
    r := ApplyTrade(rules, l, tx, tx.symbol.value);
  }

  method ApplyTrade(rules: Rules, l: Ledger, tx: Tx, sym: string) returns (r: Result<Ledger>)
    requires AllPositive(l) && !tx.kind.Deposit? && !tx.kind.Withdrawal?
    ensures r == SymbolStep(rules, l, tx, sym)
  {
    var lots := LotsOf(l, sym);
    assert Positive(lots);
    if tx.kind == Dividend {
      r := Ok(l);
    } else if tx.qty <= 0.0 {
      r := Err(if tx.kind == Split then BadSplitRatio(tx.id, tx.qty) else NonPositive(tx.id));
    } else if tx.kind == Buy {
      var entered := EnterBuy(lots, tx.id, tx.qty, Owed(l.pending, tx.id), tx.Cost() / tx.qty, rules.ny(tx.ts));
      r := Ok(l.(positions := l.positions[sym := entered], pending := l.pending - {tx.id}));
    } else if tx.kind == Sell {
      var have := TotalShares(lots);
      if tx.qty > have {
        return Err(Oversell(tx.id, sym, have, tx.qty));
      }
      var w := SellAndWash(rules, tx, sym, Wash(lots, l.caps, l.pending, l.out));
      r := Ok(Ledger(w.caps, l.positions[sym := w.lots], w.pending, w.out));
    } else {
      var scaled := ScaleInPlace(lots, tx.qty);
      var caps := ScaleCapacities(l.caps, sym, tx);
      r := Ok(l.(positions := l.positions[sym := scaled], caps := caps));
    }
  }

  method TaxDisposals(rules: Rules, txs: seq<Tx>) returns (r: Result<seq<Disposal>>)
    ensures r == Disposals(rules, txs)
  {
    var caps := CollectCaps(rules, txs);
    var l := Ledger(caps, map[], map[], []);
    var i := 0;
    assert txs[0..] == txs;
    while i < |txs|
      invariant 0 <= i <= |txs|
      invariant AllPositive(l)
      invariant Replay(rules, Start(rules, txs), txs) == Replay(rules, l, txs[i..])
    {
      assert txs[i..][0] == txs[i] && txs[i..][1..] == txs[i + 1..];
      var s := ApplyTx(rules, l, txs[i]);
      if s.Err? {
        return Err(s.error);
      }
      l := s.value;
      i := i + 1;
    }
    r := Ok(l.out);
  }
}
