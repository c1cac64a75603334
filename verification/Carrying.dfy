/** Carrying a disallowed loss: it all lands in the replacement shares, and the capacity invariant survives. */
module Carrying {
  import opened Sums
  import opened Log
  import opened TaxLots
  import opened Allocation
  import opened WashSale
  import opened Capacity

  /** Deferred loss waiting for buys of `sym` that are still to come. */
  function PendingValue(caps: seq<BuyCap>, pending: Pending, sym: string): real {
    if caps == [] then 0.0
    else (if caps[0].symbol == sym then Sum(Owed(pending, caps[0].id), AdjValue) else 0.0)
         + PendingValue(caps[1..], pending, sym)
  }

  ghost predicate PendingDated(pending: Pending, caps: seq<BuyCap>) {
    forall k, i :: 0 <= k < |caps| && caps[k].id in pending && 0 <= i < |pending[caps[k].id]| ==>
      pending[caps[k].id][i].holdingFrom <= caps[k].date
  }

  /** Adjustments are owed only to buys that have not been replayed. */
  ghost predicate PendingAhead(pending: Pending, caps: seq<BuyCap>, n: nat) {
    forall id :: id in pending ==> n <= CapIndex(caps, id) < |caps|
  }

  /** Nothing owed to buys of other symbols has changed. */
  ghost predicate OthersOwedSame(sym: string, caps: seq<BuyCap>, old_: Pending, new_: Pending) {
    forall k :: 0 <= k < |caps| && caps[k].symbol != sym ==>
      Owed(new_, caps[k].id) == Owed(old_, caps[k].id) && (caps[k].id in new_ <==> caps[k].id in old_)
  }

  ghost predicate FloorHolds(rules: Rules, caps: seq<BuyCap>) {
    forall k :: 0 <= k < |caps| ==> rules.minDate <= caps[k].date
  }

  ghost predicate LotsOk(lots: seq<TaxLot>, dates: map<int, int>) { Positive(lots) && Dated(lots, dates) }

  ghost predicate PendingOk(pending: Pending, caps: seq<BuyCap>, n: nat) {
    PositivePending(pending) && PendingDated(pending, caps) && PendingAhead(pending, caps, n)
  }

  /** Everything that holds of the symbol being sold while `due` matches still have to be carried. */
  ghost predicate WashInv(sym: string, w: Wash, qtys: seq<real>, n: nat, due: seq<Match>, dates: map<int, int>) {
    && |w.caps| == |qtys| && DistinctIds(w.caps)
    && LotsOk(w.lots, dates) && DatesOf(dates, w.caps, n, sym)
    && CapInv(sym, w.lots, w.caps, w.pending, qtys, n, due)
    && PendingOk(w.pending, w.caps, n)
  }

  lemma DueHead(due: seq<Match>, id: int)
    requires due != [] && PositiveMatches(due)
    ensures due[0].id == id ==> 0.0 < due[0].qty <= Due(due, id) && Due(due[1..], id) == Due(due, id) - due[0].qty
    ensures due[0].id != id ==> Due(due[1..], id) == Due(due, id)
  {
    DueNonNegative(due[1..], id);
  }

  lemma TackNotLater(rules: Rules, date: int, held: int)
    requires rules.minDate <= date && held >= 0
    ensures Tack(rules, date, held) <= date
    ensures date - held >= rules.minDate ==> date - Tack(rules, date, held) == held
  {
  }

  // ---------------------------------------------------------------- a buy already replayed

  /** The match is covered by held shares, so the in-place adjustment places all of it. */
  lemma CarryHeld(rules: Rules, tx: Tx, sym: string, w: Wash, qtys: seq<real>, n: nat, due: seq<Match>,
                  dates: map<int, int>, amount: real, held: int)
    requires WashInv(sym, w, qtys, n, due, dates) && Frontier(w.caps, n, tx) && FloorHolds(rules, w.caps)
    requires due != [] && PositiveMatches(due) && Located(due, w.caps, sym) && held >= 0
    requires Earlier(due[0].ts, due[0].id, tx)
    ensures var w' := Carry(rules, tx, w, due[0], amount, held);
      && WashInv(sym, w', qtys, n, due[1..], dates)
      && due[0].qty <= Held(w.lots, due[0].id)
      && Sum(w'.lots, LotBasis) == Sum(w.lots, LotBasis) + amount
  {
    var m := due[0];
    var k := CapIndex(w.caps, m.id);
    assert LocatedAt(m, w.caps, sym, k);
    assert k < n && CapInvAt(w.lots, w.caps[k], w.pending, qtys[k], k < n, due);
    DueHead(due, m.id);
    var add, anchor := amount / m.qty, Tack(rules, m.date, held);
    TackNotLater(rules, m.date, held);
    AdjustedQty(w.lots, m.id, m.qty, add, anchor);
    AdjustedDated(w.lots, m.id, m.qty, add, anchor, dates);
    AdjustedBasis(w.lots, m.id, m.qty, add, anchor, amount);
    var lots := Adjusted(w.lots, m.id, m.qty, add, anchor);
    forall j | 0 <= j < |w.caps| && w.caps[j].symbol == sym
      ensures CapInvAt(lots, w.caps[j], w.pending, qtys[j], j < n, due[1..])
    {
      assert CapInvAt(w.lots, w.caps[j], w.pending, qtys[j], j < n, due);
      AdjustedHeld(w.lots, m.id, m.qty, add, anchor, w.caps[j].id);
      DueHead(due, w.caps[j].id);
    }
  }

  // ---------------------------------------------------------------- a buy still to come

  function Owing(pending: Pending, id: int, adj: PendingAdj): Pending {
    pending[id := Owed(pending, id) + [adj]]
  }

  lemma OwingQty(pending: Pending, id: int, adj: PendingAdj, other: int)
    ensures OwedQty(Owing(pending, id, adj), other) == OwedQty(pending, other) + (if other == id then adj.qty else 0.0)
  {
    SumSnoc(Owed(pending, id), adj, AdjQty);
  }

  lemma {:induction false} OwingValue(caps: seq<BuyCap>, pending: Pending, k: nat, adj: PendingAdj, sym: string)
    requires DistinctIds(caps) && k < |caps|
    ensures PendingValue(caps, Owing(pending, caps[k].id, adj), sym) ==
            PendingValue(caps, pending, sym) + (if caps[k].symbol == sym then AdjValue(adj) else 0.0)
  {
    if k == 0 {
      SumSnoc(Owed(pending, caps[0].id), adj, AdjValue);
      OwingElsewhere(caps[1..], pending, caps[0].id, adj, sym);
    } else {
      assert caps[1..][k - 1] == caps[k];
      OwingValue(caps[1..], pending, k - 1, adj, sym);
      assert caps[0].id != caps[k].id;
    }
  }

  lemma {:induction false} OwingElsewhere(caps: seq<BuyCap>, pending: Pending, id: int, adj: PendingAdj, sym: string)
    requires forall k :: 0 <= k < |caps| ==> caps[k].id != id
    ensures PendingValue(caps, Owing(pending, id, adj), sym) == PendingValue(caps, pending, sym)
  {
    if caps != [] {
      OwingElsewhere(caps[1..], pending, id, adj, sym);
    }
  }

  lemma OwingOk(pending: Pending, caps: seq<BuyCap>, n: nat, k: nat, adj: PendingAdj)
    requires PendingOk(pending, caps, n) && DistinctIds(caps) && n <= k < |caps|
    requires adj.qty > 0.0 && adj.holdingFrom <= caps[k].date
    ensures PendingOk(Owing(pending, caps[k].id, adj), caps, n)
  {
  }

  lemma OwingCapacity(sym: string, w: Wash, qtys: seq<real>, n: nat, due: seq<Match>, k: nat, adj: PendingAdj)
    requires |w.caps| == |qtys| && DistinctIds(w.caps) && CapInv(sym, w.lots, w.caps, w.pending, qtys, n, due)
    requires due != [] && PositiveMatches(due) && n <= k < |w.caps|
    requires w.caps[k].id == due[0].id && adj.qty == due[0].qty
    ensures CapInv(sym, w.lots, w.caps, Owing(w.pending, due[0].id, adj), qtys, n, due[1..])
  {
    forall j | 0 <= j < |w.caps| && w.caps[j].symbol == sym
      ensures CapInvAt(w.lots, w.caps[j], Owing(w.pending, due[0].id, adj), qtys[j], j < n, due[1..])
    {
      assert CapInvAt(w.lots, w.caps[j], w.pending, qtys[j], j < n, due);
      DueHead(due, w.caps[j].id);
      OwingQty(w.pending, due[0].id, adj, w.caps[j].id);
    }
  }

  /** The match becomes an adjustment owed to the later buy, worth exactly `amount`. */
  lemma CarryOwed(rules: Rules, tx: Tx, sym: string, w: Wash, qtys: seq<real>, n: nat, due: seq<Match>,
                  dates: map<int, int>, amount: real, held: int)
    requires WashInv(sym, w, qtys, n, due, dates) && Frontier(w.caps, n, tx) && FloorHolds(rules, w.caps)
    requires due != [] && PositiveMatches(due) && Located(due, w.caps, sym) && held >= 0
    requires !Earlier(due[0].ts, due[0].id, tx)
    ensures var w' := Carry(rules, tx, w, due[0], amount, held);
      && WashInv(sym, w', qtys, n, due[1..], dates)
      && OthersOwedSame(sym, w.caps, w.pending, w'.pending)
      && PendingValue(w.caps, w'.pending, sym) == PendingValue(w.caps, w.pending, sym) + amount
  {
    var m := due[0];
    var k := CapIndex(w.caps, m.id);
    assert LocatedAt(m, w.caps, sym, k);
    var adj := PendingAdj(m.qty, amount / m.qty, Tack(rules, m.date, held));
    TackNotLater(rules, m.date, held);
    OwingOk(w.pending, w.caps, n, k, adj);
    OwingValue(w.caps, w.pending, k, adj, sym);
    ValueOf(adj, amount, m.qty);
    OwingCapacity(sym, w, qtys, n, due, k, adj);
    assert Carry(rules, tx, w, m, amount, held) == w.(pending := Owing(w.pending, m.id, adj));
  }

  lemma ValueOf(adj: PendingAdj, amount: real, qty: real)
    requires qty > 0.0 && adj.qty == qty && adj.perShareAdd == amount / qty
    ensures AdjValue(adj) == amount
  {
  }

  // ---------------------------------------------------------------- all matches of a chunk

  /** Tax value of the symbol: open basis plus what is owed to later buys. */
  function TaxValue(w: Wash, sym: string): real { Sum(w.lots, LotBasis) + PendingValue(w.caps, w.pending, sym) }

  lemma CarryOne(rules: Rules, tx: Tx, sym: string, w: Wash, qtys: seq<real>, n: nat, due: seq<Match>,
                 dates: map<int, int>, amount: real, held: int)
    requires WashInv(sym, w, qtys, n, due, dates) && Frontier(w.caps, n, tx) && FloorHolds(rules, w.caps)
    requires due != [] && PositiveMatches(due) && Located(due, w.caps, sym) && held >= 0
    ensures var w' := Carry(rules, tx, w, due[0], amount, held);
      && WashInv(sym, w', qtys, n, due[1..], dates)
      && w'.caps == w.caps && w'.out == w.out
      && OthersOwedSame(sym, w.caps, w.pending, w'.pending)
      && TaxValue(w', sym) == TaxValue(w, sym) + amount
  {
    if Earlier(due[0].ts, due[0].id, tx) {
      CarryHeld(rules, tx, sym, w, qtys, n, due, dates, amount, held);
    } else {
      CarryOwed(rules, tx, sym, w, qtys, n, due, dates, amount, held);
    }
  }

  /** The carried pieces add up to the disallowed loss, to the last digit. */
  lemma {:induction false} CarryAllExact(rules: Rules, tx: Tx, sym: string, w: Wash, qtys: seq<real>, n: nat,
                                         due: seq<Match>, dates: map<int, int>,
                                         disallowed: real, replaced: real, given: real, held: int)
    requires WashInv(sym, w, qtys, n, due, dates) && Frontier(w.caps, n, tx) && FloorHolds(rules, w.caps)
    requires PositiveMatches(due) && Located(due, w.caps, sym) && held >= 0 && replaced > 0.0
    ensures var w' := CarryAll(rules, tx, w, due, disallowed, replaced, given, held);
      && WashInv(sym, w', qtys, n, [], dates)
      && w'.caps == w.caps && w'.out == w.out
      && OthersOwedSame(sym, w.caps, w.pending, w'.pending)
      && (due != [] ==> TaxValue(w', sym) == TaxValue(w, sym) + disallowed - given)
    decreases |due|
  {
    if due != [] {
      var amount := Piece(disallowed, due[0].qty, replaced, |due| == 1, given, rules.round6);
      CarryOne(rules, tx, sym, w, qtys, n, due, dates, amount, held);
      var w1 := Carry(rules, tx, w, due[0], amount, held);
      CarryAllExact(rules, tx, sym, w1, qtys, n, due[1..], dates, disallowed, replaced, given + amount, held);
      if |due| == 1 {
        assert due[1..] == [];
      }
    }
  }
}
