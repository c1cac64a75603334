/** Where holding periods come from: a lot keeps its clock, or takes over the surrendered shares' holding days. */
module Tacking {
  import opened Sums
  import opened Log
  import opened TaxLots
  import opened Allocation
  import opened WashSale
  import opened Capacity

  /** Some lot of this buy already had this clock. */
  ghost predicate Clocked(lots: seq<TaxLot>, buyId: int, since: int) {
    exists i :: 0 <= i < |lots| && lots[i].buyId == buyId && lots[i].holdingFrom == since
  }

  /** The clock is that of a matched buy, set back by the surrendered shares' holding days. */
  ghost predicate SetBack(rules: Rules, ms: seq<Match>, held: int, buyId: int, since: int) {
    exists j :: 0 <= j < |ms| && ms[j].id == buyId && since == Tack(rules, ms[j].date, held)
  }

  /** Every lot of w' kept its clock from w or was set back by one of the matches. */
  ghost predicate LotsTacked(rules: Rules, lots: seq<TaxLot>, lots': seq<TaxLot>, ms: seq<Match>, held: int) {
    forall i :: 0 <= i < |lots'| ==>
      || Clocked(lots, lots'[i].buyId, lots'[i].holdingFrom)
      || SetBack(rules, ms, held, lots'[i].buyId, lots'[i].holdingFrom)
  }

  /** What a buy was owed before comes first and unchanged; everything added was set back by one of the matches. */
  ghost predicate OwedTacked(rules: Rules, pending: Pending, pending': Pending, ms: seq<Match>, held: int) {
    forall id: int ::
      && Owed(pending, id) <= Owed(pending', id)
      && forall i :: |Owed(pending, id)| <= i < |Owed(pending', id)| ==>
           SetBack(rules, ms, held, id, Owed(pending', id)[i].holdingFrom)
  }

  lemma NothingTacked(rules: Rules, lots: seq<TaxLot>, ms: seq<Match>, held: int)
    ensures LotsTacked(rules, lots, lots, ms, held)
  {
    forall i | 0 <= i < |lots| ensures Clocked(lots, lots[i].buyId, lots[i].holdingFrom) {
    }
  }

  lemma {:induction false} AdjustedClocks(lots: seq<TaxLot>, buyId: int, qty: real, add: real, anchor: int, i: nat)
    requires i < |Adjusted(lots, buyId, qty, add, anchor)|
    ensures var l := Adjusted(lots, buyId, qty, add, anchor)[i];
      Clocked(lots, l.buyId, l.holdingFrom) || (l.buyId == buyId && l.holdingFrom == anchor)
    decreases lots
  {
    var a := Adjusted(lots, buyId, qty, add, anchor);
    if lots == [] || qty <= 0.0 {
      assert a == lots;
    } else {
      var l, rest := lots[0], lots[1..];
      assert Clocked(lots, l.buyId, l.holdingFrom);
      AdjustedStep(lots, buyId, qty, add, anchor, Min(qty, l.qty),
                   TaxLot(buyId, Min(qty, l.qty), l.unitBasis + add, anchor));
      if l.buyId == buyId && qty < l.qty {
        assert a == [TaxLot(buyId, qty, l.unitBasis + add, anchor), l.(qty := l.qty - qty)] + rest;
        assert i >= 2 ==> a[i] == lots[i - 1];
      } else {
        var left := if l.buyId == buyId then qty - l.qty else qty;
        assert a[1..] == Adjusted(rest, buyId, left, add, anchor);
        if i > 0 {
          AdjustedClocks(rest, buyId, left, add, anchor, i - 1);
          ClockedInTail(lots, a[i].buyId, a[i].holdingFrom);
        }
      }
    }
  }

  lemma ClockedInTail(lots: seq<TaxLot>, buyId: int, since: int)
    requires lots != []
    ensures Clocked(lots[1..], buyId, since) ==> Clocked(lots, buyId, since)
  {
    if Clocked(lots[1..], buyId, since) {
      var i :| 0 <= i < |lots| - 1 && lots[1..][i].buyId == buyId && lots[1..][i].holdingFrom == since;
      assert lots[i + 1].buyId == buyId && lots[i + 1].holdingFrom == since;
    }
  }

  lemma CarryTacks(rules: Rules, tx: Tx, w: Wash, m: Match, amount: real, held: int)
    requires m.qty > 0.0
    ensures var w' := Carry(rules, tx, w, m, amount, held);
      LotsTacked(rules, w.lots, w'.lots, [m], held) && OwedTacked(rules, w.pending, w'.pending, [m], held)
  {
    var w', anchor := Carry(rules, tx, w, m, amount, held), Tack(rules, m.date, held);
    assert SetBack(rules, [m], held, m.id, anchor) by {
      assert [m][0] == m;
    }
    forall i | 0 <= i < |w'.lots|
      ensures Clocked(w.lots, w'.lots[i].buyId, w'.lots[i].holdingFrom)
              || SetBack(rules, [m], held, w'.lots[i].buyId, w'.lots[i].holdingFrom)
    {
      if Earlier(m.ts, m.id, tx) {
        AdjustedClocks(w.lots, m.id, m.qty, amount / m.qty, anchor, i);
      } else {
        assert Clocked(w.lots, w'.lots[i].buyId, w'.lots[i].holdingFrom);
      }
    }
  }

  lemma SetBackTail(rules: Rules, ms: seq<Match>, held: int, buyId: int, since: int)
    requires ms != []
    ensures SetBack(rules, [ms[0]], held, buyId, since) ==> SetBack(rules, ms, held, buyId, since)
    ensures SetBack(rules, ms[1..], held, buyId, since) ==> SetBack(rules, ms, held, buyId, since)
  {
    if SetBack(rules, ms[1..], held, buyId, since) {
      var j :| 0 <= j < |ms| - 1 && ms[1..][j].id == buyId && since == Tack(rules, ms[1..][j].date, held);
      assert ms[j + 1].id == buyId;
    }
  }

  lemma LotsTackedTransitive(rules: Rules, a: seq<TaxLot>, b: seq<TaxLot>, c: seq<TaxLot>, ms: seq<Match>, held: int)
    requires ms != [] && LotsTacked(rules, a, b, [ms[0]], held) && LotsTacked(rules, b, c, ms[1..], held)
    ensures LotsTacked(rules, a, c, ms, held)
  {
    forall i | 0 <= i < |c|
      ensures Clocked(a, c[i].buyId, c[i].holdingFrom) || SetBack(rules, ms, held, c[i].buyId, c[i].holdingFrom)
    {
      var id, since := c[i].buyId, c[i].holdingFrom;
      SetBackTail(rules, ms, held, id, since);
      if Clocked(b, id, since) {
        var j :| 0 <= j < |b| && b[j].buyId == id && b[j].holdingFrom == since;
        assert Clocked(a, b[j].buyId, b[j].holdingFrom) || SetBack(rules, [ms[0]], held, b[j].buyId, b[j].holdingFrom);
      }
    }
  }

  lemma OwedTackedTransitive(rules: Rules, a: Pending, b: Pending, c: Pending, ms: seq<Match>, held: int)
    requires ms != [] && OwedTacked(rules, a, b, [ms[0]], held) && OwedTacked(rules, b, c, ms[1..], held)
    ensures OwedTacked(rules, a, c, ms, held)
  {
    forall id: int
      ensures Owed(a, id) <= Owed(c, id)
      ensures forall i :: |Owed(a, id)| <= i < |Owed(c, id)| ==>
                SetBack(rules, ms, held, id, Owed(c, id)[i].holdingFrom)
    {
      assert Owed(a, id) <= Owed(b, id) <= Owed(c, id);
      forall i | |Owed(a, id)| <= i < |Owed(c, id)|
        ensures SetBack(rules, ms, held, id, Owed(c, id)[i].holdingFrom)
      {
        SetBackTail(rules, ms, held, id, Owed(c, id)[i].holdingFrom);
        if i < |Owed(b, id)| {
          assert Owed(b, id)[i] == Owed(c, id)[i];
        }
      }
    }
  }

  lemma {:induction false} CarryAllTacks(rules: Rules, tx: Tx, w: Wash, ms: seq<Match>, disallowed: real,
                                         replaced: real, given: real, held: int)
    requires replaced > 0.0 && PositiveMatches(ms)
    ensures var w' := CarryAll(rules, tx, w, ms, disallowed, replaced, given, held);
      LotsTacked(rules, w.lots, w'.lots, ms, held) && OwedTacked(rules, w.pending, w'.pending, ms, held)
    decreases |ms|
  {
    if ms == [] {
      NothingTacked(rules, w.lots, ms, held);
    } else {
      var amount := Piece(disallowed, ms[0].qty, replaced, |ms| == 1, given, rules.round6);
      var w1 := Carry(rules, tx, w, ms[0], amount, held);
      var w2 := CarryAll(rules, tx, w1, ms[1..], disallowed, replaced, given + amount, held);
      CarryTacks(rules, tx, w, ms[0], amount, held);
      CarryAllTacks(rules, tx, w1, ms[1..], disallowed, replaced, given + amount, held);
      LotsTackedTransitive(rules, w.lots, w1.lots, w2.lots, ms, held);
      OwedTackedTransitive(rules, w.pending, w1.pending, w2.pending, ms, held);
    }
  }

  ghost predicate WashTacked(rules: Rules, w: Wash, w': Wash, ms: seq<Match>, held: int) {
    LotsTacked(rules, w.lots, w'.lots, ms, held) && OwedTacked(rules, w.pending, w'.pending, ms, held)
  }

  function WashedTo(rules: Rules, tx: Tx, w: Wash, m: Matched, disallowed: real, replaced: real, held: int): Wash
    requires replaced > 0.0 && PositiveMatches(m.matches)
  {
    CarryAll(rules, tx, w.(caps := m.caps), m.matches, disallowed, replaced, 0.0, held)
  }

  lemma CarriedTacks(rules: Rules, tx: Tx, w: Wash, m: Matched, disallowed: real, replaced: real, held: int)
    requires replaced > 0.0 && PositiveMatches(m.matches)
    ensures WashTacked(rules, w, WashedTo(rules, tx, w, m, disallowed, replaced, held), m.matches, held)
  {
    CarryAllTacks(rules, tx, w.(caps := m.caps), m.matches, disallowed, replaced, 0.0, held);
  }

  lemma RowsDoNotMatter(rules: Rules, w: Wash, a: Wash, b: Wash, ms: seq<Match>, held: int)
    requires WashTacked(rules, w, a, ms, held) && b.lots == a.lots && b.pending == a.pending
    ensures WashTacked(rules, w, b, ms, held)
  {
  }

  /**
   * After a chunk is washed every held lot keeps its clock or has the date of a matched buy less the days the sold
   * shares were held, and the same goes for everything newly owed.
   */
  lemma WashChunkTacks(rules: Rules, tx: Tx, sym: string, w: Wash, c: Chunk, proceeds: real)
    requires c.qty > 0.0
    ensures var sold := rules.ny(tx.ts);
      WashTacked(rules, w, WashChunk(rules, tx, sym, w, c, proceeds),
                 MatchBuys(w.caps, 0, sym, sold - 30, sold + 30, c.qty).matches, sold - c.holdingFrom)
  {
    var sold := rules.ny(tx.ts);
    var held, w' := sold - c.holdingFrom, WashChunk(rules, tx, sym, w, c, proceeds);
    var m := MatchBuys(w.caps, 0, sym, sold - 30, sold + 30, c.qty);
    var replaced := Sum(m.matches, MatchQty);
    if c.basis > proceeds && replaced > 0.0 {
      var disallowed := Disallowed(rules, c.basis - proceeds, replaced, c.qty);
      CarriedTacks(rules, tx, w, m, disallowed, replaced, held);
      RowsDoNotMatter(rules, w, WashedTo(rules, tx, w, m, disallowed, replaced, held), w', m.matches, held);
    } else {
      NothingTacked(rules, w.lots, m.matches, held);
      RowsDoNotMatter(rules, w, w, w', m.matches, held);
    }
  }
}
