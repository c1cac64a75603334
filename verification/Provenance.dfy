/**
 * Where every holding period in the tax ledger comes from, over whole runs: a clock is its buy's own date, or that date
 * set back by the holding days of a losing row reported earlier, sold within thirty days of the buy.
 */
module Provenance {
  import opened Sums
  import opened Log
  import opened TaxLots
  import opened Allocation
  import opened WashSale
  import opened Capacity
  import opened Selling
  import opened Tacking
  import opened TaxLedger
  import opened TaxLaws

  /** The row sold this symbol at a loss around the buy, and its holding days set the clock, down to the first date. */
  predicate SetsBack(rules: Rules, row: Disposal, b: BuyCap, since: int) {
    && row.symbol == b.symbol && row.basis > row.proceeds
    && row.sold - 30 <= b.date <= row.sold + 30
    && var back := b.date - (row.sold - row.holdingFrom);
      since == if back < rules.minDate then rules.minDate else back
  }

  ghost predicate Explained(rules: Rules, rows: seq<Disposal>, b: BuyCap, since: int) {
    since == b.date || exists r :: 0 <= r < |rows| && SetsBack(rules, rows[r], b, since)
  }

  /** The clock of shares of this buy of this symbol, explained by the rows. */
  ghost predicate Traced(rules: Rules, all: seq<BuyCap>, rows: seq<Disposal>, sym: string, buyId: int, since: int) {
    exists k ::
      0 <= k < |all| && all[k].id == buyId && all[k].symbol == sym && Explained(rules, rows, all[k], since)
  }

  ghost predicate LotsTraced(rules: Rules, all: seq<BuyCap>, rows: seq<Disposal>, sym: string, lots: seq<TaxLot>) {
    forall i :: 0 <= i < |lots| ==> Traced(rules, all, rows, sym, lots[i].buyId, lots[i].holdingFrom)
  }

  ghost predicate OwedTraced(rules: Rules, all: seq<BuyCap>, rows: seq<Disposal>, pending: Pending) {
    forall k :: 0 <= k < |all| ==> ClocksExplained(rules, all[k], rows, Owed(pending, all[k].id))
  }

  ghost predicate ClocksExplained(rules: Rules, b: BuyCap, rows: seq<Disposal>, owed: seq<PendingAdj>) {
    forall i :: 0 <= i < |owed| ==> Explained(rules, rows, b, owed[i].holdingFrom)
  }

  /** Each row's own clock is explained by the rows before it. */
  ghost predicate RowsTraced(rules: Rules, all: seq<BuyCap>, rows: seq<Disposal>) {
    forall r :: 0 <= r < |rows| ==> RowTraced(rules, all, rows[..r], rows[r])
  }

  ghost predicate RowTraced(rules: Rules, all: seq<BuyCap>, earlier: seq<Disposal>, row: Disposal) {
    exists buyId :: Traced(rules, all, earlier, row.symbol, buyId, row.holdingFrom)
  }

  ghost predicate WashTraced(rules: Rules, all: seq<BuyCap>, sym: string, w: Wash) {
    && SameBuys(w.caps, all) && LotsTraced(rules, all, w.out, sym, w.lots)
    && OwedTraced(rules, all, w.out, w.pending) && RowsTraced(rules, all, w.out)
  }

  // ---------------------------------------------------------------- more rows explain no less

  lemma ExplainedByMore(rules: Rules, rows: seq<Disposal>, more: seq<Disposal>, b: BuyCap, since: int)
    requires Explained(rules, rows, b, since) && rows <= more
    ensures Explained(rules, more, b, since)
  {
    if since != b.date {
      var r :| 0 <= r < |rows| && SetsBack(rules, rows[r], b, since);
      assert more[r] == rows[r];
    }
  }

  lemma TracedByMore(rules: Rules, all: seq<BuyCap>, rows: seq<Disposal>, more: seq<Disposal>, sym: string, buyId: int,
                     since: int)
    requires Traced(rules, all, rows, sym, buyId, since) && rows <= more
    ensures Traced(rules, all, more, sym, buyId, since)
  {
    var k :| 0 <= k < |all| && all[k].id == buyId && all[k].symbol == sym && Explained(rules, rows, all[k], since);
    ExplainedByMore(rules, rows, more, all[k], since);
  }

  lemma LotsTracedByMore(rules: Rules, all: seq<BuyCap>, rows: seq<Disposal>, more: seq<Disposal>, sym: string,
                         lots: seq<TaxLot>)
    requires LotsTraced(rules, all, rows, sym, lots) && rows <= more
    ensures LotsTraced(rules, all, more, sym, lots)
  {
    forall i | 0 <= i < |lots|
      ensures Traced(rules, all, more, sym, lots[i].buyId, lots[i].holdingFrom)
    {
      TracedByMore(rules, all, rows, more, sym, lots[i].buyId, lots[i].holdingFrom);
    }
  }

  lemma OwedTracedByMore(rules: Rules, all: seq<BuyCap>, rows: seq<Disposal>, more: seq<Disposal>, pending: Pending)
    requires OwedTraced(rules, all, rows, pending) && rows <= more
    ensures OwedTraced(rules, all, more, pending)
  {
    forall k | 0 <= k < |all|
      ensures ClocksExplained(rules, all[k], more, Owed(pending, all[k].id))
    {
      var owed := Owed(pending, all[k].id);
      assert ClocksExplained(rules, all[k], rows, owed);
      forall i | 0 <= i < |owed| ensures Explained(rules, more, all[k], owed[i].holdingFrom) {
        ExplainedByMore(rules, rows, more, all[k], owed[i].holdingFrom);
      }
    }
  }

  lemma RowsTracedSnoc(rules: Rules, all: seq<BuyCap>, rows: seq<Disposal>, row: Disposal, buyId: int)
    requires RowsTraced(rules, all, rows) && Traced(rules, all, rows, row.symbol, buyId, row.holdingFrom)
    ensures RowsTraced(rules, all, rows + [row])
  {
    var more := rows + [row];
    forall r | 0 <= r < |more|
      ensures RowTraced(rules, all, more[..r], more[r])
    {
      if r == |rows| {
        assert more[..r] == rows;
      } else {
        assert more[..r] == rows[..r];
        assert RowTraced(rules, all, rows[..r], rows[r]);
      }
    }
  }

  // ---------------------------------------------------------------- one chunk of a sell

  lemma {:induction false} MatchesInWindow(caps: seq<BuyCap>, k: nat, sym: string, lo: int, hi: int, need: real)
    requires k <= |caps|
    ensures forall i :: 0 <= i < |MatchBuys(caps, k, sym, lo, hi, need).matches| ==>
              lo <= MatchBuys(caps, k, sym, lo, hi, need).matches[i].date <= hi
    decreases |caps| - k
  {
    if k < |caps| && need > 0.0 {
      var b := caps[k];
      var take := if InWindow(b, sym, lo, hi) then Min(need, b.cap) else 0.0;
      if take > 0.0 {
        MatchesInWindow(caps[k := b.(cap := b.cap - take)], k + 1, sym, lo, hi, need - take);
      } else {
        MatchesInWindow(caps, k + 1, sym, lo, hi, need);
      }
    }
  }

  lemma {:induction false} CarryAllKeepsCaps(rules: Rules, tx: Tx, w: Wash, ms: seq<Match>, disallowed: real,
                                             replaced: real, given: real, held: int)
    requires replaced > 0.0 && PositiveMatches(ms)
    ensures CarryAll(rules, tx, w, ms, disallowed, replaced, given, held).caps == w.caps
    decreases |ms|
  {
    if ms != [] {
      var amount := Piece(disallowed, ms[0].qty, replaced, |ms| == 1, given, rules.round6);
      CarryAllKeepsCaps(rules, tx, Carry(rules, tx, w, ms[0], amount, held), ms[1..], disallowed, replaced,
                        given + amount, held);
    }
  }

  lemma ChunkKeepsBuys(rules: Rules, tx: Tx, sym: string, w: Wash, c: Chunk, proceeds: real)
    requires c.qty > 0.0 && DistinctIds(w.caps)
    ensures SameBuys(WashChunk(rules, tx, sym, w, c, proceeds).caps, w.caps)
  {
    var sold := rules.ny(tx.ts);
    var m := MatchBuys(w.caps, 0, sym, sold - 30, sold + 30, c.qty);
    var replaced := Sum(m.matches, MatchQty);
    MatchKeepsBuys(w.caps, 0, sym, sold - 30, sold + 30, c.qty);
    if c.basis > proceeds && replaced > 0.0 {
      CarryAllKeepsCaps(rules, tx, w.(caps := m.caps), m.matches,
                        Disallowed(rules, c.basis - proceeds, replaced, c.qty), replaced, 0.0, sold - c.holdingFrom);
    }
  }

  lemma NoLossNoChange(rules: Rules, tx: Tx, sym: string, w: Wash, c: Chunk, proceeds: real)
    requires c.qty > 0.0 && c.basis <= proceeds
    ensures var w' := WashChunk(rules, tx, sym, w, c, proceeds); w'.lots == w.lots && w'.pending == w.pending
  {
  }

  /** Each matched buy, found in the table by its id, has its clock set back by the chunk's own row. */
  lemma MatchExplains(rules: Rules, all: seq<BuyCap>, caps: seq<BuyCap>, sym: string, row: Disposal, need: real,
                      rows: seq<Disposal>, id: int, since: int) returns (k: nat)
    requires SameBuys(caps, all) && DistinctIds(caps)
    requires row in rows && row.symbol == sym && row.basis > row.proceeds
    requires SetBack(rules, MatchBuys(caps, 0, sym, row.sold - 30, row.sold + 30, need).matches,
                     row.sold - row.holdingFrom, id, since)
    ensures k < |all| && all[k].id == id && all[k].symbol == sym && Explained(rules, rows, all[k], since)
  {
    var ms, held := MatchBuys(caps, 0, sym, row.sold - 30, row.sold + 30, need).matches, row.sold - row.holdingFrom;
    MatchLocated(caps, 0, sym, row.sold - 30, row.sold + 30, need);
    MatchesInWindow(caps, 0, sym, row.sold - 30, row.sold + 30, need);
    var j :| 0 <= j < |ms| && ms[j].id == id && since == Tack(rules, ms[j].date, held);
    k := CapIndex(caps, ms[j].id);
    assert LocatedAt(ms[j], caps, sym, k);
    assert all[k].date == ms[j].date;
    var r :| 0 <= r < |rows| && rows[r] == row;
    assert SetsBack(rules, rows[r], all[k], since);
  }

  lemma LotsAfterChunk(rules: Rules, all: seq<BuyCap>, caps: seq<BuyCap>, sym: string, rows: seq<Disposal>,
                       row: Disposal, need: real, lots: seq<TaxLot>, lots': seq<TaxLot>)
    requires SameBuys(caps, all) && DistinctIds(caps) && LotsTraced(rules, all, rows, sym, lots)
    requires row.symbol == sym && row.basis > row.proceeds
    requires LotsTacked(rules, lots, lots', MatchBuys(caps, 0, sym, row.sold - 30, row.sold + 30, need).matches,
                        row.sold - row.holdingFrom)
    ensures LotsTraced(rules, all, rows + [row], sym, lots')
  {
    forall i | 0 <= i < |lots'|
      ensures Traced(rules, all, rows + [row], sym, lots'[i].buyId, lots'[i].holdingFrom)
    {
      var id, since := lots'[i].buyId, lots'[i].holdingFrom;
      if Clocked(lots, id, since) {
        var j :| 0 <= j < |lots| && lots[j].buyId == id && lots[j].holdingFrom == since;
        TracedByMore(rules, all, rows, rows + [row], sym, lots[j].buyId, lots[j].holdingFrom);
      } else {
        var k := MatchExplains(rules, all, caps, sym, row, need, rows + [row], id, since);
      }
    }
  }

  lemma OwedAfterChunkAt(rules: Rules, all: seq<BuyCap>, caps: seq<BuyCap>, sym: string, rows: seq<Disposal>,
                         row: Disposal, need: real, before: seq<PendingAdj>, after: seq<PendingAdj>, k: nat)
    requires SameBuys(caps, all) && DistinctIds(caps) && k < |all|
    requires row.symbol == sym && row.basis > row.proceeds
    requires before <= after && ClocksExplained(rules, all[k], rows, before)
    requires forall i :: |before| <= i < |after| ==>
               SetBack(rules, MatchBuys(caps, 0, sym, row.sold - 30, row.sold + 30, need).matches,
                       row.sold - row.holdingFrom, all[k].id, after[i].holdingFrom)
    ensures ClocksExplained(rules, all[k], rows + [row], after)
  {
    forall i | 0 <= i < |after| ensures Explained(rules, rows + [row], all[k], after[i].holdingFrom) {
      if i < |before| {
        assert after[i] == before[i];
        ExplainedByMore(rules, rows, rows + [row], all[k], before[i].holdingFrom);
      } else {
        var j := MatchExplains(rules, all, caps, sym, row, need, rows + [row], all[k].id, after[i].holdingFrom);
        assert caps[j].id == caps[k].id;
      }
    }
  }

  lemma OwedAfterChunk(rules: Rules, all: seq<BuyCap>, caps: seq<BuyCap>, sym: string, rows: seq<Disposal>,
                       row: Disposal, need: real, pending: Pending, pending': Pending)
    requires SameBuys(caps, all) && DistinctIds(caps) && OwedTraced(rules, all, rows, pending)
    requires row.symbol == sym && row.basis > row.proceeds
    requires OwedTacked(rules, pending, pending',
                        MatchBuys(caps, 0, sym, row.sold - 30, row.sold + 30, need).matches,
                        row.sold - row.holdingFrom)
    ensures OwedTraced(rules, all, rows + [row], pending')
  {
    forall k | 0 <= k < |all|
      ensures ClocksExplained(rules, all[k], rows + [row], Owed(pending', all[k].id))
    {
      assert ClocksExplained(rules, all[k], rows, Owed(pending, all[k].id));
      OwedAfterChunkAt(rules, all, caps, sym, rows, row, need, Owed(pending, all[k].id), Owed(pending', all[k].id), k);
    }
  }

  /** A losing row and the clocks it set back. */
  lemma LossTraces(rules: Rules, all: seq<BuyCap>, sym: string, w: Wash, w': Wash, row: Disposal, need: real)
    requires WashTraced(rules, all, sym, w) && DistinctIds(all) && SameBuys(w'.caps, w.caps)
    requires row.symbol == sym && row.basis > row.proceeds
    requires w'.out == w.out + [row] && RowsTraced(rules, all, w'.out)
    requires WashTacked(rules, w, w', MatchBuys(w.caps, 0, sym, row.sold - 30, row.sold + 30, need).matches,
                        row.sold - row.holdingFrom)
    ensures WashTraced(rules, all, sym, w')
  {
    LotsAfterChunk(rules, all, w.caps, sym, w.out, row, need, w.lots, w'.lots);
    OwedAfterChunk(rules, all, w.caps, sym, w.out, row, need, w.pending, w'.pending);
  }

  lemma GainTraces(rules: Rules, all: seq<BuyCap>, sym: string, w: Wash, w': Wash, row: Disposal)
    requires WashTraced(rules, all, sym, w) && SameBuys(w'.caps, w.caps)
    requires w'.lots == w.lots && w'.pending == w.pending
    requires w'.out == w.out + [row] && RowsTraced(rules, all, w'.out)
    ensures WashTraced(rules, all, sym, w')
  {
    LotsTracedByMore(rules, all, w.out, w'.out, sym, w.lots);
    OwedTracedByMore(rules, all, w.out, w'.out, w.pending);
  }

  /** What matters of a chunk here: its row, and that only a loss moves a clock, by its own matches. */
  ghost predicate ChunkEffect(rules: Rules, sym: string, w: Wash, w': Wash, c: Chunk, row: Disposal) {
    && SameBuys(w'.caps, w.caps) && w'.out == w.out + [row]
    && row.symbol == sym && row.holdingFrom == c.holdingFrom
    && (if row.basis > row.proceeds then
          WashTacked(rules, w, w', MatchBuys(w.caps, 0, sym, row.sold - 30, row.sold + 30, c.qty).matches,
                     row.sold - row.holdingFrom)
        else
          w'.lots == w.lots && w'.pending == w.pending)
  }

  lemma ChunkHasEffect(rules: Rules, tx: Tx, sym: string, w: Wash, c: Chunk, proceeds: real) returns (row: Disposal)
    requires c.qty > 0.0 && DistinctIds(w.caps)
    ensures ChunkEffect(rules, sym, w, WashChunk(rules, tx, sym, w, c, proceeds), c, row)
  {
    var w' := WashChunk(rules, tx, sym, w, c, proceeds);
    WashChunkReports(rules, tx, sym, w, c, proceeds);
    row := w'.out[|w.out|];
    assert w'.out == w.out + [row];
    ChunkKeepsBuys(rules, tx, sym, w, c, proceeds);
    WashChunkTacks(rules, tx, sym, w, c, proceeds);
    if c.basis <= proceeds {
      NoLossNoChange(rules, tx, sym, w, c, proceeds);
    }
  }

  lemma ChunkTraces(rules: Rules, all: seq<BuyCap>, sym: string, w: Wash, w': Wash, c: Chunk, row: Disposal)
    requires WashTraced(rules, all, sym, w) && DistinctIds(all)
    requires Traced(rules, all, w.out, sym, c.buyId, c.holdingFrom)
    requires ChunkEffect(rules, sym, w, w', c, row)
    ensures w.out <= w'.out && WashTraced(rules, all, sym, w')
  {
    RowsTracedSnoc(rules, all, w.out, row, c.buyId);
    if row.basis > row.proceeds {
      LossTraces(rules, all, sym, w, w', row, c.qty);
    } else {
      GainTraces(rules, all, sym, w, w', row);
    }
  }

  // ---------------------------------------------------------------- a whole sell

  ghost predicate ChunksTraced(rules: Rules, all: seq<BuyCap>, rows: seq<Disposal>, sym: string, chunks: seq<Chunk>) {
    forall i :: 0 <= i < |chunks| ==> Traced(rules, all, rows, sym, chunks[i].buyId, chunks[i].holdingFrom)
  }

  lemma {:induction false} TakeTraces(rules: Rules, all: seq<BuyCap>, rows: seq<Disposal>, sym: string,
                                      lots: seq<TaxLot>, want: real)
    requires LotsTraced(rules, all, rows, sym, lots)
    ensures LotsTraced(rules, all, rows, sym, TakeChunks(lots, want).rest)
    ensures ChunksTraced(rules, all, rows, sym, TakeChunks(lots, want).chunks)
  {
    if want > 0.0 && lots != [] {
      TakeTraces(rules, all, rows, sym, lots[1..], want - Min(want, lots[0].qty));
    }
  }

  lemma ChunksTracedByMore(rules: Rules, all: seq<BuyCap>, rows: seq<Disposal>, more: seq<Disposal>, sym: string,
                           chunks: seq<Chunk>)
    requires ChunksTraced(rules, all, rows, sym, chunks) && rows <= more
    ensures ChunksTraced(rules, all, more, sym, chunks)
  {
    forall i | 0 <= i < |chunks|
      ensures Traced(rules, all, more, sym, chunks[i].buyId, chunks[i].holdingFrom)
    {
      TracedByMore(rules, all, rows, more, sym, chunks[i].buyId, chunks[i].holdingFrom);
    }
  }

  lemma FirstChunkTraces(rules: Rules, all: seq<BuyCap>, tx: Tx, sym: string, w: Wash, chunks: seq<Chunk>, given: real)
    returns (w1: Wash, given1: real)
    requires WashTraced(rules, all, sym, w) && DistinctIds(all) && tx.qty > 0.0
    requires PositiveChunks(chunks) && chunks != [] && ChunksTraced(rules, all, w.out, sym, chunks)
    ensures w.out <= w1.out && WashTraced(rules, all, sym, w1)
    ensures WashChunks(rules, tx, sym, w, chunks, given) == WashChunks(rules, tx, sym, w1, chunks[1..], given1)
  {
    var proceeds := Piece(tx.NetProceeds(), chunks[0].qty, tx.qty, |chunks| == 1, given, rules.round6);
    w1, given1 := WashChunk(rules, tx, sym, w, chunks[0], proceeds), given + proceeds;
    var row := ChunkHasEffect(rules, tx, sym, w, chunks[0], proceeds);
    ChunkTraces(rules, all, sym, w, w1, chunks[0], row);
  }

  lemma {:induction false} ChunksTrace(rules: Rules, all: seq<BuyCap>, tx: Tx, sym: string, w: Wash,
                                       chunks: seq<Chunk>, given: real)
    requires WashTraced(rules, all, sym, w) && DistinctIds(all) && tx.qty > 0.0
    requires PositiveChunks(chunks) && ChunksTraced(rules, all, w.out, sym, chunks)
    ensures var w' := WashChunks(rules, tx, sym, w, chunks, given);
      w.out <= w'.out && WashTraced(rules, all, sym, w')
    decreases |chunks|
  {
    if chunks != [] {
      var w1, given1 := FirstChunkTraces(rules, all, tx, sym, w, chunks, given);
      ChunksTracedByMore(rules, all, w.out, w1.out, sym, chunks[1..]);
      ChunksTrace(rules, all, tx, sym, w1, chunks[1..], given1);
    }
  }

  lemma SellTraces(rules: Rules, all: seq<BuyCap>, tx: Tx, sym: string, w: Wash)
    requires WashTraced(rules, all, sym, w) && DistinctIds(all)
    requires Positive(w.lots) && 0.0 < tx.qty <= Sum(w.lots, LotQty)
    ensures var w' := SellStep(rules, tx, sym, w);
      w.out <= w'.out && WashTraced(rules, all, sym, w')
  {
    TakeQty(w.lots, tx.qty);
    var t := TakeChunks(w.lots, tx.qty);
    TakeTraces(rules, all, w.out, sym, w.lots, tx.qty);
    BurnKeepsBuys(w.caps, t.chunks);
    ChunksTrace(rules, all, tx, sym, w.(lots := t.rest, caps := Burn(w.caps, t.chunks)), t.chunks, 0.0);
  }

  // ---------------------------------------------------------------- the whole ledger

  /** Every open lot, every owed adjustment and every reported row has a clock the earlier rows explain. */
  ghost predicate ClocksTraced(rules: Rules, all: seq<BuyCap>, l: Ledger) {
    && SameBuys(l.caps, all)
    && (forall sym :: LotsTraced(rules, all, l.out, sym, LotsOf(l, sym)))
    && OwedTraced(rules, all, l.out, l.pending) && RowsTraced(rules, all, l.out)
  }

  lemma {:induction false} EnteringTraces(rules: Rules, all: seq<BuyCap>, rows: seq<Disposal>, n: nat, remaining: real,
                                          adjs: seq<PendingAdj>, unit: real)
    requires n < |all| && ClocksExplained(rules, all[n], rows, adjs)
    ensures LotsTraced(rules, all, rows, all[n].symbol, Entering(all[n].id, remaining, adjs, unit, all[n].date))
    decreases adjs
  {
    if adjs == [] {
      assert Explained(rules, rows, all[n], all[n].date);
    } else {
      assert Explained(rules, rows, all[n], adjs[0].holdingFrom);
      assert Traced(rules, all, rows, all[n].symbol, all[n].id, adjs[0].holdingFrom);
      var take := Min(remaining, adjs[0].qty);
      EnteringTraces(rules, all, rows, n, if take > 0.0 then remaining - take else remaining, adjs[1..], unit);
    }
  }

  lemma BuyTraces(rules: Rules, all: seq<BuyCap>, n: nat, l: Ledger, tx: Tx)
    requires ClocksTraced(rules, all, l) && n < |all| && all[n] == CapOf(rules, tx) && tx.qty > 0.0
    ensures ClocksTraced(rules, all, BuyStep(rules, l, tx, all[n].symbol))
  {
    var sym, l' := all[n].symbol, BuyStep(rules, l, tx, all[n].symbol);
    EnteringTraces(rules, all, l.out, n, tx.qty, Owed(l.pending, tx.id), tx.Cost() / tx.qty);
    assert LotsTraced(rules, all, l.out, sym, LotsOf(l, sym));
    forall s ensures LotsTraced(rules, all, l'.out, s, LotsOf(l', s)) {
      assert LotsTraced(rules, all, l.out, s, LotsOf(l, s));
    }
    forall k | 0 <= k < |all|
      ensures ClocksExplained(rules, all[k], l.out, Owed(l'.pending, all[k].id))
    {
      assert ClocksExplained(rules, all[k], l.out, Owed(l.pending, all[k].id));
    }
  }

  lemma SplitTraces(rules: Rules, all: seq<BuyCap>, l: Ledger, tx: Tx, sym: string)
    requires ClocksTraced(rules, all, l) && tx.qty > 0.0
    ensures ClocksTraced(rules, all, SplitStep(l, tx, sym))
  {
    var l' := SplitStep(l, tx, sym);
    forall s ensures LotsTraced(rules, all, l'.out, s, LotsOf(l', s)) {
      assert LotsTraced(rules, all, l.out, s, LotsOf(l, s));
      ScaledTraces(rules, all, l.out, s, LotsOf(l, s), tx.qty);
    }
  }

  lemma {:induction false} ScaledTraces(rules: Rules, all: seq<BuyCap>, rows: seq<Disposal>, sym: string,
                                        lots: seq<TaxLot>, ratio: real)
    requires LotsTraced(rules, all, rows, sym, lots) && ratio > 0.0
    ensures LotsTraced(rules, all, rows, sym, ScaleLots(lots, ratio))
  {
    if lots != [] {
      ScaledTraces(rules, all, rows, sym, lots[1..], ratio);
      assert ScaleLots(lots, ratio)[1..] == ScaleLots(lots[1..], ratio);
    }
  }

  lemma SellTracesLedger(rules: Rules, all: seq<BuyCap>, l: Ledger, tx: Tx, sym: string)
    requires ClocksTraced(rules, all, l) && DistinctIds(all)
    requires Positive(LotsOf(l, sym)) && 0.0 < tx.qty <= Sum(LotsOf(l, sym), LotQty)
    ensures ClocksTraced(rules, all, WithWash(l, sym, SellStep(rules, tx, sym, WashOf(l, sym))))
  {
    var w := WashOf(l, sym);
    assert LotsTraced(rules, all, l.out, sym, LotsOf(l, sym));
    SellTraces(rules, all, tx, sym, w);
    var w' := SellStep(rules, tx, sym, w);
    var l' := WithWash(l, sym, w');
    forall s ensures LotsTraced(rules, all, l'.out, s, LotsOf(l', s)) {
      if s != sym {
        LotsTracedByMore(rules, all, l.out, l'.out, s, LotsOf(l, s));
      }
    }
  }

  lemma StepTraces(rules: Rules, txs: seq<Tx>, i: nat, l: Ledger)
    requires LogOk(txs) && CalendarOk(rules) && i < |txs| && AllPositive(l)
    requires ClocksTraced(rules, InitialCaps(rules, txs), l) && Step(rules, l, txs[i]).Ok?
    ensures ClocksTraced(rules, InitialCaps(rules, txs), Step(rules, l, txs[i]).value)
  {
    var tx, all, n := txs[i], InitialCaps(rules, txs), BuysDone(rules, txs, i);
    if tx.kind == Buy {
      FrontierAt(rules, txs, i);
      BuyTraces(rules, all, n, l, tx);
    } else if tx.kind == Sell {
      CapsDistinct(rules, txs);
      SellTracesLedger(rules, all, l, tx, tx.Symbol().value);
    } else if tx.kind == Split {
      SplitTraces(rules, all, l, tx, tx.Symbol().value);
    }
  }

  /**
   * At every point of every valid run each clock is its buy's own date, or that date less the holding days of a losing
   * row of the symbol sold within thirty days of the buy; and that row's own clock was explained before it.
   */
  lemma {:induction false} EveryClockIsExplained(rules: Rules, txs: seq<Tx>, i: nat)
    requires LogOk(txs) && CalendarOk(rules) && i <= |txs| && LedgerAt(rules, txs, i).Ok?
    ensures ClocksTraced(rules, InitialCaps(rules, txs), LedgerAt(rules, txs, i).value)
  {
    if i > 0 {
      var before, tx := txs[..i - 1], txs[i - 1];
      assert txs[..i] == before + [tx] && [tx][1..] == [];
      ReplayAppend(rules, Start(rules, txs), before, [tx]);
      EveryClockIsExplained(rules, txs, i - 1);
      var l := LedgerAt(rules, txs, i - 1).value;
      assert LedgerAt(rules, txs, i) == Step(rules, l, tx);
      StepTraces(rules, txs, i - 1, l);
    }
  }
}
