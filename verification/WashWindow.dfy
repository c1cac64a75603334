/**
 * Which shares a losing sell washes, read off the capacities alone: everything on offer within thirty days either way,
 * in log order, until the row is covered; and what the row then disallows.
 */
module WashWindow {
  import opened Sums
  import opened Log
  import opened TaxLots
  import opened Allocation
  import opened WashSale
  import opened Capacity
  import opened Selling
  import opened TaxLedger
  import opened TaxLaws

  /** The capacity of a buy of the symbol within thirty days of the sale, before or after. */
  function Offer(b: BuyCap, sym: string, sold: int): real {
    if b.symbol == sym && sold - 30 <= b.date <= sold + 30 && b.cap > 0.0 then b.cap else 0.0
  }

  /** What the first n buys of the log offer together. */
  function Offered(caps: seq<BuyCap>, sym: string, sold: int, n: nat): (r: real)
    requires n <= |caps|
    ensures r >= 0.0
  {
    if n == 0 then 0.0 else Offered(caps, sym, sold, n - 1) + Offer(caps[n - 1], sym, sold)
  }

  /** What buy number k gives up for `need` shares: its offer, as far as the buys before it leave something to cover. */
  function GivesUp(caps: seq<BuyCap>, sym: string, sold: int, need: real, k: nat): real
    requires k < |caps|
  {
    Max(0.0, Min(Offer(caps[k], sym, sold), need - Offered(caps, sym, sold, k)))
  }

  /** The capacities once `need` shares have been covered. */
  function Lowered(caps: seq<BuyCap>, sym: string, sold: int, need: real): (r: seq<BuyCap>)
    ensures |r| == |caps|
    ensures forall k :: 0 <= k < |caps| ==>
              r[k] == caps[k].(cap := caps[k].cap - GivesUp(caps, sym, sold, need, k))
  {
    seq(|caps|, k requires 0 <= k < |caps| => caps[k].(cap := caps[k].cap - GivesUp(caps, sym, sold, need, k)))
  }

  /** The buys that give something up, from number k on, in log order. */
  function Picked(caps: seq<BuyCap>, sym: string, sold: int, need: real, k: nat): seq<Match>
    requires k <= |caps|
    decreases |caps| - k
  {
    if k == |caps| then []
    else
      var b, qty := caps[k], GivesUp(caps, sym, sold, need, k);
      (if qty > 0.0 then [Match(b.id, b.ts, b.date, qty)] else []) + Picked(caps, sym, sold, need, k + 1)
  }

  lemma {:induction false} OfferedGrows(caps: seq<BuyCap>, sym: string, sold: int, k: nat, n: nat)
    requires k <= n <= |caps|
    ensures Offered(caps, sym, sold, k) <= Offered(caps, sym, sold, n)
  {
    if k < n {
      OfferedGrows(caps, sym, sold, k, n - 1);
    }
  }

  lemma {:induction false} NothingPicked(caps: seq<BuyCap>, sym: string, sold: int, need: real, k: nat)
    requires k <= |caps| && need <= Offered(caps, sym, sold, k)
    ensures Picked(caps, sym, sold, need, k) == []
    ensures forall j :: k <= j < |caps| ==> GivesUp(caps, sym, sold, need, j) == 0.0
    decreases |caps| - k
  {
    if k < |caps| {
      NothingPicked(caps, sym, sold, need, k + 1);
    }
  }

  /** From number k on: the capacities before it are done with, the others as they were. */
  ghost predicate DoneTo(caps: seq<BuyCap>, now: seq<BuyCap>, k: nat) {
    |now| == |caps| && k <= |caps| && forall j :: k <= j < |caps| ==> now[j] == caps[j]
  }

  ghost predicate PicksFrom(caps: seq<BuyCap>, now: seq<BuyCap>, k: nat, sym: string, sold: int, need: real,
                            r: Matched)
    requires DoneTo(caps, now, k)
  {
    && |r.caps| == |caps| && r.matches == Picked(caps, sym, sold, need, k)
    && (forall j :: 0 <= j < k ==> r.caps[j] == now[j])
    && (forall j :: k <= j < |caps| ==>
          r.caps[j] == caps[j].(cap := caps[j].cap - GivesUp(caps, sym, sold, need, j)))
  }

  lemma PicksOne(caps: seq<BuyCap>, now: seq<BuyCap>, k: nat, sym: string, sold: int, need: real, rest: Matched)
    requires DoneTo(caps, now, k) && k < |caps|
    requires var b, qty := caps[k], GivesUp(caps, sym, sold, need, k);
      && qty > 0.0 && DoneTo(caps, now[k := b.(cap := b.cap - qty)], k + 1)
      && PicksFrom(caps, now[k := b.(cap := b.cap - qty)], k + 1, sym, sold, need, rest)
    ensures var b, qty := caps[k], GivesUp(caps, sym, sold, need, k);
      PicksFrom(caps, now, k, sym, sold, need, Matched(rest.caps, [Match(b.id, b.ts, b.date, qty)] + rest.matches))
  {
  }

  lemma PicksNone(caps: seq<BuyCap>, now: seq<BuyCap>, k: nat, sym: string, sold: int, need: real, rest: Matched)
    requires DoneTo(caps, now, k) && k < |caps| && GivesUp(caps, sym, sold, need, k) == 0.0
    requires PicksFrom(caps, now, k + 1, sym, sold, need, rest)
    ensures PicksFrom(caps, now, k, sym, sold, need, rest)
  {
  }

  lemma TakesWhatItGives(caps: seq<BuyCap>, k: nat, sym: string, sold: int, need: real, left: real)
    requires k < |caps| && left == need - Offered(caps, sym, sold, k) && left > 0.0
    ensures GivesUp(caps, sym, sold, need, k) == Max(0.0, Given(caps[k], sym, sold - 30, sold + 30, left))
    ensures left - GivesUp(caps, sym, sold, need, k) == Max(0.0, need - Offered(caps, sym, sold, k + 1))
  {
  }

  lemma MatchStep(now: seq<BuyCap>, k: nat, sym: string, sold: int, left: real, qty: real)
    requires k < |now| && left > 0.0 && qty == Max(0.0, Given(now[k], sym, sold - 30, sold + 30, left))
    ensures var b, m := now[k], MatchBuys(now, k, sym, sold - 30, sold + 30, left);
      var next := now[k := b.(cap := b.cap - qty)];
      && (qty > 0.0 ==>
            var rest := MatchBuys(next, k + 1, sym, sold - 30, sold + 30, left - qty);
            m == Matched(rest.caps, [Match(b.id, b.ts, b.date, qty)] + rest.matches))
      && (qty == 0.0 ==> m == MatchBuys(now, k + 1, sym, sold - 30, sold + 30, left))
  {
    MatchHead(now, k, sym, sold - 30, sold + 30, left);
  }

  /** Matching picks from every buy in turn exactly what it gives up. */
  lemma {:induction false} MatchPicks(caps: seq<BuyCap>, now: seq<BuyCap>, k: nat, sym: string, sold: int, need: real,
                                      left: real)
    requires DoneTo(caps, now, k) && left == Max(0.0, need - Offered(caps, sym, sold, k))
    ensures PicksFrom(caps, now, k, sym, sold, need, MatchBuys(now, k, sym, sold - 30, sold + 30, left))
    decreases |caps| - k
  {
    if k == |caps| {
    } else if left <= 0.0 {
      NothingPicked(caps, sym, sold, need, k);
    } else {
      var qty := GivesUp(caps, sym, sold, need, k);
      TakesWhatItGives(caps, k, sym, sold, need, left);
      MatchStep(now, k, sym, sold, left, qty);
      if qty > 0.0 {
        var next := now[k := caps[k].(cap := caps[k].cap - qty)];
        MatchPicks(caps, next, k + 1, sym, sold, need, left - qty);
        PicksOne(caps, now, k, sym, sold, need, MatchBuys(next, k + 1, sym, sold - 30, sold + 30, left - qty));
      } else {
        MatchPicks(caps, now, k + 1, sym, sold, need, left);
        PicksNone(caps, now, k, sym, sold, need, MatchBuys(now, k + 1, sym, sold - 30, sold + 30, left));
      }
    }
  }

  /** The matches of a whole chunk, the capacities they leave, and how many shares they replace. */
  lemma MatchesExactly(caps: seq<BuyCap>, sym: string, sold: int, need: real)
    requires need >= 0.0
    ensures var m := MatchBuys(caps, 0, sym, sold - 30, sold + 30, need);
      && m.caps == Lowered(caps, sym, sold, need) && m.matches == Picked(caps, sym, sold, need, 0)
      && Sum(m.matches, MatchQty) == Min(need, Offered(caps, sym, sold, |caps|))
  {
    MatchPicks(caps, caps, 0, sym, sold, need, need);
    PickedSum(caps, sym, sold, need, 0);
  }

  lemma PickedHead(caps: seq<BuyCap>, sym: string, sold: int, need: real, k: nat)
    requires k < |caps|
    ensures Sum(Picked(caps, sym, sold, need, k), MatchQty) ==
            GivesUp(caps, sym, sold, need, k) + Sum(Picked(caps, sym, sold, need, k + 1), MatchQty)
  {
    var rest := Picked(caps, sym, sold, need, k + 1);
    if GivesUp(caps, sym, sold, need, k) > 0.0 {
      assert Picked(caps, sym, sold, need, k)[1..] == rest;
    } else {
      assert Picked(caps, sym, sold, need, k) == rest;
    }
  }

  lemma {:induction false} PickedSum(caps: seq<BuyCap>, sym: string, sold: int, need: real, k: nat)
    requires k <= |caps| && need >= 0.0
    ensures Min(need, Offered(caps, sym, sold, k)) + Sum(Picked(caps, sym, sold, need, k), MatchQty) ==
            Min(need, Offered(caps, sym, sold, |caps|))
    decreases |caps| - k
  {
    if k < |caps| {
      PickedSum(caps, sym, sold, need, k + 1);
      PickedHead(caps, sym, sold, need, k);
    }
  }

  // ---------------------------------------------------------------- the rows of a sell

  /** The part of a loss that falls on some of the shares. */
  function PartOf(loss: real, shares: real, all: real): real
    requires all > 0.0
  {
    loss * shares / all
  }

  /** How many of its shares a row can replace from these capacities. */
  function Replaced(caps: seq<BuyCap>, row: Disposal): real {
    Min(row.qty, Offered(caps, row.symbol, row.sold, |caps|))
  }

  /**
   * What a row disallows given the capacities it meets: of a loss, all if its shares can all be replaced, otherwise
   * the rounded part that the replaced shares are of it; of anything else nothing.
   */
  ghost predicate Disallows(rules: Rules, caps: seq<BuyCap>, row: Disposal) {
    var loss, replaced := row.basis - row.proceeds, Replaced(caps, row);
    && row.qty > 0.0
    && row.disallowed == if loss <= 0.0 || replaced == 0.0 then 0.0
                         else if replaced == row.qty then loss
                         else rules.round6(PartOf(loss, replaced, row.qty))
  }

  /** What a row leaves of the capacities it meets. */
  function After(caps: seq<BuyCap>, row: Disposal): seq<BuyCap> {
    if row.basis > row.proceeds then Lowered(caps, row.symbol, row.sold, row.qty) else caps
  }

  lemma {:induction false} CarryAllKeepsCaps(rules: Rules, tx: Tx, w: Wash, ms: seq<Match>, disallowed: real,
                                             replaced: real, given: real, held: int)
    requires replaced > 0.0 && PositiveMatches(ms)
    ensures CarryAll(rules, tx, w, ms, disallowed, replaced, given, held).caps == w.caps
    decreases |ms|
  {
    if ms != [] {
      var amount := Piece(disallowed, ms[0].qty, replaced, |ms| == 1, given, rules.round6);
      CarryAllKeepsCaps(rules, tx, Carry(rules, tx, w, ms[0], amount, held), ms[1..], disallowed, replaced,
                        given + amount, held);
    }
  }

  lemma PartIsShare(loss: real, replaced: real, qty: real)
    requires qty > 0.0
    ensures Share(loss, replaced, qty) == PartOf(loss, replaced, qty)
  {
  }

  lemma SameWindow(caps: seq<BuyCap>, sym: string, sold: int, need: real)
    requires need >= 0.0
    ensures Min(need, WindowCapacity(caps, 0, sym, sold - 30, sold + 30)) == Min(need, Offered(caps, sym, sold, |caps|))
  {
    MatchesExactly(caps, sym, sold, need);
    MatchTakesAll(caps, 0, sym, sold - 30, sold + 30, need);
  }

  lemma ReportedDisallows(rules: Rules, tx: Tx, sym: string, caps: seq<BuyCap>, c: Chunk, proceeds: real, row: Disposal)
    requires c.qty > 0.0 && RowReports(rules, tx, sym, caps, c, proceeds, row)
    ensures Disallows(rules, caps, row)
  {
    SameWindow(caps, sym, row.sold, c.qty);
    PartIsShare(row.basis - row.proceeds, Replaced(caps, row), row.qty);
  }

  lemma OffersNothing(caps: seq<BuyCap>, sym: string, sold: int, need: real, k: nat)
    requires k < |caps| && Offered(caps, sym, sold, |caps|) <= 0.0
    ensures caps[k].(cap := caps[k].cap - GivesUp(caps, sym, sold, need, k)) == caps[k]
  {
    OfferedGrows(caps, sym, sold, k + 1, |caps|);
  }

  lemma NothingOffered(caps: seq<BuyCap>, sym: string, sold: int, need: real)
    requires Offered(caps, sym, sold, |caps|) <= 0.0
    ensures Lowered(caps, sym, sold, need) == caps
  {
    var lowered := Lowered(caps, sym, sold, need);
    forall k | 0 <= k < |caps| ensures lowered[k] == caps[k] {
      OffersNothing(caps, sym, sold, need, k);
    }
  }

  lemma ChunkCaps(rules: Rules, tx: Tx, sym: string, w: Wash, c: Chunk, proceeds: real, m: Matched, replaced: real)
    requires c.qty > 0.0 && m == MatchBuys(w.caps, 0, sym, rules.ny(tx.ts) - 30, rules.ny(tx.ts) + 30, c.qty)
    requires replaced == Sum(m.matches, MatchQty)
    ensures WashChunk(rules, tx, sym, w, c, proceeds).caps ==
            if c.basis > proceeds && replaced > 0.0 then m.caps else w.caps
  {
    if c.basis > proceeds && replaced > 0.0 {
      CarryAllKeepsCaps(rules, tx, w.(caps := m.caps), m.matches,
                        Disallowed(rules, c.basis - proceeds, replaced, c.qty), replaced, 0.0,
                        rules.ny(tx.ts) - c.holdingFrom);
    }
  }

  /** The capacities a losing chunk leaves, by its matches and by what is on offer. */
  lemma LeavesLowered(caps: seq<BuyCap>, sym: string, sold: int, need: real, m: Matched, replaced: real)
    requires need > 0.0 && m == MatchBuys(caps, 0, sym, sold - 30, sold + 30, need)
    requires replaced == Sum(m.matches, MatchQty)
    ensures (if replaced > 0.0 then m.caps else caps) == Lowered(caps, sym, sold, need)
  {
    MatchesExactly(caps, sym, sold, need);
    if replaced <= 0.0 {
      NothingOffered(caps, sym, sold, need);
    }
  }

  lemma ChunkLeaves(rules: Rules, tx: Tx, sym: string, w: Wash, c: Chunk, proceeds: real, row: Disposal, w': Wash)
    requires c.qty > 0.0
    requires row == Disposal(sym, c.qty, c.holdingFrom, rules.ny(tx.ts), proceeds, c.basis, row.disallowed)
    requires w' == WashChunk(rules, tx, sym, w, c, proceeds)
    ensures w'.caps == After(w.caps, row)
  {
    var m := MatchBuys(w.caps, 0, sym, row.sold - 30, row.sold + 30, c.qty);
    ChunkCaps(rules, tx, sym, w, c, proceeds, m, Sum(m.matches, MatchQty));
    LeavesLowered(w.caps, sym, row.sold, c.qty, m, Sum(m.matches, MatchQty));
  }

  lemma ChunkWashes(rules: Rules, tx: Tx, sym: string, w: Wash, c: Chunk, proceeds: real, w': Wash)
    returns (row: Disposal)
    requires c.qty > 0.0 && w' == WashChunk(rules, tx, sym, w, c, proceeds)
    ensures w'.out == w.out + [row] && WashesTo(rules, w.caps, row, w'.caps)
    ensures row.symbol == sym && row.sold == rules.ny(tx.ts)
  {
    WashChunkReports(rules, tx, sym, w, c, proceeds);
    row := w'.out[|w.out|];
    assert w'.out == w.out + [row];
    ReportedDisallows(rules, tx, sym, w.caps, c, proceeds, row);
    ChunkLeaves(rules, tx, sym, w, c, proceeds, row, w');
  }

  ghost predicate WashesTo(rules: Rules, caps: seq<BuyCap>, row: Disposal, caps': seq<BuyCap>) {
    Disallows(rules, caps, row) && caps' == After(caps, row)
  }

  /** The capacities each row meets are those the rows before it have left. */
  ghost predicate InTurn(rules: Rules, met: seq<seq<BuyCap>>, rows: seq<Disposal>) {
    && |met| == |rows| + 1
    && forall i :: 0 <= i < |rows| ==> WashesTo(rules, met[i], rows[i], met[i + 1])
  }

  /** The rows one after the other take the capacities from here to there. */
  ghost predicate WashInTurn(rules: Rules, caps: seq<BuyCap>, rows: seq<Disposal>, caps': seq<BuyCap>) {
    exists met :: InTurn(rules, met, rows) && met[0] == caps && met[|rows|] == caps'
  }

  lemma NoRows(rules: Rules, caps: seq<BuyCap>)
    ensures WashInTurn(rules, caps, [], caps)
  {
    assert InTurn(rules, [caps], []);
  }

  lemma ConsAt<T>(x: T, s: seq<T>, i: nat)
    requires 0 < i <= |s|
    ensures ([x] + s)[i] == s[i - 1]
  {
  }

  lemma Shifted(rules: Rules, caps: seq<BuyCap>, row: Disposal, met: seq<seq<BuyCap>>, rows: seq<Disposal>, i: nat)
    requires |met| == |rows| + 1 && 0 < i <= |rows| && WashesTo(rules, met[i - 1], rows[i - 1], met[i])
    ensures WashesTo(rules, ([caps] + met)[i], ([row] + rows)[i], ([caps] + met)[i + 1])
  {
    ConsAt(caps, met, i);
    ConsAt(caps, met, i + 1);
    ConsAt(row, rows, i);
  }

  lemma InTurnCons(rules: Rules, caps: seq<BuyCap>, row: Disposal, next: seq<BuyCap>, rows: seq<Disposal>,
                   caps': seq<BuyCap>)
    requires WashesTo(rules, caps, row, next) && WashInTurn(rules, next, rows, caps')
    ensures WashInTurn(rules, caps, [row] + rows, caps')
  {
    var met :| InTurn(rules, met, rows) && met[0] == next && met[|rows|] == caps';
    var all, more := [caps] + met, [row] + rows;
    forall i | 0 <= i < |more| ensures WashesTo(rules, all[i], more[i], all[i + 1]) {
      if i > 0 {
        Shifted(rules, caps, row, met, rows, i);
      }
    }
    assert InTurn(rules, all, more);
  }

  /** Each row is of this symbol and sold on this day. */
  ghost predicate SoldOn(rows: seq<Disposal>, sym: string, day: int) {
    forall i :: 0 <= i < |rows| ==> rows[i].symbol == sym && rows[i].sold == day
  }

  lemma RowInFront(out: seq<Disposal>, row: Disposal, all: seq<Disposal>)
    requires out + [row] <= all
    ensures out <= all && all[|out|..] == [row] + all[|out + [row]|..]
  {
    assert all[|out|] == (out + [row])[|out|] && all[..|out|] == (out + [row])[..|out|];
  }

  /** From w on, rows of this symbol and day were reported that wash in turn. */
  ghost predicate Washed(rules: Rules, sym: string, day: int, w: Wash, w': Wash) {
    w.out <= w'.out && WashInTurn(rules, w.caps, w'.out[|w.out|..], w'.caps) && SoldOn(w'.out[|w.out|..], sym, day)
  }

  lemma WashedNext(rules: Rules, sym: string, day: int, w: Wash, row: Disposal, w1: Wash, w': Wash)
    requires w1.out == w.out + [row] && WashesTo(rules, w.caps, row, w1.caps)
    requires row.symbol == sym && row.sold == day
    requires Washed(rules, sym, day, w1, w')
    ensures Washed(rules, sym, day, w, w')
  {
    RowInFront(w.out, row, w'.out);
    InTurnCons(rules, w.caps, row, w1.caps, w'.out[|w1.out|..], w'.caps);
  }

  lemma FirstThenRest(rules: Rules, tx: Tx, sym: string, w: Wash, c: Chunk, proceeds: real, w1: Wash, w': Wash)
    requires c.qty > 0.0 && w1 == WashChunk(rules, tx, sym, w, c, proceeds)
    requires Washed(rules, sym, rules.ny(tx.ts), w1, w')
    ensures Washed(rules, sym, rules.ny(tx.ts), w, w')
  {
    var row := ChunkWashes(rules, tx, sym, w, c, proceeds, w1);
    WashedNext(rules, sym, rules.ny(tx.ts), w, row, w1, w');
  }

  lemma {:induction false} ChunksWash(rules: Rules, tx: Tx, sym: string, w: Wash, chunks: seq<Chunk>, given: real)
    requires tx.qty > 0.0 && PositiveChunks(chunks)
    ensures Washed(rules, sym, rules.ny(tx.ts), w, WashChunks(rules, tx, sym, w, chunks, given))
    decreases |chunks|
  {
    if chunks == [] {
      NoRows(rules, w.caps);
      assert w.out[|w.out|..] == [];
    } else {
      var w1, proceeds := FirstChunk(rules, tx, sym, w, chunks, given);
      ChunksWash(rules, tx, sym, w1, chunks[1..], given + proceeds);
      FirstThenRest(rules, tx, sym, w, chunks[0], proceeds, w1,
                    WashChunks(rules, tx, sym, w1, chunks[1..], given + proceeds));
    }
  }

  // ---------------------------------------------------------------- over a whole log

  /** Every capacity less what the sell took of its own buy, never below zero. */
  ghost predicate Burnt(caps: seq<BuyCap>, lots: seq<TaxLot>, lots': seq<TaxLot>, caps': seq<BuyCap>) {
    && |caps'| == |caps|
    && forall k :: 0 <= k < |caps| ==>
         && caps'[k] == caps[k].(cap := caps'[k].cap)
         && (caps[k].cap >= 0.0 ==>
               caps'[k].cap == Max(0.0, caps[k].cap - (Held(lots, caps[k].id) - Held(lots', caps[k].id))))
  }

  lemma {:induction false} CarryAllKeepsHeld(rules: Rules, tx: Tx, w: Wash, ms: seq<Match>, disallowed: real,
                                             replaced: real, given: real, held: int, id: int)
    requires replaced > 0.0 && PositiveMatches(ms)
    ensures Held(CarryAll(rules, tx, w, ms, disallowed, replaced, given, held).lots, id) == Held(w.lots, id)
    decreases |ms|
  {
    if ms != [] {
      var m, amount := ms[0], Piece(disallowed, ms[0].qty, replaced, |ms| == 1, given, rules.round6);
      AdjustedHeld(w.lots, m.id, m.qty, amount / m.qty, Tack(rules, m.date, held), id);
      CarryAllKeepsHeld(rules, tx, Carry(rules, tx, w, m, amount, held), ms[1..], disallowed, replaced,
                        given + amount, held, id);
    }
  }

  lemma ChunkKeepsHeld(rules: Rules, tx: Tx, sym: string, w: Wash, c: Chunk, proceeds: real, id: int)
    requires c.qty > 0.0
    ensures Held(WashChunk(rules, tx, sym, w, c, proceeds).lots, id) == Held(w.lots, id)
  {
    var sold := rules.ny(tx.ts);
    var m := MatchBuys(w.caps, 0, sym, sold - 30, sold + 30, c.qty);
    var loss, replaced := c.basis - proceeds, Sum(m.matches, MatchQty);
    if loss > 0.0 && replaced > 0.0 {
      CarryAllKeepsHeld(rules, tx, w.(caps := m.caps), m.matches, Disallowed(rules, loss, replaced, c.qty), replaced,
                        0.0, sold - c.holdingFrom, id);
    }
  }

  lemma {:induction false} ChunksKeepHeld(rules: Rules, tx: Tx, sym: string, w: Wash, chunks: seq<Chunk>, given: real,
                                          id: int)
    requires tx.qty > 0.0 && PositiveChunks(chunks)
    ensures Held(WashChunks(rules, tx, sym, w, chunks, given).lots, id) == Held(w.lots, id)
    decreases |chunks|
  {
    if chunks != [] {
      var w1, proceeds := FirstChunk(rules, tx, sym, w, chunks, given);
      ChunkKeepsHeld(rules, tx, sym, w, chunks[0], proceeds, id);
      ChunksKeepHeld(rules, tx, sym, w1, chunks[1..], given + proceeds, id);
    }
  }

  lemma BurnIsBurnt(caps: seq<BuyCap>, lots: seq<TaxLot>, want: real, lots': seq<TaxLot>)
    requires DistinctIds(caps) && Positive(lots) && 0.0 < want <= Sum(lots, LotQty)
    requires forall id :: Held(lots', id) == Held(TakeChunks(lots, want).rest, id)
    ensures Burnt(caps, lots, lots', Burn(caps, TakeChunks(lots, want).chunks))
  {
    var t := TakeChunks(lots, want);
    TakeQty(lots, want);
    BurnKeepsLength(caps, t.chunks);
    forall k | 0 <= k < |caps|
      ensures var b := Burn(caps, t.chunks);
        && b[k] == caps[k].(cap := b[k].cap)
        && (caps[k].cap >= 0.0 ==>
              b[k].cap == Max(0.0, caps[k].cap - (Held(lots, caps[k].id) - Held(lots', caps[k].id))))
    {
      BurnAt(caps, t.chunks, k);
      TakeHeld(lots, want, caps[k].id);
    }
  }

  lemma {:induction false} BurnKeepsLength(caps: seq<BuyCap>, chunks: seq<Chunk>)
    ensures |Burn(caps, chunks)| == |caps|
    decreases chunks
  {
    if chunks != [] {
      BurnKeepsLength(BurnOne(caps, chunks[0]), chunks[1..]);
    }
  }

  /** First every buy's capacity falls by the shares of it that were sold; then the rows wash in turn. */
  ghost predicate SellWashes(rules: Rules, tx: Tx, sym: string, w: Wash, w': Wash) {
    w.out <= w'.out && SoldOn(w'.out[|w.out|..], sym, rules.ny(tx.ts))
    && exists burnt :: Burnt(w.caps, w.lots, w'.lots, burnt) && WashInTurn(rules, burnt, w'.out[|w.out|..], w'.caps)
  }

  lemma SellStepWashes(rules: Rules, tx: Tx, sym: string, w: Wash)
    requires Positive(w.lots) && 0.0 < tx.qty <= Sum(w.lots, LotQty) && DistinctIds(w.caps)
    ensures SellWashes(rules, tx, sym, w, SellStep(rules, tx, sym, w))
  {
    var t := TakeChunks(w.lots, tx.qty);
    var burnt := w.(lots := t.rest, caps := Burn(w.caps, t.chunks));
    TakeQty(w.lots, tx.qty);
    ChunksWash(rules, tx, sym, burnt, t.chunks, 0.0);
    var w' := SellStep(rules, tx, sym, w);
    forall id: int ensures Held(w'.lots, id) == Held(t.rest, id) {
      ChunksKeepHeld(rules, tx, sym, burnt, t.chunks, 0.0, id);
    }
    BurnIsBurnt(w.caps, w.lots, tx.qty, w'.lots);
  }

  lemma StepAt(rules: Rules, txs: seq<Tx>, i: nat)
    requires i < |txs| && LedgerAt(rules, txs, i + 1).Ok?
    ensures LedgerAt(rules, txs, i).Ok?
    ensures LedgerAt(rules, txs, i + 1) == Step(rules, LedgerAt(rules, txs, i).value, txs[i])
  {
    assert txs[..i + 1] == txs[..i] + [txs[i]] && [txs[i]][1..] == [];
    ReplayAppend(rules, Start(rules, txs), txs[..i], [txs[i]]);
  }

  /** At every sell of every log that replays the wash sales are found and disallowed exactly so. */
  lemma EverySellWashes(rules: Rules, txs: seq<Tx>, i: nat)
    requires LogOk(txs) && CalendarOk(rules) && i < |txs| && LedgerAt(rules, txs, i + 1).Ok? && txs[i].kind == Sell
    ensures LedgerAt(rules, txs, i).Ok? && txs[i].Symbol().Some?
    ensures var sym := txs[i].Symbol().value;
      SellWashes(rules, txs[i], sym, WashOf(LedgerAt(rules, txs, i).value, sym),
                 WashOf(LedgerAt(rules, txs, i + 1).value, sym))
  {
    StepAt(rules, txs, i);
    var sym := txs[i].Symbol().value;
    PrefixLaws(rules, txs, i, sym);
    CapsDistinct(rules, txs);
    var l := LedgerAt(rules, txs, i).value;
    SameBuysDistinct(l.caps, InitialCaps(rules, txs));
    SellStepWashes(rules, txs[i], sym, WashOf(l, sym));
  }

  // ---------------------------------------------------------------- where capacities come from, and how else they move

  /** These capacities are the buys of the log, in log order, each with all its shares. */
  ghost predicate BuysInOrder(rules: Rules, txs: seq<Tx>, caps: seq<BuyCap>, at: seq<nat>) {
    && |at| == |caps|
    && (forall k, m :: 0 <= k < m < |at| ==> at[k] < at[m])
    && (forall j :: 0 <= j < |txs| && txs[j].kind == Buy ==> j in at)
    && forall k :: 0 <= k < |at| ==>
         && at[k] < |txs| && txs[at[k]].kind == Buy
         && caps[k].id == txs[at[k]].id && caps[k].ts == txs[at[k]].ts && caps[k].cap == txs[at[k]].qty
         && caps[k].date == rules.ny(txs[at[k]].ts)
         && (txs[at[k]].symbol.Some? ==> Some(caps[k].symbol) == txs[at[k]].symbol)
  }

  lemma CapsAreBuys(rules: Rules, txs: seq<Tx>) returns (at: seq<nat>)
    ensures BuysInOrder(rules, txs, InitialCaps(rules, txs), at)
  {
    at := CapsOfPrefix(rules, txs, |txs|);
    assert txs[..|txs|] == txs;
  }

  lemma BuysSnoc(rules: Rules, txs: seq<Tx>, caps: seq<BuyCap>, at: seq<nat>, tx: Tx)
    requires BuysInOrder(rules, txs, caps, at)
    ensures tx.kind != Buy ==> BuysInOrder(rules, txs + [tx], caps, at)
    ensures tx.kind == Buy ==> BuysInOrder(rules, txs + [tx], caps + [CapOf(rules, tx)], at + [|txs|])
  {
    var more := txs + [tx];
    assert forall j :: 0 <= j < |txs| ==> more[j] == txs[j];
    assert forall j :: j in at ==> j in at + [|txs|];
    assert |txs| in at + [|txs|];
  }

  lemma {:induction false} CapsOfPrefix(rules: Rules, txs: seq<Tx>, n: nat) returns (at: seq<nat>)
    requires n <= |txs|
    ensures BuysInOrder(rules, txs[..n], InitialCaps(rules, txs[..n]), at)
  {
    at := [];
    if n > 0 {
      var tx := txs[n - 1];
      at := CapsOfPrefix(rules, txs, n - 1);
      assert txs[..n] == txs[..n - 1] + [tx];
      CapsAppend(rules, txs[..n - 1], [tx]);
      CapsOfOne(rules, tx);
      BuysSnoc(rules, txs[..n - 1], InitialCaps(rules, txs[..n - 1]), at, tx);
      if tx.kind == Buy {
        at := at + [n - 1];
      }
    }
  }

  lemma CapsOfOne(rules: Rules, tx: Tx)
    ensures InitialCaps(rules, [tx]) == if tx.kind == Buy then [CapOf(rules, tx)] else []
  {
    assert [tx][1..] == [];
  }

  lemma StepCaps(rules: Rules, l: Ledger, tx: Tx)
    requires AllPositive(l) && Step(rules, l, tx).Ok? && tx.kind != Sell
    ensures tx.kind == Split ==> tx.Symbol().Some?
    ensures Step(rules, l, tx).value.caps ==
            if tx.kind == Split then ScaleCaps(l.caps, tx.Symbol().value, tx) else l.caps
  {
  }

  lemma CapsAfterOther(rules: Rules, txs: seq<Tx>, i: nat)
    requires i < |txs| && LedgerAt(rules, txs, i + 1).Ok? && txs[i].kind != Sell
    ensures LedgerAt(rules, txs, i).Ok? && (txs[i].kind == Split ==> txs[i].Symbol().Some?)
    ensures var caps := LedgerAt(rules, txs, i).value.caps;
      LedgerAt(rules, txs, i + 1).value.caps ==
      if txs[i].kind == Split then ScaleCaps(caps, txs[i].Symbol().value, txs[i]) else caps
  {
    StepAt(rules, txs, i);
    StepCaps(rules, LedgerAt(rules, txs, i).value, txs[i]);
  }

  /** A split scales the capacities of the buys before it; a transaction that is neither that nor a sell moves none. */
  ghost predicate ScaledByNow(caps: seq<BuyCap>, tx: Tx, done: nat, caps': seq<BuyCap>) {
    && |caps'| == |caps|
    && forall k :: 0 <= k < |caps| ==>
         caps'[k] == if tx.kind == Split && tx.IsFor(caps[k].symbol) && k < done
                     then caps[k].(cap := caps[k].cap * tx.qty) else caps[k]
  }

  lemma ScalesTheDone(caps: seq<BuyCap>, tx: Tx, done: nat)
    requires tx.kind == Split && tx.Symbol().Some? && Frontier(caps, done, tx)
    ensures ScaledByNow(caps, tx, done, ScaleCaps(caps, tx.Symbol().value, tx))
  {
  }

  lemma OtherStepCaps(rules: Rules, txs: seq<Tx>, i: nat)
    requires LogOk(txs) && CalendarOk(rules) && i < |txs| && LedgerAt(rules, txs, i + 1).Ok? && txs[i].kind != Sell
    ensures LedgerAt(rules, txs, i).Ok?
    ensures ScaledByNow(LedgerAt(rules, txs, i).value.caps, txs[i], BuysDone(rules, txs, i),
                        LedgerAt(rules, txs, i + 1).value.caps)
  {
    CapsAfterOther(rules, txs, i);
    if txs[i].kind == Split {
      FrontierNow(rules, txs, i);
      ScalesTheDone(LedgerAt(rules, txs, i).value.caps, txs[i], BuysDone(rules, txs, i));
    }
  }

  lemma FrontierNow(rules: Rules, txs: seq<Tx>, i: nat)
    requires LogOk(txs) && CalendarOk(rules) && i < |txs| && LedgerAt(rules, txs, i).Ok?
    ensures Frontier(LedgerAt(rules, txs, i).value.caps, BuysDone(rules, txs, i), txs[i])
  {
    PrefixLaws(rules, txs, i, "");
    FrontierAt(rules, txs, i);
    SameBuysSplit(rules, LedgerAt(rules, txs, i).value.caps, InitialCaps(rules, txs), BuysDone(rules, txs, i), txs[i]);
  }
}
