/** The ledger's own splits are exact allocations: a sell's proceeds over its rows, a loss over its replacements. */
module Apportioning {
  import opened Sums
  import opened Log
  import opened TaxLots
  import opened Allocation
  import opened WashSale
  import opened Capacity
  import opened Selling
  import opened TaxLedger
  import opened TaxLaws

  function Values<T>(s: seq<T>, f: T -> real): (r: seq<real>)
    ensures |r| == |s| && forall k :: 0 <= k < |s| ==> r[k] == f(s[k])
  {
    if s == [] then [] else [f(s[0])] + Values(s[1..], f)
  }

  lemma {:induction false} SumOfValues<T>(s: seq<T>, f: T -> real)
    ensures Sum(Values(s, f), Same) == Sum(s, f)
  {
    if s != [] {
      assert Values(s, f)[1..] == Values(s[1..], f);
      SumOfValues(s[1..], f);
    }
  }

  function RowQty(d: Disposal): real { d.qty }

  // ---------------------------------------------------------------- the rows of a sell

  lemma AppendedOnce(out: seq<Disposal>, row: Disposal, all: seq<Disposal>)
    requires out + [row] <= all
    ensures out <= all && all[|out|..] == [row] + all[|out| + 1..]
  {
    assert all[..|out|] == (out + [row])[..|out|];
    assert all[|out|] == (out + [row])[|out|];
  }

  /** The first chunk's row: its shares, and its piece of what is still to be given out. */
  lemma FirstRow(rules: Rules, tx: Tx, sym: string, w: Wash, chunks: seq<Chunk>, given: real)
    returns (w1: Wash, row: Disposal)
    requires tx.qty > 0.0 && PositiveChunks(chunks) && chunks != []
    ensures w1.out == w.out + [row] && row.qty == chunks[0].qty
    ensures w1 == WashChunk(rules, tx, sym, w, chunks[0], row.proceeds)
    ensures row.proceeds == Piece(tx.NetProceeds(), chunks[0].qty, tx.qty, |chunks| == 1, given, rules.round6)
    ensures WashChunks(rules, tx, sym, w, chunks, given) ==
            WashChunks(rules, tx, sym, w1, chunks[1..], given + row.proceeds)
  {
    var proceeds := Piece(tx.NetProceeds(), chunks[0].qty, tx.qty, |chunks| == 1, given, rules.round6);
    w1 := WashChunk(rules, tx, sym, w, chunks[0], proceeds);
    WashChunkReports(rules, tx, sym, w, chunks[0], proceeds);
    row := w1.out[|w.out|];
    assert w1.out == w.out + [row];
  }

  lemma RowInFront(total: real, whole: real, row: Disposal, rest: seq<Disposal>, chunks: seq<Chunk>, given: real,
                   round: real -> real)
    requires whole > 0.0 && chunks != [] && row.qty == chunks[0].qty
    requires row.proceeds == Piece(total, chunks[0].qty, whole, |chunks| == 1, given, round)
    requires Values(rest, RowQty) == Values(chunks[1..], ChunkQty)
    requires Values(rest, RowProceeds) ==
             Pieces(total, Values(chunks[1..], ChunkQty), whole, given + row.proceeds, round)
    ensures Values([row] + rest, RowQty) == Values(chunks, ChunkQty)
    ensures Values([row] + rest, RowProceeds) == Pieces(total, Values(chunks, ChunkQty), whole, given, round)
  {
    ValuesCons(row, rest, RowQty);
    ValuesCons(row, rest, RowProceeds);
    PiecesCons(total, chunks, whole, given, round);
  }

  /** The rows a list of chunks appends report the chunks' shares, and the pieces of the net proceeds. */
  lemma {:induction false} ChunkRows(rules: Rules, tx: Tx, sym: string, w: Wash, chunks: seq<Chunk>, given: real)
    requires tx.qty > 0.0 && PositiveChunks(chunks)
    ensures var out := WashChunks(rules, tx, sym, w, chunks, given).out;
      && w.out <= out
      && Values(out[|w.out|..], RowQty) == Values(chunks, ChunkQty)
      && Values(out[|w.out|..], RowProceeds) ==
         Pieces(tx.NetProceeds(), Values(chunks, ChunkQty), tx.qty, given, rules.round6)
    decreases |chunks|
  {
    if chunks != [] {
      var w1, row := FirstRow(rules, tx, sym, w, chunks, given);
      ChunkRows(rules, tx, sym, w1, chunks[1..], given + row.proceeds);
      var out := WashChunks(rules, tx, sym, w1, chunks[1..], given + row.proceeds).out;
      AppendedOnce(w.out, row, out);
      RowInFront(tx.NetProceeds(), tx.qty, row, out[|w1.out|..], chunks, given, rules.round6);
    }
  }

  lemma ValuesCons<T>(x: T, s: seq<T>, f: T -> real)
    ensures Values([x] + s, f) == [f(x)] + Values(s, f)
  {
    assert ([x] + s)[1..] == s;
  }

  lemma PiecesCons(total: real, chunks: seq<Chunk>, whole: real, given: real, round: real -> real)
    requires whole > 0.0 && chunks != []
    ensures Values(chunks, ChunkQty) == [chunks[0].qty] + Values(chunks[1..], ChunkQty)
    ensures var p := Piece(total, chunks[0].qty, whole, |chunks| == 1, given, round);
      Pieces(total, Values(chunks, ChunkQty), whole, given, round) ==
      [p] + Pieces(total, Values(chunks[1..], ChunkQty), whole, given + p, round)
  {
    assert Values(chunks, ChunkQty)[1..] == Values(chunks[1..], ChunkQty);
  }

  /** The rows of one sell: its shares in full, and its net proceeds by shares, to the half micro-dollar. */
  ghost predicate SellRows(tx: Tx, rows: seq<Disposal>)
    requires tx.qty > 0.0
  {
    && Sum(rows, RowQty) == tx.qty
    && Apportioned(Values(rows, RowProceeds), Values(rows, RowQty), tx.NetProceeds(), tx.qty)
  }

  lemma SellApportions(rules: Rules, tx: Tx, sym: string, w: Wash)
    requires Positive(w.lots) && 0.0 < tx.qty <= Sum(w.lots, LotQty) && RoundsToMicro(rules.round6)
    ensures var out := SellStep(rules, tx, sym, w).out;
      w.out <= out && SellRows(tx, out[|w.out|..])
  {
    TakeQty(w.lots, tx.qty);
    var t := TakeChunks(w.lots, tx.qty);
    ChunkRows(rules, tx, sym, w.(lots := t.rest, caps := Burn(w.caps, t.chunks)), t.chunks, 0.0);
    SumOfValues(t.chunks, ChunkQty);
    var rows := SellStep(rules, tx, sym, w).out[|w.out|..];
    SumOfValues(rows, RowQty);
    assert t.chunks != [];
    ExactAllocation(tx.NetProceeds(), Values(t.chunks, ChunkQty), tx.qty, rules.round6);
  }

  /** Every sell of every log that replays appends exactly such rows to the report, and nothing else touches it. */
  lemma EverySellApportions(rules: Rules, txs: seq<Tx>, i: nat)
    requires i < |txs| && LedgerAt(rules, txs, i + 1).Ok? && RoundsToMicro(rules.round6)
    ensures LedgerAt(rules, txs, i).Ok?
    ensures var before, after := LedgerAt(rules, txs, i).value.out, LedgerAt(rules, txs, i + 1).value.out;
      && (txs[i].kind != Sell ==> after == before)
      && (txs[i].kind == Sell ==>
            && before <= after
            && txs[i].qty > 0.0 && SellRows(txs[i], after[|before|..]))
  {
    var tx := txs[i];
    assert txs[..i + 1] == txs[..i] + [tx] && [tx][1..] == [];
    ReplayAppend(rules, Start(rules, txs), txs[..i], [tx]);
    var l := LedgerAt(rules, txs, i).value;
    assert LedgerAt(rules, txs, i + 1) == Step(rules, l, tx);
    if tx.kind == Sell {
      SellApportions(rules, tx, tx.Symbol().value, WashOf(l, tx.Symbol().value));
    }
  }

  // ---------------------------------------------------------------- the carried loss

  /** Each match takes its own amount. */
  function CarryEach(rules: Rules, tx: Tx, w: Wash, ms: seq<Match>, amounts: seq<real>, held: int): Wash
    requires |amounts| == |ms| && PositiveMatches(ms)
    decreases |ms|
  {
    if ms == [] then w
    else CarryEach(rules, tx, Carry(rules, tx, w, ms[0], amounts[0], held), ms[1..], amounts[1..], held)
  }

  lemma {:induction false} CarriedPieces(rules: Rules, tx: Tx, w: Wash, ms: seq<Match>, disallowed: real,
                                         replaced: real, given: real, held: int)
    requires replaced > 0.0 && PositiveMatches(ms)
    ensures var amounts := Pieces(disallowed, Values(ms, MatchQty), replaced, given, rules.round6);
      && |amounts| == |ms|
      && CarryAll(rules, tx, w, ms, disallowed, replaced, given, held) == CarryEach(rules, tx, w, ms, amounts, held)
    decreases |ms|
  {
    PiecesLength(disallowed, Values(ms, MatchQty), replaced, given, rules.round6);
    if ms != [] {
      var amount := Piece(disallowed, ms[0].qty, replaced, |ms| == 1, given, rules.round6);
      var rest := Pieces(disallowed, Values(ms[1..], MatchQty), replaced, given + amount, rules.round6);
      assert Values(ms, MatchQty)[1..] == Values(ms[1..], MatchQty);
      assert Pieces(disallowed, Values(ms, MatchQty), replaced, given, rules.round6) == [amount] + rest;
      assert ([amount] + rest)[1..] == rest;
      CarriedPieces(rules, tx, Carry(rules, tx, w, ms[0], amount, held), ms[1..], disallowed, replaced,
                    given + amount, held);
    }
  }

  lemma CarryApportions(rules: Rules, tx: Tx, w: Wash, ms: seq<Match>, disallowed: real, replaced: real, held: int)
    returns (amounts: seq<real>)
    requires replaced > 0.0 && PositiveMatches(ms) && Sum(ms, MatchQty) == replaced && RoundsToMicro(rules.round6)
    ensures Apportioned(amounts, Values(ms, MatchQty), disallowed, replaced)
    ensures CarryAll(rules, tx, w, ms, disallowed, replaced, 0.0, held) == CarryEach(rules, tx, w, ms, amounts, held)
    ensures CarryAll(rules, tx, w, ms, disallowed, replaced, 0.0, held).out == w.out
  {
    amounts := Pieces(disallowed, Values(ms, MatchQty), replaced, 0.0, rules.round6);
    CarriedPieces(rules, tx, w, ms, disallowed, replaced, 0.0, held);
    SumOfValues(ms, MatchQty);
    ExactAllocation(disallowed, Values(ms, MatchQty), replaced, rules.round6);
    CarryAllKeepsRows(rules, tx, w, ms, disallowed, replaced, 0.0, held);
  }

  /** What a losing chunk with replacements does: it carries its row's disallowed loss and reports the row. */
  lemma LosingChunk(rules: Rules, tx: Tx, sym: string, w: Wash, c: Chunk, proceeds: real, m: Matched, replaced: real,
                    held: int, w': Wash)
    returns (row: Disposal)
    requires c.qty > 0.0 && c.basis > proceeds && held == rules.ny(tx.ts) - c.holdingFrom
    requires w' == WashChunk(rules, tx, sym, w, c, proceeds)
    requires m == MatchBuys(w.caps, 0, sym, rules.ny(tx.ts) - 30, rules.ny(tx.ts) + 30, c.qty)
    requires replaced == Sum(m.matches, MatchQty) > 0.0
    ensures var carried := CarryAll(rules, tx, w.(caps := m.caps), m.matches, row.disallowed, replaced, 0.0, held);
      w' == carried.(out := carried.out + [row])
  {
    row := Disposal(sym, c.qty, c.holdingFrom, rules.ny(tx.ts), proceeds, c.basis,
                    Disallowed(rules, c.basis - proceeds, replaced, c.qty));
  }

  lemma CarriedInPieces(rules: Rules, tx: Tx, w: Wash, m: Matched, row: Disposal, replaced: real, held: int, w': Wash)
    returns (amounts: seq<real>)
    requires replaced > 0.0 && PositiveMatches(m.matches) && Sum(m.matches, MatchQty) == replaced
    requires RoundsToMicro(rules.round6)
    requires var carried := CarryAll(rules, tx, w.(caps := m.caps), m.matches, row.disallowed, replaced, 0.0, held);
      w' == carried.(out := carried.out + [row])
    ensures Apportioned(amounts, Values(m.matches, MatchQty), row.disallowed, replaced)
    ensures w' == CarryEach(rules, tx, w.(caps := m.caps), m.matches, amounts, held).(out := w.out + [row])
  {
    amounts := CarryApportions(rules, tx, w.(caps := m.caps), m.matches, row.disallowed, replaced, held);
  }

  /**
   * A washed chunk carries its row's disallowed loss into the matched buys by shares: the amounts add up to it exactly,
   * each the rounded share of its match and the last within half a micro-dollar for each one before it.
   */
  lemma LossApportions(rules: Rules, tx: Tx, sym: string, w: Wash, c: Chunk, proceeds: real, w': Wash)
    returns (m: Matched, row: Disposal, amounts: seq<real>)
    requires c.qty > 0.0 && c.basis > proceeds && RoundsToMicro(rules.round6)
    requires var sold := rules.ny(tx.ts);
      Sum(MatchBuys(w.caps, 0, sym, sold - 30, sold + 30, c.qty).matches, MatchQty) > 0.0
    requires w' == WashChunk(rules, tx, sym, w, c, proceeds)
    ensures var sold := rules.ny(tx.ts); m == MatchBuys(w.caps, 0, sym, sold - 30, sold + 30, c.qty)
    ensures Apportioned(amounts, Values(m.matches, MatchQty), row.disallowed, Sum(m.matches, MatchQty))
    ensures w' == CarryEach(rules, tx, w.(caps := m.caps), m.matches, amounts, rules.ny(tx.ts) - c.holdingFrom)
                  .(out := w.out + [row])
  {
    var sold := rules.ny(tx.ts);
    m := MatchBuys(w.caps, 0, sym, sold - 30, sold + 30, c.qty);
    var replaced, held := Sum(m.matches, MatchQty), sold - c.holdingFrom;
    row := LosingChunk(rules, tx, sym, w, c, proceeds, m, replaced, held, w');
    amounts := CarriedInPieces(rules, tx, w, m, row, replaced, held, w');
  }

  // ---------------------------------------------------------------- the carried losses of a whole log

  /**
   * What a reported row does to the ledger it met: a losing row with replacements gives each matched buy its amount of
   * the row's disallowed loss; any other row disallows nothing and changes nothing else.
   */
  ghost predicate RowCarries(rules: Rules, tx: Tx, sym: string, w: Wash, row: Disposal, w': Wash) {
    var m := MatchBuys(w.caps, 0, sym, row.sold - 30, row.sold + 30, row.qty);
    var replaced := Sum(m.matches, MatchQty);
    && row.qty > 0.0 && row.sold == rules.ny(tx.ts) && row.symbol == sym
    && if row.basis > row.proceeds && replaced > 0.0 then
         exists amounts ::
           && Apportioned(amounts, Values(m.matches, MatchQty), row.disallowed, replaced)
           && w' == CarryEach(rules, tx, w.(caps := m.caps), m.matches, amounts, row.sold - row.holdingFrom)
                    .(out := w.out + [row])
       else
         row.disallowed == 0.0 && w' == w.(out := w.out + [row])
  }

  lemma LosingRowCarries(rules: Rules, tx: Tx, sym: string, w: Wash, row: Disposal, m: Matched, replaced: real,
                         amounts: seq<real>, w': Wash)
    requires row.qty > 0.0 && row.sold == rules.ny(tx.ts) && row.symbol == sym && row.basis > row.proceeds
    requires m == MatchBuys(w.caps, 0, sym, row.sold - 30, row.sold + 30, row.qty)
    requires replaced == Sum(m.matches, MatchQty) > 0.0
    requires Apportioned(amounts, Values(m.matches, MatchQty), row.disallowed, replaced)
    requires w' == CarryEach(rules, tx, w.(caps := m.caps), m.matches, amounts, row.sold - row.holdingFrom)
                   .(out := w.out + [row])
    ensures RowCarries(rules, tx, sym, w, row, w')
  {
  }

  lemma PlainRow(rules: Rules, tx: Tx, sym: string, w: Wash, c: Chunk, proceeds: real, row: Disposal)
    requires c.qty > 0.0 && row == Disposal(sym, c.qty, c.holdingFrom, rules.ny(tx.ts), proceeds, c.basis, 0.0)
    requires c.basis <= proceeds
             || Sum(MatchBuys(w.caps, 0, sym, row.sold - 30, row.sold + 30, c.qty).matches, MatchQty) <= 0.0
    ensures WashChunk(rules, tx, sym, w, c, proceeds) == w.(out := w.out + [row])
    ensures RowCarries(rules, tx, sym, w, row, w.(out := w.out + [row]))
  {
  }

  lemma RowOfChunk(rules: Rules, tx: Tx, sym: string, w: Wash, c: Chunk, proceeds: real, row: Disposal)
    requires c.qty > 0.0 && WashChunk(rules, tx, sym, w, c, proceeds).out == w.out + [row]
    ensures row == Disposal(sym, c.qty, c.holdingFrom, rules.ny(tx.ts), proceeds, c.basis, row.disallowed)
  {
    WashChunkReports(rules, tx, sym, w, c, proceeds);
    assert (w.out + [row])[|w.out|] == row;
  }

  lemma LosingChunkCarries(rules: Rules, tx: Tx, sym: string, w: Wash, c: Chunk, proceeds: real, replaced: real,
                           w': Wash)
    returns (row: Disposal)
    requires c.qty > 0.0 && c.basis > proceeds && RoundsToMicro(rules.round6)
    requires w' == WashChunk(rules, tx, sym, w, c, proceeds)
    requires var sold := rules.ny(tx.ts);
      replaced == Sum(MatchBuys(w.caps, 0, sym, sold - 30, sold + 30, c.qty).matches, MatchQty) > 0.0
    ensures w'.out == w.out + [row] && RowCarries(rules, tx, sym, w, row, w')
  {
    var m, amounts;
    m, row, amounts := LossApportions(rules, tx, sym, w, c, proceeds, w');
    RowOfChunk(rules, tx, sym, w, c, proceeds, row);
    LosingRowCarries(rules, tx, sym, w, row, m, replaced, amounts, w');
  }

  lemma ChunkCarries(rules: Rules, tx: Tx, sym: string, w: Wash, c: Chunk, proceeds: real, w': Wash)
    returns (row: Disposal)
    requires c.qty > 0.0 && RoundsToMicro(rules.round6) && w' == WashChunk(rules, tx, sym, w, c, proceeds)
    ensures w'.out == w.out + [row] && RowCarries(rules, tx, sym, w, row, w')
  {
    var sold := rules.ny(tx.ts);
    var replaced := Sum(MatchBuys(w.caps, 0, sym, sold - 30, sold + 30, c.qty).matches, MatchQty);
    if c.basis > proceeds && replaced > 0.0 {
      row := LosingChunkCarries(rules, tx, sym, w, c, proceeds, replaced, w');
    } else {
      row := Disposal(sym, c.qty, c.holdingFrom, sold, proceeds, c.basis, 0.0);
      PlainRow(rules, tx, sym, w, c, proceeds, row);
    }
  }

  lemma SameLast(out: seq<Disposal>, a: Disposal, b: Disposal)
    requires out + [a] == out + [b]
    ensures a == b
  {
    assert (out + [a])[|out|] == a && (out + [b])[|out|] == b;
  }

  /** From w to w' these rows were reported, one after the other. */
  ghost predicate RowsCarry(rules: Rules, tx: Tx, sym: string, w: Wash, rows: seq<Disposal>, w': Wash)
    decreases |rows|
  {
    if rows == [] then w' == w
    else exists w1 :: RowCarries(rules, tx, sym, w, rows[0], w1) && RowsCarry(rules, tx, sym, w1, rows[1..], w')
  }

  lemma RowThenRows(rules: Rules, tx: Tx, sym: string, w: Wash, row: Disposal, w1: Wash, rows: seq<Disposal>, w': Wash)
    requires RowCarries(rules, tx, sym, w, row, w1) && RowsCarry(rules, tx, sym, w1, rows, w')
    ensures RowsCarry(rules, tx, sym, w, [row] + rows, w')
  {
    assert ([row] + rows)[1..] == rows;
  }

  lemma {:induction false} ChunksCarry(rules: Rules, tx: Tx, sym: string, w: Wash, chunks: seq<Chunk>, given: real)
    requires tx.qty > 0.0 && PositiveChunks(chunks) && RoundsToMicro(rules.round6)
    ensures var w' := WashChunks(rules, tx, sym, w, chunks, given);
      w.out <= w'.out && RowsCarry(rules, tx, sym, w, w'.out[|w.out|..], w')
    decreases |chunks|
  {
    if chunks != [] {
      var w1, row := FirstRow(rules, tx, sym, w, chunks, given);
      var same := ChunkCarries(rules, tx, sym, w, chunks[0], row.proceeds, w1);
      SameLast(w.out, row, same);
      ChunksCarry(rules, tx, sym, w1, chunks[1..], given + row.proceeds);
      var w' := WashChunks(rules, tx, sym, w1, chunks[1..], given + row.proceeds);
      AppendedOnce(w.out, row, w'.out);
      RowThenRows(rules, tx, sym, w, row, w1, w'.out[|w1.out|..], w');
    }
  }

  /** The sell takes its shares and burns their capacity, and every row it reports then carries its own loss. */
  ghost predicate SellCarries(rules: Rules, tx: Tx, sym: string, w: Wash, w': Wash)
    requires Positive(w.lots) && 0.0 < tx.qty
  {
    var t := TakeChunks(w.lots, tx.qty);
    && w.out <= w'.out
    && RowsCarry(rules, tx, sym, w.(lots := t.rest, caps := Burn(w.caps, t.chunks)), w'.out[|w.out|..], w')
  }

  /** At every sell of every log that replays, every disallowed loss reaches the matched buys to the micro-dollar. */
  lemma EverySellCarries(rules: Rules, txs: seq<Tx>, i: nat)
    requires i < |txs| && LedgerAt(rules, txs, i + 1).Ok? && RoundsToMicro(rules.round6) && txs[i].kind == Sell
    ensures LedgerAt(rules, txs, i).Ok? && txs[i].Symbol().Some? && txs[i].qty > 0.0
    ensures var sym, l := txs[i].Symbol().value, LedgerAt(rules, txs, i).value;
      SellCarries(rules, txs[i], sym, WashOf(l, sym), WashOf(LedgerAt(rules, txs, i + 1).value, sym))
  {
    var tx := txs[i];
    assert txs[..i + 1] == txs[..i] + [tx] && [tx][1..] == [];
    ReplayAppend(rules, Start(rules, txs), txs[..i], [tx]);
    var l := LedgerAt(rules, txs, i).value;
    assert LedgerAt(rules, txs, i + 1) == Step(rules, l, tx);
    var w := WashOf(l, tx.Symbol().value);
    TakeQty(w.lots, tx.qty);
    var t := TakeChunks(w.lots, tx.qty);
    ChunksCarry(rules, tx, tx.Symbol().value, w.(lots := t.rest, caps := Burn(w.caps, t.chunks)), t.chunks, 0.0);
  }
}
