/** What one whole sell keeps: capacity, dates, other symbols, and every dollar of basis and proceeds. */
module Selling {
  import opened Sums
  import opened Log
  import opened TaxLots
  import opened Allocation
  import opened WashSale
  import opened Capacity
  import opened Carrying

  function RowBasis(d: Disposal): real { d.basis }

  function RowProceeds(d: Disposal): real { d.proceeds }

  function RowDisallowed(d: Disposal): real { d.disallowed }

  /** The sum of one column over the rows of one symbol. */
  function Column(rows: seq<Disposal>, sym: string, f: Disposal -> real): real {
    if rows == [] then 0.0
    else (if rows[0].symbol == sym then f(rows[0]) else 0.0) + Column(rows[1..], sym, f)
  }

  lemma {:induction false} ColumnSnoc(rows: seq<Disposal>, row: Disposal, sym: string, f: Disposal -> real)
    ensures Column(rows + [row], sym, f) == Column(rows, sym, f) + (if row.symbol == sym then f(row) else 0.0)
  {
    if rows == [] {
      assert [row][1..] == [];
    } else {
      ColumnSnoc(rows[1..], row, sym, f);
      assert (rows + [row])[1..] == rows[1..] + [row];
    }
  }

  /** Every row was acquired no later than it was sold. */
  ghost predicate RowsDated(rows: seq<Disposal>) {
    forall i :: 0 <= i < |rows| ==> rows[i].holdingFrom <= rows[i].sold
  }

  /** Basis still to be reported: open and owed basis, and reported basis net of what was disallowed. */
  function Ledgered(w: Wash, sym: string): real {
    TaxValue(w, sym) + Column(w.out, sym, RowBasis) - Column(w.out, sym, RowDisallowed)
  }

  /** Other symbols keep their capacities and what they are owed. */
  ghost predicate OthersSame(sym: string, w: Wash, w': Wash) {
    && SameBuys(w'.caps, w.caps)
    && (forall k :: 0 <= k < |w.caps| && w.caps[k].symbol != sym ==> w'.caps[k] == w.caps[k])
    && OthersOwedSame(sym, w.caps, w.pending, w'.pending)
  }

  ghost predicate DatesBefore(dates: map<int, int>, day: int) {
    forall id :: id in dates ==> dates[id] <= day
  }

  /** Where the sell stands: everything one chunk needs and keeps. */
  ghost predicate SellInv(rules: Rules, tx: Tx, sym: string, w: Wash, qtys: seq<real>, n: nat, dates: map<int, int>) {
    && WashInv(sym, w, qtys, n, [], dates) && Frontier(w.caps, n, tx) && FloorHolds(rules, w.caps)
    && DatesBefore(dates, rules.ny(tx.ts)) && RowsDated(w.out)
  }

  lemma {:induction false} PendingValueSame(a: seq<BuyCap>, b: seq<BuyCap>, pending: Pending, sym: string)
    requires SameBuys(a, b)
    ensures PendingValue(a, pending, sym) == PendingValue(b, pending, sym)
  {
    if a != [] {
      assert a[0] == b[0].(cap := a[0].cap);
      assert forall k :: 0 <= k < |a| - 1 ==> a[1..][k] == b[1..][k].(cap := a[1..][k].cap);
      PendingValueSame(a[1..], b[1..], pending, sym);
    }
  }

  /** The row a chunk reports; the loss is disallowed in proportion to the shares the window could replace. */
  ghost predicate RowReports(rules: Rules, tx: Tx, sym: string, caps: seq<BuyCap>, c: Chunk, proceeds: real,
                             row: Disposal)
    requires c.qty > 0.0
  {
    var sold := rules.ny(tx.ts);
    var replaced := Min(c.qty, WindowCapacity(caps, 0, sym, sold - 30, sold + 30));
    var loss := c.basis - proceeds;
    row == Disposal(sym, c.qty, c.holdingFrom, sold, proceeds, c.basis,
                    if loss > 0.0 && replaced > 0.0 then Disallowed(rules, loss, replaced, c.qty) else 0.0)
  }

  lemma SamePending(pending: Pending, a: seq<BuyCap>, b: seq<BuyCap>, n: nat)
    requires SameBuys(a, b) && DistinctIds(b) && PendingOk(pending, b, n)
    ensures PendingOk(pending, a, n)
  {
    forall id | id in pending
      ensures n <= CapIndex(a, id) < |a|
    {
      var k := CapIndex(b, id);
      assert a[k].id == id;
    }
  }

  lemma MatchKeepsWash(sym: string, w: Wash, qtys: seq<real>, n: nat, dates: map<int, int>, lo: int, hi: int,
                       need: real)
    requires WashInv(sym, w, qtys, n, [], dates)
    ensures var m := MatchBuys(w.caps, 0, sym, lo, hi, need);
      && WashInv(sym, w.(caps := m.caps), qtys, n, m.matches, dates)
      && SameBuys(m.caps, w.caps) && Located(m.matches, m.caps, sym)
      && (forall k :: 0 <= k < |w.caps| && w.caps[k].symbol != sym ==> m.caps[k] == w.caps[k])
  {
    var m := MatchBuys(w.caps, 0, sym, lo, hi, need);
    MatchKeepsCapacity(sym, w, qtys, n, lo, hi, need);
    SamePending(w.pending, m.caps, w.caps, n);
  }

  lemma SameBuysFrontier(rules: Rules, a: seq<BuyCap>, b: seq<BuyCap>, n: nat, tx: Tx)
    requires SameBuys(a, b) && Frontier(b, n, tx) && FloorHolds(rules, b)
    ensures Frontier(a, n, tx) && FloorHolds(rules, a)
  {
  }

  lemma CarryMatched(rules: Rules, tx: Tx, sym: string, w: Wash, qtys: seq<real>, n: nat, dates: map<int, int>,
                     m: Matched, disallowed: real, replaced: real, held: int)
    requires WashInv(sym, w.(caps := m.caps), qtys, n, m.matches, dates) && SameBuys(m.caps, w.caps)
    requires forall k :: 0 <= k < |w.caps| && w.caps[k].symbol != sym ==> m.caps[k] == w.caps[k]
    requires Frontier(m.caps, n, tx) && FloorHolds(rules, m.caps)
    requires m.matches != [] && PositiveMatches(m.matches) && Located(m.matches, m.caps, sym)
    requires held >= 0 && replaced > 0.0
    ensures var w' := CarryAll(rules, tx, w.(caps := m.caps), m.matches, disallowed, replaced, 0.0, held);
      && WashInv(sym, w', qtys, n, [], dates) && w'.caps == m.caps && w'.out == w.out && OthersSame(sym, w, w')
      && TaxValue(w', sym) == TaxValue(w, sym) + disallowed
  {
    CarryAllExact(rules, tx, sym, w.(caps := m.caps), qtys, n, m.matches, dates, disallowed, replaced, 0.0, held);
    PendingValueSame(m.caps, w.caps, w.pending, sym);
  }

  /** The losing branch: whatever is disallowed ends up in the tax value of the symbol. */
  lemma WashLoss(rules: Rules, tx: Tx, sym: string, w: Wash, qtys: seq<real>, n: nat, dates: map<int, int>,
                 m: Matched, need: real, disallowed: real, held: int)
    requires SellInv(rules, tx, sym, w, qtys, n, dates) && held >= 0
    requires m == MatchBuys(w.caps, 0, sym, rules.ny(tx.ts) - 30, rules.ny(tx.ts) + 30, need)
    requires Sum(m.matches, MatchQty) > 0.0
    ensures PositiveMatches(m.matches)
    ensures var w' := CarryAll(rules, tx, w.(caps := m.caps), m.matches, disallowed, Sum(m.matches, MatchQty), 0.0,
                             held);
      && SellInv(rules, tx, sym, w', qtys, n, dates) && OthersSame(sym, w, w') && w'.out == w.out
      && TaxValue(w', sym) == TaxValue(w, sym) + disallowed
  {
    var sold := rules.ny(tx.ts);
    MatchKeepsWash(sym, w, qtys, n, dates, sold - 30, sold + 30, need);
    SameBuysFrontier(rules, m.caps, w.caps, n, tx);
    CarryMatched(rules, tx, sym, w, qtys, n, dates, m, disallowed, Sum(m.matches, MatchQty), held);
  }

  lemma WashChunkWashes(rules: Rules, tx: Tx, sym: string, w: Wash, qtys: seq<real>, n: nat, dates: map<int, int>,
                        c: Chunk, proceeds: real)
    requires SellInv(rules, tx, sym, w, qtys, n, dates) && c.qty > 0.0
    requires c.buyId in dates && c.holdingFrom <= dates[c.buyId] && c.basis > proceeds
    requires var sold := rules.ny(tx.ts);
      Sum(MatchBuys(w.caps, 0, sym, sold - 30, sold + 30, c.qty).matches, MatchQty) > 0.0
    ensures var w' := WashChunk(rules, tx, sym, w, c, proceeds);
      && SellInv(rules, tx, sym, w', qtys, n, dates) && OthersSame(sym, w, w')
      && |w'.out| == |w.out| + 1 && w'.out[..|w.out|] == w.out
      && TaxValue(w', sym) == TaxValue(w, sym) + w'.out[|w.out|].disallowed
  {
    var sold := rules.ny(tx.ts);
    var m := MatchBuys(w.caps, 0, sym, sold - 30, sold + 30, c.qty);
    var replaced := Sum(m.matches, MatchQty);
    var disallowed, held := Disallowed(rules, c.basis - proceeds, replaced, c.qty), sold - c.holdingFrom;
    WashLoss(rules, tx, sym, w, qtys, n, dates, m, c.qty, disallowed, held);
    var carried := CarryAll(rules, tx, w.(caps := m.caps), m.matches, disallowed, replaced, 0.0, held);
    var row := Disposal(sym, c.qty, c.holdingFrom, sold, proceeds, c.basis, disallowed);
    assert WashChunk(rules, tx, sym, w, c, proceeds) == carried.(out := w.out + [row]);
  }

  lemma {:induction false} CarryAllKeepsRows(rules: Rules, tx: Tx, w: Wash, ms: seq<Match>, disallowed: real,
                                             replaced: real, given: real, held: int)
    requires replaced > 0.0 && PositiveMatches(ms)
    ensures CarryAll(rules, tx, w, ms, disallowed, replaced, given, held).out == w.out
    decreases |ms|
  {
    if ms != [] {
      var amount := Piece(disallowed, ms[0].qty, replaced, |ms| == 1, given, rules.round6);
      CarryAllKeepsRows(rules, tx, Carry(rules, tx, w, ms[0], amount, held), ms[1..], disallowed, replaced,
                        given + amount, held);
    }
  }

  lemma WashChunkReports(rules: Rules, tx: Tx, sym: string, w: Wash, c: Chunk, proceeds: real)
    requires c.qty > 0.0
    ensures var w' := WashChunk(rules, tx, sym, w, c, proceeds);
      && |w'.out| == |w.out| + 1 && w'.out[..|w.out|] == w.out
      && RowReports(rules, tx, sym, w.caps, c, proceeds, w'.out[|w.out|])
  {
    var sold := rules.ny(tx.ts);
    var m := MatchBuys(w.caps, 0, sym, sold - 30, sold + 30, c.qty);
    var replaced := Sum(m.matches, MatchQty);
    MatchTakesAll(w.caps, 0, sym, sold - 30, sold + 30, c.qty);
    if c.basis > proceeds && replaced > 0.0 {
      var disallowed := Disallowed(rules, c.basis - proceeds, replaced, c.qty);
      CarryAllKeepsRows(rules, tx, w.(caps := m.caps), m.matches, disallowed, replaced, 0.0, sold - c.holdingFrom);
    }
  }

  lemma WashChunkKeeps(rules: Rules, tx: Tx, sym: string, w: Wash, qtys: seq<real>, n: nat, dates: map<int, int>,
                       c: Chunk, proceeds: real)
    requires SellInv(rules, tx, sym, w, qtys, n, dates) && c.qty > 0.0
    requires c.buyId in dates && c.holdingFrom <= dates[c.buyId]
    ensures var w' := WashChunk(rules, tx, sym, w, c, proceeds);
      && SellInv(rules, tx, sym, w', qtys, n, dates) && OthersSame(sym, w, w')
      && |w'.out| == |w.out| + 1 && w'.out[..|w.out|] == w.out
      && RowReports(rules, tx, sym, w.caps, c, proceeds, w'.out[|w.out|])
      && TaxValue(w', sym) == TaxValue(w, sym) + w'.out[|w.out|].disallowed
  {
    var sold := rules.ny(tx.ts);
    WashChunkReports(rules, tx, sym, w, c, proceeds);
    if c.basis > proceeds && Sum(MatchBuys(w.caps, 0, sym, sold - 30, sold + 30, c.qty).matches, MatchQty) > 0.0 {
      WashChunkWashes(rules, tx, sym, w, qtys, n, dates, c, proceeds);
    } else {
      var row := Disposal(sym, c.qty, c.holdingFrom, sold, proceeds, c.basis, 0.0);
      assert WashChunk(rules, tx, sym, w, c, proceeds) == w.(out := w.out + [row]);
    }
  }

  /** From w to w' rows were reported that took `basis` off the ledger and `proceeds` in; nothing else changed. */
  ghost predicate Reported(sym: string, w: Wash, w': Wash, basis: real, proceeds: real) {
    && OthersSame(sym, w, w')
    && Ledgered(w', sym) == Ledgered(w, sym) + basis
    && Column(w'.out, sym, RowProceeds) == Column(w.out, sym, RowProceeds) + proceeds
    && (forall s, f :: s != sym ==> Column(w'.out, s, f) == Column(w.out, s, f))
  }

  lemma ReportedTransitive(sym: string, a: Wash, b: Wash, c: Wash, basis: real, proceeds: real, basis': real,
                           proceeds': real)
    requires Reported(sym, a, b, basis, proceeds) && Reported(sym, b, c, basis', proceeds')
    ensures Reported(sym, a, c, basis + basis', proceeds + proceeds')
  {
    OthersSameTransitive(sym, a, b, c);
  }

  /** A row moves basis from the ledger to the report and puts the disallowed part back. */
  lemma WashChunkLedgered(rules: Rules, tx: Tx, sym: string, w: Wash, qtys: seq<real>, n: nat, dates: map<int, int>,
                          c: Chunk, proceeds: real)
    requires SellInv(rules, tx, sym, w, qtys, n, dates) && c.qty > 0.0
    requires c.buyId in dates && c.holdingFrom <= dates[c.buyId]
    ensures SellInv(rules, tx, sym, WashChunk(rules, tx, sym, w, c, proceeds), qtys, n, dates)
    ensures Reported(sym, w, WashChunk(rules, tx, sym, w, c, proceeds), c.basis, proceeds)
  {
    WashChunkKeeps(rules, tx, sym, w, qtys, n, dates, c, proceeds);
    var w' := WashChunk(rules, tx, sym, w, c, proceeds);
    var row := w'.out[|w.out|];
    assert w'.out == w.out + [row];
    ColumnSnoc(w.out, row, sym, RowBasis);
    ColumnSnoc(w.out, row, sym, RowDisallowed);
    ColumnSnoc(w.out, row, sym, RowProceeds);
    forall s, f | s != sym
      ensures Column(w'.out, s, f) == Column(w.out, s, f)
    {
      ColumnSnoc(w.out, row, s, f);
    }
  }

  lemma OthersSameTransitive(sym: string, a: Wash, b: Wash, c: Wash)
    requires OthersSame(sym, a, b) && OthersSame(sym, b, c)
    ensures OthersSame(sym, a, c)
  {
  }

  /** The first chunk's share of the proceeds, and the state it leaves for the rest. */
  lemma FirstChunk(rules: Rules, tx: Tx, sym: string, w: Wash, chunks: seq<Chunk>, given: real)
    returns (w1: Wash, proceeds: real)
    requires tx.qty > 0.0 && PositiveChunks(chunks) && chunks != []
    ensures w1 == WashChunk(rules, tx, sym, w, chunks[0], proceeds)
    ensures |chunks| == 1 ==> proceeds == tx.NetProceeds() - given
    ensures WashChunks(rules, tx, sym, w, chunks, given) ==
            WashChunks(rules, tx, sym, w1, chunks[1..], given + proceeds)
  {
    proceeds := Piece(tx.NetProceeds(), chunks[0].qty, tx.qty, |chunks| == 1, given, rules.round6);
    w1 := WashChunk(rules, tx, sym, w, chunks[0], proceeds);
  }

  lemma FirstChunkKeeps(rules: Rules, tx: Tx, sym: string, w: Wash, qtys: seq<real>, n: nat, dates: map<int, int>,
                        chunks: seq<Chunk>, proceeds: real, w1: Wash)
    requires SellInv(rules, tx, sym, w, qtys, n, dates)
    requires PositiveChunks(chunks) && DatedChunks(chunks, dates) && chunks != []
    requires w1 == WashChunk(rules, tx, sym, w, chunks[0], proceeds)
    ensures SellInv(rules, tx, sym, w1, qtys, n, dates) && Reported(sym, w, w1, chunks[0].basis, proceeds)
  {
    WashChunkLedgered(rules, tx, sym, w, qtys, n, dates, chunks[0], proceeds);
  }

  lemma WashFirst(rules: Rules, tx: Tx, sym: string, w: Wash, qtys: seq<real>, n: nat, dates: map<int, int>,
                  chunks: seq<Chunk>, given: real)
    returns (w1: Wash, proceeds: real)
    requires SellInv(rules, tx, sym, w, qtys, n, dates) && tx.qty > 0.0
    requires PositiveChunks(chunks) && DatedChunks(chunks, dates) && chunks != []
    ensures SellInv(rules, tx, sym, w1, qtys, n, dates) && Reported(sym, w, w1, chunks[0].basis, proceeds)
    ensures |chunks| == 1 ==> proceeds == tx.NetProceeds() - given
    ensures WashChunks(rules, tx, sym, w, chunks, given) ==
            WashChunks(rules, tx, sym, w1, chunks[1..], given + proceeds)
  {
    w1, proceeds := FirstChunk(rules, tx, sym, w, chunks, given);
    FirstChunkKeeps(rules, tx, sym, w, qtys, n, dates, chunks, proceeds, w1);
  }

  lemma RestReported(sym: string, w: Wash, w1: Wash, w2: Wash, chunks: seq<Chunk>, proceeds: real, left: real)
    requires chunks != [] && Reported(sym, w, w1, chunks[0].basis, proceeds)
    requires Reported(sym, w1, w2, Sum(chunks[1..], ChunkBasis), if chunks[1..] == [] then 0.0 else left - proceeds)
    requires |chunks| == 1 ==> proceeds == left
    ensures Reported(sym, w, w2, Sum(chunks, ChunkBasis), left)
  {
    ReportedTransitive(sym, w, w1, w2, chunks[0].basis, proceeds, Sum(chunks[1..], ChunkBasis),
                       if chunks[1..] == [] then 0.0 else left - proceeds);
  }

  lemma {:induction false} WashChunksKeep(rules: Rules, tx: Tx, sym: string, w: Wash, qtys: seq<real>, n: nat,
                                          dates: map<int, int>, chunks: seq<Chunk>, given: real)
    requires SellInv(rules, tx, sym, w, qtys, n, dates) && tx.qty > 0.0
    requires PositiveChunks(chunks) && DatedChunks(chunks, dates)
    ensures SellInv(rules, tx, sym, WashChunks(rules, tx, sym, w, chunks, given), qtys, n, dates)
    ensures Reported(sym, w, WashChunks(rules, tx, sym, w, chunks, given), Sum(chunks, ChunkBasis),
                     if chunks == [] then 0.0 else tx.NetProceeds() - given)
    decreases |chunks|
  {
    if chunks != [] {
      var w1, proceeds := WashFirst(rules, tx, sym, w, qtys, n, dates, chunks, given);
      WashChunksKeep(rules, tx, sym, w1, qtys, n, dates, chunks[1..], given + proceeds);
      RestReported(sym, w, w1, WashChunks(rules, tx, sym, w1, chunks[1..], given + proceeds), chunks, proceeds,
                   tx.NetProceeds() - given);
    }
  }

  /** Taking the shares and burning their capacity only moves their basis out of the ledger. */
  lemma AfterTaking(rules: Rules, tx: Tx, sym: string, w: Wash, qtys: seq<real>, n: nat, dates: map<int, int>, t: Taken,
                    w1: Wash)
    requires SellInv(rules, tx, sym, w, qtys, n, dates) && 0.0 < tx.qty <= Sum(w.lots, LotQty)
    requires t == TakeChunks(w.lots, tx.qty) && w1 == w.(lots := t.rest, caps := Burn(w.caps, t.chunks))
    ensures SellInv(rules, tx, sym, w1, qtys, n, dates)
    ensures Reported(sym, w, w1, -Sum(t.chunks, ChunkBasis), 0.0)
    ensures PositiveChunks(t.chunks) && DatedChunks(t.chunks, dates) && t.chunks != []
  {
    TakeQty(w.lots, tx.qty);
    TakeBasis(w.lots, tx.qty);
    TakeDated(w.lots, tx.qty, dates);
    BurnKeepsCapacity(sym, w.lots, w.caps, w.pending, qtys, n, tx.qty, dates);
    SamePending(w.pending, w1.caps, w.caps, n);
    TakingReported(sym, w, w1, Sum(t.chunks, ChunkBasis));
  }

  lemma TakingReported(sym: string, w: Wash, w1: Wash, basis: real)
    requires w1.out == w.out && w1.pending == w.pending && SameBuys(w1.caps, w.caps)
    requires forall k :: 0 <= k < |w.caps| && w.caps[k].symbol != sym ==> w1.caps[k] == w.caps[k]
    requires basis + Sum(w1.lots, LotBasis) == Sum(w.lots, LotBasis)
    ensures Reported(sym, w, w1, -basis, 0.0)
  {
    PendingValueSame(w1.caps, w.caps, w.pending, sym);
  }

  /** A whole sell: proceeds are reported in full, and basis only changes place. */
  lemma SellKeeps(rules: Rules, tx: Tx, sym: string, w: Wash, qtys: seq<real>, n: nat, dates: map<int, int>)
    requires SellInv(rules, tx, sym, w, qtys, n, dates) && 0.0 < tx.qty <= Sum(w.lots, LotQty)
    ensures SellInv(rules, tx, sym, SellStep(rules, tx, sym, w), qtys, n, dates)
    ensures Reported(sym, w, SellStep(rules, tx, sym, w), 0.0, tx.NetProceeds())
  {
    var t := TakeChunks(w.lots, tx.qty);
    var w1 := w.(lots := t.rest, caps := Burn(w.caps, t.chunks));
    AfterTaking(rules, tx, sym, w, qtys, n, dates, t, w1);
    WashChunksKeep(rules, tx, sym, w1, qtys, n, dates, t.chunks, 0.0);
    ReportedTransitive(sym, w, w1, SellStep(rules, tx, sym, w), -Sum(t.chunks, ChunkBasis), 0.0,
                       Sum(t.chunks, ChunkBasis), tx.NetProceeds());
  }
}
