/**
 * One sell in the tax ledger: burn the sold shares' own replacement capacity, then match every losing chunk to buys
 * within thirty days and carry the disallowed loss into their basis (26 U.S.C. section 1091).
 */
module WashSale {
  import opened Sums
  import opened Log
  import opened TaxLots
  import opened Allocation

  /** Replacement capacity of one buy: each share can replace at most one wash-sold share, and burns when sold. */
  datatype BuyCap = BuyCap(id: int, symbol: string, ts: int, date: int, cap: real)

  /** An adjustment owed to a buy that has not been replayed yet. */
  datatype PendingAdj = PendingAdj(qty: real, perShareAdd: real, holdingFrom: int)

  datatype Match = Match(id: int, ts: int, date: int, qty: real)

  datatype Disposal = Disposal(symbol: string, qty: real, holdingFrom: int, sold: int,
                               proceeds: real, basis: real, disallowed: real)

  /** Calendar and rounding, left abstract: the New York date of an instant, the date floor, six-decimal rounding. */
  datatype Rules = Rules(ny: int -> int, minDate: int, round6: real -> real)

  type Pending = map<int, seq<PendingAdj>>

  datatype Matched = Matched(caps: seq<BuyCap>, matches: seq<Match>)

  /** What one sell mutates: the symbol's lots, every buy's capacity, the owed adjustments, the report rows. */
  datatype Wash = Wash(lots: seq<TaxLot>, caps: seq<BuyCap>, pending: Pending, out: seq<Disposal>)

  function MatchQty(m: Match): real { m.qty }

  // ---------------------------------------------------------------- burning

  /** Position of the first capacity entry with this id, or past the end. */
  function CapIndex(caps: seq<BuyCap>, id: int): (k: nat)
    ensures k <= |caps|
    ensures k < |caps| ==> caps[k].id == id
    ensures forall j :: 0 <= j < k ==> caps[j].id != id
  {
    if caps == [] || caps[0].id == id then 0 else 1 + CapIndex(caps[1..], id)
  }

  function BurnOne(caps: seq<BuyCap>, c: Chunk): seq<BuyCap> {
    var k := CapIndex(caps, c.buyId);
    if k == |caps| then caps
    else caps[k := caps[k].(cap := caps[k].cap - Min(c.qty, caps[k].cap))]
  }

  function Burn(caps: seq<BuyCap>, chunks: seq<Chunk>): seq<BuyCap>
    decreases chunks
  {
    if chunks == [] then caps else Burn(BurnOne(caps, chunks[0]), chunks[1..])
  }

  // ---------------------------------------------------------------- matching

  predicate InWindow(b: BuyCap, sym: string, lo: int, hi: int) {
    b.symbol == sym && lo <= b.date <= hi
  }

  /** Take up to `need` shares from the buys in the window, in log order from position `k` on. */
  function MatchBuys(caps: seq<BuyCap>, k: nat, sym: string, lo: int, hi: int, need: real): (r: Matched)
    requires k <= |caps|
    ensures |r.caps| == |caps|
    ensures forall i :: 0 <= i < |r.matches| ==> r.matches[i].qty > 0.0
    decreases |caps| - k
  {
    if k == |caps| || need <= 0.0 then Matched(caps, [])
    else
      var b := caps[k];
      var take := if InWindow(b, sym, lo, hi) then Min(need, b.cap) else 0.0;
      if take > 0.0 then
        var r := MatchBuys(caps[k := b.(cap := b.cap - take)], k + 1, sym, lo, hi, need - take);
        Matched(r.caps, [Match(b.id, b.ts, b.date, take)] + r.matches)
      else
        MatchBuys(caps, k + 1, sym, lo, hi, need)
  }

  // ---------------------------------------------------------------- carrying the loss

  /** Tack: the replacement's clock starts the surrendered shares' holding days earlier, floored at the first date. */
  function Tack(rules: Rules, date: int, held: int): int {
    if date - held < rules.minDate then rules.minDate else date - held
  }

  function Owed(pending: Pending, id: int): seq<PendingAdj> {
    if id in pending then pending[id] else []
  }

  predicate Earlier(ts: int, id: int, tx: Tx) {
    ts < tx.ts || (ts == tx.ts && id < tx.id)
  }

  /** One matched buy takes `amount`: in place when it has been replayed, through the pending map when it has not. */
  function Carry(rules: Rules, tx: Tx, w: Wash, m: Match, amount: real, held: int): Wash
    requires m.qty > 0.0
  {
    var add, anchor := amount / m.qty, Tack(rules, m.date, held);
    if Earlier(m.ts, m.id, tx) then
      w.(lots := Adjusted(w.lots, m.id, m.qty, add, anchor))
    else
      w.(pending := w.pending[m.id := Owed(w.pending, m.id) + [PendingAdj(m.qty, add, anchor)]])
  }

  function CarryAll(rules: Rules, tx: Tx, w: Wash, ms: seq<Match>, disallowed: real, replaced: real, given: real,
                    held: int): Wash
    requires replaced > 0.0 && forall i :: 0 <= i < |ms| ==> ms[i].qty > 0.0
    decreases |ms|
  {
    if ms == [] then w
    else
      var amount := Piece(disallowed, ms[0].qty, replaced, |ms| == 1, given, rules.round6);
      CarryAll(rules, tx, Carry(rules, tx, w, ms[0], amount, held), ms[1..], disallowed, replaced, given + amount, held)
  }

  function Disallowed(rules: Rules, loss: real, replaced: real, qty: real): real
    requires qty > 0.0
  {
    if replaced >= qty then loss else rules.round6(Share(loss, replaced, qty))
  }

  /** One chunk of the sell: match it if it lost money, carry the loss, report the row. */
  function WashChunk(rules: Rules, tx: Tx, sym: string, w: Wash, c: Chunk, proceeds: real): Wash
    requires c.qty > 0.0
  {
    var sold := rules.ny(tx.ts);
    var loss := c.basis - proceeds;
    var m := MatchBuys(w.caps, 0, sym, sold - 30, sold + 30, c.qty);
    var replaced := Sum(m.matches, MatchQty);
    var row := Disposal(sym, c.qty, c.holdingFrom, sold, proceeds, c.basis, 0.0);
    if loss > 0.0 && replaced > 0.0 then
      var disallowed := Disallowed(rules, loss, replaced, c.qty);
      var carried := CarryAll(rules, tx, w.(caps := m.caps), m.matches, disallowed, replaced, 0.0,
                              sold - c.holdingFrom);
      carried.(out := carried.out + [row.(disallowed := disallowed)])
    else
      w.(out := w.out + [row])
  }

  function WashChunks(rules: Rules, tx: Tx, sym: string, w: Wash, chunks: seq<Chunk>, given: real): Wash
    requires tx.qty > 0.0 && forall i :: 0 <= i < |chunks| ==> chunks[i].qty > 0.0
    decreases |chunks|
  {
    if chunks == [] then w
    else
      var proceeds := Piece(tx.NetProceeds(), chunks[0].qty, tx.qty, |chunks| == 1, given, rules.round6);
      WashChunks(rules, tx, sym, WashChunk(rules, tx, sym, w, chunks[0], proceeds), chunks[1..], given + proceeds)
  }

  /** The whole sell: consume lots, burn every source before any matching, then wash chunk by chunk. */
  ghost function SellStep(rules: Rules, tx: Tx, sym: string, w: Wash): Wash
    requires Positive(w.lots) && 0.0 < tx.qty <= Sum(w.lots, LotQty)
  {
    TakeQty(w.lots, tx.qty);
    var t := TakeChunks(w.lots, tx.qty);
    WashChunks(rules, tx, sym, w.(lots := t.rest, caps := Burn(w.caps, t.chunks)), t.chunks, 0.0)
  }

  // ---------------------------------------------------------------- the loops

  lemma BurnHead(caps: seq<BuyCap>, chunks: seq<Chunk>, i: nat)
    requires i < |chunks|
    ensures Burn(caps, chunks[i..]) == Burn(BurnOne(caps, chunks[i]), chunks[i + 1..])
  {
    DropHead(chunks, i);
  }

  /** Finds the chunk's own buy and takes the sold shares off its capacity, never below zero. */
  method BurnChunk(caps: seq<BuyCap>, c: Chunk) returns (burned: seq<BuyCap>)
    ensures burned == BurnOne(caps, c)
  {
    burned := caps;
    var k := 0;
    while k < |burned| && burned[k].id != c.buyId
      invariant 0 <= k <= |burned|
      invariant forall j :: 0 <= j < k ==> burned[j].id != c.buyId
    {
      k := k + 1;
    }
    assert k == CapIndex(burned, c.buyId);
    if k < |burned| {
      burned := burned[k := burned[k].(cap := burned[k].cap - Min(c.qty, burned[k].cap))];
    }
  }

  method BurnCapacity(caps: seq<BuyCap>, chunks: seq<Chunk>) returns (burned: seq<BuyCap>)
    ensures burned == Burn(caps, chunks)
  {
    burned := caps;
    var i := 0;
    assert chunks[0..] == chunks;
    while i < |chunks|
      invariant 0 <= i <= |chunks|
      invariant Burn(caps, chunks) == Burn(burned, chunks[i..])
    {
      BurnHead(burned, chunks, i);
      burned := BurnChunk(burned, chunks[i]);
      i := i + 1;
    }
  }

  function After(done: seq<Match>, r: Matched): Matched { Matched(r.caps, done + r.matches) }

  lemma AfterAfter(done: seq<Match>, m: Match, r: Matched)
    ensures After(done, After([m], r)) == After(done + [m], r)
  {
    assert done + ([m] + r.matches) == (done + [m]) + r.matches;
  }

  /** The matching loop, stopping as soon as the whole chunk has been replaced. */
  method MatchWindow(caps: seq<BuyCap>, sym: string, lo: int, hi: int, qty: real)
    returns (left: seq<BuyCap>, matches: seq<Match>, replaced: real)
    ensures Matched(left, matches) == MatchBuys(caps, 0, sym, lo, hi, qty)
    ensures replaced == Sum(matches, MatchQty)
  {
    left, matches, replaced := caps, [], 0.0;
    var k := 0;
    while k < |left| && replaced < qty
      invariant 0 <= k <= |left| == |caps|
      invariant replaced == Sum(matches, MatchQty)
      invariant MatchBuys(caps, 0, sym, lo, hi, qty) == After(matches, MatchBuys(left, k, sym, lo, hi, qty - replaced))
    {
      var b := left[k];
      ghost var before, ahead := matches, MatchBuys(left, k, sym, lo, hi, qty - replaced);
      if InWindow(b, sym, lo, hi) {
        var take := Min(qty - replaced, b.cap);
        if take > 0.0 {
          left := left[k := b.(cap := b.cap - take)];
          replaced := replaced + take;
          var m := Match(b.id, b.ts, b.date, take);
          matches := matches + [m];
          SumSnoc(before, m, MatchQty);
          ghost var next := MatchBuys(left, k + 1, sym, lo, hi, qty - replaced);
          assert ahead == After([m], next);
          AfterAfter(before, m, next);
        }
      }
      k := k + 1;
    }
    assert MatchBuys(left, k, sym, lo, hi, qty - replaced).matches == [];
  }

  method CarryMatches(rules: Rules, tx: Tx, w: Wash, ms: seq<Match>, disallowed: real, replaced: real, held: int)
    returns (r: Wash)
    requires replaced > 0.0 && forall i :: 0 <= i < |ms| ==> ms[i].qty > 0.0
    ensures r == CarryAll(rules, tx, w, ms, disallowed, replaced, 0.0, held)
  {
    r := w;
    var j, given := 0, 0.0;
    assert ms[0..] == ms;
    while j < |ms|
      invariant 0 <= j <= |ms|
      invariant CarryAll(rules, tx, w, ms, disallowed, replaced, 0.0, held) ==
                CarryAll(rules, tx, r, ms[j..], disallowed, replaced, given, held)
    {
      assert ms[j..][0] == ms[j] && ms[j..][1..] == ms[j + 1..];
      var m := ms[j];
      var amount := Piece(disallowed, m.qty, replaced, j == |ms| - 1, given, rules.round6);
      given := given + amount;
      var add, anchor := amount / m.qty, Tack(rules, m.date, held);
      if Earlier(m.ts, m.id, tx) {
        var lots := AdjustHeldLots(r.lots, m.id, m.qty, add, anchor);
        r := r.(lots := lots);
      } else {
        r := r.(pending := r.pending[m.id := Owed(r.pending, m.id) + [PendingAdj(m.qty, add, anchor)]]);
      }
      j := j + 1;
    }
  }

  /** One more chunk of the sell. */
  lemma WashChunksHead(rules: Rules, tx: Tx, sym: string, w: Wash, chunks: seq<Chunk>, k: nat, given: real,
                       proceeds: real)
    requires tx.qty > 0.0 && forall i :: 0 <= i < |chunks| ==> chunks[i].qty > 0.0
    requires k < |chunks|
    requires proceeds == Piece(tx.NetProceeds(), chunks[k].qty, tx.qty, k == |chunks| - 1, given, rules.round6)
    ensures WashChunks(rules, tx, sym, w, chunks[k..], given) ==
            WashChunks(rules, tx, sym, WashChunk(rules, tx, sym, w, chunks[k], proceeds), chunks[k + 1..],
                       given + proceeds)
  {
    DropHead(chunks, k);
  }

  method SellAndWash(rules: Rules, tx: Tx, sym: string, w: Wash) returns (r: Wash)
    requires Positive(w.lots) && 0.0 < tx.qty <= Sum(w.lots, LotQty)
    ensures r == SellStep(rules, tx, sym, w)
  {
    var sold := rules.ny(tx.ts);
    var total := tx.NetProceeds();
    TakeQty(w.lots, tx.qty);
    var chunks, rest := TakeFifo(w.lots, tx.qty);
    var caps := BurnCapacity(w.caps, chunks);
    r := w.(lots := rest, caps := caps);
    var k, given := 0, 0.0;
    assert chunks[0..] == chunks;
    while k < |chunks|
      invariant 0 <= k <= |chunks|
      invariant SellStep(rules, tx, sym, w) == WashChunks(rules, tx, sym, r, chunks[k..], given)
    {
      var c := chunks[k];
      var proceeds := Piece(total, c.qty, tx.qty, k == |chunks| - 1, given, rules.round6);
      WashChunksHead(rules, tx, sym, r, chunks, k, given, proceeds);
      given := given + proceeds;
      r := SellChunk(rules, tx, sym, r, c, proceeds);
      k := k + 1;
    }
  }

  method SellChunk(rules: Rules, tx: Tx, sym: string, w: Wash, c: Chunk, proceeds: real) returns (r: Wash)
    requires c.qty > 0.0
    ensures r == WashChunk(rules, tx, sym, w, c, proceeds)
  {
    var sold := rules.ny(tx.ts);
    r := w;
    var disallowed := 0.0;
    var loss := c.basis - proceeds;
    if loss > 0.0 {
      var caps, matches, replaced := MatchWindow(w.caps, sym, sold - 30, sold + 30, c.qty);
      if replaced > 0.0 {
        disallowed := Disallowed(rules, loss, replaced, c.qty);
        r := CarryMatches(rules, tx, w.(caps := caps), matches, disallowed, replaced, sold - c.holdingFrom);
      }
    }
    r := r.(out := r.out + [Disposal(sym, c.qty, c.holdingFrom, sold, proceeds, c.basis, disallowed)]);
  }
}
