/**
 * The capacity invariant the tax ledger relies on and never writes down: what a buy may still replace never exceeds
 * what is held of it, and for a buy still to come it is its quantity less what is already owed to it.
 */
module Capacity {
  import opened Sums
  import opened Log
  import opened TaxLots
  import opened WashSale

  function AdjQty(a: PendingAdj): real { a.qty }

  function AdjValue(a: PendingAdj): real { a.qty * a.perShareAdd }

  /** Shares of one buy among the matches not carried yet. */
  function Due(ms: seq<Match>, id: int): real {
    if ms == [] then 0.0 else (if ms[0].id == id then ms[0].qty else 0.0) + Due(ms[1..], id)
  }

  function OwedQty(pending: Pending, id: int): real { Sum(Owed(pending, id), AdjQty) }

  ghost predicate DistinctIds(caps: seq<BuyCap>) {
    forall i, j :: 0 <= i < j < |caps| ==> caps[i].id != caps[j].id
  }

  /** The same buys, with capacities free to differ. */
  ghost predicate SameBuys(a: seq<BuyCap>, b: seq<BuyCap>) {
    |a| == |b| && forall k :: 0 <= k < |a| ==> a[k] == b[k].(cap := a[k].cap)
  }

  ghost predicate PositiveMatches(ms: seq<Match>) {
    forall i :: 0 <= i < |ms| ==> ms[i].qty > 0.0
  }

  /** Every match names a buy of `sym` with that buy's own instant and date. */
  ghost predicate Located(ms: seq<Match>, caps: seq<BuyCap>, sym: string) {
    forall i :: 0 <= i < |ms| ==> LocatedAt(ms[i], caps, sym, CapIndex(caps, ms[i].id))
  }

  ghost predicate LocatedAt(m: Match, caps: seq<BuyCap>, sym: string, k: nat) {
    k < |caps| && caps[k].id == m.id && caps[k].ts == m.ts && caps[k].date == m.date && caps[k].symbol == sym
  }

  // ---------------------------------------------------------------- what burning does

  lemma {:induction false} HeldChunksNonNegative(chunks: seq<Chunk>, id: int)
    requires PositiveChunks(chunks)
    ensures HeldChunks(chunks, id) >= 0.0
  {
    if chunks != [] { HeldChunksNonNegative(chunks[1..], id); }
  }

  lemma {:induction false} HeldNonNegative(lots: seq<TaxLot>, id: int)
    requires Positive(lots)
    ensures Held(lots, id) >= 0.0
  {
    if lots != [] { HeldNonNegative(lots[1..], id); }
  }

  lemma BurnOneAt(caps: seq<BuyCap>, c: Chunk, k: nat)
    requires DistinctIds(caps) && k < |caps|
    ensures var b := BurnOne(caps, c);
      && SameBuys(b, caps) && DistinctIds(b)
      && b[k].cap == (if caps[k].id == c.buyId then caps[k].cap - Min(c.qty, caps[k].cap) else caps[k].cap)
  {
  }

  /** Burning takes from each buy exactly the shares of it that were sold, down to zero. */
  lemma {:induction false} BurnAt(caps: seq<BuyCap>, chunks: seq<Chunk>, k: nat)
    requires DistinctIds(caps) && PositiveChunks(chunks) && k < |caps|
    ensures var b := Burn(caps, chunks);
      && SameBuys(b, caps) && DistinctIds(b)
      && (caps[k].cap >= 0.0 ==> b[k].cap == Max(0.0, caps[k].cap - HeldChunks(chunks, caps[k].id)))
      && (HeldChunks(chunks, caps[k].id) == 0.0 ==> b[k].cap == caps[k].cap)
    decreases chunks
  {
    if chunks != [] {
      var one, rest := BurnOne(caps, chunks[0]), chunks[1..];
      BurnOneAt(caps, chunks[0], k);
      BurnAt(one, rest, k);
      assert one[k].id == caps[k].id;
      SameBuysTransitive(Burn(one, rest), one, caps);
      HeldChunksNonNegative(rest, caps[k].id);
    }
  }

  lemma {:induction false} UnknownBuyNotSold(chunks: seq<Chunk>, dates: map<int, int>, id: int)
    requires DatedChunks(chunks, dates) && id !in dates
    ensures HeldChunks(chunks, id) == 0.0
  {
    if chunks != [] { UnknownBuyNotSold(chunks[1..], dates, id); }
  }

  // ---------------------------------------------------------------- what matching does

  lemma {:induction false} DueNonNegative(ms: seq<Match>, id: int)
    requires PositiveMatches(ms)
    ensures Due(ms, id) >= 0.0
  {
    if ms != [] { DueNonNegative(ms[1..], id); }
  }

  lemma DueCons(m: Match, ms: seq<Match>, id: int)
    ensures Due([m] + ms, id) == (if m.id == id then m.qty else 0.0) + Due(ms, id)
  {
    assert ([m] + ms)[1..] == ms;
  }

  lemma SetCap(caps: seq<BuyCap>, k: nat, cap: real)
    requires k < |caps|
    ensures SameBuys(caps[k := caps[k].(cap := cap)], caps)
    ensures DistinctIds(caps) ==> DistinctIds(caps[k := caps[k].(cap := cap)])
  {
  }

  lemma SameBuysTransitive(a: seq<BuyCap>, b: seq<BuyCap>, c: seq<BuyCap>)
    requires SameBuys(a, b) && SameBuys(b, c)
    ensures SameBuys(a, c)
  {
  }

  lemma SameBuysDistinct(a: seq<BuyCap>, b: seq<BuyCap>)
    requires SameBuys(a, b) && DistinctIds(b)
    ensures DistinctIds(a)
  {
  }

  /** What the entry at position `k` gives to a match that still needs `need`. */
  function Given(b: BuyCap, sym: string, lo: int, hi: int, need: real): real {
    if InWindow(b, sym, lo, hi) then Min(need, b.cap) else 0.0
  }

  lemma MatchHead(caps: seq<BuyCap>, k: nat, sym: string, lo: int, hi: int, need: real)
    requires k < |caps| && need > 0.0
    ensures var b, take := caps[k], Given(caps[k], sym, lo, hi, need);
      var rest := MatchBuys(caps[k := b.(cap := b.cap - take)], k + 1, sym, lo, hi, need - take);
      MatchBuys(caps, k, sym, lo, hi, need) ==
      if take > 0.0 then Matched(rest.caps, [Match(b.id, b.ts, b.date, take)] + rest.matches)
      else MatchBuys(caps, k + 1, sym, lo, hi, need)
  {
  }

  /** What matching does to one entry of the table. */
  ghost predicate MatchedAt(caps: seq<BuyCap>, k: nat, sym: string, j: nat, r: Matched)
    requires j < |caps| == |r.caps|
  {
    && r.caps[j].cap + Due(r.matches, caps[j].id) == caps[j].cap
    && (j < k || caps[j].symbol != sym || caps[j].cap < 0.0 ==>
          r.caps[j].cap == caps[j].cap && Due(r.matches, caps[j].id) == 0.0)
    && (caps[j].cap >= 0.0 ==> r.caps[j].cap >= 0.0)
  }

  lemma MatchedNext(caps: seq<BuyCap>, k: nat, sym: string, lo: int, hi: int, need: real, j: nat, rest: Matched)
    requires DistinctIds(caps) && k < |caps| && j < |caps| == |rest.caps|
    requires var take := Given(caps[k], sym, lo, hi, need);
      take > 0.0 && MatchedAt(caps[k := caps[k].(cap := caps[k].cap - take)], k + 1, sym, j, rest)
    ensures var take := Given(caps[k], sym, lo, hi, need);
      MatchedAt(caps, k, sym, j,
                Matched(rest.caps, [Match(caps[k].id, caps[k].ts, caps[k].date, take)] + rest.matches))
  {
    var b, take := caps[k], Given(caps[k], sym, lo, hi, need);
    DueCons(Match(b.id, b.ts, b.date, take), rest.matches, caps[j].id);
    assert j != k ==> caps[j].id != b.id;
  }

  lemma MatchedNone(caps: seq<BuyCap>, k: nat, sym: string, j: nat)
    requires j < |caps|
    ensures MatchedAt(caps, k, sym, j, Matched(caps, []))
  {
  }

  lemma MatchedEarlier(caps: seq<BuyCap>, k: nat, sym: string, j: nat, r: Matched)
    requires j < |caps| == |r.caps| && MatchedAt(caps, k + 1, sym, j, r)
    ensures MatchedAt(caps, k, sym, j, r)
  {
  }

  lemma {:induction false} MatchKeepsBuys(caps: seq<BuyCap>, k: nat, sym: string, lo: int, hi: int, need: real)
    requires k <= |caps|
    ensures SameBuys(MatchBuys(caps, k, sym, lo, hi, need).caps, caps)
    decreases |caps| - k
  {
    if k < |caps| && need > 0.0 {
      var take := Given(caps[k], sym, lo, hi, need);
      MatchHead(caps, k, sym, lo, hi, need);
      if take > 0.0 {
        var caps' := caps[k := caps[k].(cap := caps[k].cap - take)];
        SetCap(caps, k, caps[k].cap - take);
        MatchKeepsBuys(caps', k + 1, sym, lo, hi, need - take);
        SameBuysTransitive(MatchBuys(caps', k + 1, sym, lo, hi, need - take).caps, caps', caps);
      } else {
        MatchKeepsBuys(caps, k + 1, sym, lo, hi, need);
      }
    }
  }

  /** Each buy's capacity falls by exactly what was matched against it; entries before `k` are left alone. */
  lemma {:induction false} MatchAt(caps: seq<BuyCap>, k: nat, sym: string, lo: int, hi: int, need: real, j: nat)
    requires DistinctIds(caps) && k <= |caps| && j < |caps|
    ensures MatchedAt(caps, k, sym, j, MatchBuys(caps, k, sym, lo, hi, need))
    decreases |caps| - k
  {
    if k == |caps| || need <= 0.0 {
      MatchedNone(caps, k, sym, j);
    } else {
      var take := Given(caps[k], sym, lo, hi, need);
      MatchHead(caps, k, sym, lo, hi, need);
      if take > 0.0 {
        var caps' := caps[k := caps[k].(cap := caps[k].cap - take)];
        SetCap(caps, k, caps[k].cap - take);
        MatchAt(caps', k + 1, sym, lo, hi, need - take, j);
        MatchedNext(caps, k, sym, lo, hi, need, j, MatchBuys(caps', k + 1, sym, lo, hi, need - take));
      } else {
        MatchAt(caps, k + 1, sym, lo, hi, need, j);
        MatchedEarlier(caps, k, sym, j, MatchBuys(caps, k + 1, sym, lo, hi, need));
      }
    }
  }

  lemma LocatedCons(m: Match, ms: seq<Match>, caps: seq<BuyCap>, sym: string, k: nat)
    requires DistinctIds(caps) && LocatedAt(m, caps, sym, k) && Located(ms, caps, sym)
    ensures Located([m] + ms, caps, sym)
  {
    assert CapIndex(caps, m.id) == k;
    forall i | 0 <= i < |[m] + ms|
      ensures LocatedAt(([m] + ms)[i], caps, sym, CapIndex(caps, ([m] + ms)[i].id))
    {
      if i > 0 {
        assert ([m] + ms)[i] == ms[i - 1];
      }
    }
  }

  lemma LocatedNext(caps: seq<BuyCap>, k: nat, sym: string, take: real, rest: seq<Match>)
    requires DistinctIds(caps) && k < |caps| && caps[k].symbol == sym
    requires Located(rest, caps[k := caps[k].(cap := caps[k].cap - take)], sym)
    ensures Located([Match(caps[k].id, caps[k].ts, caps[k].date, take)] + rest, caps, sym)
  {
    var caps' := caps[k := caps[k].(cap := caps[k].cap - take)];
    SetCap(caps, k, caps[k].cap - take);
    LocatedInSame(rest, caps', caps, sym);
    LocatedCons(Match(caps[k].id, caps[k].ts, caps[k].date, take), rest, caps, sym, k);
  }

  lemma {:induction false} MatchLocated(caps: seq<BuyCap>, k: nat, sym: string, lo: int, hi: int, need: real)
    requires DistinctIds(caps) && k <= |caps|
    ensures Located(MatchBuys(caps, k, sym, lo, hi, need).matches, caps, sym)
    decreases |caps| - k
  {
    if k < |caps| && need > 0.0 {
      var take := Given(caps[k], sym, lo, hi, need);
      MatchHead(caps, k, sym, lo, hi, need);
      if take > 0.0 {
        var caps' := caps[k := caps[k].(cap := caps[k].cap - take)];
        SetCap(caps, k, caps[k].cap - take);
        MatchLocated(caps', k + 1, sym, lo, hi, need - take);
        LocatedNext(caps, k, sym, take, MatchBuys(caps', k + 1, sym, lo, hi, need - take).matches);
      } else {
        MatchLocated(caps, k + 1, sym, lo, hi, need);
      }
    }
  }

  lemma LocatedInSame(ms: seq<Match>, a: seq<BuyCap>, b: seq<BuyCap>, sym: string)
    requires Located(ms, a, sym) && SameBuys(a, b) && DistinctIds(a)
    ensures Located(ms, b, sym)
  {
    forall i | 0 <= i < |ms|
      ensures LocatedAt(ms[i], b, sym, CapIndex(b, ms[i].id))
    {
      var k := CapIndex(a, ms[i].id);
      assert LocatedAt(ms[i], a, sym, k);
      assert b[k].id == ms[i].id;
      assert CapIndex(b, ms[i].id) == k;
    }
  }

  /** Capacity on offer in the window. */
  function WindowCapacity(caps: seq<BuyCap>, k: nat, sym: string, lo: int, hi: int): real
    requires k <= |caps|
    decreases |caps| - k
  {
    if k == |caps| then 0.0
    else (if InWindow(caps[k], sym, lo, hi) then Max(0.0, caps[k].cap) else 0.0)
         + WindowCapacity(caps, k + 1, sym, lo, hi)
  }

  lemma {:induction false} WindowCapacityNonNegative(caps: seq<BuyCap>, k: nat, sym: string, lo: int, hi: int)
    requires k <= |caps|
    ensures WindowCapacity(caps, k, sym, lo, hi) >= 0.0
    decreases |caps| - k
  {
    if k < |caps| { WindowCapacityNonNegative(caps, k + 1, sym, lo, hi); }
  }

  lemma {:induction false} WindowCapacitySkips(caps: seq<BuyCap>, j: nat, b: BuyCap, k: nat, sym: string, lo: int,
                                               hi: int)
    requires j < k <= |caps|
    ensures WindowCapacity(caps[j := b], k, sym, lo, hi) == WindowCapacity(caps, k, sym, lo, hi)
    decreases |caps| - k
  {
    if k < |caps| { WindowCapacitySkips(caps, j, b, k + 1, sym, lo, hi); }
  }

  /** Matching is complete: it replaces the whole chunk, or everything the window has to offer. */
  lemma {:induction false} MatchTakesAll(caps: seq<BuyCap>, k: nat, sym: string, lo: int, hi: int, need: real)
    requires k <= |caps| && need >= 0.0
    ensures Sum(MatchBuys(caps, k, sym, lo, hi, need).matches, MatchQty) ==
            Min(need, WindowCapacity(caps, k, sym, lo, hi))
    decreases |caps| - k
  {
    WindowCapacityNonNegative(caps, k, sym, lo, hi);
    if k < |caps| && need > 0.0 {
      WindowCapacityNonNegative(caps, k + 1, sym, lo, hi);
      var b := caps[k];
      var take := if InWindow(b, sym, lo, hi) then Min(need, b.cap) else 0.0;
      if take > 0.0 {
        var b' := b.(cap := b.cap - take);
        MatchTakesAll(caps[k := b'], k + 1, sym, lo, hi, need - take);
        WindowCapacitySkips(caps, k, b', k + 1, sym, lo, hi);
        var rest := MatchBuys(caps[k := b'], k + 1, sym, lo, hi, need - take).matches;
        assert MatchBuys(caps, k, sym, lo, hi, need).matches[1..] == rest;
      } else {
        MatchTakesAll(caps, k + 1, sym, lo, hi, need);
      }
    }
  }

  // ---------------------------------------------------------------- the invariant for one symbol

  /**
   * `n` buys of the log have been replayed. A replayed buy's capacity, with the matches still due, is covered by its
   * held shares and nothing is owed to it; a later buy's quantity splits into capacity, owed and due.
   */
  ghost predicate CapInv(sym: string, lots: seq<TaxLot>, caps: seq<BuyCap>, pending: Pending, qtys: seq<real>, n: nat,
                         due: seq<Match>)
    requires |caps| == |qtys|
  {
    forall k :: 0 <= k < |caps| && caps[k].symbol == sym ==> CapInvAt(lots, caps[k], pending, qtys[k], k < n, due)
  }

  ghost predicate CapInvAt(lots: seq<TaxLot>, b: BuyCap, pending: Pending, qty: real, replayed: bool, due: seq<Match>) {
    if replayed then
      0.0 <= b.cap && b.cap + Due(due, b.id) <= Held(lots, b.id) && b.id !in pending
    else
      && b.cap + Due(due, b.id) + OwedQty(pending, b.id) == qty
      && (b.cap >= 0.0 || (b.id !in pending && Due(due, b.id) == 0.0))
  }

  ghost predicate PositivePending(pending: Pending) {
    forall id, i :: id in pending && 0 <= i < |pending[id]| ==> pending[id][i].qty > 0.0
  }

  /** Exactly the first `n` buys come before `tx` in replay order. */
  ghost predicate Frontier(caps: seq<BuyCap>, n: nat, tx: Tx) {
    n <= |caps| && forall k :: 0 <= k < |caps| ==> (k < n <==> Earlier(caps[k].ts, caps[k].id, tx))
  }

  /** `dates` lists the replayed buys of `sym` with their own dates. */
  ghost predicate DatesOf(dates: map<int, int>, caps: seq<BuyCap>, n: nat, sym: string) {
    && (forall k :: 0 <= k < |caps| && caps[k].id in dates ==> k < n && caps[k].symbol == sym)
    && (forall k :: 0 <= k < n <= |caps| && caps[k].symbol == sym ==>
          caps[k].id in dates && dates[caps[k].id] == caps[k].date)
  }

  lemma BurnKeepsCapacity(sym: string, lots: seq<TaxLot>, caps: seq<BuyCap>, pending: Pending, qtys: seq<real>, n: nat,
                          want: real, dates: map<int, int>)
    requires |caps| == |qtys| && DistinctIds(caps) && CapInv(sym, lots, caps, pending, qtys, n, [])
    requires Positive(lots) && 0.0 <= want <= Sum(lots, LotQty)
    requires Dated(lots, dates) && DatesOf(dates, caps, n, sym)
    ensures var t := TakeChunks(lots, want);
      && SameBuys(Burn(caps, t.chunks), caps)
      && CapInv(sym, t.rest, Burn(caps, t.chunks), pending, qtys, n, [])
      && (forall k :: 0 <= k < |caps| && caps[k].symbol != sym ==> Burn(caps, t.chunks)[k] == caps[k])
  {
    var t := TakeChunks(lots, want);
    TakeQty(lots, want);
    TakeDated(lots, want, dates);
    BurnKeepsBuys(caps, t.chunks);
    forall k | 0 <= k < |caps|
      ensures BurnedAt(sym, t.rest, caps[k], Burn(caps, t.chunks)[k], pending, qtys[k], k < n)
    {
      TakeHeld(lots, want, caps[k].id);
      BurnKeepsAt(sym, lots, caps, pending, qtys[k], n, t.chunks, t.rest, dates, k);
    }
    var burned := Burn(caps, t.chunks);
    forall k | 0 <= k < |burned| && burned[k].symbol == sym
      ensures CapInvAt(t.rest, burned[k], pending, qtys[k], k < n, [])
    {
      assert BurnedAt(sym, t.rest, caps[k], burned[k], pending, qtys[k], k < n);
    }
    forall k | 0 <= k < |caps| && caps[k].symbol != sym ensures burned[k] == caps[k] {
      assert BurnedAt(sym, t.rest, caps[k], burned[k], pending, qtys[k], k < n);
    }
  }

  lemma BurnKeepsBuys(caps: seq<BuyCap>, chunks: seq<Chunk>)
    requires DistinctIds(caps) && PositiveChunks(chunks)
    ensures SameBuys(Burn(caps, chunks), caps)
  {
    if caps == [] {
      BurnEmpty(chunks);
    } else {
      BurnAt(caps, chunks, 0);
    }
  }

  /** What burning leaves of one entry. */
  ghost predicate BurnedAt(sym: string, rest: seq<TaxLot>, b: BuyCap, burned: BuyCap, pending: Pending, qty: real,
                           replayed: bool)
  {
    if b.symbol == sym then CapInvAt(rest, burned, pending, qty, replayed, []) else burned == b
  }

  lemma BurnKeepsAt(sym: string, lots: seq<TaxLot>, caps: seq<BuyCap>, pending: Pending, qty: real, n: nat,
                    chunks: seq<Chunk>, rest: seq<TaxLot>, dates: map<int, int>, k: nat)
    requires DistinctIds(caps) && k < |caps| && DatesOf(dates, caps, n, sym)
    requires caps[k].symbol == sym ==> CapInvAt(lots, caps[k], pending, qty, k < n, [])
    requires PositiveChunks(chunks) && DatedChunks(chunks, dates) && Positive(rest)
    requires HeldChunks(chunks, caps[k].id) + Held(rest, caps[k].id) == Held(lots, caps[k].id)
    ensures |Burn(caps, chunks)| == |caps|
    ensures BurnedAt(sym, rest, caps[k], Burn(caps, chunks)[k], pending, qty, k < n)
  {
    var sold := HeldChunks(chunks, caps[k].id);
    if k >= n || caps[k].symbol != sym {
      UnknownBuyNotSold(chunks, dates, caps[k].id);
    }
    HeldNonNegative(rest, caps[k].id);
    BurnedEntry(caps, chunks, k, sold);
    if caps[k].symbol == sym {
      BurnCovers(lots, rest, caps[k], Burn(caps, chunks)[k], pending, qty, k < n, sold);
    }
  }

  lemma BurnedEntry(caps: seq<BuyCap>, chunks: seq<Chunk>, k: nat, sold: real)
    requires DistinctIds(caps) && PositiveChunks(chunks) && k < |caps| && sold == HeldChunks(chunks, caps[k].id)
    ensures var b := Burn(caps, chunks);
      && |b| == |caps| && b[k] == caps[k].(cap := b[k].cap)
      && (caps[k].cap >= 0.0 ==> b[k].cap == Max(0.0, caps[k].cap - sold))
      && (sold == 0.0 ==> b[k] == caps[k])
  {
    BurnAt(caps, chunks, k);
  }

  lemma BurnCovers(lots: seq<TaxLot>, rest: seq<TaxLot>, b: BuyCap, burned: BuyCap, pending: Pending, qty: real,
                   replayed: bool, sold: real)
    requires CapInvAt(lots, b, pending, qty, replayed, []) && Held(rest, b.id) == Held(lots, b.id) - sold >= 0.0
    requires burned.id == b.id && (!replayed ==> sold == 0.0)
    requires b.cap >= 0.0 ==> burned.cap == Max(0.0, b.cap - sold)
    requires sold == 0.0 ==> burned.cap == b.cap
    ensures CapInvAt(rest, burned, pending, qty, replayed, [])
  {
  }

  lemma {:induction false} BurnEmpty(chunks: seq<Chunk>)
    ensures Burn([], chunks) == []
  {
    if chunks != [] { BurnEmpty(chunks[1..]); }
  }

  /** Matching turns capacity into matches that are due. */
  lemma MatchKeepsCapacity(sym: string, w: Wash, qtys: seq<real>, n: nat, lo: int, hi: int, need: real)
    requires |w.caps| == |qtys| && DistinctIds(w.caps) && CapInv(sym, w.lots, w.caps, w.pending, qtys, n, [])
    ensures var m := MatchBuys(w.caps, 0, sym, lo, hi, need);
      && SameBuys(m.caps, w.caps) && DistinctIds(m.caps)
      && CapInv(sym, w.lots, m.caps, w.pending, qtys, n, m.matches)
      && (forall k :: 0 <= k < |w.caps| && w.caps[k].symbol != sym ==> m.caps[k] == w.caps[k])
      && Located(m.matches, m.caps, sym)
  {
    var m := MatchBuys(w.caps, 0, sym, lo, hi, need);
    MatchKeepsBuys(w.caps, 0, sym, lo, hi, need);
    SameBuysDistinct(m.caps, w.caps);
    forall k | 0 <= k < |w.caps|
      ensures w.caps[k].symbol == sym ==> CapInvAt(w.lots, m.caps[k], w.pending, qtys[k], k < n, m.matches)
      ensures w.caps[k].symbol != sym ==> m.caps[k] == w.caps[k]
    {
      MatchAt(w.caps, 0, sym, lo, hi, need, k);
      assert Due([], w.caps[k].id) == 0.0;
      DueNonNegative(m.matches, w.caps[k].id);
    }
    MatchLocated(w.caps, 0, sym, lo, hi, need);
    LocatedInSame(m.matches, w.caps, m.caps, sym);
  }
}
