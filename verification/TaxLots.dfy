/** Open tax lots: taking shares from the front, and bumping replacement shares in place. */
module TaxLots {
  import opened Sums

  /** `holdingFrom` is the day number the holding period counts from, tacked for replacement shares. */
  datatype TaxLot = TaxLot(buyId: int, qty: real, unitBasis: real, holdingFrom: int)

  /** The part of one lot that one sell closes. */
  datatype Chunk = Chunk(buyId: int, qty: real, basis: real, holdingFrom: int)

  datatype Taken = Taken(chunks: seq<Chunk>, rest: seq<TaxLot>)

  function LotQty(l: TaxLot): real { l.qty }

  function LotBasis(l: TaxLot): real { l.qty * l.unitBasis }

  function ChunkQty(c: Chunk): real { c.qty }

  function ChunkBasis(c: Chunk): real { c.basis }

  /** Shares of one buy among the open lots. */
  function Held(lots: seq<TaxLot>, id: int): real {
    if lots == [] then 0.0
    else (if lots[0].buyId == id then lots[0].qty else 0.0) + Held(lots[1..], id)
  }

  /** Shares of one buy among the chunks of a sell. */
  function HeldChunks(chunks: seq<Chunk>, id: int): real {
    if chunks == [] then 0.0
    else (if chunks[0].buyId == id then chunks[0].qty else 0.0) + HeldChunks(chunks[1..], id)
  }

  ghost predicate Positive(lots: seq<TaxLot>) {
    forall i :: 0 <= i < |lots| ==> lots[i].qty > 0.0
  }

  ghost predicate PositiveChunks(chunks: seq<Chunk>) {
    forall i :: 0 <= i < |chunks| ==> chunks[i].qty > 0.0
  }

  /** Every lot belongs to a buy in `dates` and starts its holding period no later than that buy's own date. */
  ghost predicate Dated(lots: seq<TaxLot>, dates: map<int, int>) {
    forall i :: 0 <= i < |lots| ==> lots[i].buyId in dates && lots[i].holdingFrom <= dates[lots[i].buyId]
  }

  ghost predicate DatedChunks(chunks: seq<Chunk>, dates: map<int, int>) {
    forall i :: 0 <= i < |chunks| ==> chunks[i].buyId in dates && chunks[i].holdingFrom <= dates[chunks[i].buyId]
  }

  // ---------------------------------------------------------------- taking from the front

  function ChunkOf(l: TaxLot, take: real): Chunk {
    Chunk(l.buyId, take, take * l.unitBasis, l.holdingFrom)
  }

  function TakeChunks(lots: seq<TaxLot>, want: real): Taken {
    if want <= 0.0 || lots == [] then Taken([], lots)
    else
      var l := lots[0];
      var take := Min(want, l.qty);
      var c := ChunkOf(l, take);
      if take == l.qty then
        var t := TakeChunks(lots[1..], want - take);
        Taken([c] + t.chunks, t.rest)
      else
        Taken([c], [l.(qty := l.qty - take)] + lots[1..])
  }

  lemma {:induction false} TakeQty(lots: seq<TaxLot>, want: real)
    requires Positive(lots) && 0.0 <= want <= Sum(lots, LotQty)
    ensures var t := TakeChunks(lots, want);
      && Positive(t.rest) && PositiveChunks(t.chunks)
      && Sum(t.chunks, ChunkQty) == want
      && Sum(t.rest, LotQty) == Sum(lots, LotQty) - want
  {
    if want > 0.0 && lots != [] {
      var t := TakeChunks(lots, want);
      if want >= lots[0].qty {
        TakeQty(lots[1..], want - lots[0].qty);
        assert t.chunks[1..] == TakeChunks(lots[1..], want - lots[0].qty).chunks;
      } else {
        assert t.rest[1..] == lots[1..] && t.chunks[1..] == [];
      }
    }
  }

  lemma Distribute(a: real, b: real, c: real)
    ensures (a - b) * c == a * c - b * c
  {
  }

  lemma {:induction false} TakeBasis(lots: seq<TaxLot>, want: real)
    ensures var t := TakeChunks(lots, want);
      Sum(t.chunks, ChunkBasis) + Sum(t.rest, LotBasis) == Sum(lots, LotBasis)
  {
    if want > 0.0 && lots != [] {
      var l := lots[0];
      if want >= l.qty {
        TakeBasis(lots[1..], want - l.qty);
        var t, rest := TakeChunks(lots, want), TakeChunks(lots[1..], want - l.qty);
        assert t == Taken([ChunkOf(l, l.qty)] + rest.chunks, rest.rest) && t.chunks[1..] == rest.chunks;
        assert ChunkBasis(ChunkOf(l, l.qty)) == LotBasis(l);
      } else {
        TakeBasisPart(lots, want);
      }
    }
  }

  lemma TakeBasisPart(lots: seq<TaxLot>, want: real)
    requires lots != [] && 0.0 < want < lots[0].qty
    ensures var t := TakeChunks(lots, want);
      Sum(t.chunks, ChunkBasis) + Sum(t.rest, LotBasis) == Sum(lots, LotBasis)
  {
    var l, left := lots[0], lots[0].(qty := lots[0].qty - want);
    var t := TakeChunks(lots, want);
    assert t == Taken([ChunkOf(l, want)], [left] + lots[1..]) && t.rest[1..] == lots[1..] && t.chunks[1..] == [];
    Distribute(l.qty, want, l.unitBasis);
    assert LotBasis(left) == LotBasis(l) - ChunkBasis(ChunkOf(l, want));
  }

  lemma {:induction false} TakeHeld(lots: seq<TaxLot>, want: real, id: int)
    ensures var t := TakeChunks(lots, want);
      HeldChunks(t.chunks, id) + Held(t.rest, id) == Held(lots, id)
  {
    if want > 0.0 && lots != [] {
      var t, l := TakeChunks(lots, want), lots[0];
      if want >= l.qty {
        TakeHeld(lots[1..], want - l.qty, id);
        assert t.chunks[1..] == TakeChunks(lots[1..], want - l.qty).chunks;
      } else {
        assert t.rest[1..] == lots[1..] && t.chunks[1..] == [];
      }
    }
  }

  lemma {:induction false} TakeDated(lots: seq<TaxLot>, want: real, dates: map<int, int>)
    requires Dated(lots, dates)
    ensures Dated(TakeChunks(lots, want).rest, dates) && DatedChunks(TakeChunks(lots, want).chunks, dates)
  {
    if want > 0.0 && lots != [] && want >= lots[0].qty {
      TakeDated(lots[1..], want - lots[0].qty, dates);
    }
  }

  /** The FIFO loop of a sell; the front lot it reaches for is always there. */
  method TakeFifo(lots: seq<TaxLot>, want: real) returns (chunks: seq<Chunk>, rest: seq<TaxLot>)
    requires Positive(lots) && want <= Sum(lots, LotQty)
    ensures Taken(chunks, rest) == TakeChunks(lots, want)
  {
    chunks, rest := [], lots;
    var remaining := want;
    while remaining > 0.0
      invariant Positive(rest) && remaining <= Sum(rest, LotQty)
      invariant TakeChunks(lots, want) ==
                Taken(chunks + TakeChunks(rest, remaining).chunks, TakeChunks(rest, remaining).rest)
      decreases remaining > 0.0, |rest|
    {
      ghost var ahead := TakeChunks(rest, remaining);
      var lot := rest[0];
      var take := Min(remaining, lot.qty);
      var chunk := ChunkOf(lot, take);
      ghost var done := chunks;
      chunks := chunks + [chunk];
      remaining := remaining - take;
      if lot.qty - take == 0.0 {
        rest := rest[1..];
      } else {
        var left := lot.(qty := lot.qty - take);
        assert ([left] + rest[1..])[1..] == rest[1..];
        rest := [left] + rest[1..];
      }
      ghost var next := TakeChunks(rest, remaining);
      assert ahead.chunks == [chunk] + next.chunks;
      assert ahead.rest == next.rest;
      assert done + ([chunk] + next.chunks) == chunks + next.chunks;
    }
  }

  // ---------------------------------------------------------------- designating replacement shares

  /** Bump `qty` shares of `buyId`, oldest lots first; an adjusted part goes in front of its remainder. */
  function Adjusted(lots: seq<TaxLot>, buyId: int, qty: real, add: real, anchor: int): seq<TaxLot> {
    if lots == [] || qty <= 0.0 then lots
    else
      var l := lots[0];
      if l.buyId != buyId then [l] + Adjusted(lots[1..], buyId, qty, add, anchor)
      else
        var take := Min(qty, l.qty);
        var bumped := TaxLot(buyId, take, l.unitBasis + add, anchor);
        if take == l.qty then [bumped] + Adjusted(lots[1..], buyId, qty - take, add, anchor)
        else [bumped, l.(qty := l.qty - take)] + lots[1..]
  }

  lemma {:induction false} AdjustedQty(lots: seq<TaxLot>, buyId: int, qty: real, add: real, anchor: int)
    requires Positive(lots)
    ensures var a := Adjusted(lots, buyId, qty, add, anchor);
      Positive(a) && Sum(a, LotQty) == Sum(lots, LotQty)
  {
    if lots != [] && qty > 0.0 {
      var a, l := Adjusted(lots, buyId, qty, add, anchor), lots[0];
      if l.buyId != buyId {
        AdjustedQty(lots[1..], buyId, qty, add, anchor);
        assert a[1..] == Adjusted(lots[1..], buyId, qty, add, anchor);
      } else if qty >= l.qty {
        AdjustedQty(lots[1..], buyId, qty - l.qty, add, anchor);
        assert a[1..] == Adjusted(lots[1..], buyId, qty - l.qty, add, anchor);
      } else {
        assert a[1..] == [l.(qty := l.qty - qty)] + lots[1..] && a[1..][1..] == lots[1..];
      }
    }
  }

  lemma {:induction false} AdjustedHeld(lots: seq<TaxLot>, buyId: int, qty: real, add: real, anchor: int, id: int)
    ensures Held(Adjusted(lots, buyId, qty, add, anchor), id) == Held(lots, id)
  {
    if lots != [] && qty > 0.0 {
      var a, l := Adjusted(lots, buyId, qty, add, anchor), lots[0];
      if l.buyId != buyId {
        AdjustedHeld(lots[1..], buyId, qty, add, anchor, id);
        assert a[1..] == Adjusted(lots[1..], buyId, qty, add, anchor);
      } else if qty >= l.qty {
        AdjustedHeld(lots[1..], buyId, qty - l.qty, add, anchor, id);
        assert a[1..] == Adjusted(lots[1..], buyId, qty - l.qty, add, anchor);
      } else {
        assert a[1..] == [l.(qty := l.qty - qty)] + lots[1..] && a[1..][1..] == lots[1..];
      }
    }
  }

  /** What the adjustment adds, lot by lot. */
  function Placed(lots: seq<TaxLot>, buyId: int, qty: real, add: real): real {
    if lots == [] || qty <= 0.0 then 0.0
    else if lots[0].buyId != buyId then Placed(lots[1..], buyId, qty, add)
    else if qty >= lots[0].qty then Times(lots[0].qty, add) + Placed(lots[1..], buyId, qty - lots[0].qty, add)
    else Times(qty, add)
  }

  lemma {:induction false} PlacedInFull(lots: seq<TaxLot>, buyId: int, qty: real, add: real)
    requires Positive(lots) && 0.0 <= qty <= Held(lots, buyId)
    ensures Placed(lots, buyId, qty, add) == Times(qty, add)
  {
    if lots != [] && qty > 0.0 {
      if lots[0].buyId != buyId {
        PlacedInFull(lots[1..], buyId, qty, add);
      } else if qty >= lots[0].qty {
        PlacedInFull(lots[1..], buyId, qty - lots[0].qty, add);
        TimesAdds(lots[0].qty, qty - lots[0].qty, add);
      }
    }
  }

  lemma {:induction false} AdjustedBasisBy(lots: seq<TaxLot>, buyId: int, qty: real, add: real, anchor: int)
    requires Positive(lots)
    ensures Sum(Adjusted(lots, buyId, qty, add, anchor), LotBasis) ==
            Sum(lots, LotBasis) + Placed(lots, buyId, qty, add)
  {
    if lots != [] && qty > 0.0 {
      if lots[0].buyId != buyId {
        AdjustedBasisBy(lots[1..], buyId, qty, add, anchor);
        AdjustedBasisSkip(lots, buyId, qty, add, anchor, Placed(lots[1..], buyId, qty, add));
      } else if qty >= lots[0].qty {
        var left := qty - lots[0].qty;
        AdjustedBasisBy(lots[1..], buyId, left, add, anchor);
        AdjustedBasisWhole(lots, buyId, qty, add, anchor, Times(lots[0].qty, add), Placed(lots[1..], buyId, left, add));
      } else {
        AdjustedBasisSplit(lots, buyId, qty, add, anchor, Times(qty, add));
      }
    }
  }

  /** The whole designated quantity is placed: the open basis grows by exactly `value`. */
  lemma AdjustedBasis(lots: seq<TaxLot>, buyId: int, qty: real, add: real, anchor: int, value: real)
    requires Positive(lots) && 0.0 <= qty <= Held(lots, buyId) && value == qty * add
    ensures Sum(Adjusted(lots, buyId, qty, add, anchor), LotBasis) == Sum(lots, LotBasis) + value
  {
    AdjustedBasisBy(lots, buyId, qty, add, anchor);
    PlacedInFull(lots, buyId, qty, add);
  }

  lemma AdjustedBasisSkip(lots: seq<TaxLot>, buyId: int, qty: real, add: real, anchor: int, value: real)
    requires lots != [] && lots[0].buyId != buyId && qty > 0.0
    requires Sum(Adjusted(lots[1..], buyId, qty, add, anchor), LotBasis) == Sum(lots[1..], LotBasis) + value
    ensures Sum(Adjusted(lots, buyId, qty, add, anchor), LotBasis) == Sum(lots, LotBasis) + value
  {
    var l, rest := lots[0], Adjusted(lots[1..], buyId, qty, add, anchor);
    assert Adjusted(lots, buyId, qty, add, anchor) == [l] + rest && ([l] + rest)[1..] == rest;
  }

  lemma AdjustedBasisWhole(lots: seq<TaxLot>, buyId: int, qty: real, add: real, anchor: int, placed: real, value: real)
    requires lots != [] && lots[0].buyId == buyId && 0.0 < lots[0].qty <= qty && placed == lots[0].qty * add
    requires Sum(Adjusted(lots[1..], buyId, qty - lots[0].qty, add, anchor), LotBasis) ==
             Sum(lots[1..], LotBasis) + value
    ensures Sum(Adjusted(lots, buyId, qty, add, anchor), LotBasis) == Sum(lots, LotBasis) + (placed + value)
  {
    var l, rest := lots[0], Adjusted(lots[1..], buyId, qty - lots[0].qty, add, anchor);
    var bumped := TaxLot(buyId, l.qty, l.unitBasis + add, anchor);
    assert Adjusted(lots, buyId, qty, add, anchor) == [bumped] + rest && ([bumped] + rest)[1..] == rest;
    assert LotBasis(bumped) == LotBasis(l) + placed;
  }

  lemma AdjustedBasisSplit(lots: seq<TaxLot>, buyId: int, qty: real, add: real, anchor: int, value: real)
    requires lots != [] && lots[0].buyId == buyId && 0.0 < qty < lots[0].qty && value == qty * add
    ensures Sum(Adjusted(lots, buyId, qty, add, anchor), LotBasis) == Sum(lots, LotBasis) + value
  {
    var a, l := Adjusted(lots, buyId, qty, add, anchor), lots[0];
    var bumped, left := TaxLot(buyId, qty, l.unitBasis + add, anchor), l.(qty := l.qty - qty);
    assert a == [bumped] + ([left] + lots[1..]) && a[1..] == [left] + lots[1..] && a[1..][1..] == lots[1..];
    assert LotBasis(bumped) + LotBasis(left) == LotBasis(l) + value;
  }

  lemma {:induction false} AdjustedDated(lots: seq<TaxLot>, buyId: int, qty: real, add: real, anchor: int,
                                         dates: map<int, int>)
    requires Dated(lots, dates) && (buyId in dates ==> anchor <= dates[buyId])
    ensures Dated(Adjusted(lots, buyId, qty, add, anchor), dates)
  {
    if lots != [] && qty > 0.0 {
      var l := lots[0];
      if l.buyId != buyId {
        AdjustedDated(lots[1..], buyId, qty, add, anchor, dates);
      } else if qty >= l.qty {
        AdjustedDated(lots[1..], buyId, qty - l.qty, add, anchor, dates);
      }
    }
  }

  /** One iteration of the loop below, seen from the lots it has not passed yet. */
  lemma AdjustedStep(tail: seq<TaxLot>, buyId: int, qty: real, add: real, anchor: int, take: real, bumped: TaxLot)
    requires tail != [] && qty > 0.0 && take == Min(qty, tail[0].qty)
    requires bumped == TaxLot(buyId, take, tail[0].unitBasis + add, anchor)
    ensures Adjusted(tail, buyId, qty, add, anchor) ==
            if tail[0].buyId != buyId then [tail[0]] + Adjusted(tail[1..], buyId, qty, add, anchor)
            else if take == tail[0].qty then [bumped] + Adjusted(tail[1..], buyId, qty - take, add, anchor)
            else [bumped, tail[0].(qty := tail[0].qty - take)] + Adjusted(tail[1..], buyId, 0.0, add, anchor)
  {
  }

  /** The loop has moved past `piece`: what is done and what is still to do make up the same result. */
  lemma MovedPast(lots: seq<TaxLot>, i: nat, piece: seq<TaxLot>, next: seq<TaxLot>, j: nat, buyId: int, qty: real,
                  left: real, add: real, anchor: int)
    requires i < |lots| && j <= |next| && next[..j] == lots[..i] + piece && next[j..] == lots[i + 1..]
    requires Adjusted(lots[i..], buyId, qty, add, anchor) ==
             piece + Adjusted(lots[i + 1..], buyId, left, add, anchor)
    ensures next[..j] + Adjusted(next[j..], buyId, left, add, anchor) ==
            lots[..i] + Adjusted(lots[i..], buyId, qty, add, anchor)
  {
    assert (lots[..i] + piece) + Adjusted(lots[i + 1..], buyId, left, add, anchor) ==
           lots[..i] + (piece + Adjusted(lots[i + 1..], buyId, left, add, anchor));
  }

  /** The in-place loop: bumps whole lots by index, and inserts the adjusted part before a partly bumped one. */
  method AdjustHeldLots(lots: seq<TaxLot>, buyId: int, qty: real, add: real, anchor: int)
    returns (result: seq<TaxLot>)
    ensures result == Adjusted(lots, buyId, qty, add, anchor)
  {
    result := lots;
    var i, remaining := 0, qty;
    while i < |result| && remaining > 0.0
      invariant 0 <= i <= |result|
      invariant Adjusted(lots, buyId, qty, add, anchor) ==
                result[..i] + Adjusted(result[i..], buyId, remaining, add, anchor)
      decreases |result| - i, remaining > 0.0
    {
      DropHead(result, i);
      var lot := result[i];
      var take := Min(remaining, lot.qty);
      var bumped := TaxLot(buyId, take, lot.unitBasis + add, anchor);
      AdjustedStep(result[i..], buyId, remaining, add, anchor, take, bumped);
      if lot.buyId != buyId {
        ReplaceAt(result, i, lot);
        MovedPast(result, i, [lot], result, i + 1, buyId, remaining, remaining, add, anchor);
        i := i + 1;
        continue;
      }
      if take == lot.qty {
        ReplaceAt(result, i, bumped);
        MovedPast(result, i, [bumped], result[i := bumped], i + 1, buyId, remaining, remaining - take, add, anchor);
        result := result[i := bumped];
        i := i + 1;
      } else {
        var split := [bumped, lot.(qty := lot.qty - take)];
        InsertAt(result, i, split);
        MovedPast(result, i, split, result[..i] + split + result[i + 1..], i + 2, buyId, remaining, 0.0, add, anchor);
        result := result[..i] + split + result[i + 1..];
        i := i + 2;
      }
      remaining := remaining - take;
    }
    assert result[i..] == [] || remaining <= 0.0;
    assert result[..i] + result[i..] == result;
  }

  // ---------------------------------------------------------------- splits

  function ScaleLot(l: TaxLot, ratio: real): TaxLot
    requires ratio > 0.0
  {
    l.(qty := l.qty * ratio, unitBasis := l.unitBasis / ratio)
  }

  function ScaleLots(lots: seq<TaxLot>, ratio: real): seq<TaxLot>
    requires ratio > 0.0
  {
    if lots == [] then [] else [ScaleLot(lots[0], ratio)] + ScaleLots(lots[1..], ratio)
  }

  lemma {:induction false} ScaledEach(lots: seq<TaxLot>, ratio: real)
    requires ratio > 0.0
    ensures |ScaleLots(lots, ratio)| == |lots|
    ensures forall k :: 0 <= k < |lots| ==> ScaleLots(lots, ratio)[k].qty == Times(lots[k].qty, ratio)
  {
    if lots != [] {
      ScaledEach(lots[1..], ratio);
      assert ScaleLots(lots, ratio) == [ScaleLot(lots[0], ratio)] + ScaleLots(lots[1..], ratio);
    }
  }

  lemma ScaleQty(lots: seq<TaxLot>, ratio: real)
    requires ratio > 0.0
    ensures Sum(ScaleLots(lots, ratio), LotQty) == Times(Sum(lots, LotQty), ratio)
  {
    ScaledEach(lots, ratio);
    SumScales(lots, ScaleLots(lots, ratio), LotQty, ratio);
  }

  lemma ScalePositive(lots: seq<TaxLot>, ratio: real)
    requires ratio > 0.0 && Positive(lots)
    ensures Positive(ScaleLots(lots, ratio))
  {
    ScaledEach(lots, ratio);
    forall k | 0 <= k < |lots| ensures Times(lots[k].qty, ratio) > 0.0 {
      MulMono(0.0, lots[k].qty, ratio);
    }
  }

  lemma {:induction false} ScaleBasis(lots: seq<TaxLot>, ratio: real)
    requires ratio > 0.0
    ensures Sum(ScaleLots(lots, ratio), LotBasis) == Sum(lots, LotBasis)
  {
    if lots != [] {
      ScaleBasis(lots[1..], ratio);
      assert ScaleLots(lots, ratio) == [ScaleLot(lots[0], ratio)] + ScaleLots(lots[1..], ratio);
      assert LotBasis(ScaleLot(lots[0], ratio)) == LotBasis(lots[0]);
    }
  }

  lemma {:induction false} ScaleHeld(lots: seq<TaxLot>, ratio: real, id: int)
    requires ratio > 0.0
    ensures Held(ScaleLots(lots, ratio), id) == Held(lots, id) * ratio
  {
    if lots != [] {
      ScaleHeld(lots[1..], ratio, id);
      assert ScaleLots(lots, ratio) == [ScaleLot(lots[0], ratio)] + ScaleLots(lots[1..], ratio);
    }
  }

  lemma {:induction false} ScaleDated(lots: seq<TaxLot>, ratio: real, dates: map<int, int>)
    requires ratio > 0.0 && Dated(lots, dates)
    ensures Dated(ScaleLots(lots, ratio), dates)
  {
    if lots != [] {
      ScaleDated(lots[1..], ratio, dates);
    }
  }

  method ScaleInPlace(lots: seq<TaxLot>, ratio: real) returns (scaled: seq<TaxLot>)
    requires ratio > 0.0
    ensures scaled == ScaleLots(lots, ratio)
  {
    scaled := lots;
    var i := 0;
    assert lots[0..] == lots;
    while i < |lots|
      invariant 0 <= i <= |lots| == |scaled|
      invariant scaled[i..] == lots[i..]
      invariant ScaleLots(lots, ratio) == scaled[..i] + ScaleLots(lots[i..], ratio)
    {
      ghost var before := scaled[..i];
      assert lots[i..][0] == lots[i] == scaled[i] && lots[i..][1..] == lots[i + 1..];
      scaled := scaled[i := ScaleLot(scaled[i], ratio)];
      i := i + 1;
      assert scaled[..i] == before + [scaled[i - 1]];
    }
    assert scaled[..i] == scaled;
  }
}
