/**
 * Two arrangements of imported rows told apart: if one of them always leaves more of some symbol, some stored log
 * replays with it and not with the other.
 */
module AmpleLog {
  import opened Log
  import opened LogOrder
  import opened Sums
  import opened Portfolio
  import opened Import
  import opened ImportOrder
  import opened InstantTotals

  ghost predicate InTime(s: seq<Tx>) { forall i, j :: 0 <= i < j < |s| ==> s[i].ts <= s[j].ts }

  /** Some stored log replays with these rows and not with those. */
  ghost predicate Beaten(those: seq<Tx>, these: seq<Tx>) {
    exists existing ::
      Stored(existing) && Replay(EMPTY, Proposed(existing, these)).Ok? && Replay(EMPTY, Proposed(existing, those)).Err?
  }

  // ---------------------------------------------------------------- enough shares to replay anything

  /** The shares that scale to `n` at this ratio. */
  function Unscaled(n: real, ratio: real): real { if ratio > 0.0 then n / ratio else 0.0 }

  lemma UnscaledIsEnough(n: real, ratio: real, held: real)
    requires n >= 0.0 && ratio > 0.0
    ensures Unscaled(n, ratio) >= 0.0
    ensures held >= Unscaled(n, ratio) ==> Times(held, ratio) >= n
  {
    var share := n / ratio;
    assert share * ratio == n;
    MulMono(share, held, ratio);
  }

  /** Shares of each symbol with which these rows replay, whatever symbols they are about. */
  function Need(s: seq<Tx>): real {
    if s == [] then 0.0
    else if s[0].kind == Sell then Need(s[1..]) + s[0].qty
    else if s[0].kind == Split then Need(s[1..]) + Unscaled(Need(s[1..]), s[0].qty)
    else Need(s[1..])
  }

  lemma {:induction false} NeedNotNegative(s: seq<Tx>)
    requires AllSound(s)
    ensures Need(s) >= 0.0
  {
    if s != [] {
      assert s[0] in s;
      NeedNotNegative(s[1..]);
      if s[0].kind == Split {
        UnscaledIsEnough(Need(s[1..]), s[0].qty, 0.0);
      }
    }
  }

  /** At least this much is held of every symbol the rows are about. */
  ghost predicate HoldsEach(b: Book, s: seq<Tx>, n: real) {
    forall x :: x in s && x.Symbol().Some? ==> Held(b, x.Symbol().value) >= n
  }

  lemma OneLeaves(x: Tx, sym: string, held: real, n: real)
    requires Sound(x) && n >= 0.0
    requires held >= n + (if x.kind == Sell then x.qty else if x.kind == Split then Unscaled(n, x.qty) else 0.0)
    ensures HeldAfter(x, sym, held) >= n
  {
    if x.kind == Split {
      UnscaledIsEnough(n, x.qty, held);
    }
  }

  lemma NeedHead(s: seq<Tx>)
    requires AllSound(s) && s != []
    ensures var n := Need(s[1..]);
      && n >= 0.0
      && Need(s) == n + (if s[0].kind == Sell then s[0].qty
                         else if s[0].kind == Split then Unscaled(n, s[0].qty) else 0.0)
      && (s[0].kind == Sell ==> Need(s) >= s[0].qty)
  {
    NeedNotNegative(s[1..]);
  }

  /** With that much held everywhere the rows replay and never leave less than nothing. */
  lemma {:induction false} EnoughReplays(b: Book, s: seq<Tx>, sym: string)
    requires AllSound(s) && HoldsEach(b, s, Need(s)) && Held(b, sym) >= Need(s)
    ensures Replay(b, s).Ok? && Held(Replay(b, s).value, sym) >= 0.0
    decreases s
  {
    if s != [] {
      var x, rest := s[0], s[1..];
      assert x in s && Sound(x);
      NeedHead(s);
      assert Fits(b, x);
      StepFits(b, x);
      var b1, n := Step(b, x).book, Need(rest);
      forall z | z in rest && z.Symbol().Some? ensures Held(b1, z.Symbol().value) >= n {
        assert z in s;
        OneLeaves(x, z.Symbol().value, Held(b, z.Symbol().value), n);
      }
      OneLeaves(x, sym, Held(b, sym), n);
      EnoughReplays(b1, rest, sym);
    }
  }

  // ---------------------------------------------------------------- what rows leave

  lemma {:induction false} FoldIsHeld(b: Book, s: seq<Tx>, sym: string)
    requires Replay(b, s).Ok?
    ensures Held(Replay(b, s).value, sym) == Fold(s, sym, Held(b, sym))
    decreases s
  {
    if s != [] {
      StepFits(b, s[0]);
      FoldIsHeld(Step(b, s[0]).book, s[1..], sym);
    }
  }

  lemma HeldStrict(x: Tx, sym: string, less: real, more: real)
    requires Sound(x) && less < more
    ensures HeldAfter(x, sym, less) < HeldAfter(x, sym, more)
  {
    if x.kind == Split && x.IsFor(sym) {
      MulMono(less, more, x.qty);
    }
  }

  /** Who holds strictly more before some rows holds strictly more after them. */
  lemma {:induction false} FoldStrict(s: seq<Tx>, sym: string, less: real, more: real)
    requires AllSound(s) && less < more
    ensures Fold(s, sym, less) < Fold(s, sym, more)
    decreases s
  {
    if s != [] {
      assert s[0] in s;
      HeldStrict(s[0], sym, less, more);
      FoldStrict(s[1..], sym, HeldAfter(s[0], sym, less), HeldAfter(s[0], sym, more));
    }
  }

  /** Replacing one stretch of rows by a better one leaves more at the end. */
  lemma BetterRows(front: seq<Tx>, group: seq<Tx>, better: seq<Tx>, back: seq<Tx>, sym: string, held: real)
    requires AllSound(back) && forall h :: Fold(group, sym, h) < Fold(better, sym, h)
    ensures Fold(front + (group + back), sym, held) < Fold(front + (better + back), sym, held)
  {
    var h := Fold(front, sym, held);
    FoldAppend(front, group + back, sym, held);
    FoldAppend(group, back, sym, h);
    FoldAppend(front, better + back, sym, held);
    FoldAppend(better, back, sym, h);
    FoldStrict(back, sym, Fold(group, sym, h), Fold(better, sym, h));
  }

  // ---------------------------------------------------------------- a stored log that tells arrangements apart

  /** A purchase of every listed symbol at one instant. */
  function Purchases(syms: seq<string>, held: real, at: int): (r: seq<Tx>)
    ensures |r| == |syms|
    ensures forall k :: 0 <= k < |r| ==> r[k] == Tx(k + 1, Buy, Some(syms[k]), held, 0.0, 0.0, 0.0, at)
  {
    if syms == [] then []
    else
      var n := |syms| - 1;
      Purchases(syms[..n], held, at) + [Tx(n + 1, Buy, Some(syms[n]), held, 0.0, 0.0, 0.0, at)]
  }

  /** The symbols the rows are about, one for each row that has one. */
  function SymbolsOf(s: seq<Tx>): (r: seq<string>)
    ensures |r| <= |s|
    ensures forall k :: 0 <= k < |r| ==> r[k] != ""
    ensures forall x :: x in s && x.Symbol().Some? ==> x.Symbol().value in r
  {
    if s == [] then []
    else if s[0].Symbol().Some? then [s[0].Symbol().value] + SymbolsOf(s[1..])
    else SymbolsOf(s[1..])
  }

  /** Buying every symbol once replays, and leaves at least that much of each of them and less than nothing of none. */
  lemma {:induction false} PurchasesReplay(syms: seq<string>, held: real, at: int)
    requires held > 0.0 && forall k :: 0 <= k < |syms| ==> syms[k] != ""
    ensures Replay(EMPTY, Purchases(syms, held, at)).Ok?
    ensures var b := Replay(EMPTY, Purchases(syms, held, at)).value;
      forall sym :: Held(b, sym) >= (if sym in syms then held else 0.0)
  {
    if syms != [] {
      var n := |syms| - 1;
      var buy := Tx(n + 1, Buy, Some(syms[n]), held, 0.0, 0.0, 0.0, at);
      PurchasesReplay(syms[..n], held, at);
      ReplayAppend(EMPTY, Purchases(syms[..n], held, at), [buy]);
      var b := Replay(EMPTY, Purchases(syms[..n], held, at)).value;
      assert [buy] + [] == [buy];
      ReplayCons(b, buy, []);
      StepFits(b, buy);
      assert syms == syms[..n] + [syms[n]];
    }
  }

  lemma {:induction false} InsertLast(x: Tx, s: seq<Tx>)
    requires forall y :: y in s ==> y.ts < x.ts
    ensures InsertBy(x, s, Earlier) == s + [x]
  {
    if s != [] {
      assert s[0] in s;
      InsertLast(x, s[1..]);
      assert s + [x] == [s[0]] + (s[1..] + [x]);
    }
  }

  /** Rows that are no later than all the others keep their place in front. */
  lemma {:induction false} SortFront(front: seq<Tx>, back: seq<Tx>, sorted: seq<Tx>, at: int)
    requires SortBy(back, Earlier) == sorted
    requires (forall x :: x in front ==> x.ts == at) && forall x :: x in sorted ==> x.ts >= at
    ensures SortBy(front + back, Earlier) == front + sorted
    decreases front
  {
    if front == [] {
      assert front + back == back && front + sorted == sorted;
    } else {
      AppendTail(front, back);
      assert front[0] in front;
      SortFront(front[1..], back, sorted, at);
      assert forall x :: x in front[1..] + sorted ==> x in front || x in sorted;
      assert front + sorted == [front[0]] + (front[1..] + sorted);
    }
  }

  lemma SortedBetween(buys: seq<Tx>, rows: seq<Tx>, sell: Tx, at: int)
    requires InTime(rows) && at < sell.ts
    requires (forall x :: x in buys ==> x.ts == at) && forall x :: x in rows ==> at < x.ts < sell.ts
    ensures SortBy((buys + [sell]) + rows, Earlier) == buys + (rows + [sell])
  {
    assert (buys + [sell]) + rows == buys + ([sell] + rows);
    SortCons(sell, rows, Earlier);
    AlreadyInTime(rows);
    InsertLast(sell, rows);
    assert forall x :: x in rows + [sell] ==> x in rows || x == sell;
    SortFront(buys, [sell] + rows, rows + [sell], at);
  }

  /** Between stored purchases and a stored sell the imported rows come in their own arrangement. */
  lemma Between(buys: seq<Tx>, rows: seq<Tx>, sell: Tx, at: int)
    requires Imported(rows) && InTime(rows) && Stored(buys + [sell])
    requires (forall x :: x in buys ==> x.ts == at) && forall x :: x in rows ==> at < x.ts < sell.ts
    requires at < sell.ts
    ensures Replay(EMPTY, Proposed(buys + [sell], rows)).Ok? == Replay(EMPTY, buys + (rows + [sell])).Ok?
  {
    ProposedIsStable(buys + [sell], rows);
    SortedBetween(buys, rows, sell, at);
    CleanWithoutIds(EMPTY, Proposed(buys + [sell], rows), buys + (rows + [sell]));
  }

  lemma SellAfter(b: Book, rows: seq<Tx>, sell: Tx, sym: string)
    requires Replay(b, rows).Ok? && sell.kind == Sell && sell.IsFor(sym) && sell.qty > 0.0
    ensures Replay(b, rows + [sell]).Ok? <==> sell.qty <= Held(Replay(b, rows).value, sym)
  {
    ReplayAppend(b, rows, [sell]);
    assert [sell] + [] == [sell];
    ReplayCons(Replay(b, rows).value, sell, []);
  }

  /** The final sell replays behind the rows exactly when they leave enough. */
  lemma FinalSell(buys: seq<Tx>, rows: seq<Tx>, sell: Tx, sym: string, at: int)
    requires Imported(rows) && InTime(rows) && Stored(buys + [sell])
    requires (forall x :: x in buys ==> x.ts == at) && forall x :: x in rows ==> at < x.ts < sell.ts
    requires at < sell.ts && sell.kind == Sell && sell.IsFor(sym) && sell.qty > 0.0
    requires Replay(EMPTY, buys).Ok? && Replay(Replay(EMPTY, buys).value, rows).Ok?
    ensures Replay(EMPTY, Proposed(buys + [sell], rows)).Ok? <==>
            sell.qty <= Fold(rows, sym, Held(Replay(EMPTY, buys).value, sym))
  {
    var b := Replay(EMPTY, buys).value;
    Between(buys, rows, sell, at);
    ReplayAppend(EMPTY, buys, rows + [sell]);
    SellAfter(b, rows, sell, sym);
    FoldIsHeld(b, rows, sym);
  }

  lemma StoredLog(syms: seq<string>, held: real, at: int, sell: Tx)
    requires |syms| + 1 < CANDIDATE_ID_BASE && sell.id == |syms| + 1 && sell.ts > at
    ensures Stored(Purchases(syms, held, at) + [sell])
  {
  }

  /** Over enough purchases the rows replay and leave what their fold says, never less than nothing. */
  lemma AmpleReplays(syms: seq<string>, held: real, at: int, rows: seq<Tx>, sym: string)
    requires AllSound(rows) && held > 0.0 && held >= Need(rows) && sym in syms
    requires forall k :: 0 <= k < |syms| ==> syms[k] != ""
    requires forall x :: x in rows && x.Symbol().Some? ==> x.Symbol().value in syms
    ensures Replay(EMPTY, Purchases(syms, held, at)).Ok?
    ensures var b := Replay(EMPTY, Purchases(syms, held, at)).value;
      Replay(b, rows).Ok? && Fold(rows, sym, Held(b, sym)) >= 0.0
  {
    PurchasesReplay(syms, held, at);
    var b := Replay(EMPTY, Purchases(syms, held, at)).value;
    EnoughReplays(b, rows, sym);
    FoldIsHeld(b, rows, sym);
  }

  /** A final sale of all that the one arrangement leaves is more than the other leaves. */
  lemma SaleTellsApart(buys: seq<Tx>, rows: seq<Tx>, other: seq<Tx>, sell: Tx, sym: string, at: int)
    requires Imported(rows) && InTime(rows) && Imported(other) && InTime(other) && Stored(buys + [sell])
    requires (forall x :: x in buys ==> x.ts == at) && at < sell.ts
    requires (forall x :: x in rows ==> at < x.ts < sell.ts) && forall x :: x in other ==> at < x.ts < sell.ts
    requires Replay(EMPTY, buys).Ok?
    requires var b := Replay(EMPTY, buys).value; Replay(b, rows).Ok? && Replay(b, other).Ok?
    requires sell.kind == Sell && sell.IsFor(sym) && sell.qty > 0.0
    requires var h := Held(Replay(EMPTY, buys).value, sym); Fold(rows, sym, h) < sell.qty <= Fold(other, sym, h)
    ensures Beaten(rows, other)
  {
    FinalSell(buys, rows, sell, sym, at);
    FinalSell(buys, other, sell, sym, at);
  }

  /** Rows that always leave more of some symbol than the others beat them. */
  lemma RicherBeats(rows: seq<Tx>, other: seq<Tx>, sym: string)
    requires Imported(rows) && Imported(other) && InTime(rows) && InTime(other) && AllSound(rows) && AllSound(other)
    requires rows != [] && |rows| + 1 < CANDIDATE_ID_BASE && multiset(other) == multiset(rows)
    requires exists x :: x in rows && x.IsFor(sym)
    requires forall held :: Fold(rows, sym, held) < Fold(other, sym, held)
    ensures Beaten(rows, other)
  {
    SameElements(rows, other);
    NeedNotNegative(rows);
    NeedNotNegative(other);
    var held, at, end := Need(rows) + Need(other) + 1.0, rows[0].ts - 1, rows[|rows| - 1].ts + 1;
    var syms := SymbolsOf(rows);
    var buys := Purchases(syms, held, at);
    AmpleReplays(syms, held, at, rows, sym);
    AmpleReplays(syms, held, at, other, sym);
    var left := Fold(other, sym, Held(Replay(EMPTY, buys).value, sym));
    var sell := Tx(|syms| + 1, Sell, Some(sym), left, 0.0, 0.0, 0.0, end);
    StoredLog(syms, held, at, sell);
    BoundedTimes(rows, at, end);
    SaleTellsApart(buys, rows, other, sell, sym, at);
  }

  lemma BoundedTimes(rows: seq<Tx>, at: int, end: int)
    requires rows != [] && InTime(rows) && at < rows[0].ts && rows[|rows| - 1].ts < end
    ensures at < end && forall x :: x in rows ==> at < x.ts < end
  {
    forall x | x in rows ensures at < x.ts < end {
      var i :| 0 <= i < |rows| && rows[i] == x;
      assert rows[0].ts <= rows[i].ts <= rows[|rows| - 1].ts;
    }
  }
}
