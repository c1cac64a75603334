/** The importer's order, acquisitions before disposals within one instant, and what its rows come to in the log. */
module ImportOrder {
  import opened Log
  import opened LogOrder
  import opened Portfolio
  import opened Import

  // ---------------------------------------------------------------- whether a log replays depends on shares alone

  function Held(b: Book, sym: string): real { PositionOf(b, sym).qty }

  function HeldAfter(tx: Tx, sym: string, held: real): real {
    if !tx.IsFor(sym) then held
    else match tx.kind
      case Buy => held + tx.qty
      case Sell => held - tx.qty
      case Split => held * tx.qty
      case _ => held
  }

  predicate Fits(b: Book, tx: Tx) {
    || tx.kind == Deposit
    || tx.kind == Withdrawal
    || (tx.Symbol().Some?
        && (tx.kind == Dividend
            || (tx.qty > 0.0 && (tx.kind == Sell ==> tx.qty <= Held(b, tx.Symbol().value)))))
  }

  /** a holds at least what b holds of everything. */
  ghost predicate AtLeast(a: Book, b: Book) {
    forall sym :: Held(a, sym) >= Held(b, sym)
  }

  lemma StepFits(b: Book, tx: Tx)
    ensures Step(b, tx).error.None? <==> Fits(b, tx)
    ensures Fits(b, tx) ==> forall sym :: Held(Step(b, tx).book, sym) == HeldAfter(tx, sym, Held(b, sym))
  {
  }

  lemma StepMonotone(a: Book, b: Book, tx: Tx)
    requires AtLeast(a, b) && Fits(b, tx)
    ensures Fits(a, tx) && AtLeast(Step(a, tx).book, Step(b, tx).book)
  {
    StepFits(a, tx);
    StepFits(b, tx);
    forall sym ensures HeldAfter(tx, sym, Held(a, sym)) >= HeldAfter(tx, sym, Held(b, sym)) {
      HoldingMonotone(tx, sym, Held(a, sym), Held(b, sym));
    }
  }

  lemma HoldingMonotone(tx: Tx, sym: string, a: real, b: real)
    requires Sound(tx) && a >= b
    ensures HeldAfter(tx, sym, a) >= HeldAfter(tx, sym, b)
  {
    if tx.kind == Split && tx.IsFor(sym) {
      var more := a - b;
      assert more * tx.qty >= 0.0;
      assert a * tx.qty == b * tx.qty + more * tx.qty;
    }
  }

  /** A row no book would refuse as malformed. */
  predicate Sound(tx: Tx) {
    || tx.kind == Deposit
    || tx.kind == Withdrawal
    || (tx.Symbol().Some? && (tx.kind == Dividend || tx.qty > 0.0))
  }

  /** Whether a log replays depends on the shares held at its start alone, and more shares never hurt. */
  lemma {:induction false} MoreSharesNeverHurt(a: Book, b: Book, txs: seq<Tx>)
    requires AtLeast(a, b) && Replay(b, txs).Ok?
    ensures Replay(a, txs).Ok? && AtLeast(Replay(a, txs).value, Replay(b, txs).value)
    decreases txs
  {
    if txs != [] {
      StepFits(a, txs[0]);
      StepFits(b, txs[0]);
      StepMonotone(a, b, txs[0]);
      MoreSharesNeverHurt(Step(a, txs[0]).book, Step(b, txs[0]).book, txs[1..]);
    }
  }

  lemma ReplayCons(b: Book, x: Tx, rest: seq<Tx>)
    ensures Replay(b, [x] + rest).Ok? <==> Fits(b, x) && Replay(Step(b, x).book, rest).Ok?
    ensures Fits(b, x) ==> Replay(b, [x] + rest) == Replay(Step(b, x).book, rest)
  {
    StepFits(b, x);
    assert ([x] + rest)[1..] == rest;
  }

  // ---------------------------------------------------------------- the import order

  /** Stored rows first, then candidates that add or credit, then candidates that sell or withdraw. */
  function Rank(tx: Tx): nat {
    if !IsCandidate(tx) then 0
    else if tx.kind == Sell || tx.kind == Withdrawal then 2
    else 1
  }

  predicate Prior(a: Tx, b: Tx) {
    a.ts < b.ts || (a.ts == b.ts && (Rank(a) < Rank(b) || (Rank(a) == Rank(b) && a.id < b.id)))
  }

  /** The importer's sort: by instant, then rank, then position in the file (here the id). */
  function Arranged(rows: seq<Tx>): seq<Tx> { SortBy(rows, Prior) }

  /** t replays when s does, and ends with at least as much of everything. */
  ghost predicate NoWorse(b: Book, t: seq<Tx>, s: seq<Tx>) {
    Replay(b, s).Ok? ==> Replay(b, t).Ok? && AtLeast(Replay(b, t).value, Replay(b, s).value)
  }

  // ---------------------------------------------------------------- ids do not matter

  /** Equal but for the number a candidate was given. */
  predicate Alike(a: Tx, b: Tx) {
    a.(id := 0) == b.(id := 0) && (a.id == b.id || (IsCandidate(a) && IsCandidate(b)))
  }

  ghost predicate SameRows(a: seq<Tx>, b: seq<Tx>) {
    |a| == |b| && forall i :: 0 <= i < |a| ==> Alike(a[i], b[i])
  }

  lemma AlikeMoney(x: Tx, y: Tx)
    requires Alike(x, y)
    ensures x.Symbol() == y.Symbol() && x.Cost() == y.Cost() && x.NetProceeds() == y.NetProceeds()
  {
    assert y == x.(id := y.id);
  }

  lemma AlikeStep(b: Book, x: Tx, y: Tx)
    requires Alike(x, y)
    ensures Step(b, x).error.None? <==> Step(b, y).error.None?
    ensures Step(b, x).error.None? ==> Step(b, x).book == Step(b, y).book
  {
    AlikeMoney(x, y);
  }

  lemma {:induction false} CleanWithoutIds(b: Book, s: seq<Tx>, t: seq<Tx>)
    requires SameRows(s, t)
    ensures Replay(b, s).Ok? == Replay(b, t).Ok?
    ensures Replay(b, s).Ok? ==> Replay(b, s) == Replay(b, t)
    decreases s
  {
    if s != [] {
      assert Alike(s[0], t[0]);
      AlikeStep(b, s[0], t[0]);
      if Step(b, s[0]).error.None? {
        CleanWithoutIds(Step(b, s[0]).book, s[1..], t[1..]);
      }
    }
  }

  lemma {:induction false} InsertWithoutIds(x: Tx, y: Tx, s: seq<Tx>, t: seq<Tx>)
    requires SameRows(s, t) && Alike(x, y)
    ensures SameRows(InsertBy(x, s, Earlier), InsertBy(y, t, Earlier))
  {
    if s != [] {
      assert Alike(s[0], t[0]);
      if Earlier(s[0], x) {
        InsertWithoutIds(x, y, s[1..], t[1..]);
      }
    }
  }

  lemma {:induction false} SortWithoutIds(s: seq<Tx>, t: seq<Tx>)
    requires SameRows(s, t)
    ensures SameRows(SortBy(s, Earlier), SortBy(t, Earlier))
    decreases s
  {
    if s != [] {
      SortWithoutIds(s[1..], t[1..]);
      InsertWithoutIds(s[0], t[0], SortBy(s[1..], Earlier), SortBy(t[1..], Earlier));
    }
  }

  lemma {:induction false} CountOfUnique(s: seq<Tx>)
    requires UniqueIds(s)
    ensures forall x :: multiset(s)[x] <= 1
  {
    if s != [] {
      CountOfUnique(s[1..]);
      assert s == [s[0]] + s[1..];
      assert s[0] !in s[1..];
    }
  }

  lemma {:induction false} NoRepeat(s: seq<Tx>)
    requires forall x :: multiset(s)[x] <= 1
    ensures forall i, j :: 0 <= i < j < |s| ==> s[i] != s[j]
  {
    if s != [] {
      assert s == [s[0]] + s[1..];
      assert multiset(s)[s[0]] == 1 + multiset(s[1..])[s[0]];
      assert forall x :: multiset(s[1..])[x] <= multiset(s)[x];
      NoRepeat(s[1..]);
      assert s[0] !in s[1..];
      assert forall j :: 1 <= j < |s| ==> s[j] == s[1..][j - 1];
    }
  }

  lemma UniquePermutation(s: seq<Tx>, t: seq<Tx>)
    requires UniqueIds(s) && multiset(s) == multiset(t)
    ensures UniqueIds(t)
  {
    CountOfUnique(s);
    NoRepeat(t);
    SameElements(s, t);
    assert forall i :: 0 <= i < |t| ==> t[i] in s;
  }

  // ---------------------------------------------------------------- the theorem

  ghost predicate Imported(rows: seq<Tx>) {
    UniqueIds(rows) && forall i :: 0 <= i < |rows| ==> IsCandidate(rows[i])
  }

  /** The log the importer validates when the rows come in this arrangement: ids follow the arrangement. */
  function Proposed(existing: seq<Tx>, rows: seq<Tx>): seq<Tx> {
    Merged(existing, rows, Everything(|rows|))
  }

  lemma NumberedAt(rows: seq<Tx>)
    ensures forall i :: 0 <= i < |rows| ==>
              Tagged(rows, Everything(|rows|))[i] == rows[i].(id := CANDIDATE_ID_BASE + i)
  {
    EverythingAt(|rows|);
    TaggedAt(rows, Everything(|rows|));
  }

  lemma NumberedAlike(existing: seq<Tx>, rows: seq<Tx>)
    requires Stored(existing) && Imported(rows)
    ensures var numbered := existing + Tagged(rows, Everything(|rows|));
      SameRows(numbered, existing + rows) && UniqueIds(numbered)
  {
    NumberedAt(rows);
  }

  lemma NumberedInOrder(existing: seq<Tx>, rows: seq<Tx>)
    requires Stored(existing)
    ensures var numbered := existing + Tagged(rows, Everything(|rows|));
      forall i, j :: 0 <= i < j < |numbered| && numbered[i].ts == numbered[j].ts ==>
                       Before(numbered[i], numbered[j])
  {
    NumberedAt(rows);
    var numbered := existing + Tagged(rows, Everything(|rows|));
    forall i, j | 0 <= i < j < |numbered| && numbered[i].ts == numbered[j].ts
      ensures Before(numbered[i], numbered[j])
    {
      if j < |existing| {
        assert Before(existing[i], existing[j]);
      } else if i < |existing| {
        assert !IsCandidate(existing[i]);
        assert numbered[j].id == CANDIDATE_ID_BASE + (j - |existing|);
      } else {
        assert numbered[i].id == CANDIDATE_ID_BASE + (i - |existing|);
        assert numbered[j].id == CANDIDATE_ID_BASE + (j - |existing|);
      }
    }
  }

  lemma {:induction false} EverythingAt(n: nat)
    ensures forall i :: 0 <= i < n ==> Everything(n)[i] == i
  {
    if n > 0 {
      EverythingAt(n - 1);
    }
  }

  /** Numbering by arrangement and sorting by (ts, id) is a stable sort by instant. */
  lemma ProposedIsStable(existing: seq<Tx>, rows: seq<Tx>)
    requires Stored(existing) && Imported(rows)
    ensures SameRows(Proposed(existing, rows), SortBy(existing + rows, Earlier))
    ensures Ordered(Proposed(existing, rows))
  {
    var numbered := existing + Tagged(rows, Everything(|rows|));
    NumberedAlike(existing, rows);
    NumberedInOrder(existing, rows);
    BeforeIsLinear();
    StableIsFine(numbered, Before);
    SortWithoutIds(numbered, existing + rows);
    SortSorted(numbered, Before);
  }

  lemma PriorIsLinear()
    ensures LinearById(Prior)
  {
  }

  lemma {:induction false} AlreadyInTime(s: seq<Tx>)
    requires forall i, j :: 0 <= i < j < |s| ==> s[i].ts <= s[j].ts
    ensures SortBy(s, Earlier) == s
  {
    if s != [] {
      AlreadyInTime(s[1..]);
      InsertFirst(s[0], s[1..], Earlier);
    }
  }

  lemma ReplayThree(b: Book, x: Tx, y: Tx, z: Tx)
    ensures Replay(b, [x] + ([y] + ([z] + []))).Ok? <==>
            Fits(b, x) && Fits(Step(b, x).book, y) && Fits(Step(Step(b, x).book, y).book, z)
  {
    ReplayCons(b, x, [y] + ([z] + []));
    ReplayCons(Step(b, x).book, y, [z] + []);
    ReplayCons(Step(Step(b, x).book, y).book, z, []);
  }

  lemma SplitFirstOversells(buy: Tx, split: Tx, sell: Tx, sym: string)
    requires buy.kind == Buy && split.kind == Split && sell.kind == Sell
    requires buy.IsFor(sym) && split.IsFor(sym) && sell.IsFor(sym)
    requires split.qty > 0.0 && buy.qty * split.qty < sell.qty <= buy.qty && sell.qty > 0.0
    ensures Replay(EMPTY, [buy] + ([sell] + ([split] + []))).Ok?
    ensures Replay(EMPTY, [buy] + ([split] + ([sell] + []))).Err?
  {
    ReplayThree(EMPTY, buy, sell, split);
    ReplayThree(EMPTY, buy, split, sell);
    StepFits(EMPTY, buy);
    StepFits(Step(EMPTY, buy).book, split);
  }

  lemma ThreeProposed(buy: Tx, x: Tx, y: Tx)
    requires !IsCandidate(buy) && IsCandidate(x) && IsCandidate(y) && x.id != y.id
    requires buy.ts < x.ts == y.ts
    ensures Replay(EMPTY, Proposed([buy], [x, y])).Ok? == Replay(EMPTY, [buy] + ([x] + ([y] + []))).Ok?
  {
    var all := [buy] + ([x] + ([y] + []));
    ProposedIsStable([buy], [x, y]);
    assert all == [buy] + [x, y];
    AlreadyInTime(all);
    CleanWithoutIds(EMPTY, Proposed([buy], [x, y]), all);
  }

  /**
   * A split counts as an acquisition, so a reverse split is put before the sell of the same instant, which then
   * oversells although the opposite arrangement replays.
   */
  lemma ReverseSplitSpoilsTheOrder(buy: Tx, split: Tx, sell: Tx, sym: string)
    requires buy.kind == Buy && split.kind == Split && sell.kind == Sell
    requires buy.IsFor(sym) && split.IsFor(sym) && sell.IsFor(sym)
    requires !IsCandidate(buy) && IsCandidate(split) && IsCandidate(sell) && split.id != sell.id
    requires buy.ts < split.ts == sell.ts
    requires split.qty > 0.0 && buy.qty * split.qty < sell.qty <= buy.qty && sell.qty > 0.0
    ensures Replay(EMPTY, Proposed([buy], [sell, split])).Ok?
    ensures Arranged([sell, split]) == [split, sell] && Replay(EMPTY, Proposed([buy], [split, sell])).Err?
  {
    assert [sell] + ([split] + []) == [sell, split];
    SortCons(sell, [split] + [], Prior);
    SortCons(split, [], Prior);
    InsertCons(sell, split, [], Prior);
    ThreeProposed(buy, sell, split);
    ThreeProposed(buy, split, sell);
    SplitFirstOversells(buy, split, sell, sym);
  }
}
