/** CSV import against an existing log: drop the sells nothing backs, replay, repeat; and why one pass suffices. */
module Import {
  import opened Log
  import opened LogOrder
  import opened Portfolio

  /** Candidates get ids above every stored row, ascending in input order. */
  const CANDIDATE_ID_BASE := 4611686018427387903

  predicate IsCandidate(tx: Tx) { tx.id >= CANDIDATE_ID_BASE }

  function Candidate(candidates: seq<Tx>, i: nat): Tx
    requires i < |candidates|
  {
    candidates[i].(id := CANDIDATE_ID_BASE + i)
  }

  ghost predicate Indices(kept: seq<nat>, n: nat) {
    && (forall i :: 0 <= i < |kept| ==> kept[i] < n)
    && (forall i, j :: 0 <= i < j < |kept| ==> kept[i] < kept[j])
  }

  function Tagged(candidates: seq<Tx>, kept: seq<nat>): (s: seq<Tx>)
    requires forall i :: 0 <= i < |kept| ==> kept[i] < |candidates|
    ensures |s| == |kept|
  {
    if kept == [] then [] else [Candidate(candidates, kept[0])] + Tagged(candidates, kept[1..])
  }

  function Everything(n: nat): (s: seq<nat>)
    ensures Indices(s, n) && |s| == n
    ensures forall i: nat :: i in s <==> i < n
  {
    if n == 0 then [] else Everything(n - 1) + [n - 1]
  }

  /** The replay input for one round: the stored log and the candidates still kept, sorted by (ts, id). */
  function Merged(existing: seq<Tx>, candidates: seq<Tx>, kept: seq<nat>): seq<Tx>
    requires forall i :: 0 <= i < |kept| ==> kept[i] < |candidates|
  {
    Sort(existing + Tagged(candidates, kept))
  }

  function Retain(kept: seq<nat>, idx: nat): seq<nat> {
    if kept == [] then []
    else if kept[0] == idx then Retain(kept[1..], idx)
    else [kept[0]] + Retain(kept[1..], idx)
  }

  // ---------------------------------------------------------------- the one-pass specification

  datatype Pass = Pass(kept: seq<Tx>, dropped: seq<Tx>, stop: Option<Error>)

  /** Walks the sorted log once, skipping each candidate sell larger than the holding at that point. */
  function OnePass(b: Book, txs: seq<Tx>): Pass
    decreases txs
  {
    if txs == [] then Pass([], [], None)
    else
      var s := Step(b, txs[0]);
      if s.error.None? then
        var p := OnePass(s.book, txs[1..]);
        p.(kept := [txs[0]] + p.kept)
      else if IsCandidate(txs[0]) && s.error.value.Oversell? then
        var p := OnePass(b, txs[1..]);
        p.(dropped := [txs[0]] + p.dropped)
      else
        Pass([], [], s.error)
  }

  /** What the walk keeps replays cleanly, in order, and without a stop nothing else is lost. */
  lemma {:induction false} PassKeepsCleanRows(b: Book, txs: seq<Tx>)
    ensures Replay(b, OnePass(b, txs).kept).Ok?
    ensures OnePass(b, txs).stop.None? ==>
              multiset(OnePass(b, txs).kept) + multiset(OnePass(b, txs).dropped) == multiset(txs)
    decreases txs
  {
    if txs != [] {
      var s := Step(b, txs[0]);
      assert txs == [txs[0]] + txs[1..];
      if s.error.None? {
        PassKeepsCleanRows(s.book, txs[1..]);
        var rest := OnePass(s.book, txs[1..]).kept;
        assert ([txs[0]] + rest)[1..] == rest;
      } else if IsCandidate(txs[0]) && s.error.value.Oversell? {
        PassKeepsCleanRows(b, txs[1..]);
      }
    }
  }

  /** Only candidate sells are ever dropped; a stop is never an oversold candidate. */
  lemma {:induction false} OnlySellsAreDropped(b: Book, txs: seq<Tx>)
    ensures forall x :: x in OnePass(b, txs).dropped ==> x in txs && x.kind == Sell && IsCandidate(x)
    ensures OnePass(b, txs).stop.Some? ==>
              exists x :: x in txs && x.id == OnePass(b, txs).stop.value.id
                          && (IsCandidate(x) ==> !OnePass(b, txs).stop.value.Oversell?)
    decreases txs
  {
    if txs != [] {
      var s := Step(b, txs[0]);
      if s.error.None? {
        OnlySellsAreDropped(s.book, txs[1..]);
      } else if IsCandidate(txs[0]) && s.error.value.Oversell? {
        OnlySellsAreDropped(b, txs[1..]);
      } else {
        assert txs[0] in txs && txs[0].id == s.error.value.id;
      }
    }
  }

  // ---------------------------------------------------------------- dropping the first failing sell

  lemma {:induction false} CleanPass(b: Book, txs: seq<Tx>)
    requires Replay(b, txs).Ok?
    ensures OnePass(b, txs) == Pass(txs, [], None)
    decreases txs
  {
    if txs != [] {
      CleanPass(Step(b, txs[0]).book, txs[1..]);
    }
  }

  lemma {:induction false} PassAfterPrefix(b: Book, xs: seq<Tx>, ys: seq<Tx>)
    requires Replay(b, xs).Ok?
    ensures var p := OnePass(Replay(b, xs).value, ys);
      OnePass(b, xs + ys) == p.(kept := xs + p.kept)
    decreases xs
  {
    if xs == [] {
      assert xs + ys == ys;
    } else {
      assert (xs + ys)[1..] == xs[1..] + ys;
      PassAfterPrefix(Step(b, xs[0]).book, xs[1..], ys);
    }
  }

  lemma Around(txs: seq<Tx>, n: nat)
    requires n < |txs|
    ensures txs == txs[..n] + ([txs[n]] + txs[n + 1..])
  {
  }

  /** Dropping the candidate sell a replay failed at changes neither what the pass keeps nor where it stops. */
  lemma DroppingIsSkipping(b: Book, txs: seq<Tx>)
    requires Replay(b, txs).Err?
    requires IsCandidate(txs[Reach(b, txs)]) && Replay(b, txs).error.Oversell?
    ensures var n := Reach(b, txs);
      var rest := OnePass(b, txs[..n] + txs[n + 1..]);
      OnePass(b, txs) == rest.(dropped := [txs[n]] + rest.dropped)
  {
    var n := Reach(b, txs);
    var tail := [txs[n]] + txs[n + 1..];
    assert tail[1..] == txs[n + 1..];
    Around(txs, n);
    PassAfterPrefix(b, txs[..n], tail);
    PassAfterPrefix(b, txs[..n], txs[n + 1..]);
  }

  /** Anything else the replay fails at is where the pass stops, with nothing dropped. */
  lemma FailureStopsThePass(b: Book, txs: seq<Tx>)
    requires Replay(b, txs).Err?
    requires !IsCandidate(txs[Reach(b, txs)]) || !Replay(b, txs).error.Oversell?
    ensures OnePass(b, txs) == Pass(txs[..Reach(b, txs)], [], Some(Replay(b, txs).error))
  {
    var n := Reach(b, txs);
    Around(txs, n);
    PassAfterPrefix(b, txs[..n], [txs[n]] + txs[n + 1..]);
    assert txs[..n] + [] == txs[..n];
  }

  /** The next failure lies strictly later in the log than the row just dropped. */
  lemma FailureAdvances(b: Book, txs: seq<Tx>)
    requires Ordered(txs) && Replay(b, txs).Err?
    ensures var n := Reach(b, txs);
      var next := txs[..n] + txs[n + 1..];
      Replay(b, next).Err? ==> n <= Reach(b, next) && Before(txs[n], next[Reach(b, next)])
  {
    var n := Reach(b, txs);
    var next := txs[..n] + txs[n + 1..];
    if Replay(b, next).Err? {
      var m := Reach(b, next);
      if m < n {
        assert txs[..n] == txs[..m] + txs[m..n] && next[..m] == txs[..m];
        ReplayAppend(b, txs[..m], txs[m..n]);
        assert false;
      }
      assert next[m] == txs[m + 1];
    }
  }

  // ---------------------------------------------------------------- bookkeeping of ids

  lemma {:induction false} TaggedAt(candidates: seq<Tx>, kept: seq<nat>)
    requires forall i :: 0 <= i < |kept| ==> kept[i] < |candidates|
    ensures forall i :: 0 <= i < |kept| ==> Tagged(candidates, kept)[i] == Candidate(candidates, kept[i])
  {
    if kept != [] {
      TaggedAt(candidates, kept[1..]);
    }
  }

  ghost predicate Stored(existing: seq<Tx>) {
    Ordered(existing) && UniqueIds(existing) && forall i :: 0 <= i < |existing| ==> !IsCandidate(existing[i])
  }

  lemma MergedIds(existing: seq<Tx>, candidates: seq<Tx>, kept: seq<nat>)
    requires Stored(existing) && Indices(kept, |candidates|)
    ensures UniqueIds(existing + Tagged(candidates, kept))
    ensures Ordered(Merged(existing, candidates, kept)) && UniqueIds(Merged(existing, candidates, kept))
    ensures forall x :: x in Merged(existing, candidates, kept) && IsCandidate(x) ==>
              exists i :: i in kept && x == Candidate(candidates, i)
  {
    TaggedAt(candidates, kept);
    BeforeIsLinear();
    var all := existing + Tagged(candidates, kept);
    SortSorted(all, Before);
    SortUnique(all, Before);
    SortPermutes(all, Before);
    SameElements(Sort(all), all);
  }

  lemma {:induction false} RetainIn(kept: seq<nat>, idx: nat, i: nat)
    ensures i in Retain(kept, idx) <==> i in kept && i != idx
  {
    if kept != [] {
      RetainIn(kept[1..], idx, i);
      assert kept == [kept[0]] + kept[1..];
    }
  }

  lemma {:induction false} RetainSize(kept: seq<nat>, idx: nat)
    ensures |Retain(kept, idx)| <= |kept| && (idx in kept ==> |Retain(kept, idx)| < |kept|)
  {
    if kept != [] {
      RetainSize(kept[1..], idx);
      assert kept == [kept[0]] + kept[1..];
    }
  }

  lemma ConsIndices(x: nat, s: seq<nat>, n: nat)
    requires x < n && Indices(s, n) && forall y :: y in s ==> x < y
    ensures Indices([x] + s, n)
  {
    forall i | 0 <= i < |s| ensures x < s[i] {
      assert s[i] in s;
    }
  }

  lemma TailAbove(kept: seq<nat>, n: nat)
    requires Indices(kept, n) && kept != []
    ensures Indices(kept[1..], n) && forall y :: y in kept[1..] ==> kept[0] < y
  {
  }

  lemma {:induction false} RetainIndices(kept: seq<nat>, idx: nat, n: nat)
    requires Indices(kept, n)
    ensures Indices(Retain(kept, idx), n)
  {
    if kept != [] {
      TailAbove(kept, n);
      RetainIndices(kept[1..], idx, n);
      forall y: nat | y in Retain(kept[1..], idx) ensures kept[0] < y {
        RetainIn(kept[1..], idx, y);
      }
      ConsIndices(kept[0], Retain(kept[1..], idx), n);
    }
  }

  lemma RetainMembers(kept: seq<nat>, idx: nat, n: nat)
    requires Indices(kept, n)
    ensures Indices(Retain(kept, idx), n)
    ensures forall i :: i in Retain(kept, idx) <==> i in kept && i != idx
    ensures idx in kept ==> |Retain(kept, idx)| < |kept|
    ensures |Retain(kept, idx)| <= |kept|
  {
    RetainIndices(kept, idx, n);
    RetainSize(kept, idx);
    forall i: nat ensures i in Retain(kept, idx) <==> i in kept && i != idx {
      RetainIn(kept, idx, i);
    }
  }

  lemma {:induction false} TaggedRetain(candidates: seq<Tx>, kept: seq<nat>, idx: nat)
    requires Indices(kept, |candidates|)
    ensures Indices(Retain(kept, idx), |candidates|)
    ensures Tagged(candidates, Retain(kept, idx)) == Without(Tagged(candidates, kept), CANDIDATE_ID_BASE + idx)
  {
    RetainMembers(kept, idx, |candidates|);
    if kept != [] {
      RetainMembers(kept[1..], idx, |candidates|);
      TaggedRetain(candidates, kept[1..], idx);
      assert ([kept[0]] + Retain(kept[1..], idx))[1..] == Retain(kept[1..], idx);
    }
  }

  lemma WithoutMiddle(txs: seq<Tx>, n: nat)
    requires UniqueIds(txs) && n < |txs|
    ensures Without(txs, txs[n].id) == txs[..n] + txs[n + 1..]
  {
    var id := txs[n].id;
    var tail := [txs[n]] + txs[n + 1..];
    Around(txs, n);
    WithoutAppend(txs[..n], tail, id);
    WithoutAbsent(txs[..n], id);
    WithoutCons(txs[n], txs[n + 1..], id);
    WithoutAbsent(txs[n + 1..], id);
  }

  /** Removing one candidate index removes exactly its row from the merged log. */
  lemma MergedRetain(existing: seq<Tx>, candidates: seq<Tx>, kept: seq<nat>, idx: nat, n: nat)
    requires Stored(existing) && Indices(kept, |candidates|)
    requires n < |Merged(existing, candidates, kept)|
    requires Merged(existing, candidates, kept)[n].id == CANDIDATE_ID_BASE + idx
    ensures Indices(Retain(kept, idx), |candidates|)
    ensures var txs := Merged(existing, candidates, kept);
      Merged(existing, candidates, Retain(kept, idx)) == txs[..n] + txs[n + 1..]
  {
    var id := CANDIDATE_ID_BASE + idx;
    var all := existing + Tagged(candidates, kept);
    MergedIds(existing, candidates, kept);
    TaggedRetain(candidates, kept, idx);
    WithoutAbsent(existing, id);
    WithoutAppend(existing, Tagged(candidates, kept), id);
    BeforeIsLinear();
    SortWithout(all, Before, id);
    WithoutMiddle(Sort(all), n);
  }

  // ---------------------------------------------------------------- the loop

  datatype Outcome = Keep(kept: seq<nat>, dropped: seq<nat>) | Refuse(line: nat, error: Error)

  /** Every candidate is either kept, in input order, or dropped. */
  ghost predicate Partition(kept: seq<nat>, dropped: seq<nat>, n: nat) {
    && Indices(kept, n)
    && (forall i :: 0 <= i < |dropped| ==> dropped[i] < n)
    && (forall i: nat :: i < n ==> (i in kept <==> i !in dropped))
  }

  lemma PartitionStep(kept: seq<nat>, dropped: seq<nat>, n: nat, idx: nat)
    requires Partition(kept, dropped, n) && idx in kept && idx < n
    ensures Partition(Retain(kept, idx), dropped + [idx], n)
  {
    RetainMembers(kept, idx, n);
  }

  /** What the pass over the full merge says about an outcome of the loop. */
  ghost predicate Faithful(r: Outcome, existing: seq<Tx>, candidates: seq<Tx>)
  {
    var n := |candidates|;
    var p := PassOver(existing, candidates, Everything(n));
    if p.stop.Some? && p.stop.value.id >= CANDIDATE_ID_BASE then
      r == Refuse(p.stop.value.id - CANDIDATE_ID_BASE, p.stop.value)
    else
      && r.Keep? && Partition(r.kept, r.dropped, n)
      && Tagged(candidates, r.dropped) == p.dropped
      && Replay(EMPTY, Merged(existing, candidates, r.kept)).Ok? == p.stop.None?
      && (p.stop.None? ==> Merged(existing, candidates, r.kept) == p.kept)
      && (p.stop.Some? ==> Replay(EMPTY, Merged(existing, candidates, r.kept)) == Err(p.stop.value))
  }

  lemma TaggedSnoc(candidates: seq<Tx>, dropped: seq<nat>, idx: nat)
    requires idx < |candidates| && forall i :: 0 <= i < |dropped| ==> dropped[i] < |candidates|
    ensures Tagged(candidates, dropped + [idx]) == Tagged(candidates, dropped) + [Candidate(candidates, idx)]
  {
    TaggedAt(candidates, dropped);
    TaggedAt(candidates, dropped + [idx]);
  }

  /** Between rounds: the pass over what is left, plus what was dropped, is still the pass over the full merge. */
  ghost predicate Progress(existing: seq<Tx>, candidates: seq<Tx>, kept: seq<nat>, dropped: seq<nat>) {
    var n := |candidates|;
    && Partition(kept, dropped, n)
    && PassOver(existing, candidates, Everything(n)) ==
       AfterDropping(Tagged(candidates, dropped), PassOver(existing, candidates, kept))
  }

  function PassOver(existing: seq<Tx>, candidates: seq<Tx>, kept: seq<nat>): Pass
    requires forall i :: 0 <= i < |kept| ==> kept[i] < |candidates|
  {
    OnePass(EMPTY, Merged(existing, candidates, kept))
  }

  function AfterDropping(rows: seq<Tx>, p: Pass): Pass { p.(dropped := rows + p.dropped) }

  lemma DropOneMore(rows: seq<Tx>, row: Tx, p: Pass)
    ensures AfterDropping(rows, AfterDropping([row], p)) == AfterDropping(rows + [row], p)
  {
    assert rows + ([row] + p.dropped) == (rows + [row]) + p.dropped;
  }

  lemma DropSkipsOne(existing: seq<Tx>, candidates: seq<Tx>, kept: seq<nat>, idx: nat)
    requires Stored(existing) && Indices(kept, |candidates|)
    requires var replay := Replay(EMPTY, Merged(existing, candidates, kept));
      replay.Err? && replay.error.Oversell? && replay.error.id == CANDIDATE_ID_BASE + idx
    ensures idx in kept && idx < |candidates| && Indices(Retain(kept, idx), |candidates|)
    ensures PassOver(existing, candidates, kept) ==
            AfterDropping([Candidate(candidates, idx)], PassOver(existing, candidates, Retain(kept, idx)))
  {
    var txs := Merged(existing, candidates, kept);
    MergedIds(existing, candidates, kept);
    var at := Reach(EMPTY, txs);
    assert txs[at] in txs;
    DroppingIsSkipping(EMPTY, txs);
    MergedRetain(existing, candidates, kept, idx, at);
  }

  lemma DropKeepsProgress(existing: seq<Tx>, candidates: seq<Tx>, kept: seq<nat>, dropped: seq<nat>, idx: nat)
    requires Stored(existing) && Progress(existing, candidates, kept, dropped)
    requires var replay := Replay(EMPTY, Merged(existing, candidates, kept));
      replay.Err? && replay.error.Oversell? && replay.error.id == CANDIDATE_ID_BASE + idx
    ensures idx < |candidates| && |Retain(kept, idx)| < |kept|
    ensures Progress(existing, candidates, Retain(kept, idx), dropped + [idx])
  {
    DropSkipsOne(existing, candidates, kept, idx);
    PartitionStep(kept, dropped, |candidates|, idx);
    RetainMembers(kept, idx, |candidates|);
    TaggedSnoc(candidates, dropped, idx);
    DropOneMore(Tagged(candidates, dropped), Candidate(candidates, idx),
                PassOver(existing, candidates, Retain(kept, idx)));
  }

  lemma FinishedIsFaithful(existing: seq<Tx>, candidates: seq<Tx>, kept: seq<nat>, dropped: seq<nat>)
    requires Stored(existing) && Progress(existing, candidates, kept, dropped)
    requires var replay := Replay(EMPTY, Merged(existing, candidates, kept));
      replay.Err? ==> replay.error.id < CANDIDATE_ID_BASE
    ensures Faithful(Keep(kept, dropped), existing, candidates)
  {
    var txs := Merged(existing, candidates, kept);
    if Replay(EMPTY, txs).Ok? {
      CleanPass(EMPTY, txs);
    } else {
      FailureStopsThePass(EMPTY, txs);
    }
  }

  /**
   * The drop-and-replay loop. When the stored log already fails to replay everything is kept; otherwise the result
   * is exactly what one pass over the sorted merge decides.
   */
  method ReconcileImport(existing: seq<Tx>, candidates: seq<Tx>) returns (r: Outcome)
    requires Stored(existing)
    ensures Replay(EMPTY, existing).Err? ==> r == Keep(Everything(|candidates|), [])
    ensures Replay(EMPTY, existing).Ok? ==> Faithful(r, existing, candidates)
  {
    var before, inconsistent := ComputeBasis(existing);
    var kept: seq<nat> := Everything(|candidates|);
    var dropped: seq<nat> := [];
    if inconsistent.Some? { return Keep(kept, []); }
    while true
      invariant Progress(existing, candidates, kept, dropped)
      decreases |kept|
    {
      var txs := Merged(existing, candidates, kept);
      var book, error := ComputeBasis(txs);
      if error.None? || error.value.id < CANDIDATE_ID_BASE {
        FinishedIsFaithful(existing, candidates, kept, dropped);
        return Keep(kept, dropped);
      }
      var idx := error.value.id - CANDIDATE_ID_BASE;
      if !error.value.Oversell? {
        FailureStopsThePass(EMPTY, txs);
        return Refuse(idx, error.value);
      }
      DropKeepsProgress(existing, candidates, kept, dropped, idx);
      kept, dropped := Retain(kept, idx), dropped + [idx];
    }
  }

  lemma MergeBetween(first: Tx, last: Tx, row: Tx)
    requires first.ts < row.ts < last.ts && row.id == CANDIDATE_ID_BASE
    requires first.id != last.id && !IsCandidate(first) && !IsCandidate(last)
    ensures Merged([first, last], [row], Everything(1)) == [first, row, last]
  {
    assert Everything(1) == [0];
    assert Tagged([row], [0]) == [row];
    assert [first, last] + [row] == [first] + ([last] + ([row] + []));
    SortCons(first, [last] + ([row] + []), Before);
    SortCons(last, [row] + [], Before);
    SortCons(row, [], Before);
    InsertCons(last, row, [], Before);
    InsertFirst(first, [row] + [last], Before);
  }

  lemma PassCons(b: Book, x: Tx, rest: seq<Tx>)
    requires Step(b, x).error.None?
    ensures OnePass(b, [x] + rest).stop == OnePass(Step(b, x).book, rest).stop
    ensures Replay(b, [x] + rest) == Replay(Step(b, x).book, rest)
  {
    assert ([x] + rest)[1..] == rest;
  }

  /**
   * The merged log need not replay: a stored purchase later sold in full replays, and then any imported sell dated
   * between the two leaves the stored sell short.
   */
  lemma ImportMayBreakALaterSell(buy: Tx, sell: Tx, row: Tx, sym: string)
    requires buy.kind == Buy && sell.kind == Sell && row.kind == Sell
    requires buy.IsFor(sym) && sell.IsFor(sym) && row.IsFor(sym)
    requires buy.ts < row.ts < sell.ts && row.id == CANDIDATE_ID_BASE
    requires buy.id != sell.id && !IsCandidate(buy) && !IsCandidate(sell)
    requires 0.0 < row.qty <= buy.qty == sell.qty
    ensures Replay(EMPTY, [buy, sell]).Ok?
    ensures OnePass(EMPTY, Merged([buy, sell], [row], Everything(1))).stop ==
            Some(Oversell(sell.id, sym, buy.qty - row.qty, sell.qty))
  {
    var held := Step(EMPTY, buy).book;
    var left := Step(held, row).book;
    PassCons(EMPTY, buy, [sell]);
    PassCons(held, sell, []);
    assert [buy] + [sell] == [buy, sell] && [sell] + [] == [sell];
    MergeBetween(buy, sell, row);
    PassCons(EMPTY, buy, [row] + [sell]);
    PassCons(held, row, [sell]);
    assert [buy] + ([row] + [sell]) == [buy, row, sell];
    assert OnePass(left, [sell]).stop == Step(left, sell).error;
  }
}
