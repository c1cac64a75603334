/**
 * When the importer's order, acquisitions before disposals within one instant, is the best one: for every file, exactly
 * when the rows of each instant and symbol meet a condition on their splits, buys and sells.
 */
module ImportOrderExact {
  import opened Log
  import opened LogOrder
  import opened Sums
  import opened Portfolio
  import opened Import
  import opened ImportOrder
  import opened InstantTotals
  import opened AmpleLog

  // ---------------------------------------------------------------- the rows of one instant

  function At(s: seq<Tx>, t: int): seq<Tx> {
    if s == [] then [] else if s[0].ts == t then [s[0]] + At(s[1..], t) else At(s[1..], t)
  }

  function Apart(s: seq<Tx>, t: int): seq<Tx> {
    if s == [] then [] else if s[0].ts == t then Apart(s[1..], t) else [s[0]] + Apart(s[1..], t)
  }

  lemma AtCons(x: Tx, s: seq<Tx>, t: int)
    ensures At([x] + s, t) == (if x.ts == t then [x] else []) + At(s, t)
  {
    assert ([x] + s)[1..] == s;
  }

  lemma {:induction false} AtAppend(a: seq<Tx>, b: seq<Tx>, t: int)
    ensures At(a + b, t) == At(a, t) + At(b, t)
  {
    if a == [] {
      assert a + b == b;
    } else {
      AppendTail(a, b);
      AtAppend(a[1..], b, t);
    }
  }

  lemma {:induction false} AtMembers(s: seq<Tx>, t: int)
    ensures forall x :: x in At(s, t) <==> x in s && x.ts == t
  {
    if s != [] {
      AtMembers(s[1..], t);
      assert forall x :: x in s <==> x == s[0] || x in s[1..];
    }
  }

  lemma {:induction false} AtCount(s: seq<Tx>, t: int, x: Tx)
    ensures multiset(At(s, t))[x] == if x.ts == t then multiset(s)[x] else 0
  {
    if s != [] {
      assert s == [s[0]] + s[1..];
      AtCount(s[1..], t, x);
    }
  }

  lemma AtPermutes(a: seq<Tx>, b: seq<Tx>, t: int)
    requires multiset(a) == multiset(b)
    ensures multiset(At(a, t)) == multiset(At(b, t))
  {
    forall x ensures multiset(At(a, t))[x] == multiset(At(b, t))[x] {
      AtCount(a, t, x);
      AtCount(b, t, x);
    }
  }

  lemma {:induction false} AtSorted(s: seq<Tx>, t: int, less: (Tx, Tx) -> bool)
    requires Sorted(s, less)
    ensures Sorted(At(s, t), less)
  {
    if s != [] {
      var rest := s[1..];
      assert forall k :: 0 <= k < |rest| ==> rest[k] == s[k + 1];
      AtSorted(rest, t, less);
      AtMembers(rest, t);
      assert forall x :: x in rest ==> less(s[0], x);
      if s[0].ts == t {
        assert forall x :: x in At(rest, t) ==> less(s[0], x);
        SortedCons(s[0], At(rest, t), less);
      }
    }
  }

  /** A stable sort by instant keeps the rows of each instant in their order. */
  lemma {:induction false} InsertKeepsAt(x: Tx, s: seq<Tx>, t: int)
    ensures At(InsertBy(x, s, Earlier), t) == At([x] + s, t)
  {
    AtCons(x, s, t);
    if s != [] && Earlier(s[0], x) {
      var rest := InsertBy(x, s[1..], Earlier);
      InsertKeepsAt(x, s[1..], t);
      AtCons(s[0], rest, t);
      AtCons(x, s[1..], t);
      assert s == [s[0]] + s[1..];
      AtCons(s[0], s[1..], t);
    }
  }

  lemma {:induction false} SortKeepsAt(s: seq<Tx>, t: int)
    ensures At(SortBy(s, Earlier), t) == At(s, t)
  {
    if s != [] {
      SortKeepsAt(s[1..], t);
      InsertKeepsAt(s[0], SortBy(s[1..], Earlier), t);
      AtCons(s[0], SortBy(s[1..], Earlier), t);
    }
  }

  lemma {:induction false} AtOfApart(s: seq<Tx>, t: int, u: int)
    ensures At(Apart(s, t), u) == if u == t then [] else At(s, u)
  {
    if s != [] {
      AtOfApart(s[1..], t, u);
      if s[0].ts != t {
        AtCons(s[0], Apart(s[1..], t), u);
      }
    }
  }

  lemma {:induction false} Later(s: seq<Tx>, t: int)
    requires forall x :: x in s ==> t < x.ts
    ensures At(s, t) == [] && Apart(s, t) == s
  {
    if s != [] {
      assert s[0] in s && forall x :: x in s[1..] ==> x in s;
      Later(s[1..], t);
    }
  }

  lemma InTimeTail(s: seq<Tx>)
    requires InTime(s) && s != []
    ensures InTime(s[1..]) && forall x :: x in s[1..] ==> x in s && s[0].ts <= x.ts
  {
    assert forall k :: 0 <= k < |s| - 1 ==> s[1..][k] == s[k + 1];
  }

  lemma ConsAppend(s: seq<Tx>, a: seq<Tx>, b: seq<Tx>)
    requires s != [] && s[1..] == a + b
    ensures s == ([s[0]] + a) + b
  {
    assert s == [s[0]] + s[1..];
  }

  lemma {:induction false} PeelParts(s: seq<Tx>, t: int)
    requires InTime(s) && forall x :: x in s ==> t <= x.ts
    ensures s == At(s, t) + Apart(s, t)
  {
    if s != [] {
      assert s[0] in s;
      InTimeTail(s);
      if s[0].ts == t {
        PeelParts(s[1..], t);
        ConsAppend(s, At(s[1..], t), Apart(s[1..], t));
      } else {
        assert forall x :: x in s ==> x == s[0] || x in s[1..];
        Later(s, t);
      }
    }
  }

  /** The rows of the first instant stand in front of all the others. */
  lemma Peel(s: seq<Tx>, t: int)
    requires InTime(s) && forall x :: x in s ==> t <= x.ts
    ensures s == At(s, t) + Apart(s, t) && InTime(Apart(s, t))
  {
    PeelParts(s, t);
    BackInTime(s, At(s, t), Apart(s, t));
  }

  lemma BackInTime(s: seq<Tx>, front: seq<Tx>, back: seq<Tx>)
    requires InTime(s) && s == front + back
    ensures InTime(back)
  {
    assert forall k :: 0 <= k < |back| ==> back[k] == s[|front| + k];
  }

  // ---------------------------------------------------------------- comparing logs instant by instant

  lemma NoWorseThen(b: Book, t: seq<Tx>, s: seq<Tx>, t': seq<Tx>, s': seq<Tx>)
    requires NoWorse(b, t, s)
    requires Replay(b, s).Ok? ==> NoWorse(Replay(b, s).value, t', s')
    ensures NoWorse(b, t + t', s + s')
  {
    ReplayAppend(b, s, s');
    ReplayAppend(b, t, t');
    if Replay(b, s + s').Ok? {
      MoreSharesNeverHurt(Replay(b, t).value, Replay(b, s).value, t');
    }
  }

  lemma AtIsEmpty(s: seq<Tx>, t: int)
    ensures At(s, t) == [] <==> forall x :: x in s ==> x.ts != t
  {
    AtMembers(s, t);
    assert At(s, t) != [] ==> At(s, t)[0] in At(s, t);
  }

  /** The same instants, and at each of them t is no worse than s, from any book. */
  ghost predicate NoWorseEach(t: seq<Tx>, s: seq<Tx>) {
    && (forall u: int :: At(t, u) == [] <==> At(s, u) == [])
    && (forall u: int, b: Book :: NoWorse(b, At(t, u), At(s, u)))
  }

  lemma {:induction false} InstantByInstant(b: Book, t: seq<Tx>, s: seq<Tx>)
    requires InTime(t) && InTime(s) && NoWorseEach(t, s)
    ensures NoWorse(b, t, s)
    decreases |s|
  {
    if s == [] {
      SameInstants(t, s);
      assert t == [];
    } else {
      var u := s[0].ts;
      SameInstants(t, s);
      Peel(s, u);
      Peel(t, u);
      AtIsEmpty(s, u);
      assert s[0] in s && NoWorse(b, At(t, u), At(s, u));
      if Replay(b, At(s, u)).Ok? {
        ApartNoWorse(t, s, u);
        InstantByInstant(Replay(b, At(s, u)).value, Apart(t, u), Apart(s, u));
      }
      NoWorseThen(b, At(t, u), At(s, u), Apart(t, u), Apart(s, u));
    }
  }

  lemma SameInstants(t: seq<Tx>, s: seq<Tx>)
    requires InTime(s) && NoWorseEach(t, s)
    ensures s == [] ==> t == []
    ensures s != [] ==> (forall x :: x in s ==> s[0].ts <= x.ts) && forall x :: x in t ==> s[0].ts <= x.ts
  {
    forall x | x in t ensures s != [] && s[0].ts <= x.ts {
      AtIsEmpty(t, x.ts);
      AtIsEmpty(s, x.ts);
      assert At(t, x.ts) == [] <==> At(s, x.ts) == [];
      var y :| y in s && y.ts == x.ts;
    }
    if t != [] {
      assert t[0] in t;
    }
  }

  lemma ApartNoWorse(t: seq<Tx>, s: seq<Tx>, u: int)
    requires NoWorseEach(t, s)
    ensures NoWorseEach(Apart(t, u), Apart(s, u))
  {
    forall v ensures At(Apart(t, u), v) == (if v == u then [] else At(t, v))
             ensures At(Apart(s, u), v) == if v == u then [] else At(s, v) {
      AtOfApart(t, u, v);
      AtOfApart(s, u, v);
    }
    forall v: int, b: Book ensures NoWorse(b, At(Apart(t, u), v), At(Apart(s, u), v)) {
      assert NoWorse(b, At(t, v), At(s, v));
    }
  }

  // ---------------------------------------------------------------- one instant in the importer's order

  /** Behind a sell only sells and withdrawals come. */
  ghost predicate DisposalsLast(s: seq<Tx>) {
    forall i, j :: 0 <= i < j < |s| && s[i].kind == Sell ==> s[j].kind == Sell || s[j].kind == Withdrawal
  }

  lemma {:induction false} OnlyFalls(s: seq<Tx>, sym: string, held: real)
    requires AllSound(s) && forall x :: x in s ==> x.kind == Sell || x.kind == Withdrawal
    ensures Fold(s, sym, held) <= held
    decreases s
  {
    if s != [] {
      assert s[0] in s && Sound(s[0]) && forall x :: x in s[1..] ==> x in s;
      OnlyFalls(s[1..], sym, HeldAfter(s[0], sym, held));
    }
  }

  lemma FirstSellFits(s: seq<Tx>, sym: string, held: real)
    requires s != [] && AllSound(s) && DisposalsLast(s) && s[0].kind == Sell && s[0].IsFor(sym)
    requires Fold(s, sym, held) >= 0.0
    ensures s[0].qty <= held
  {
    var rest := s[1..];
    forall x | x in rest ensures x in s && (x.kind == Sell || x.kind == Withdrawal) {
      var k :| 0 <= k < |rest| && rest[k] == x;
      assert s[k + 1] == x;
    }
    OnlyFalls(rest, sym, HeldAfter(s[0], sym, held));
  }

  /** Sells that come last fit as soon as the end leaves nothing below zero. */
  lemma {:induction false} LastSellsFit(b: Book, s: seq<Tx>)
    requires AllSound(s) && DisposalsLast(s)
    requires forall x, sym :: x in s && x.kind == Sell && x.IsFor(sym) ==> Fold(s, sym, Held(b, sym)) >= 0.0
    ensures Replay(b, s).Ok?
    decreases s
  {
    if s != [] {
      var x, rest := s[0], s[1..];
      assert x in s && Sound(x) && forall y :: y in rest ==> y in s;
      assert forall k :: 0 <= k < |rest| ==> rest[k] == s[k + 1];
      if x.kind == Sell {
        var sym := x.Symbol().value;
        FirstSellFits(s, sym, Held(b, sym));
      }
      StepFits(b, x);
      assert Fits(b, x);
      var b1 := Step(b, x).book;
      forall y, sym | y in rest && y.kind == Sell && y.IsFor(sym) ensures Fold(rest, sym, Held(b1, sym)) >= 0.0 {
        assert Held(b1, sym) == HeldAfter(x, sym, Held(b, sym));
        assert Fold(s, sym, Held(b, sym)) >= 0.0;
      }
      LastSellsFit(b1, rest);
    }
  }

  lemma NotBelowZero(x: Tx, sym: string, held: real)
    requires Sound(x) && held >= 0.0 && (x.kind == Sell && x.IsFor(sym) ==> x.qty <= held)
    ensures HeldAfter(x, sym, held) >= 0.0
  {
    if x.kind == Split && x.IsFor(sym) {
      MulMono(0.0, held, x.qty);
    }
  }

  /** Rows that replay leave nothing below zero of a symbol they sell. */
  lemma {:induction false} SoldIsNotBelowZero(b: Book, s: seq<Tx>, sym: string)
    requires Replay(b, s).Ok?
    requires Held(b, sym) >= 0.0 || exists x :: x in s && x.kind == Sell && x.IsFor(sym)
    ensures Fold(s, sym, Held(b, sym)) >= 0.0
    decreases s
  {
    if s != [] {
      var x, rest := s[0], s[1..];
      StepFits(b, x);
      assert forall y :: y in s <==> y == x || y in rest;
      if Held(b, sym) >= 0.0 || (x.kind == Sell && x.IsFor(sym)) {
        NotBelowZero(x, sym, Held(b, sym));
      }
      SoldIsNotBelowZero(Step(b, x).book, rest, sym);
    }
  }

  lemma {:induction false} MalformedNeverReplays(b: Book, s: seq<Tx>)
    requires Replay(b, s).Ok?
    ensures AllSound(s)
    decreases s
  {
    if s != [] {
      StepFits(b, s[0]);
      MalformedNeverReplays(Step(b, s[0]).book, s[1..]);
    }
  }

  lemma LastForEach(s: seq<Tx>, sym: string)
    requires DisposalsLast(s)
    ensures SellsLast(s, sym)
  {
  }

  /** At one instant an order with sells last that meets the condition for every symbol is no worse than any other. */
  lemma InstantNoWorse(b: Book, s: seq<Tx>, other: seq<Tx>)
    requires multiset(other) == multiset(s) && DisposalsLast(s) && forall sym :: BestOrder(s, sym)
    ensures NoWorse(b, s, other)
  {
    if Replay(b, other).Ok? {
      MalformedNeverReplays(b, other);
      SameElements(s, other);
      forall sym ensures Fold(other, sym, Held(b, sym)) <= Fold(s, sym, Held(b, sym)) {
        LastForEach(s, sym);
        BestLeavesMost(s, other, sym, Held(b, sym));
      }
      forall x, sym | x in s && x.kind == Sell && x.IsFor(sym) ensures Fold(s, sym, Held(b, sym)) >= 0.0 {
        SoldIsNotBelowZero(b, other, sym);
      }
      LastSellsFit(b, s);
      FoldsAtLeast(b, s, other);
    }
  }

  lemma FoldsAtLeast(b: Book, s: seq<Tx>, other: seq<Tx>)
    requires Replay(b, s).Ok? && Replay(b, other).Ok?
    requires forall sym :: Fold(other, sym, Held(b, sym)) <= Fold(s, sym, Held(b, sym))
    ensures AtLeast(Replay(b, s).value, Replay(b, other).value)
  {
    forall sym ensures Held(Replay(b, s).value, sym) >= Held(Replay(b, other).value, sym) {
      FoldIsHeld(b, s, sym);
      FoldIsHeld(b, other, sym);
    }
  }

  // ---------------------------------------------------------------- the condition is enough

  /**
   * What a caller checks of the file, instant by instant and symbol by symbol: in the importer's order no buy stands
   * behind a forward split nor in front of a reverse one, and the sells may come last.
   */
  ghost predicate WellPlaced(file: seq<Tx>) {
    forall t: int, sym: string :: BestOrder(At(Arranged(file), t), sym)
  }

  lemma ArrangedInOrder(file: seq<Tx>)
    requires Imported(file)
    ensures multiset(Arranged(file)) == multiset(file) && Imported(Arranged(file)) && Sorted(Arranged(file), Prior)
    ensures InTime(Arranged(file)) && |Arranged(file)| == |file|
  {
    PriorIsLinear();
    SortSorted(file, Prior);
    SortPermutes(file, Prior);
    SortUnique(file, Prior);
    SameElements(file, Arranged(file));
    SizeOfMultiset(file, Arranged(file));
    assert forall k :: 0 <= k < |Arranged(file)| ==> Arranged(file)[k] in file;
  }

  /** Money or shares go out. */
  ghost predicate GoesOut(tx: Tx) { tx.kind == Sell || tx.kind == Withdrawal }

  /**
   * The importer's order, row by row: by time, at one instant what comes in before what goes out, and otherwise as the
   * file has it; it holds the file's rows and no others.
   */
  lemma ComesInBeforeItGoesOut(file: seq<Tx>)
    requires Imported(file)
    ensures multiset(Arranged(file)) == multiset(file) && |Arranged(file)| == |file|
    ensures forall i, j :: 0 <= i < j < |file| ==>
              var a, b := Arranged(file)[i], Arranged(file)[j];
              && a.ts <= b.ts
              && (a.ts == b.ts && GoesOut(a) ==> GoesOut(b))
              && (a.ts == b.ts && GoesOut(a) == GoesOut(b) ==> a.id < b.id)
  {
    ArrangedInOrder(file);
    var rows := Arranged(file);
    forall i, j | 0 <= i < j < |file|
      ensures rows[i].ts <= rows[j].ts && (rows[i].ts == rows[j].ts && GoesOut(rows[i]) ==> GoesOut(rows[j]))
      ensures rows[i].ts == rows[j].ts && GoesOut(rows[i]) == GoesOut(rows[j]) ==> rows[i].id < rows[j].id
    {
      assert Prior(rows[i], rows[j]) && IsCandidate(rows[i]) && IsCandidate(rows[j]);
    }
  }

  lemma SizeOfMultiset(s: seq<Tx>, t: seq<Tx>)
    requires multiset(s) == multiset(t)
    ensures |s| == |t|
  {
    assert |multiset(s)| == |s| && |multiset(t)| == |t|;
  }

  lemma InstantInOrder(file: seq<Tx>, t: int)
    requires Imported(file)
    ensures DisposalsLast(At(Arranged(file), t))
  {
    var rows := Arranged(file);
    var g := At(rows, t);
    ArrangedInOrder(file);
    AtSorted(rows, t, Prior);
    AtMembers(rows, t);
    forall i, j | 0 <= i < j < |g| && g[i].kind == Sell ensures g[j].kind == Sell || g[j].kind == Withdrawal {
      assert Prior(g[i], g[j]) && g[i] in rows && g[j] in rows;
    }
  }

  lemma ProposedInTime(existing: seq<Tx>, rows: seq<Tx>)
    requires Stored(existing) && Imported(rows)
    ensures InTime(SortBy(existing + rows, Earlier))
  {
    var sorted, proposed := SortBy(existing + rows, Earlier), Proposed(existing, rows);
    ProposedIsStable(existing, rows);
    forall i, j | 0 <= i < j < |sorted| ensures sorted[i].ts <= sorted[j].ts {
      assert Alike(proposed[i], sorted[i]) && Alike(proposed[j], sorted[j]) && Before(proposed[i], proposed[j]);
    }
  }

  lemma AtOfLog(existing: seq<Tx>, rows: seq<Tx>, t: int)
    ensures At(SortBy(existing + rows, Earlier), t) == At(existing, t) + At(rows, t)
  {
    SortKeepsAt(existing + rows, t);
    AtAppend(existing, rows, t);
  }

  lemma NoWorseSelf(b: Book, s: seq<Tx>)
    ensures NoWorse(b, s, s)
  {
  }

  lemma ArrangedNoWorse(existing: seq<Tx>, file: seq<Tx>, other: seq<Tx>, t: int, b: Book)
    requires Imported(file) && WellPlaced(file) && multiset(other) == multiset(file)
    ensures NoWorse(b, At(existing, t) + At(Arranged(file), t), At(existing, t) + At(other, t))
  {
    var e, rows := At(existing, t), Arranged(file);
    ArrangedInOrder(file);
    InstantInOrder(file, t);
    AtPermutes(other, rows, t);
    assert forall sym :: BestOrder(At(rows, t), sym);
    if Replay(b, e).Ok? {
      InstantNoWorse(Replay(b, e).value, At(rows, t), At(other, t));
    }
    NoWorseSelf(b, e);
    NoWorseThen(b, e, e, At(rows, t), At(other, t));
  }

  lemma LogsNoWorse(existing: seq<Tx>, file: seq<Tx>, other: seq<Tx>)
    requires Stored(existing) && Imported(file) && WellPlaced(file) && multiset(other) == multiset(file)
    ensures NoWorseEach(SortBy(existing + Arranged(file), Earlier), SortBy(existing + other, Earlier))
  {
    var rows := Arranged(file);
    ArrangedInOrder(file);
    forall t: int
      ensures At(SortBy(existing + rows, Earlier), t) == [] <==> At(SortBy(existing + other, Earlier), t) == []
    {
      AtOfLog(existing, rows, t);
      AtOfLog(existing, other, t);
      AtPermutes(rows, other, t);
      SizeOfMultiset(At(rows, t), At(other, t));
    }
    forall t: int, b: Book
      ensures NoWorse(b, At(SortBy(existing + rows, Earlier), t), At(SortBy(existing + other, Earlier), t))
    {
      AtOfLog(existing, rows, t);
      AtOfLog(existing, other, t);
      ArrangedNoWorse(existing, file, other, t, b);
    }
  }

  /**
   * For a file that meets the condition, over any stored log: if any arrangement of its rows replays cleanly, then so
   * does the importer's, and it ends with no less of any symbol.
   */
  lemma AcquisitionsFirstIsOptimal(existing: seq<Tx>, file: seq<Tx>, other: seq<Tx>)
    requires Stored(existing) && Imported(file) && multiset(other) == multiset(file) && WellPlaced(file)
    requires Replay(EMPTY, Proposed(existing, other)).Ok?
    ensures Replay(EMPTY, Proposed(existing, Arranged(file))).Ok?
    ensures AtLeast(Replay(EMPTY, Proposed(existing, Arranged(file))).value,
                    Replay(EMPTY, Proposed(existing, other)).value)
  {
    var rows := Arranged(file);
    ArrangedInOrder(file);
    PermutedIsImported(file, other);
    ProposedInTime(existing, rows);
    ProposedInTime(existing, other);
    LogsNoWorse(existing, file, other);
    InstantByInstant(EMPTY, SortBy(existing + rows, Earlier), SortBy(existing + other, Earlier));
    ProposedIsStable(existing, rows);
    ProposedIsStable(existing, other);
    CleanWithoutIds(EMPTY, Proposed(existing, rows), SortBy(existing + rows, Earlier));
    CleanWithoutIds(EMPTY, Proposed(existing, other), SortBy(existing + other, Earlier));
  }

  lemma PermutedIsImported(file: seq<Tx>, other: seq<Tx>)
    requires Imported(file) && multiset(other) == multiset(file)
    ensures Imported(other)
  {
    UniquePermutation(file, other);
    SameElements(file, other);
    assert forall k :: 0 <= k < |other| ==> other[k] in file;
  }

  // ---------------------------------------------------------------- and it is needed

  lemma {:induction false} CutAt(s: seq<Tx>, t: int) returns (front: seq<Tx>, back: seq<Tx>)
    requires InTime(s)
    ensures s == front + (At(s, t) + back)
  {
    if s == [] || s[0].ts >= t {
      assert forall x :: x in s ==> t <= x.ts;
      Peel(s, t);
      front, back := [], Apart(s, t);
    } else {
      InTimeTail(s);
      front, back := CutAt(s[1..], t);
      front := [s[0]] + front;
    }
  }

  /** A stretch of one instant may be put in any order. */
  lemma Rearranged(rows: seq<Tx>, front: seq<Tx>, group: seq<Tx>, better: seq<Tx>, back: seq<Tx>, at: int)
    requires rows == front + (group + back) && multiset(better) == multiset(group)
    requires InTime(rows) && forall x :: x in group ==> x.ts == at
    ensures multiset(front + (better + back)) == multiset(rows) && InTime(front + (better + back))
  {
    var other, n, m := front + (better + back), |front|, |front| + |group|;
    SameElements(better, group);
    SizeOfMultiset(better, group);
    forall k | 0 <= k < |rows| ensures other[k].ts == rows[k].ts {
      if n <= k < m {
        assert other[k] == better[k - n] && rows[k] == group[k - n];
        assert better[k - n] in better && group[k - n] in group;
      }
    }
  }

  /** No rows of the symbol: nothing to place. */
  lemma {:induction false} NoRowsNoTotals(s: seq<Tx>, sym: string)
    requires forall x :: x in s ==> !x.IsFor(sym)
    ensures BestOrder(s, sym) && TotalsOf(s, sym) == Totals(1.0, 1.0, 0.0, 0.0)
  {
    if s != [] {
      assert s[0] in s && forall x :: x in s[1..] ==> x in s;
      NoRowsNoTotals(s[1..], sym);
    }
    assert forall i :: 0 <= i < |s| ==> s[i] in s;
  }

  /** Where the condition fails another arrangement always leaves more of the symbol. */
  lemma IllPlacedIsPoorer(file: seq<Tx>, t: int, sym: string) returns (other: seq<Tx>)
    requires Imported(file) && AllSound(file) && !BestOrder(At(Arranged(file), t), sym)
    ensures multiset(other) == multiset(Arranged(file)) && InTime(other)
    ensures exists x :: x in Arranged(file) && x.IsFor(sym)
    ensures forall held :: Fold(Arranged(file), sym, held) < Fold(other, sym, held)
  {
    var rows := Arranged(file);
    var group := At(rows, t);
    ArrangedInOrder(file);
    SameElements(file, rows);
    InstantInOrder(file, t);
    AtMembers(rows, t);
    LastForEach(group, sym);
    if forall x :: x in group ==> !x.IsFor(sym) {
      NoRowsNoTotals(group, sym);
    }
    var better := BetterOrder(group, sym);
    var front, back := CutAt(rows, t);
    Rearranged(rows, front, group, better, back, t);
    other := front + (better + back);
    assert forall x :: x in back ==> x in rows;
    forall held ensures Fold(rows, sym, held) < Fold(other, sym, held) {
      BetterRows(front, group, better, back, sym, held);
    }
  }

  /** No arrangement over any stored log replays where the importer's does not. */
  ghost predicate Optimal(file: seq<Tx>) {
    forall existing, other ::
      Stored(existing) && multiset(other) == multiset(file) && Replay(EMPTY, Proposed(existing, other)).Ok? ==>
        Replay(EMPTY, Proposed(existing, Arranged(file))).Ok?
  }

  lemma IllPlacedIsBeaten(file: seq<Tx>) returns (other: seq<Tx>)
    requires Imported(file) && AllSound(file) && |file| + 1 < CANDIDATE_ID_BASE && !WellPlaced(file)
    ensures multiset(other) == multiset(file) && Beaten(Arranged(file), other)
  {
    var rows := Arranged(file);
    var t: int, sym: string :| !BestOrder(At(rows, t), sym);
    ArrangedInOrder(file);
    other := IllPlacedIsPoorer(file, t, sym);
    PermutedIsImported(rows, other);
    SameElements(file, rows);
    SameElements(rows, other);
    RicherBeats(rows, other, sym);
  }

  lemma IllPlacedIsNotOptimal(file: seq<Tx>)
    requires Imported(file) && AllSound(file) && |file| + 1 < CANDIDATE_ID_BASE && !WellPlaced(file)
    ensures !Optimal(file)
  {
    var other := IllPlacedIsBeaten(file);
    var existing :| Stored(existing) && Replay(EMPTY, Proposed(existing, other)).Ok?
                    && Replay(EMPTY, Proposed(existing, Arranged(file))).Err?;
  }

  lemma WellPlacedIsOptimal(file: seq<Tx>)
    requires Imported(file) && WellPlaced(file)
    ensures Optimal(file)
  {
    forall existing, other | Stored(existing) && multiset(other) == multiset(file)
                             && Replay(EMPTY, Proposed(existing, other)).Ok?
      ensures Replay(EMPTY, Proposed(existing, Arranged(file))).Ok?
    {
      AcquisitionsFirstIsOptimal(existing, file, other);
    }
  }

  /** If any arrangement of the file replays over some stored log, all of its rows are well-formed. */
  lemma ReplaysOnlySound(existing: seq<Tx>, other: seq<Tx>)
    requires Stored(existing) && Imported(other) && Replay(EMPTY, Proposed(existing, other)).Ok?
    ensures AllSound(other)
  {
    var sorted := SortBy(existing + other, Earlier);
    ProposedIsStable(existing, other);
    CleanWithoutIds(EMPTY, Proposed(existing, other), sorted);
    MalformedNeverReplays(EMPTY, sorted);
    SortPermutes(existing + other, Earlier);
    SameElements(sorted, existing + other);
  }

  lemma OnlySoundFilesCanLose(file: seq<Tx>)
    requires Imported(file) && !Optimal(file)
    ensures AllSound(file)
  {
    var existing, other :| Stored(existing) && multiset(other) == multiset(file)
                           && Replay(EMPTY, Proposed(existing, other)).Ok?
                           && Replay(EMPTY, Proposed(existing, Arranged(file))).Err?;
    PermutedIsImported(file, other);
    SameElements(file, other);
    ReplaysOnlySound(existing, other);
  }

  /**
   * For every file the importer's order is best over every stored log if and only if the file meets the condition at
   * each instant and for each symbol. A file with a malformed row never replays, so for it no order is better either.
   * The rows must be few enough to be numbered above the stored ones.
   */
  lemma OptimalExactlyWhenWellPlaced(file: seq<Tx>)
    requires Imported(file) && |file| + 1 < CANDIDATE_ID_BASE
    ensures Optimal(file) <==> WellPlaced(file) || !AllSound(file)
  {
    if WellPlaced(file) {
      WellPlacedIsOptimal(file);
    } else if AllSound(file) {
      IllPlacedIsNotOptimal(file);
    } else if !Optimal(file) {
      OnlySoundFilesCanLose(file);
    }
  }
}
