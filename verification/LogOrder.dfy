/** Sorting a log: the stable insertion sort that stands for the standard library's, and what it guarantees. */
module LogOrder {
  import opened Log
  import opened Sums

  /** Puts x before the first element that is not smaller, so equal elements keep their order. */
  function InsertBy(x: Tx, s: seq<Tx>, less: (Tx, Tx) -> bool): seq<Tx> {
    if s == [] || !less(s[0], x) then [x] + s else [s[0]] + InsertBy(x, s[1..], less)
  }

  function SortBy(s: seq<Tx>, less: (Tx, Tx) -> bool): seq<Tx> {
    if s == [] then [] else InsertBy(s[0], SortBy(s[1..], less), less)
  }

  function Earlier(a: Tx, b: Tx): bool { a.ts < b.ts }

  /** The order `sort_by(ts then id)` leaves behind. */
  function Sort(s: seq<Tx>): seq<Tx> { SortBy(s, Before) }

  function Without(s: seq<Tx>, id: int): seq<Tx> {
    if s == [] then []
    else if s[0].id == id then Without(s[1..], id)
    else [s[0]] + Without(s[1..], id)
  }

  ghost predicate Sorted(s: seq<Tx>, less: (Tx, Tx) -> bool) {
    forall i, j :: 0 <= i < j < |s| ==> less(s[i], s[j])
  }

  /** A strict order that separates any two rows with different ids. */
  ghost predicate LinearById(less: (Tx, Tx) -> bool) {
    && (forall a, b :: less(a, b) ==> !less(b, a))
    && (forall a, b, c :: less(a, b) && less(b, c) ==> less(a, c))
    && (forall a: Tx, b: Tx :: a.id != b.id ==> less(a, b) || less(b, a))
  }

  lemma {:induction false} InsertPermutes(x: Tx, s: seq<Tx>, less: (Tx, Tx) -> bool)
    ensures multiset(InsertBy(x, s, less)) == multiset{x} + multiset(s)
  {
    if s != [] && less(s[0], x) {
      InsertPermutes(x, s[1..], less);
      assert s == [s[0]] + s[1..];
    }
  }

  lemma {:induction false} SortPermutes(s: seq<Tx>, less: (Tx, Tx) -> bool)
    ensures multiset(SortBy(s, less)) == multiset(s)
  {
    if s != [] {
      SortPermutes(s[1..], less);
      InsertPermutes(s[0], SortBy(s[1..], less), less);
      assert s == [s[0]] + s[1..];
    }
  }

  lemma SameElements(a: seq<Tx>, b: seq<Tx>)
    requires multiset(a) == multiset(b)
    ensures forall x :: x in a <==> x in b
  {
    forall x ensures x in a <==> x in b {
      assert x in a <==> x in multiset(a);
      assert x in b <==> x in multiset(b);
    }
  }

  lemma InsertMembers(x: Tx, s: seq<Tx>, less: (Tx, Tx) -> bool)
    ensures forall y :: y in InsertBy(x, s, less) <==> y == x || y in s
  {
    InsertPermutes(x, s, less);
    assert multiset([x] + s) == multiset{x} + multiset(s);
    SameElements(InsertBy(x, s, less), [x] + s);
  }

  lemma SortedCons(x: Tx, s: seq<Tx>, less: (Tx, Tx) -> bool)
    requires Sorted(s, less) && forall y :: y in s ==> less(x, y)
    ensures Sorted([x] + s, less)
  {
  }

  lemma {:induction false} InsertSorted(x: Tx, s: seq<Tx>, less: (Tx, Tx) -> bool)
    requires LinearById(less) && Sorted(s, less)
    requires forall y :: y in s ==> y.id != x.id
    ensures Sorted(InsertBy(x, s, less), less)
  {
    if s != [] && less(s[0], x) {
      InsertSorted(x, s[1..], less);
      InsertMembers(x, s[1..], less);
      SortedCons(s[0], InsertBy(x, s[1..], less), less);
    } else {
      if s != [] {
        assert s[0].id != x.id && less(x, s[0]);
      }
      SortedCons(x, s, less);
    }
  }

  lemma {:induction false} SortSorted(s: seq<Tx>, less: (Tx, Tx) -> bool)
    requires LinearById(less) && UniqueIds(s)
    ensures Sorted(SortBy(s, less), less)
  {
    if s != [] {
      SortSorted(s[1..], less);
      SortPermutes(s[1..], less);
      SameElements(s[1..], SortBy(s[1..], less));
      InsertSorted(s[0], SortBy(s[1..], less), less);
    }
  }

  lemma {:induction false} InsertUnique(x: Tx, s: seq<Tx>, less: (Tx, Tx) -> bool)
    requires UniqueIds(s) && forall y :: y in s ==> y.id != x.id
    ensures UniqueIds(InsertBy(x, s, less))
  {
    if s != [] && less(s[0], x) {
      InsertUnique(x, s[1..], less);
      InsertMembers(x, s[1..], less);
      var rest := InsertBy(x, s[1..], less);
      assert forall j :: 0 <= j < |rest| ==> rest[j] in rest;
    }
  }

  lemma {:induction false} SortUnique(s: seq<Tx>, less: (Tx, Tx) -> bool)
    requires UniqueIds(s)
    ensures UniqueIds(SortBy(s, less))
  {
    if s != [] {
      SortUnique(s[1..], less);
      SortPermutes(s[1..], less);
      SameElements(s[1..], SortBy(s[1..], less));
      InsertUnique(s[0], SortBy(s[1..], less), less);
    }
  }

  lemma SameLeast(a: seq<Tx>, b: seq<Tx>, less: (Tx, Tx) -> bool)
    requires LinearById(less) && Sorted(a, less) && Sorted(b, less)
    requires a != [] && b != [] && a[0] in b && b[0] in a
    ensures a[0] == b[0]
  {
  }

  lemma SameTail(a: seq<Tx>, b: seq<Tx>)
    requires a != [] && b != [] && a[0] == b[0] && multiset(a) == multiset(b)
    ensures multiset(a[1..]) == multiset(b[1..])
  {
    assert a == [a[0]] + a[1..];
    assert b == [b[0]] + b[1..];
    assert multiset(a) == multiset{a[0]} + multiset(a[1..]);
    assert multiset(b) == multiset{b[0]} + multiset(b[1..]);
    assert multiset(a[1..]) == multiset(a) - multiset{a[0]};
  }

  /** A strict order has at most one sorted arrangement. */
  lemma {:induction false} SortedUnique(a: seq<Tx>, b: seq<Tx>, less: (Tx, Tx) -> bool)
    requires LinearById(less) && Sorted(a, less) && Sorted(b, less)
    requires multiset(a) == multiset(b)
    ensures a == b
    decreases |a|
  {
    assert |a| == |multiset(a)| == |multiset(b)| == |b|;
    if a != [] {
      SameElements(a, b);
      assert a[0] in a && b[0] in b;
      SameLeast(a, b, less);
      SameTail(a, b);
      SortedUnique(a[1..], b[1..], less);
      assert a == [a[0]] + a[1..] && b == [b[0]] + b[1..];
    }
  }

  lemma {:induction false} WithoutSubset(s: seq<Tx>, id: int)
    ensures forall x :: x in Without(s, id) <==> x in s && x.id != id
  {
    if s != [] {
      WithoutSubset(s[1..], id);
      assert s == [s[0]] + s[1..];
    }
  }

  lemma {:induction false} WithoutAbsent(s: seq<Tx>, id: int)
    requires forall x :: x in s ==> x.id != id
    ensures Without(s, id) == s
  {
    if s != [] {
      WithoutAbsent(s[1..], id);
    }
  }

  lemma {:induction false} WithoutAppend(a: seq<Tx>, b: seq<Tx>, id: int)
    ensures Without(a + b, id) == Without(a, id) + Without(b, id)
  {
    if a == [] {
      assert a + b == b;
    } else {
      WithoutAppend(a[1..], b, id);
      AppendTail(a, b);
    }
  }

  lemma WithoutCons(x: Tx, s: seq<Tx>, id: int)
    ensures Without([x] + s, id) == if x.id == id then Without(s, id) else [x] + Without(s, id)
  {
    assert ([x] + s)[1..] == s;
  }

  lemma InsertCons(x: Tx, y: Tx, s: seq<Tx>, less: (Tx, Tx) -> bool)
    ensures InsertBy(x, [y] + s, less) == if less(y, x) then [y] + InsertBy(x, s, less) else [x] + ([y] + s)
  {
    assert ([y] + s)[1..] == s;
  }

  lemma InsertFirst(x: Tx, s: seq<Tx>, less: (Tx, Tx) -> bool)
    requires s != [] ==> !less(s[0], x)
    ensures InsertBy(x, s, less) == [x] + s
  {
  }

  lemma {:induction false} InsertWithout(x: Tx, s: seq<Tx>, less: (Tx, Tx) -> bool, id: int)
    requires LinearById(less) && Sorted(s, less)
    ensures Without(InsertBy(x, s, less), id) ==
            (if x.id == id then Without(s, id) else InsertBy(x, Without(s, id), less))
  {
    if s == [] {
      WithoutCons(x, s, id);
    } else if less(s[0], x) {
      InsertWithout(x, s[1..], less, id);
      WithoutCons(s[0], InsertBy(x, s[1..], less), id);
      InsertCons(x, s[0], Without(s[1..], id), less);
    } else {
      WithoutCons(x, s, id);
      WithoutSubset(s, id);
      if Without(s, id) != [] {
        var y := Without(s, id)[0];
        assert y in s;
        InsertFirst(x, Without(s, id), less);
      }
    }
  }

  /** Removing a row before or after sorting is the same. */
  lemma {:induction false} SortWithout(s: seq<Tx>, less: (Tx, Tx) -> bool, id: int)
    requires LinearById(less) && UniqueIds(s)
    ensures SortBy(Without(s, id), less) == Without(SortBy(s, less), id)
  {
    if s != [] {
      SortWithout(s[1..], less, id);
      SortSorted(s[1..], less);
      InsertWithout(s[0], SortBy(s[1..], less), less, id);
      SortCons(s[0], Without(s[1..], id), less);
    }
  }

  lemma SortCons(x: Tx, s: seq<Tx>, less: (Tx, Tx) -> bool)
    ensures SortBy([x] + s, less) == InsertBy(x, SortBy(s, less), less)
  {
    assert ([x] + s)[1..] == s;
  }

  lemma {:induction false} InsertByTime(x: Tx, s: seq<Tx>, less: (Tx, Tx) -> bool)
    requires LinearById(less) && Sorted(s, less)
    requires forall a: Tx, b: Tx :: less(a, b) ==> a.ts <= b.ts
    requires forall y :: y in s && y.ts == x.ts ==> less(x, y)
    requires forall y :: y in s ==> y.id != x.id
    ensures InsertBy(x, s, Earlier) == InsertBy(x, s, less)
  {
    if s != [] {
      assert s[0] in s;
      assert less(s[0], x) || less(x, s[0]);
      if Earlier(s[0], x) {
        InsertByTime(x, s[1..], less);
      }
    }
  }

  /** A stable sort by instant is a sort by any finer order that agrees with the initial arrangement. */
  lemma {:induction false} StableIsFine(s: seq<Tx>, less: (Tx, Tx) -> bool)
    requires LinearById(less) && UniqueIds(s)
    requires forall a: Tx, b: Tx :: less(a, b) ==> a.ts <= b.ts
    requires forall i, j :: 0 <= i < j < |s| && s[i].ts == s[j].ts ==> less(s[i], s[j])
    ensures SortBy(s, Earlier) == SortBy(s, less)
  {
    if s != [] {
      var rest := s[1..];
      StableIsFine(rest, less);
      SortSorted(rest, less);
      SortPermutes(rest, less);
      SameElements(rest, SortBy(rest, less));
      InsertByTime(s[0], SortBy(rest, less), less);
    }
  }

  lemma BeforeIsLinear()
    ensures LinearById(Before)
  {
  }
}
