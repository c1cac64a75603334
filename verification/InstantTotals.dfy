/**
 * What the rows of one instant make of the shares held of one symbol: the most that any order of them can make of it,
 * and when the order that puts sells last makes that.
 */
module InstantTotals {
  import opened Log
  import opened LogOrder
  import opened Sums
  import opened ImportOrder

  ghost predicate AllSound(s: seq<Tx>) { forall x :: x in s ==> Sound(x) }

  function Fold(s: seq<Tx>, sym: string, held: real): real
    decreases s
  {
    if s == [] then held else Fold(s[1..], sym, HeldAfter(s[0], sym, held))
  }

  lemma {:induction false} FoldAppend(a: seq<Tx>, b: seq<Tx>, sym: string, held: real)
    ensures Fold(a + b, sym, held) == Fold(b, sym, Fold(a, sym, held))
    decreases a
  {
    if a == [] {
      assert a + b == b;
    } else {
      AppendTail(a, b);
      FoldAppend(a[1..], b, sym, HeldAfter(a[0], sym, held));
    }
  }

  // ---------------------------------------------------------------- totals, whatever the order

  /** The product of the forward and of the reverse split ratios, the shares bought and the shares sold. */
  datatype Totals = Totals(grow: real, shrink: real, bought: real, sold: real)
  {
    function Factor(): real { Times(grow, shrink) }

    predicate Sane() { grow >= 1.0 && 0.0 < shrink <= 1.0 && bought >= 0.0 && sold >= 0.0 }
  }

  function With(x: Tx, sym: string, t: Totals): Totals {
    if !x.IsFor(sym) then t
    else match x.kind
      case Buy => t.(bought := t.bought + x.qty)
      case Sell => t.(sold := t.sold + x.qty)
      case Split => if x.qty >= 1.0 then t.(grow := Times(t.grow, x.qty)) else t.(shrink := Times(t.shrink, x.qty))
      case _ => t
  }

  function TotalsOf(s: seq<Tx>, sym: string): Totals {
    if s == [] then Totals(1.0, 1.0, 0.0, 0.0) else With(s[0], sym, TotalsOf(s[1..], sym))
  }

  lemma TimesSwap(a: real, x: real, y: real)
    ensures Times(Times(a, x), y) == Times(Times(a, y), x)
  {
  }

  lemma WithCommutes(x: Tx, y: Tx, sym: string, t: Totals)
    ensures With(x, sym, With(y, sym, t)) == With(y, sym, With(x, sym, t))
  {
    TimesSwap(t.grow, x.qty, y.qty);
    TimesSwap(t.shrink, x.qty, y.qty);
  }

  lemma {:induction false} TotalsTakeOut(a: seq<Tx>, x: Tx, b: seq<Tx>, sym: string)
    ensures TotalsOf(a + ([x] + b), sym) == With(x, sym, TotalsOf(a + b, sym))
  {
    if a == [] {
      assert a + ([x] + b) == [x] + b && a + b == b && ([x] + b)[1..] == b;
    } else {
      AppendTail(a, [x] + b);
      AppendTail(a, b);
      TotalsTakeOut(a[1..], x, b, sym);
      WithCommutes(a[0], x, sym, TotalsOf(a[1..] + b, sym));
    }
  }

  lemma SameRest(a: multiset<Tx>, b: multiset<Tx>, x: Tx)
    requires multiset{x} + a == multiset{x} + b
    ensures a == b
  {
    assert a == (multiset{x} + a) - multiset{x};
    assert b == (multiset{x} + b) - multiset{x};
  }

  lemma TakeOut(t: seq<Tx>, x: Tx) returns (front: seq<Tx>, back: seq<Tx>)
    requires x in t
    ensures t == front + ([x] + back) && multiset(t) == multiset{x} + multiset(front + back)
  {
    var k :| 0 <= k < |t| && t[k] == x;
    front, back := t[..k], t[k + 1..];
    assert t == front + ([x] + back);
  }

  /** The totals do not depend on the order of the rows. */
  lemma {:induction false} TotalsPermute(s: seq<Tx>, t: seq<Tx>, sym: string)
    requires multiset(s) == multiset(t)
    ensures TotalsOf(s, sym) == TotalsOf(t, sym)
  {
    SameElements(s, t);
    if s == [] {
      assert t == [];
    } else {
      assert s[0] in s && s == [s[0]] + s[1..];
      var front, back := TakeOut(t, s[0]);
      SameRest(multiset(s[1..]), multiset(front + back), s[0]);
      TotalsPermute(s[1..], front + back, sym);
      TotalsTakeOut(front, s[0], back, sym);
    }
  }

  lemma TimesAtLeast(a: real, r: real)
    requires a >= 1.0 && r >= 1.0
    ensures Times(a, r) >= a
  {
    assert a * (r - 1.0) >= 0.0;
  }

  lemma TimesAtMost(a: real, r: real)
    requires a > 0.0 && 0.0 < r <= 1.0
    ensures 0.0 < Times(a, r) <= a
  {
    assert a * r > 0.0;
    assert a * (1.0 - r) >= 0.0;
  }

  lemma {:induction false} TotalsSane(s: seq<Tx>, sym: string)
    requires AllSound(s)
    ensures TotalsOf(s, sym).Sane()
  {
    if s != [] {
      var x, t := s[0], TotalsOf(s[1..], sym);
      assert x in s && Sound(x);
      TotalsSane(s[1..], sym);
      if x.kind == Split && x.IsFor(sym) {
        if x.qty >= 1.0 {
          TimesAtLeast(t.grow, x.qty);
        } else {
          TimesAtMost(t.shrink, x.qty);
        }
      }
    }
  }

  // ---------------------------------------------------------------- what the trades are worth in this order

  function Change(x: Tx, sym: string): real {
    if !x.IsFor(sym) then 0.0 else if x.kind == Buy then x.qty else if x.kind == Sell then -x.qty else 0.0
  }

  function FactorOf(s: seq<Tx>, sym: string): real { TotalsOf(s, sym).Factor() }

  /** Every trade counts with the splits behind it. */
  function Worth(s: seq<Tx>, sym: string): real {
    if s == [] then 0.0 else Times(Change(s[0], sym), FactorOf(s[1..], sym)) + Worth(s[1..], sym)
  }

  lemma FactorHead(s: seq<Tx>, sym: string)
    requires s != []
    ensures FactorOf(s, sym) == if s[0].kind == Split && s[0].IsFor(sym) then Times(FactorOf(s[1..], sym), s[0].qty)
                                else FactorOf(s[1..], sym)
  {
    var t := TotalsOf(s[1..], sym);
    TimesSwap(t.grow, s[0].qty, t.shrink);
    TimesTurn(t.grow, t.shrink, s[0].qty);
  }

  lemma TimesTurn(a: real, b: real, c: real)
    ensures Times(a, Times(b, c)) == Times(Times(a, b), c)
  {
  }

  lemma HeldStep(x: Tx, sym: string, held: real, factor: real)
    ensures Times(HeldAfter(x, sym, held), factor) ==
            if x.kind == Split && x.IsFor(sym) then Times(held, Times(factor, x.qty))
            else Times(held, factor) + Times(Change(x, sym), factor)
  {
    if x.kind == Split && x.IsFor(sym) {
      TimesSwap(held, x.qty, factor);
      TimesTurn(held, factor, x.qty);
    } else {
      assert HeldAfter(x, sym, held) == held + Change(x, sym);
      TimesAdds(held, Change(x, sym), factor);
    }
  }

  /** The rows scale what was held before and add what the trades are worth. */
  lemma {:induction false} FoldIsWorth(s: seq<Tx>, sym: string, held: real)
    ensures Fold(s, sym, held) == Times(held, FactorOf(s, sym)) + Worth(s, sym)
    decreases s
  {
    if s != [] {
      FoldIsWorth(s[1..], sym, HeldAfter(s[0], sym, held));
      HeldStep(s[0], sym, held, FactorOf(s[1..], sym));
      FactorHead(s, sym);
    }
  }

  // ---------------------------------------------------------------- the most any order can make

  /** The largest product of splits behind any point of the rows, and the smallest. */
  function Most(s: seq<Tx>, sym: string): real {
    if s == [] then 1.0 else Max(Most(s[1..], sym), FactorOf(s, sym))
  }

  function Least(s: seq<Tx>, sym: string): real {
    if s == [] then 1.0 else Min(Least(s[1..], sym), FactorOf(s, sym))
  }

  /** How the products behind two points bound each other: one of them lies behind the other. */
  ghost predicate Nested(grow: real, shrink: real, factor: real, most: real, least: real) {
    && grow >= 1.0 && 0.0 < shrink <= 1.0
    && 1.0 <= most <= grow && shrink <= least <= 1.0 && least <= factor <= most
    && Times(most, shrink) <= factor <= Times(least, grow)
    && (most <= Times(least, grow) || Times(most, shrink) <= least)
  }

  lemma TimesLess(a: real, b: real, r: real)
    ensures Times(a - b, r) == Times(a, r) - Times(b, r)
  {
  }

  lemma TimesMono(a: real, b: real, r: real)
    requires a <= b && r >= 0.0
    ensures Times(a, r) <= Times(b, r)
  {
    assert (b - a) * r >= 0.0;
  }

  lemma TimesMonoRight(a: real, r: real, q: real)
    requires a >= 0.0 && r <= q
    ensures Times(a, r) <= Times(a, q)
  {
    assert a * (q - r) >= 0.0;
  }

  lemma NestedForward(grow: real, shrink: real, factor: real, most: real, least: real, r: real)
    requires Nested(grow, shrink, factor, most, least) && r >= 1.0
    ensures var scaled := Times(factor, r);
      Nested(Times(grow, r), shrink, scaled, Max(most, scaled), Min(least, scaled))
  {
    var scaled := Times(factor, r);
    TimesMonoRight(factor, 1.0, r);
    TimesAtLeast(grow, r);
    TimesMono(factor, Times(least, grow), r);
    TimesTurn(least, grow, r);
    TimesMono(least, 1.0, Times(grow, r));
    TimesMonoRight(scaled, shrink, 1.0);
    TimesMonoRight(least, grow, Times(grow, r));
  }

  lemma NestedReverse(grow: real, shrink: real, factor: real, most: real, least: real, r: real)
    requires Nested(grow, shrink, factor, most, least) && 0.0 < r < 1.0
    ensures var scaled := Times(factor, r);
      Nested(grow, Times(shrink, r), scaled, Max(most, scaled), Min(least, scaled))
  {
    var scaled := Times(factor, r);
    TimesAtMost(factor, r);
    TimesAtMost(shrink, r);
    TimesMono(Times(most, shrink), factor, r);
    TimesTurn(most, shrink, r);
    TimesMono(1.0, most, Times(shrink, r));
    TimesMonoRight(scaled, 1.0, grow);
    TimesMonoRight(most, Times(shrink, r), shrink);
  }

  lemma {:induction false} TailsNested(s: seq<Tx>, sym: string)
    requires AllSound(s)
    ensures var t := TotalsOf(s, sym); Nested(t.grow, t.shrink, t.Factor(), Most(s, sym), Least(s, sym))
  {
    if s != [] {
      var x, t := s[0], TotalsOf(s[1..], sym);
      assert x in s && Sound(x);
      TailsNested(s[1..], sym);
      FactorHead(s, sym);
      if x.kind == Split && x.IsFor(sym) {
        if x.qty >= 1.0 {
          NestedForward(t.grow, t.shrink, t.Factor(), Most(s[1..], sym), Least(s[1..], sym), x.qty);
        } else {
          NestedReverse(t.grow, t.shrink, t.Factor(), Most(s[1..], sym), Least(s[1..], sym), x.qty);
        }
      }
    }
  }

  lemma TradeBound(change: real, factor: real, most: real, least: real)
    requires 0.0 <= least <= factor <= most
    ensures change >= 0.0 ==> Times(change, factor) <= Times(change, most)
    ensures change <= 0.0 ==> Times(change, factor) <= Times(change, least)
  {
    if change >= 0.0 {
      TimesMonoRight(change, factor, most);
    } else {
      assert change * (least - factor) >= 0.0;
    }
  }

  lemma WorthBoundStep(x: Tx, sym: string, t: Totals, factor: real, most: real, least: real, worth: real)
    requires Sound(x) && t.Sane() && 0.0 <= least <= factor <= most
    requires worth <= Times(t.bought, most) - Times(t.sold, least)
    ensures var t' := With(x, sym, t);
      Times(Change(x, sym), factor) + worth <= Times(t'.bought, most) - Times(t'.sold, least)
  {
    TradeBound(Change(x, sym), factor, most, least);
    TimesAdds(t.bought, x.qty, most);
    TimesAdds(t.sold, x.qty, least);
    assert Times(-x.qty, least) == -Times(x.qty, least);
  }

  /** No trade bought counts for more than the largest product, none sold for less than the smallest. */
  lemma {:induction false} WorthBound(s: seq<Tx>, sym: string)
    requires AllSound(s)
    ensures var t := TotalsOf(s, sym);
      Worth(s, sym) <= Times(t.bought, Most(s, sym)) - Times(t.sold, Least(s, sym))
  {
    if s != [] {
      var x, rest := s[0], s[1..];
      var t, most, least := TotalsOf(rest, sym), Most(rest, sym), Least(rest, sym);
      assert x in s && Sound(x);
      WorthBound(rest, sym);
      TotalsSane(rest, sym);
      TailsNested(rest, sym);
      WorthBoundStep(x, sym, t, t.Factor(), most, least, Worth(rest, sym));
      TotalsSane(s, sym);
      var t' := TotalsOf(s, sym);
      TimesMonoRight(t'.bought, most, Most(s, sym));
      TimesMonoRight(t'.sold, Least(s, sym), least);
    }
  }

  /**
   * Sells may come last: there are none, or no reverse split, or the splits together shrink nothing and the shares
   * bought, grown by the forward splits, cover the shares sold.
   */
  predicate SellsMayBeLast(t: Totals) {
    t.sold == 0.0 || t.shrink == 1.0 || (t.Factor() >= 1.0 && Times(t.bought, t.grow) >= t.sold)
  }

  /** What the trades are worth with every buy grown in full and every sell behind all splits. */
  function Ideal(t: Totals): real { Times(t.bought, t.grow) - t.sold }

  lemma CoveredSells(t: Totals, factor: real, most: real, least: real)
    requires t.Sane() && Nested(t.grow, t.shrink, factor, most, least) && factor == t.Factor() >= 1.0
    requires Times(t.bought, t.grow) >= t.sold
    ensures Times(t.bought, most) - Times(t.sold, least) <= Ideal(t)
  {
    if most <= Times(least, t.grow) {
      GrownBuys(t, most, least);
    } else {
      ShrunkSells(t, most, least);
    }
  }

  /** The largest product lies behind the point of the smallest. */
  lemma GrownBuys(t: Totals, most: real, least: real)
    requires t.Sane() && 0.0 < least <= 1.0 && most <= Times(least, t.grow) && Ideal(t) >= 0.0
    ensures Times(t.bought, most) - Times(t.sold, least) <= Ideal(t)
  {
    var grown := Times(t.bought, t.grow);
    TimesMonoRight(t.bought, most, Times(least, t.grow));
    TimesTurn(t.bought, least, t.grow);
    TimesSwap(t.bought, least, t.grow);
    TimesLess(grown, t.sold, least);
    TimesMonoRight(grown - t.sold, least, 1.0);
  }

  /** The smallest product lies behind the point of the largest. */
  lemma ShrunkSells(t: Totals, most: real, least: real)
    requires t.Sane() && 1.0 <= most <= t.grow && Times(most, t.shrink) <= least && t.Factor() >= 1.0
    requires Times(t.bought, t.grow) >= t.sold
    ensures Times(t.bought, most) - Times(t.sold, least) <= Ideal(t)
  {
    var rest := t.bought - Times(t.sold, t.shrink);
    TimesMonoRight(t.sold, Times(most, t.shrink), least);
    TimesTurn(t.sold, t.shrink, most);
    assert Times(most, t.shrink) == Times(t.shrink, most);
    TimesAdds(t.bought, -Times(t.sold, t.shrink), most);
    assert Times(-Times(t.sold, t.shrink), most) == -Times(Times(t.sold, t.shrink), most);
    assert Times(t.bought, most) - Times(t.sold, least) <= Times(rest, most);
    if rest >= 0.0 {
      TimesMonoRight(rest, most, t.grow);
      TimesAdds(t.bought, -Times(t.sold, t.shrink), t.grow);
      TimesTurn(t.sold, t.shrink, t.grow);
      assert Times(t.shrink, t.grow) == t.Factor();
      TimesMonoRight(t.sold, 1.0, t.Factor());
    } else {
      TimesMono(rest, 0.0, most);
    }
  }

  lemma IdealIsMost(t: Totals, factor: real, most: real, least: real)
    requires t.Sane() && Nested(t.grow, t.shrink, factor, most, least) && factor == t.Factor() && SellsMayBeLast(t)
    ensures Times(t.bought, most) - Times(t.sold, least) <= Ideal(t)
  {
    if t.sold == 0.0 || t.shrink == 1.0 {
      TimesMonoRight(t.bought, most, t.grow);
      TimesMonoRight(t.sold, t.shrink, least);
    } else {
      CoveredSells(t, factor, most, least);
    }
  }

  // ---------------------------------------------------------------- the order with sells last

  /** Behind a sell come no more buys and splits of its symbol. */
  ghost predicate SellsLast(s: seq<Tx>, sym: string) {
    forall i, j :: 0 <= i < j < |s| && s[i].kind == Sell && s[i].IsFor(sym) && s[j].IsFor(sym) ==>
                     s[j].kind != Buy && s[j].kind != Split
  }

  /** y may stand in front of x: no forward split in front of a buy, no buy in front of a reverse split. */
  predicate BuyPlaced(y: Tx, x: Tx, sym: string) {
    y.IsFor(sym) && x.IsFor(sym) ==>
      && (y.kind == Split && x.kind == Buy ==> y.qty <= 1.0)
      && (y.kind == Buy && x.kind == Split ==> x.qty >= 1.0)
  }

  ghost predicate BuysPlaced(s: seq<Tx>, sym: string) {
    forall i, j :: 0 <= i < j < |s| ==> BuyPlaced(s[i], s[j], sym)
  }

  lemma TailInOrder(s: seq<Tx>, sym: string)
    requires s != []
    ensures SellsLast(s, sym) ==> SellsLast(s[1..], sym)
    ensures BuysPlaced(s, sym) <==> BuysPlaced(s[1..], sym) && forall x :: x in s[1..] ==> BuyPlaced(s[0], x, sym)
  {
    var rest := s[1..];
    assert forall k :: 0 <= k < |rest| ==> rest[k] == s[k + 1];
    assert forall k :: 1 <= k < |s| ==> s[k] == rest[k - 1] && s[k] in rest;
  }

  /** What the totals say of the rows: whether a reverse split, a buy or a sell is among them. */
  lemma {:induction false} TotalsShow(s: seq<Tx>, sym: string)
    requires AllSound(s)
    ensures var t := TotalsOf(s, sym);
      && (t.shrink == 1.0 <==> forall x :: x in s && x.IsFor(sym) && x.kind == Split ==> x.qty >= 1.0)
      && (t.bought == 0.0 <==> forall x :: x in s && x.IsFor(sym) ==> x.kind != Buy)
      && (t.sold == 0.0 <==> forall x :: x in s && x.IsFor(sym) ==> x.kind != Sell)
  {
    if s != [] {
      var x, rest := s[0], s[1..];
      var t := TotalsOf(rest, sym);
      assert x in s && Sound(x) && forall y :: y in s <==> y == x || y in rest;
      TotalsShow(rest, sym);
      TotalsSane(rest, sym);
      if x.kind == Split && x.IsFor(sym) && x.qty < 1.0 {
        StrictlyLess(t.shrink, x.qty);
      }
    }
  }

  lemma StrictlyLess(a: real, r: real)
    requires a > 0.0 && r < 1.0
    ensures Times(a, r) < a
  {
    assert a * (1.0 - r) > 0.0;
  }

  lemma {:induction false} OnlySells(s: seq<Tx>, sym: string)
    requires forall x :: x in s && x.IsFor(sym) ==> x.kind != Buy && x.kind != Split
    ensures var t := TotalsOf(s, sym);
      t.grow == 1.0 && t.shrink == 1.0 && t.bought == 0.0 && Worth(s, sym) == -t.sold
  {
    if s != [] {
      assert s[0] in s;
      OnlySells(s[1..], sym);
    }
  }

  lemma BuyInFront(qty: real, t: Totals)
    requires t.Sane() && qty > 0.0
    ensures Times(qty, t.Factor()) <= Times(qty, t.grow)
    ensures Times(qty, t.Factor()) == Times(qty, t.grow) <==> t.shrink == 1.0
  {
    if t.shrink < 1.0 {
      StrictlyLess(t.grow, t.shrink);
      assert qty * (t.grow - t.Factor()) > 0.0;
    }
  }

  lemma ForwardInFront(bought: real, grow: real, r: real)
    requires bought >= 0.0 && grow >= 1.0 && r > 1.0
    ensures Times(bought, grow) <= Times(bought, Times(grow, r))
    ensures Times(bought, grow) == Times(bought, Times(grow, r)) <==> bought == 0.0
  {
    assert grow * (r - 1.0) > 0.0;
    if bought > 0.0 {
      assert bought * (grow * r - grow) > 0.0;
    }
  }

  /** The order is worth at most the ideal, and exactly that when its buys are placed well. */
  ghost predicate WorthIdeal(s: seq<Tx>, sym: string) {
    var ideal := Ideal(TotalsOf(s, sym));
    Worth(s, sym) <= ideal && (Worth(s, sym) == ideal <==> BuysPlaced(s, sym))
  }

  lemma BuyWorth(s: seq<Tx>, sym: string)
    requires s != [] && AllSound(s) && WorthIdeal(s[1..], sym) && s[0].IsFor(sym) && s[0].kind == Buy
    ensures WorthIdeal(s, sym)
  {
    var x, rest := s[0], s[1..];
    var t := TotalsOf(rest, sym);
    assert x in s && Sound(x) && forall y :: y in rest ==> y in s;
    TailInOrder(s, sym);
    TotalsSane(rest, sym);
    BuyInFront(x.qty, t);
    TimesAdds(t.bought, x.qty, t.grow);
    assert (forall y :: y in rest ==> BuyPlaced(x, y, sym)) <==> t.shrink == 1.0 by {
      TotalsShow(rest, sym);
    }
  }

  lemma SplitWorth(s: seq<Tx>, sym: string)
    requires s != [] && AllSound(s) && WorthIdeal(s[1..], sym) && s[0].IsFor(sym) && s[0].kind == Split
    ensures WorthIdeal(s, sym)
  {
    var x, rest := s[0], s[1..];
    var t := TotalsOf(rest, sym);
    assert x in s && Sound(x) && forall y :: y in rest ==> y in s;
    TailInOrder(s, sym);
    TotalsSane(rest, sym);
    if x.qty > 1.0 {
      ForwardInFront(t.bought, t.grow, x.qty);
      assert (forall y :: y in rest ==> BuyPlaced(x, y, sym)) <==> t.bought == 0.0 by {
        TotalsShow(rest, sym);
      }
    } else {
      assert TotalsOf(s, sym).grow == t.grow;
      assert forall y :: y in rest ==> BuyPlaced(x, y, sym);
    }
  }

  lemma SellWorth(s: seq<Tx>, sym: string)
    requires s != [] && SellsLast(s, sym) && s[0].IsFor(sym) && s[0].kind == Sell
    ensures WorthIdeal(s, sym)
  {
    forall y | y in s && y.IsFor(sym) ensures y.kind != Buy && y.kind != Split {
      var k :| 0 <= k < |s| && s[k] == y;
    }
    OnlySells(s, sym);
    assert forall i, j :: 0 <= i < j < |s| ==> s[i] in s && s[j] in s;
  }

  lemma OtherWorth(s: seq<Tx>, sym: string)
    requires s != [] && WorthIdeal(s[1..], sym)
    requires s[0].IsFor(sym) ==> s[0].kind != Buy && s[0].kind != Sell && s[0].kind != Split
    ensures WorthIdeal(s, sym)
  {
    TailInOrder(s, sym);
    assert forall y :: y in s[1..] ==> BuyPlaced(s[0], y, sym);
  }

  lemma {:induction false} WorthInOrder(s: seq<Tx>, sym: string)
    requires AllSound(s) && SellsLast(s, sym)
    ensures WorthIdeal(s, sym)
  {
    if s != [] {
      var x := s[0];
      assert forall y :: y in s[1..] ==> y in s;
      TailInOrder(s, sym);
      WorthInOrder(s[1..], sym);
      if !x.IsFor(sym) {
        OtherWorth(s, sym);
      } else {
        match x.kind
        case Buy => BuyWorth(s, sym);
        case Sell => SellWorth(s, sym);
        case Split => SplitWorth(s, sym);
        case _ => OtherWorth(s, sym);
      }
    }
  }

  /** The condition on one instant and symbol, for rows whose sells come last. */
  ghost predicate BestOrder(s: seq<Tx>, sym: string) { BuysPlaced(s, sym) && SellsMayBeLast(TotalsOf(s, sym)) }

  /** Then no other order of the rows leaves more. */
  lemma BestLeavesMost(s: seq<Tx>, other: seq<Tx>, sym: string, held: real)
    requires AllSound(s) && SellsLast(s, sym) && BestOrder(s, sym) && multiset(other) == multiset(s)
    ensures Fold(other, sym, held) <= Fold(s, sym, held)
  {
    SameElements(other, s);
    TotalsPermute(other, s, sym);
    FoldIsWorth(s, sym, held);
    FoldIsWorth(other, sym, held);
    WorthInOrder(s, sym);
    WorthBound(other, sym);
    TailsNested(other, sym);
    TotalsSane(other, sym);
    var t := TotalsOf(other, sym);
    IdealIsMost(t, t.Factor(), Most(other, sym), Least(other, sym));
  }

  // ---------------------------------------------------------------- a better order

  datatype Part = Reverse | Bought | Forward | Sold | Others

  function PartFor(x: Tx, sym: string): Part {
    if !x.IsFor(sym) then Others
    else match x.kind
      case Buy => Bought
      case Sell => Sold
      case Split => if x.qty >= 1.0 then Forward else Reverse
      case _ => Others
  }

  function Only(s: seq<Tx>, sym: string, p: Part): seq<Tx> {
    if s == [] then []
    else if PartFor(s[0], sym) == p then [s[0]] + Only(s[1..], sym, p)
    else Only(s[1..], sym, p)
  }

  lemma {:induction false} PartsMakeUp(s: seq<Tx>, sym: string)
    ensures multiset(Only(s, sym, Reverse)) + multiset(Only(s, sym, Bought)) + multiset(Only(s, sym, Forward))
            + multiset(Only(s, sym, Sold)) + multiset(Only(s, sym, Others)) == multiset(s)
  {
    if s != [] {
      assert s == [s[0]] + s[1..];
      PartsMakeUp(s[1..], sym);
    }
  }

  lemma ScaledFirst(held: real, r: real, product: real, after: real)
    requires after == held * r
    ensures Times(after, product) == Times(held, Times(product, r))
  {
  }

  lemma FoldCons(x: Tx, s: seq<Tx>, sym: string, held: real)
    ensures Fold([x] + s, sym, held) == Fold(s, sym, HeldAfter(x, sym, held))
  {
    assert ([x] + s)[1..] == s;
  }

  /** What a part makes of a holding, by the totals of all the rows. */
  function PartFold(p: Part, t: Totals, held: real): real {
    match p
    case Reverse => Times(held, t.shrink)
    case Bought => held + t.bought
    case Forward => Times(held, t.grow)
    case Sold => held - t.sold
    case Others => held
  }

  lemma PartFoldStep(x: Tx, sym: string, p: Part, t: Totals, held: real)
    ensures PartFold(p, With(x, sym, t), held) ==
            PartFold(p, t, if PartFor(x, sym) == p then HeldAfter(x, sym, held) else held)
  {
    if PartFor(x, sym) == Reverse {
      ScaledFirst(held, x.qty, t.shrink, HeldAfter(x, sym, held));
    } else if PartFor(x, sym) == Forward {
      ScaledFirst(held, x.qty, t.grow, HeldAfter(x, sym, held));
    }
  }

  lemma {:induction false} PartFolds(s: seq<Tx>, sym: string, p: Part, held: real)
    ensures Fold(Only(s, sym, p), sym, held) == PartFold(p, TotalsOf(s, sym), held)
    decreases s
  {
    if s != [] {
      var x, rest := s[0], s[1..];
      PartFoldStep(x, sym, p, TotalsOf(rest, sym), held);
      if PartFor(x, sym) == p {
        FoldCons(x, Only(rest, sym, p), sym, held);
        PartFolds(rest, sym, p, HeldAfter(x, sym, held));
      } else {
        PartFolds(rest, sym, p, held);
      }
    }
  }

  /** The parts in this order. */
  function InParts(s: seq<Tx>, sym: string, a: Part, b: Part, c: Part, d: Part): seq<Tx> {
    Only(s, sym, a) + (Only(s, sym, b) + (Only(s, sym, c) + (Only(s, sym, d) + Only(s, sym, Others))))
  }

  lemma FoldInParts(s: seq<Tx>, sym: string, a: Part, b: Part, c: Part, d: Part, held: real)
    ensures var t := TotalsOf(s, sym);
      Fold(InParts(s, sym, a, b, c, d), sym, held) ==
      PartFold(d, t, PartFold(c, t, PartFold(b, t, PartFold(a, t, held))))
  {
    var t := TotalsOf(s, sym);
    var fromB := Only(s, sym, b) + (Only(s, sym, c) + (Only(s, sym, d) + Only(s, sym, Others)));
    FoldAppend(Only(s, sym, a), fromB, sym, held);
    PartFolds(s, sym, a, held);
    var h1 := PartFold(a, t, held);
    FoldAppend(Only(s, sym, b), Only(s, sym, c) + (Only(s, sym, d) + Only(s, sym, Others)), sym, h1);
    PartFolds(s, sym, b, h1);
    var h2 := PartFold(b, t, h1);
    FoldAppend(Only(s, sym, c), Only(s, sym, d) + Only(s, sym, Others), sym, h2);
    PartFolds(s, sym, c, h2);
    var h3 := PartFold(c, t, h2);
    FoldAppend(Only(s, sym, d), Only(s, sym, Others), sym, h3);
    PartFolds(s, sym, d, h3);
    PartFolds(s, sym, Others, PartFold(d, t, h3));
  }

  /** Reverse splits, buys, forward splits, sells: worth the ideal. */
  lemma BuysFirstWorth(s: seq<Tx>, sym: string, held: real)
    ensures var t := TotalsOf(s, sym);
      Fold(InParts(s, sym, Reverse, Bought, Forward, Sold), sym, held) == Times(held, t.Factor()) + Ideal(t)
  {
    var t := TotalsOf(s, sym);
    FoldInParts(s, sym, Reverse, Bought, Forward, Sold, held);
    TimesAdds(Times(held, t.shrink), t.bought, t.grow);
    FactorTurn(held, t);
  }

  lemma FactorTurn(held: real, t: Totals)
    ensures Times(Times(held, t.shrink), t.grow) == Times(held, t.Factor())
    ensures Times(Times(held, t.grow), t.shrink) == Times(held, t.Factor())
  {
    TimesTurn(held, t.grow, t.shrink);
    TimesSwap(held, t.grow, t.shrink);
  }

  /** Sells in front of everything count with all the splits. */
  lemma SellsFirstWorth(s: seq<Tx>, sym: string, held: real)
    ensures var t := TotalsOf(s, sym);
      Fold(InParts(s, sym, Sold, Reverse, Bought, Forward), sym, held) ==
      Times(held, t.Factor()) + Times(t.bought, t.grow) - Times(t.sold, t.Factor())
  {
    FoldInParts(s, sym, Sold, Reverse, Bought, Forward, held);
    SellsFirstHeld(TotalsOf(s, sym), held);
  }

  lemma SellsFirstHeld(t: Totals, held: real)
    ensures Times(Times(held - t.sold, t.shrink) + t.bought, t.grow) ==
            Times(held, t.Factor()) + Times(t.bought, t.grow) - Times(t.sold, t.Factor())
  {
    TimesAdds(Times(held - t.sold, t.shrink), t.bought, t.grow);
    FactorTurn(held - t.sold, t);
    TimesLess(held, t.sold, t.Factor());
  }

  /** Reverse splits behind everything shrink all of it. */
  lemma ReverseLastWorth(s: seq<Tx>, sym: string, held: real)
    ensures var t := TotalsOf(s, sym);
      Fold(InParts(s, sym, Bought, Forward, Sold, Reverse), sym, held) ==
      Times(held, t.Factor()) + Times(Times(t.bought, t.grow), t.shrink) - Times(t.sold, t.shrink)
  {
    FoldInParts(s, sym, Bought, Forward, Sold, Reverse, held);
    ReverseLastHeld(TotalsOf(s, sym), held);
  }

  lemma ReverseLastHeld(t: Totals, held: real)
    ensures Times(Times(held + t.bought, t.grow) - t.sold, t.shrink) ==
            Times(held, t.Factor()) + Times(Times(t.bought, t.grow), t.shrink) - Times(t.sold, t.shrink)
  {
    TimesLess(Times(held + t.bought, t.grow), t.sold, t.shrink);
    TimesAdds(held, t.bought, t.grow);
    TimesAdds(Times(held, t.grow), Times(t.bought, t.grow), t.shrink);
    FactorTurn(held, t);
  }

  lemma SellsFirstGain(t: Totals)
    requires t.sold > 0.0 && t.Factor() < 1.0
    ensures Times(t.bought, t.grow) - Times(t.sold, t.Factor()) > Ideal(t)
  {
    StrictlyLess(t.sold, t.Factor());
  }

  lemma ReverseLastGain(t: Totals)
    requires Ideal(t) < 0.0 && t.shrink < 1.0
    ensures Times(Times(t.bought, t.grow), t.shrink) - Times(t.sold, t.shrink) > Ideal(t)
  {
    TimesLess(Times(t.bought, t.grow), t.sold, t.shrink);
    StrictlyMore(Ideal(t), t.shrink);
  }

  lemma StrictlyMore(a: real, r: real)
    requires a < 0.0 && r < 1.0
    ensures Times(a, r) > a
  {
    assert a * (1.0 - r) < 0.0;
  }

  /** When the condition fails, one of three orders leaves more, whatever was held before. */
  lemma BetterOrder(s: seq<Tx>, sym: string) returns (better: seq<Tx>)
    requires AllSound(s) && SellsLast(s, sym) && !BestOrder(s, sym)
    ensures multiset(better) == multiset(s)
    ensures forall held :: Fold(s, sym, held) < Fold(better, sym, held)
  {
    var t := TotalsOf(s, sym);
    TotalsSane(s, sym);
    WorthInOrder(s, sym);
    PartsMakeUp(s, sym);
    if !BuysPlaced(s, sym) {
      better := InParts(s, sym, Reverse, Bought, Forward, Sold);
      forall held ensures Fold(s, sym, held) < Fold(better, sym, held) {
        FoldIsWorth(s, sym, held);
        BuysFirstWorth(s, sym, held);
      }
    } else if t.Factor() < 1.0 {
      better := InParts(s, sym, Sold, Reverse, Bought, Forward);
      SellsFirstGain(t);
      forall held ensures Fold(s, sym, held) < Fold(better, sym, held) {
        FoldIsWorth(s, sym, held);
        SellsFirstWorth(s, sym, held);
      }
    } else {
      better := InParts(s, sym, Bought, Forward, Sold, Reverse);
      ReverseLastGain(t);
      forall held ensures Fold(s, sym, held) < Fold(better, sym, held) {
        FoldIsWorth(s, sym, held);
        ReverseLastWorth(s, sym, held);
      }
    }
  }
}
