/** Finite sums over sequences and maps, shared by both ledger engines. */
module Sums {

  function Min(a: real, b: real): real { if a <= b then a else b }

  function Max(a: real, b: real): real { if a >= b then a else b }

  function Abs(x: real): real { if x < 0.0 then -x else x }

  /** Multiplying by a positive ratio keeps the order. */
  lemma MulMono(a: real, b: real, ratio: real)
    requires ratio > 0.0
    ensures a <= b <==> a * ratio <= b * ratio
    ensures a < b <==> a * ratio < b * ratio
  {
    if a < b {
      assert (b - a) * ratio > 0.0;
    } else if b < a {
      assert (a - b) * ratio > 0.0;
    }
  }

  lemma AppendTail<T>(a: seq<T>, b: seq<T>)
    requires a != []
    ensures (a + b)[0] == a[0] && (a + b)[1..] == a[1..] + b
  {
  }

  lemma DropHead<T>(s: seq<T>, k: nat)
    requires k < |s|
    ensures s[k..][0] == s[k] && s[k..][1..] == s[k + 1..] && |s[k..]| == |s| - k
  {
  }

  lemma CutOut<T>(s: seq<T>, k: nat)
    requires k < |s|
    ensures s == (s[..k] + [s[k]]) + s[k + 1..]
  {
  }

  lemma ReplaceAt<T>(s: seq<T>, k: nat, x: T)
    requires k < |s|
    ensures s[k := x][..k + 1] == s[..k] + [x] && s[k := x][k + 1..] == s[k + 1..]
  {
  }

  lemma InsertAt<T>(s: seq<T>, k: nat, two: seq<T>)
    requires k < |s| && |two| == 2
    ensures (s[..k] + two + s[k + 1..])[..k + 2] == s[..k] + two
    ensures (s[..k] + two + s[k + 1..])[k + 2..] == s[k + 1..]
  {
  }

  function Sum<T>(s: seq<T>, f: T -> real): real {
    if s == [] then 0.0 else f(s[0]) + Sum(s[1..], f)
  }

  lemma {:induction false} SumAppend<T>(a: seq<T>, b: seq<T>, f: T -> real)
    ensures Sum(a + b, f) == Sum(a, f) + Sum(b, f)
  {
    if a == [] {
      assert a + b == b;
    } else {
      SumAppend(a[1..], b, f);
      assert (a + b)[1..] == a[1..] + b;
    }
  }

  lemma SumSnoc<T>(a: seq<T>, x: T, f: T -> real)
    ensures Sum(a + [x], f) == Sum(a, f) + f(x)
  {
    SumAppend(a, [x], f);
    assert [x][1..] == [];
  }

  function Times(x: real, ratio: real): real { x * ratio }

  lemma TimesAdds(a: real, b: real, ratio: real)
    ensures Times(a + b, ratio) == Times(a, ratio) + Times(b, ratio)
  {
  }

  /** Scaling every term scales the sum. */
  lemma {:induction false} SumScales<T>(s: seq<T>, scaled: seq<T>, f: T -> real, ratio: real)
    requires |scaled| == |s| && forall k :: 0 <= k < |s| ==> f(scaled[k]) == Times(f(s[k]), ratio)
    ensures Sum(scaled, f) == Times(Sum(s, f), ratio)
  {
    if s != [] {
      assert forall k :: 0 <= k < |s| - 1 ==> s[1..][k] == s[k + 1] && scaled[1..][k] == scaled[k + 1];
      SumScales(s[1..], scaled[1..], f, ratio);
      TimesAdds(f(s[0]), Sum(s[1..], f), ratio);
    }
  }

  /** The sum of every value of a finite map. */
  ghost function Total<K(!new)>(m: map<K, real>): real {
    if m == map[] then 0.0
    else
      var k :| k in m;
      m[k] + Total(m - {k})
  }

  /** Any key can be taken out first. */
  lemma {:induction false} TotalRemove<K(!new)>(m: map<K, real>, k: K)
    requires k in m
    ensures Total(m) == m[k] + Total(m - {k})
    decreases |m|
  {
    var p :| p in m && Total(m) == m[p] + Total(m - {p});
    if p != k {
      TotalRemove(m - {p}, k);
      TotalRemove(m - {k}, p);
      assert m - {p} - {k} == m - {k} - {p};
    }
  }

  /** Writing one key changes the total by exactly the change at that key. */
  lemma TotalUpdate<K(!new)>(m: map<K, real>, k: K, v: real)
    ensures Total(m[k := v]) == Total(m) - (if k in m then m[k] else 0.0) + v
  {
    TotalRemove(m[k := v], k);
    assert m[k := v] - {k} == m - {k};
    if k in m {
      TotalRemove(m, k);
    } else {
      assert m - {k} == m;
    }
  }
}
