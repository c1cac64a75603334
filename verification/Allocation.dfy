/** Splitting an amount pro rata so that the pieces add up exactly, whatever the rounding does. */
module Allocation {
  import opened Sums

  /** Half of one micro-dollar: the most that rounding to six decimals may move a value. */
  const HALF_MICRO := 0.0000005

  ghost predicate RoundsToMicro(round: real -> real) {
    forall x :: Abs(round(x) - x) <= HALF_MICRO
  }

  /** The exact share of `weight` in `total`. */
  function Share(total: real, weight: real, whole: real): real
    requires whole > 0.0
  {
    total * weight / whole
  }

  /** One piece: the rounded share, except that the last piece takes whatever is left. */
  function Piece(total: real, weight: real, whole: real, last: bool, given: real, round: real -> real): real
    requires whole > 0.0
  {
    if last then total - given else round(Share(total, weight, whole))
  }

  function Pieces(total: real, weights: seq<real>, whole: real, given: real, round: real -> real): seq<real>
    requires whole > 0.0
  {
    if weights == [] then []
    else
      var p := Piece(total, weights[0], whole, |weights| == 1, given, round);
      [p] + Pieces(total, weights[1..], whole, given + p, round)
  }

  function Same(x: real): real { x }

  lemma {:induction false} PiecesLength(total: real, weights: seq<real>, whole: real, given: real,
                                        round: real -> real)
    requires whole > 0.0
    ensures |Pieces(total, weights, whole, given, round)| == |weights|
  {
    if weights != [] {
      var p := Piece(total, weights[0], whole, |weights| == 1, given, round);
      PiecesLength(total, weights[1..], whole, given + p, round);
    }
  }

  /** Nothing is lost or created, for any rounding function at all. */
  lemma {:induction false} PiecesSumExactly(total: real, weights: seq<real>, whole: real, given: real,
                                            round: real -> real)
    requires whole > 0.0 && weights != []
    ensures given + Sum(Pieces(total, weights, whole, given, round), Same) == total
  {
    var p := Piece(total, weights[0], whole, |weights| == 1, given, round);
    var rest := Pieces(total, weights[1..], whole, given + p, round);
    assert Pieces(total, weights, whole, given, round) == [p] + rest && ([p] + rest)[1..] == rest;
    if |weights| > 1 {
      PiecesSumExactly(total, weights[1..], whole, given + p, round);
    }
  }

  lemma {:induction false} PieceIsRoundedShare(total: real, weights: seq<real>, whole: real, given: real,
                                               round: real -> real, k: nat)
    requires whole > 0.0 && k + 1 < |weights| && RoundsToMicro(round)
    ensures k < |Pieces(total, weights, whole, given, round)|
    ensures Abs(Pieces(total, weights, whole, given, round)[k] - Share(total, weights[k], whole)) <= HALF_MICRO
  {
    PiecesLength(total, weights, whole, given, round);
    var p := Piece(total, weights[0], whole, |weights| == 1, given, round);
    if k > 0 {
      PiecesLength(total, weights[1..], whole, given + p, round);
      PieceIsRoundedShare(total, weights[1..], whole, given + p, round, k - 1);
    }
  }

  lemma ShareOfSum(total: real, a: real, b: real, whole: real)
    requires whole > 0.0
    ensures Share(total, a + b, whole) == Share(total, a, whole) + Share(total, b, whole)
  {
  }

  lemma ShareOfWhole(total: real, whole: real)
    requires whole > 0.0
    ensures Share(total, whole, whole) == total
  {
  }

  /**
   * The last piece takes the rest, so its error is at most half a micro-dollar for each earlier piece. `before` is
   * the weight already handed out and `pieces` how many pieces that was.
   */
  lemma {:induction false} LastPieceIsClose(total: real, weights: seq<real>, whole: real, given: real,
                                            round: real -> real, before: real, pieces: nat)
    requires whole > 0.0 && weights != [] && RoundsToMicro(round)
    requires before + Sum(weights, Same) == whole
    requires Abs(given - Share(total, before, whole)) <= pieces as real * HALF_MICRO
    ensures var last := |weights| - 1;
      && last < |Pieces(total, weights, whole, given, round)|
      && Abs(Pieces(total, weights, whole, given, round)[last] - Share(total, weights[last], whole))
           <= (pieces + last) as real * HALF_MICRO
  {
    PiecesLength(total, weights, whole, given, round);
    var p := Piece(total, weights[0], whole, |weights| == 1, given, round);
    ShareOfSum(total, before, weights[0], whole);
    if |weights| == 1 {
      assert weights[1..] == [];
      ShareOfWhole(total, whole);
    } else {
      PiecesLength(total, weights[1..], whole, given + p, round);
      LastPieceIsClose(total, weights[1..], whole, given + p, round, before + weights[0], pieces + 1);
    }
  }

  /** Exact total, every piece a rounded share, and a last piece within (n-1)/2 micro-dollars of its own. */
  ghost predicate Apportioned(pieces: seq<real>, weights: seq<real>, total: real, whole: real)
    requires whole > 0.0
  {
    && |pieces| == |weights| > 0 && Sum(pieces, Same) == total
    && (forall k :: 0 <= k < |pieces| - 1 ==> Abs(pieces[k] - Share(total, weights[k], whole)) <= HALF_MICRO)
    && Abs(pieces[|pieces| - 1] - Share(total, weights[|pieces| - 1], whole)) <= (|pieces| - 1) as real * HALF_MICRO
  }

  lemma ExactAllocation(total: real, weights: seq<real>, whole: real, round: real -> real)
    requires whole > 0.0 && weights != [] && Sum(weights, Same) == whole && RoundsToMicro(round)
    ensures Apportioned(Pieces(total, weights, whole, 0.0, round), weights, total, whole)
  {
    var p := Pieces(total, weights, whole, 0.0, round);
    PiecesLength(total, weights, whole, 0.0, round);
    PiecesSumExactly(total, weights, whole, 0.0, round);
    LastPieceIsClose(total, weights, whole, 0.0, round, 0.0, 0);
    forall k | 0 <= k < |p| - 1
      ensures Abs(p[k] - Share(total, weights[k], whole)) <= HALF_MICRO
    {
      PieceIsRoundedShare(total, weights, whole, 0.0, round, k);
    }
  }

  /** Rounding to six decimals, midpoints to the even neighbour: the rounding the ledgers use. */
  function RoundDp6(x: real): real {
    var micros := x * 1000000.0;
    var below := micros.Floor;
    var part := micros - below as real;
    var nearest := if part < 0.5 || (part == 0.5 && below % 2 == 0) then below else below + 1;
    nearest as real / 1000000.0
  }

  /** The result is a whole number of micro-dollars, none is nearer, and of two equally near it is the even one. */
  lemma RoundsHalfToEven(x: real) returns (n: int)
    ensures RoundDp6(x) * 1000000.0 == n as real
    ensures -0.5 <= n as real - x * 1000000.0 <= 0.5
    ensures Abs(n as real - x * 1000000.0) == 0.5 ==> n % 2 == 0
  {
    var below := (x * 1000000.0).Floor;
    var part := x * 1000000.0 - below as real;
    n := if part < 0.5 || (part == 0.5 && below % 2 == 0) then below else below + 1;
  }

  /** So no result is off by more than half a micro-dollar. */
  lemma RoundDp6RoundsToMicro()
    ensures RoundsToMicro(RoundDp6) && HALF_MICRO * 1000000.0 == 0.5
  {
    forall x: real
      ensures Abs(RoundDp6(x) - x) <= HALF_MICRO
    {
      var micros := x * 1000000.0;
      assert Abs(RoundDp6(x) * 1000000.0 - micros) <= 0.5;
    }
  }
}
