/** The test point of an interval: where IDF and Transform evaluate the
    candidate inverses of a segment to pick the branch that maps back.
    Only the geometry of the point is modelled; the solving is not. */
module TestPoints {
  import opened ExtReals
  import opened RandomVariables

  /** 0 for the whole line, b-1 when only a is -oo, a+1 when only b is +oo,
      the midpoint otherwise. The point lies strictly inside a finite
      interval of positive width, and strictly on the finite side of the
      finite end of a half-infinite one. */
  function TestPoint(a: ExtReal, b: ExtReal): (c: ExtReal)
    requires Le(a, b)
    ensures a == NegInf && b == PosInf ==> c == Finite(0.0)
    ensures a.Finite? && b.Finite? && a.r < b.r ==> c.Finite? && a.r < c.r < b.r
    ensures a.Finite? && b.Finite? && a.r == b.r ==> c == a
    ensures a == NegInf && b.Finite? ==> c.Finite? && c.r < b.r && b.r - c.r == 1.0
    ensures a.Finite? && b == PosInf ==> c.Finite? && a.r < c.r && c.r - a.r == 1.0
  {
    if a == NegInf && b == PosInf then Finite(0.0)
    else if a == NegInf then Shift(b, -1.0)
    else if b == PosInf then Shift(a, 1.0)
    else Finite((a.r + b.r) / 2.0)
  }

  /** The list of test points IDF builds over the breakpoints of a CDF,
      one per segment. */
  method CheckPoints(support: seq<ExtReal>) returns (check: seq<ExtReal>)
    requires NonDecreasing(support)
    ensures |check| == if support == [] then 0 else |support| - 1
    ensures forall i :: 0 <= i < |check| ==> check[i] == TestPoint(support[i], support[i + 1])
    ensures forall i :: (0 <= i < |check| && support[i].Finite? && support[i + 1].Finite? &&
      support[i].r < support[i + 1].r) ==> check[i].Finite? && support[i].r < check[i].r < support[i + 1].r
  {
    check := [];
    var i := 0;
    while i + 1 < |support|
      invariant 0 <= i && (support == [] ==> i == 0) && (support != [] ==> i <= |support| - 1)
      invariant |check| == i
      invariant forall k :: 0 <= k < i ==> check[k] == TestPoint(support[k], support[k + 1])
    {
      check := check + [TestPoint(support[i], support[i + 1])];
      i := i + 1;
    }
  }

  /** On an interval of positive width, finite or not, the test point lies
      strictly inside. */
  lemma {:induction false} PieceTestPointInside(a: ExtReal, b: ExtReal)
    requires Lt(a, b)
    ensures Lt(a, TestPoint(a, b)) && Lt(TestPoint(a, b), b)
  {
  }
}
