/**
 Dense integer vectors: the aligned count lists that the cosine routine builds
 over the shared vocabulary, their dot product and their sums of squares, and
 the Cauchy–Schwarz inequality that bounds the cosine score by one.
 */
module Vectors {

  /** Sum of pairwise products of two equally long vectors; non-negative for count vectors. */
  function Dot(u: seq<int>, v: seq<int>): (r: int)
    requires |u| == |v|
    ensures AllNonNegative(u) && AllNonNegative(v) ==> r >= 0
  {
    if |u| == 0 then 0
    else
      assert AllNonNegative(u) ==> AllNonNegative(u[1..]);
      assert AllNonNegative(v) ==> AllNonNegative(v[1..]);
      u[0] * v[0] + Dot(u[1..], v[1..])
  }

  /** Sum of the squares of the entries: the squared Euclidean norm. */
  function SumSq(u: seq<int>): (r: int)
    ensures r >= 0
  {
    if |u| == 0 then 0
    else
      assert u[0] * u[0] >= 0 by { SquareNonNegative(u[0]); }
      u[0] * u[0] + SumSq(u[1..])
  }

  predicate AllNonNegative(u: seq<int>)
  {
    forall i :: 0 <= i < |u| ==> u[i] >= 0
  }

  /** The entry-wise combination x*v - y*u used by the Cauchy–Schwarz step. */
  function Combine(x: int, u: seq<int>, y: int, v: seq<int>): (w: seq<int>)
    requires |u| == |v|
    ensures |w| == |u|
  {
    seq(|u|, i requires 0 <= i < |u| => x * v[i] - y * u[i])
  }

  lemma SquareNonNegative(x: int)
    ensures x * x >= 0
  {
  }

  /** The sum of squares is the dot product of a vector with itself. */
  lemma {:induction false} SumSqIsSelfDot(u: seq<int>)
    ensures SumSq(u) == Dot(u, u)
  {
    if |u| > 0 {
      SumSqIsSelfDot(u[1..]);
    }
  }

  /** The dot product does not depend on the order of its arguments. */
  lemma {:induction false} DotCommutes(u: seq<int>, v: seq<int>)
    requires |u| == |v|
    ensures Dot(u, v) == Dot(v, u)
  {
    if |u| > 0 {
      DotCommutes(u[1..], v[1..]);
      assert u[0] * v[0] == v[0] * u[0];
    }
  }

  /** A sum of squares vanishes exactly when every entry is zero. */
  lemma {:induction false} SumSqZeroIff(u: seq<int>)
    ensures SumSq(u) == 0 <==> forall i :: 0 <= i < |u| ==> u[i] == 0
  {
    if |u| > 0 {
      SumSqZeroIff(u[1..]);
      SquareNonNegative(u[0]);
      if u[0] != 0 {
        assert u[0] * u[0] > 0 by { PositiveSquare(u[0]); }
      } else {
        forall i | 0 <= i < |u| && SumSq(u[1..]) == 0
          ensures u[i] == 0
        {
          if i > 0 {
            assert u[i] == u[1..][i - 1];
          }
        }
      }
    }
  }

  lemma PositiveSquare(x: int)
    requires x != 0
    ensures x * x > 0
  {
  }

  /**
   The Lagrange-style identity behind Cauchy–Schwarz: the sum of squares of
   x*v - y*u expands into the three sums of the two vectors.
   */
  lemma {:induction false} CombineSumSq(x: int, u: seq<int>, y: int, v: seq<int>)
    requires |u| == |v|
    ensures SumSq(Combine(x, u, y, v))
         == x * x * SumSq(v) - 2 * x * y * Dot(u, v) + y * y * SumSq(u)
  {
    var w := Combine(x, u, y, v);
    if |u| > 0 {
      assert w[1..] == Combine(x, u[1..], y, v[1..]);
      CombineSumSq(x, u[1..], y, v[1..]);
      ExpandHeadTerm(x, y, u[0], v[0], SumSq(u[1..]), SumSq(v[1..]), Dot(u[1..], v[1..]));
    }
  }

  /** One step of CombineSumSq, as pure arithmetic on the head entries and the tail sums. */
  lemma ExpandHeadTerm(x: int, y: int, a: int, b: int, su: int, sv: int, d: int)
    ensures (x * b - y * a) * (x * b - y * a) + (x * x * sv - 2 * x * y * d + y * y * su)
         == x * x * (b * b + sv) - 2 * x * y * (a * b + d) + y * y * (a * a + su)
  {
  }

  /** Cauchy–Schwarz for integer vectors, in squared form. */
  lemma {:induction false} CauchySchwarz(u: seq<int>, v: seq<int>)
    requires |u| == |v|
    ensures Dot(u, v) * Dot(u, v) <= SumSq(u) * SumSq(v)
  {
    if |u| > 0 {
      var x, y := u[0], v[0];
      var su, sv, d := SumSq(u[1..]), SumSq(v[1..]), Dot(u[1..], v[1..]);
      CauchySchwarz(u[1..], v[1..]);
      CombineSumSq(x, u[1..], y, v[1..]);
      CauchySchwarzStep(x, y, su, sv, d, SumSq(Combine(x, u[1..], y, v[1..])));
    }
  }

  /** One step of CauchySchwarz, as pure arithmetic on the head entries and the tail sums. */
  lemma CauchySchwarzStep(x: int, y: int, su: int, sv: int, d: int, cross: int)
    requires d * d <= su * sv
    requires cross >= 0 && cross == x * x * sv - 2 * x * y * d + y * y * su
    ensures (x * y + d) * (x * y + d) <= (x * x + su) * (y * y + sv)
  {
    assert (x * x + su) * (y * y + sv) - (x * y + d) * (x * y + d)
        == (su * sv - d * d) + cross;
  }
}
