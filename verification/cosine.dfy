/**
 Cosine similarity of two term-frequency maps.

 The routine takes the union of the two key sets as its vocabulary, expands
 both maps into aligned count vectors (a missing key counts as zero), and forms
 the dot product and the two sums of squares. When either sum of squares is
 zero the score is 0 by policy and no division happens; otherwise the score is
 dot / sqrt(sumSq1 * sumSq2).

 The score is kept as the integer triple it is computed from. Its real value is
 pinned down by `Denotes` in squared form, so no square root is needed.
 */
module Cosine {
  import opened Terms
  import opened Vectors

  /** The outcome of the cosine routine before the final division. */
  datatype Score =
    | ZeroMagnitude                                 // a norm is zero: the score is 0
    | Ratio(dot: int, sumSq1: int, sumSq2: int)     // the score is dot / sqrt(sumSq1 * sumSq2)
  {
    /** The same score with the two documents' roles exchanged. */
    function Swapped(): Score
    {
      match this
      case ZeroMagnitude => ZeroMagnitude
      case Ratio(d, p, q) => Ratio(d, q, p)
    }
  }

  /**
   `x` is the real value of `s`. For a ratio this says x = d / sqrt(p * q):
   x squared times p * q is d squared, and x has the sign of d. The value is
   0 exactly in the guarded case or when the dot product is 0.
   */
  predicate Denotes(s: Score, x: real)
    ensures Denotes(s, x) ==> (x == 0.0 <==> s.ZeroMagnitude? || s.dot == 0)
  {
    match s
    case ZeroMagnitude => x == 0.0
    case Ratio(d, p, q) =>
      && p > 0 && q > 0
      && x * x * (p * q) as real == (d * d) as real
      && (d >= 0 ==> x >= 0.0)
      && (d <= 0 ==> x <= 0.0)
  }

  /** The shared vocabulary: the union of both maps' keys. */
  function Vocabulary(a: FreqMap, b: FreqMap): (vocab: set<Token>)
    ensures a.Keys <= vocab && b.Keys <= vocab
    ensures forall w :: w in vocab ==> w in a || w in b
    ensures forall w :: w !in vocab ==> Get(a, w) == 0 && Get(b, w) == 0
  {
    a.Keys + b.Keys
  }

  /** The reference definition of the score, by sums over the vocabulary. */
  ghost function CosineOf(a: FreqMap, b: FreqMap): (s: Score)
    ensures s.Ratio? ==> s.sumSq1 > 0 && s.sumSq2 > 0
  {
    var vocab := Vocabulary(a, b);
    SelfSumZeroIff(vocab, a);
    SelfSumZeroIff(vocab, b);
    var sq1 := SumProd(vocab, a, a);
    var sq2 := SumProd(vocab, b, b);
    if sq1 == 0 || sq2 == 0 then ZeroMagnitude
    else Ratio(SumProd(vocab, a, b), sq1, sq2)
  }

  predicate Distinct(order: seq<Token>)
  {
    forall i, j :: 0 <= i < j < |order| ==> order[i] != order[j]
  }

  function Elements(order: seq<Token>): set<Token>
  {
    set w | w in order
  }

  /** The count vector of `m` along the token order `order`. */
  function Expand(order: seq<Token>, m: FreqMap): (v: seq<int>)
    ensures |v| == |order|
    ensures forall i :: 0 <= i < |order| && order[i] in m ==> v[i] == m[order[i]]
    ensures forall i :: 0 <= i < |order| && order[i] !in m ==> v[i] == 0
    ensures NonNegative(m) ==> AllNonNegative(v)
  {
    seq(|order|, i requires 0 <= i < |order| => Get(m, order[i]))
  }

  /** Some enumeration of a finite vocabulary without repetitions. */
  ghost function Enumerate(ws: set<Token>): (order: seq<Token>)
    ensures Distinct(order)
    ensures Elements(order) == ws
    decreases ws
  {
    if ws == {} then []
    else
      var w :| w in ws;
      var rest := Enumerate(ws - {w});
      assert forall x :: x in [w] + rest <==> x == w || x in rest;
      assert Elements([w] + rest) == {w} + Elements(rest);
      assert ws == {w} + (ws - {w});
      [w] + rest
  }

  /**
   Along any repetition-free order of a vocabulary, the dense dot product
   equals the sum over the vocabulary: the order of the dimensions is irrelevant.
   */
  lemma {:induction false} ExpandDot(order: seq<Token>, a: FreqMap, b: FreqMap)
    requires Distinct(order)
    ensures Dot(Expand(order, a), Expand(order, b)) == SumProd(Elements(order), a, b)
  {
    if |order| > 0 {
      var w, rest := order[0], order[1..];
      ExpandTail(order, a);
      ExpandTail(order, b);
      ExpandDot(rest, a, b);
      assert w !in rest;
      assert Elements(order) - {w} == Elements(rest);
      SumProdSplit(Elements(order), a, b, w);
    }
  }

  /** Dropping the first token of the order drops the first entry of the vector. */
  lemma ExpandTail(order: seq<Token>, m: FreqMap)
    requires |order| > 0
    ensures Expand(order, m)[1..] == Expand(order[1..], m)
  {
    var v, t := Expand(order, m), Expand(order[1..], m);
    assert forall i :: 0 <= i < |t| ==> v[1..][i] == Get(m, order[1..][i]) == t[i];
  }

  /** A sum of squares over a vocabulary is non-negative, and zero exactly when every count is. */
  lemma {:induction false} SelfSumZeroIff(ws: set<Token>, a: FreqMap)
    ensures SumProd(ws, a, a) >= 0
    ensures SumProd(ws, a, a) == 0 <==> forall w :: w in ws ==> Get(a, w) == 0
  {
    var order := Enumerate(ws);
    var u := Expand(order, a);
    ExpandDot(order, a, a);
    SumSqIsSelfDot(u);
    SumSqZeroIff(u);
    if !(forall w :: w in ws ==> Get(a, w) == 0) {
      var w :| w in ws && Get(a, w) != 0;
      var i :| 0 <= i < |order| && order[i] == w;
      assert u[i] != 0;
    }
  }

  /** Swapping the arguments swaps the roles of the products. */
  lemma {:induction false} SumProdCommutes(ws: set<Token>, a: FreqMap, b: FreqMap)
    ensures SumProd(ws, a, b) == SumProd(ws, b, a)
  {
    var order := Enumerate(ws);
    ExpandDot(order, a, b);
    ExpandDot(order, b, a);
    DotCommutes(Expand(order, a), Expand(order, b));
  }

  /** Missing keys count as zero, so the dot product is a sum over the shared keys only. */
  lemma SharedKeysOnly(a: FreqMap, b: FreqMap)
    ensures SumProd(Vocabulary(a, b), a, b) == SumProd(a.Keys * b.Keys, a, b)
  {
    SumProdDropZeros(Vocabulary(a, b), a.Keys * b.Keys, a, b);
  }

  /** The zero-magnitude policy: the score is guarded exactly when one map has only zero counts. */
  lemma ZeroPolicy(a: FreqMap, b: FreqMap)
    ensures CosineOf(a, b).ZeroMagnitude? <==> AllZero(a) || AllZero(b)
    ensures AllZero(a) || AllZero(b) ==> forall x :: Denotes(CosineOf(a, b), x) <==> x == 0.0
  {
    var vocab := Vocabulary(a, b);
    SelfSumZeroIff(vocab, a);
    SelfSumZeroIff(vocab, b);
    if AllZero(a) {
      assert forall w :: w in vocab ==> Get(a, w) == 0;
    }
    if AllZero(b) {
      assert forall w :: w in vocab ==> Get(b, w) == 0;
    }
    if SumProd(vocab, a, a) == 0 {
      assert forall w :: w in a ==> Get(a, w) == 0;
    }
    if SumProd(vocab, b, b) == 0 {
      assert forall w :: w in b ==> Get(b, w) == 0;
    }
  }

  /** Symmetry: exchanging the documents swaps the two norms and keeps the value. */
  lemma Symmetry(a: FreqMap, b: FreqMap)
    ensures CosineOf(b, a) == CosineOf(a, b).Swapped()
    ensures forall x :: Denotes(CosineOf(a, b), x) <==> Denotes(CosineOf(b, a), x)
  {
    assert Vocabulary(a, b) == Vocabulary(b, a);
    SumProdCommutes(Vocabulary(a, b), a, b);
    match CosineOf(a, b)
    case ZeroMagnitude =>
    case Ratio(d, p, q) =>
      assert p * q == q * p;
  }

  /** Maps with no key in common score zero. */
  lemma Orthogonal(a: FreqMap, b: FreqMap)
    requires a.Keys !! b.Keys
    ensures CosineOf(a, b).Ratio? ==> CosineOf(a, b).dot == 0
    ensures forall x :: Denotes(CosineOf(a, b), x) ==> x == 0.0
  {
    SharedKeysOnly(a, b);
    assert a.Keys * b.Keys == {};
  }

  /**
   Bounds: for non-negative counts the dot product is non-negative and, by
   Cauchy–Schwarz, its square is at most the product of the sums of squares,
   so the score lies in [0, 1].
   */
  lemma Bounds(a: FreqMap, b: FreqMap)
    requires NonNegative(a) && NonNegative(b)
    ensures CosineOf(a, b).Ratio? ==>
              var s := CosineOf(a, b);
              0 <= s.dot && s.dot * s.dot <= s.sumSq1 * s.sumSq2
    ensures forall x :: Denotes(CosineOf(a, b), x) ==> 0.0 <= x <= 1.0
  {
    var vocab := Vocabulary(a, b);
    var order := Enumerate(vocab);
    var u, v := Expand(order, a), Expand(order, b);
    ExpandDot(order, a, b);
    ExpandDot(order, a, a);
    ExpandDot(order, b, b);
    SumSqIsSelfDot(u);
    SumSqIsSelfDot(v);
    CauchySchwarz(u, v);
    assert AllNonNegative(u) && AllNonNegative(v);
    forall x | Denotes(CosineOf(a, b), x)
      ensures 0.0 <= x <= 1.0
    {
      if CosineOf(a, b).Ratio? {
        var s := CosineOf(a, b);
        UnitRange(s.dot, s.sumSq1, s.sumSq2, x);
      }
    }
  }

  /** A ratio whose squared numerator is at most its squared denominator lies in [0, 1]. */
  lemma UnitRange(d: int, p: int, q: int, x: real)
    requires 0 <= d && d * d <= p * q
    requires Denotes(Ratio(d, p, q), x)
    ensures 0.0 <= x <= 1.0
  {
  }

  /** A score has at most one real value. */
  lemma DenotesUnique(s: Score, x: real, y: real)
    requires Denotes(s, x) && Denotes(s, y)
    ensures x == y
  {
    if s.Ratio? {
      var k := (s.sumSq1 * s.sumSq2) as real;
      assert s.sumSq1 * s.sumSq2 > 0;
      assert x * x * k == y * y * k;
      assert x * x == y * y by { assert (x * x - y * y) * k == 0.0; }
      assert (x - y) * (x + y) == 0.0;
    }
  }

  /** Self-similarity: a map with a non-zero count scores exactly 1 against itself. */
  lemma SelfSimilarity(a: FreqMap)
    requires !AllZero(a)
    ensures var s := SumProd(a.Keys, a, a);
            s > 0 && CosineOf(a, a) == Ratio(s, s, s)
    ensures forall x :: Denotes(CosineOf(a, a), x) <==> x == 1.0
  {
    assert Vocabulary(a, a) == a.Keys;
    SelfSumZeroIff(a.Keys, a);
    var s := SumProd(a.Keys, a, a);
    assert Denotes(Ratio(s, s, s), 1.0);
    forall x | Denotes(CosineOf(a, a), x)
      ensures x == 1.0
    {
      DenotesUnique(CosineOf(a, a), x, 1.0);
    }
  }

  /**
   Computes the score the way the routine does: enumerates the vocabulary in
   some order, expands both maps into aligned count vectors, then takes the dot
   product and the two sums of squares, applying the zero-magnitude guard.
   */
  method CosineSimilarity(vec1: FreqMap, vec2: FreqMap) returns (r: Score)
    ensures r == CosineOf(vec1, vec2)
    ensures r.ZeroMagnitude? <==> AllZero(vec1) || AllZero(vec2)
    ensures r.Ratio? ==> r.sumSq1 > 0 && r.sumSq2 > 0
  {
    var allWords := Vocabulary(vec1, vec2);
    var order: seq<Token> := [];
    var rest := allWords;
    while rest != {}
      invariant rest <= allWords
      invariant Distinct(order)
      invariant forall w :: w in order <==> w in allWords && w !in rest
      decreases rest
    {
      var w :| w in rest;
      order := order + [w];
      rest := rest - {w};
    }
    assert Elements(order) == allWords;
    var vector1 := Expand(order, vec1);
    var vector2 := Expand(order, vec2);
    var dotProduct := Dot(vector1, vector2);
    var sumSq1 := SumSq(vector1);
    var sumSq2 := SumSq(vector2);
    ExpandDot(order, vec1, vec2);
    ExpandDot(order, vec1, vec1);
    ExpandDot(order, vec2, vec2);
    SumSqIsSelfDot(vector1);
    SumSqIsSelfDot(vector2);
    ZeroPolicy(vec1, vec2);
    if sumSq1 == 0 || sumSq2 == 0 {
      return ZeroMagnitude;
    }
    return Ratio(dotProduct, sumSq1, sumSq2);
  }
}
