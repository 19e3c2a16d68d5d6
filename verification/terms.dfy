/**
 Tokens, term-frequency maps and sums over a finite vocabulary.

 A frequency map sends a token to its count; a token that is not a key counts
 as zero, which is how the cosine routine reads a dictionary with `get(word, 0)`.
 */
module Terms {

  type Token = string

  type FreqMap = map<Token, int>

  /** The count of `w` in `m`, zero when `w` is not a key. */
  function Get(m: FreqMap, w: Token): (count: int)
    ensures w !in m ==> count == 0
    ensures w in m ==> count == m[w]
    ensures NonNegative(m) ==> count >= 0
  {
    if w in m then m[w] else 0
  }

  predicate NonNegative(m: FreqMap)
  {
    forall w :: w in m ==> m[w] >= 0
  }

  /** Every count in `m` is zero (the empty map included). */
  predicate AllZero(m: FreqMap)
  {
    forall w :: w in m ==> m[w] == 0
  }

  /** Sum over the tokens of `ws` of the product of their counts in `a` and `b`. */
  ghost function SumProd(ws: set<Token>, a: FreqMap, b: FreqMap): int
    decreases ws
  {
    if ws == {} then 0
    else
      var w :| w in ws;
      Get(a, w) * Get(b, w) + SumProd(ws - {w}, a, b)
  }

  /** Sum over the tokens of `ws` of their counts in `m`. */
  ghost function SumCounts(ws: set<Token>, m: FreqMap): int
    decreases ws
  {
    if ws == {} then 0
    else
      var w :| w in ws;
      Get(m, w) + SumCounts(ws - {w}, m)
  }

  /** Sum of all the counts of a frequency map. */
  ghost function Total(m: FreqMap): int
  {
    SumCounts(m.Keys, m)
  }

  /** Any token of the vocabulary may be taken out first. */
  lemma {:induction false} SumProdSplit(ws: set<Token>, a: FreqMap, b: FreqMap, x: Token)
    requires x in ws
    ensures SumProd(ws, a, b) == Get(a, x) * Get(b, x) + SumProd(ws - {x}, a, b)
    decreases ws
  {
    var y :| y in ws && SumProd(ws, a, b) == Get(a, y) * Get(b, y) + SumProd(ws - {y}, a, b);
    if y != x {
      SumProdSplit(ws - {y}, a, b, x);
      SumProdSplit(ws - {x}, a, b, y);
      assert ws - {y} - {x} == ws - {x} - {y};
    }
  }

  /** Any token of the vocabulary may be taken out first. */
  lemma {:induction false} SumCountsSplit(ws: set<Token>, m: FreqMap, x: Token)
    requires x in ws
    ensures SumCounts(ws, m) == Get(m, x) + SumCounts(ws - {x}, m)
    decreases ws
  {
    var y :| y in ws && SumCounts(ws, m) == Get(m, y) + SumCounts(ws - {y}, m);
    if y != x {
      SumCountsSplit(ws - {y}, m, x);
      SumCountsSplit(ws - {x}, m, y);
      assert ws - {y} - {x} == ws - {x} - {y};
    }
  }

  /**
   Tokens whose product is zero contribute nothing: the sum over `ws` equals
   the sum over any part `vs` that holds every token with a non-zero product.
   */
  lemma {:induction false} SumProdDropZeros(ws: set<Token>, vs: set<Token>, a: FreqMap, b: FreqMap)
    requires vs <= ws
    requires forall w :: w in ws && w !in vs ==> Get(a, w) * Get(b, w) == 0
    ensures SumProd(ws, a, b) == SumProd(vs, a, b)
    decreases ws
  {
    if ws != vs {
      var x :| x in ws && x !in vs;
      SumProdSplit(ws, a, b, x);
      SumProdDropZeros(ws - {x}, vs, a, b);
    }
  }

  /** Two maps that agree on every token of `ws` have the same sum over `ws`. */
  lemma {:induction false} SumCountsAgree(ws: set<Token>, m: FreqMap, n: FreqMap)
    requires forall w :: w in ws ==> Get(m, w) == Get(n, w)
    ensures SumCounts(ws, m) == SumCounts(ws, n)
    decreases ws
  {
    if ws != {} {
      var x :| x in ws;
      SumCountsSplit(ws, m, x);
      SumCountsSplit(ws, n, x);
      SumCountsAgree(ws - {x}, m, n);
    }
  }
}
