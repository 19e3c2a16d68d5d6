/**
 Frequency counting: a token list becomes a map from each distinct token to the
 number of times it occurs, built by one left-to-right pass that adds one to
 the token's current count (zero for a token not yet seen).
 */
module Frequency {
  import opened Terms

  /** The frequency map of a token list. */
  function Count(tokens: seq<Token>): (m: FreqMap)
    ensures forall w :: w in m <==> w in tokens
    ensures forall w :: Get(m, w) == multiset(tokens)[w]
    ensures forall w :: w in m ==> m[w] >= 1
  {
    if |tokens| == 0 then map[]
    else
      var init, last := tokens[..|tokens| - 1], tokens[|tokens| - 1];
      assert tokens == init + [last];
      var m := Count(init);
      m[last := Get(m, last) + 1]
  }

  /** Counting ignores the order of the tokens. */
  lemma CountOrderIndependent(tokens1: seq<Token>, tokens2: seq<Token>)
    requires multiset(tokens1) == multiset(tokens2)
    ensures Count(tokens1) == Count(tokens2)
  {
    var m1, m2 := Count(tokens1), Count(tokens2);
    assert forall w :: w in tokens1 <==> w in multiset(tokens1);
    assert forall w :: w in tokens2 <==> w in multiset(tokens2);
    assert m1.Keys == m2.Keys;
    forall w | w in m1
      ensures m1[w] == m2[w]
    {
      assert Get(m1, w) == Get(m2, w);
    }
  }

  /** Adding one to a token's count adds one to the total. */
  lemma TotalIncrement(m: FreqMap, w: Token)
    ensures Total(m[w := Get(m, w) + 1]) == Total(m) + 1
  {
    var m' := m[w := Get(m, w) + 1];
    assert m'.Keys == m.Keys + {w};
    SumCountsSplit(m'.Keys, m', w);
    if w in m {
      SumCountsSplit(m.Keys, m, w);
      assert m'.Keys - {w} == m.Keys - {w};
      SumCountsAgree(m.Keys - {w}, m', m);
    } else {
      assert m'.Keys - {w} == m.Keys;
      SumCountsAgree(m.Keys, m', m);
    }
  }

  /** The counts of a frequency map add up to the length of the token list. */
  lemma {:induction false} CountTotal(tokens: seq<Token>)
    ensures Total(Count(tokens)) == |tokens|
  {
    if |tokens| > 0 {
      var init, last := tokens[..|tokens| - 1], tokens[|tokens| - 1];
      CountTotal(init);
      TotalIncrement(Count(init), last);
    }
  }

  /** A frequency map has only zero counts exactly when the token list is empty. */
  lemma CountAllZeroIff(tokens: seq<Token>)
    ensures NonNegative(Count(tokens))
    ensures AllZero(Count(tokens)) <==> tokens == []
  {
    if tokens != [] {
      assert tokens[0] in Count(tokens);
    }
  }
}
