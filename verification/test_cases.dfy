/**
 The concrete frequency maps of the cosine routine's unit tests, with the
 exact integer triple each one produces and the real value it denotes.
 */
module TestCases {
  import opened Terms
  import opened Vectors
  import opened Cosine

  const PartialA: FreqMap := map["西区" := 1, "共享" := 1, "食堂" := 1]
  const PartialB: FreqMap := map["西区" := 1, "共享" := 1, "吃饭" := 1]

  /** Two maps sharing two of three tokens: dot 2, sums of squares 3 and 3, value 2/3. */
  lemma PartialOverlap()
    ensures CosineOf(PartialA, PartialB) == Ratio(2, 3, 3)
    ensures forall x :: Denotes(CosineOf(PartialA, PartialB), x) <==> x == 2.0 / 3.0
  {
    PartialOverlapSums();
    assert Denotes(Ratio(2, 3, 3), 2.0 / 3.0);
    forall x | Denotes(Ratio(2, 3, 3), x)
      ensures x == 2.0 / 3.0
    {
      DenotesUnique(Ratio(2, 3, 3), x, 2.0 / 3.0);
    }
  }

  const PartialOrder: seq<Token> := ["西区", "共享", "食堂", "吃饭"]

  lemma PartialOverlapSums()
    ensures CosineOf(PartialA, PartialB) == Ratio(2, 3, 3)
  {
    var a, b, order := PartialA, PartialB, PartialOrder;
    PartialOverlapVectors();
    PartialOverlapDots();
    ExpandDot(order, a, b);
    ExpandDot(order, a, a);
    ExpandDot(order, b, b);
  }

  lemma PartialOverlapDots()
    ensures Dot([1, 1, 1, 0], [1, 1, 0, 1]) == 2
    ensures Dot([1, 1, 1, 0], [1, 1, 1, 0]) == 3
    ensures Dot([1, 1, 0, 1], [1, 1, 0, 1]) == 3
  {
  }

  lemma PartialOverlapVectors()
    ensures Distinct(PartialOrder)
    ensures Elements(PartialOrder) == Vocabulary(PartialA, PartialB)
    ensures Expand(PartialOrder, PartialA) == [1, 1, 1, 0]
    ensures Expand(PartialOrder, PartialB) == [1, 1, 0, 1]
  {
  }

  /** Two identical maps: dot and both sums of squares are 6, value 1. */
  lemma Identical()
    ensures var a := map["明天" := 2, "空气" := 1, "爽" := 1];
            && CosineOf(a, a) == Ratio(6, 6, 6)
            && forall x :: Denotes(CosineOf(a, a), x) <==> x == 1.0
  {
    var a := map["明天" := 2, "空气" := 1, "爽" := 1];
    var order := ["明天", "空气", "爽"];
    assert Distinct(order);
    assert Elements(order) == a.Keys;
    var u := Expand(order, a);
    assert u == [2, 1, 1];
    assert Dot([2, 1, 1], [2, 1, 1]) == 6;
    ExpandDot(order, a, a);
    assert !AllZero(a) by { assert a["爽"] != 0; }
    SelfSimilarity(a);
  }

  /** Two maps with no token in common: dot 0, value 0. */
  lemma NoSharedToken()
    ensures var a := map["昨天" := 1, "太阳" := 1];
            var b := map["后天" := 1, "暴雨" := 1];
            && CosineOf(a, b).Ratio? && CosineOf(a, b).dot == 0
            && forall x :: Denotes(CosineOf(a, b), x) <==> x == 0.0
  {
    var a := map["昨天" := 1, "太阳" := 1];
    var b := map["后天" := 1, "暴雨" := 1];
    assert a.Keys !! b.Keys;
    assert !AllZero(a) by { assert a["太阳"] != 0; }
    assert !AllZero(b) by { assert b["暴雨"] != 0; }
    ZeroPolicy(a, b);
    Orthogonal(a, b);
    var s := CosineOf(a, b);
    assert Denotes(s, 0.0);
  }

  /** Two empty maps: the zero-magnitude guard applies and the value is 0. */
  lemma BothEmpty()
    ensures CosineOf(map[], map[]) == ZeroMagnitude
  {
  }
}
