/**
 The similarity of two texts: each text is stripped and segmented into
 tokens, each token list is counted into a frequency map, and the two maps
 are scored by the cosine routine.
 */
module Similarity {
  import opened Terms
  import opened Cosine
  import opened Frequency
  import opened Preprocess

  /** The reference score of two texts. */
  ghost function TextScore(original: string, copied: string, cls: CharClasses, cut: Segmenter): Score
  {
    CosineOf(Count(Tokenize(original, cls, cut)), Count(Tokenize(copied, cls, cut)))
  }

  /** Scores two texts; the value lies in [0, 1] and is 0 when a text has no tokens. */
  method CalculateSimilarity(original: string, copied: string, cls: CharClasses, cut: Segmenter)
    returns (r: Score)
    ensures r == TextScore(original, copied, cls, cut)
    ensures r.ZeroMagnitude? <==> Tokenize(original, cls, cut) == [] || Tokenize(copied, cls, cut) == []
    ensures forall x :: Denotes(r, x) ==> 0.0 <= x <= 1.0
  {
    var originalWords := Tokenize(original, cls, cut);
    var copiedWords := Tokenize(copied, cls, cut);
    var originalFreq := Count(originalWords);
    var copiedFreq := Count(copiedWords);
    CountAllZeroIff(originalWords);
    CountAllZeroIff(copiedWords);
    Bounds(originalFreq, copiedFreq);
    r := CosineSimilarity(originalFreq, copiedFreq);
  }

  /** Exchanging the two texts does not change the value of the score. */
  lemma TextSymmetry(original: string, copied: string, cls: CharClasses, cut: Segmenter)
    ensures TextScore(copied, original, cls, cut) == TextScore(original, copied, cls, cut).Swapped()
    ensures forall x :: Denotes(TextScore(original, copied, cls, cut), x)
                    <==> Denotes(TextScore(copied, original, cls, cut), x)
  {
    Symmetry(Count(Tokenize(original, cls, cut)), Count(Tokenize(copied, cls, cut)));
  }

  /**
   With a segmenter that maps the empty text to no tokens, an empty text, or
   one made only of punctuation, scores exactly 0 against any text.
   */
  lemma EmptyTextScoresZero(original: string, copied: string, cls: CharClasses, cut: Segmenter)
    requires cut("") == []
    requires (forall i :: 0 <= i < |original| ==> !Kept(cls, original[i]))
          || (forall i :: 0 <= i < |copied| ==> !Kept(cls, copied[i]))
    ensures TextScore(original, copied, cls, cut) == ZeroMagnitude
    ensures forall x :: Denotes(TextScore(original, copied, cls, cut), x) <==> x == 0.0
  {
    var a, b := Count(Tokenize(original, cls, cut)), Count(Tokenize(copied, cls, cut));
    if forall i :: 0 <= i < |original| ==> !Kept(cls, original[i]) {
      NothingKeptNoTokens(original, cls, cut);
    } else {
      NothingKeptNoTokens(copied, cls, cut);
    }
    CountAllZeroIff(Tokenize(original, cls, cut));
    CountAllZeroIff(Tokenize(copied, cls, cut));
    ZeroPolicy(a, b);
  }

  /** A text with at least one token scores exactly 1 against itself. */
  lemma SameTextScoresOne(text: string, cls: CharClasses, cut: Segmenter)
    requires Tokenize(text, cls, cut) != []
    ensures forall x :: Denotes(TextScore(text, text, cls, cut), x) <==> x == 1.0
  {
    CountAllZeroIff(Tokenize(text, cls, cut));
    SelfSimilarity(Count(Tokenize(text, cls, cut)));
  }
}
