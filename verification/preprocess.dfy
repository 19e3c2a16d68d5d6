/**
 Text preprocessing: punctuation stripping followed by word segmentation.

 Stripping keeps exactly the characters that are word characters or
 whitespace, in their original order, and drops every other character. The
 two character classes are left abstract (`CharClasses`), as is the
 dictionary-backed segmenter, which is a parameter of type `Segmenter`.
 */
module Preprocess {
  import opened Terms

  /** The word-character and whitespace classes of the regular-expression engine. */
  datatype CharClasses = CharClasses(isWord: char -> bool, isSpace: char -> bool)

  /** A word segmenter: cleaned text in, tokens out. */
  type Segmenter = string -> seq<Token>

  /** A character that survives stripping: a word character or whitespace. */
  predicate Kept(cls: CharClasses, c: char)
  {
    cls.isWord(c) || cls.isSpace(c)
  }

  /** `r` can be obtained from `t` by deleting characters. */
  predicate IsSubsequence(r: string, t: string)
    decreases |t|
  {
    if |r| == 0 then true
    else if |t| == 0 then false
    else if r[0] == t[0] then IsSubsequence(r[1..], t[1..])
    else IsSubsequence(r, t[1..])
  }

  /** Removes every character that is neither a word character nor whitespace. */
  function StripPunctuation(text: string, cls: CharClasses): (r: string)
    ensures forall i :: 0 <= i < |r| ==> Kept(cls, r[i])
    ensures |r| <= |text|
  {
    if |text| == 0 then ""
    else
      var rest := StripPunctuation(text[1..], cls);
      if Kept(cls, text[0]) then [text[0]] + rest else rest
  }

  /**
   Stripping is the order-preserving filter of the text: its result is taken
   from the text in order and holds every kept character exactly as often as
   the text does.
   */
  lemma {:induction false} StripIsOrderedFilter(text: string, cls: CharClasses)
    ensures forall c :: Kept(cls, c) ==> multiset(StripPunctuation(text, cls))[c] == multiset(text)[c]
    ensures forall c :: !Kept(cls, c) ==> multiset(StripPunctuation(text, cls))[c] == 0
    ensures IsSubsequence(StripPunctuation(text, cls), text)
  {
    if |text| > 0 {
      var r, rest := StripPunctuation(text, cls), StripPunctuation(text[1..], cls);
      StripIsOrderedFilter(text[1..], cls);
      assert text == [text[0]] + text[1..];
      if Kept(cls, text[0]) {
        assert r == [text[0]] + rest;
        assert r[1..] == rest;
      } else {
        assert r == rest;
        if |rest| > 0 {
          assert rest[0] != text[0];
        }
      }
    }
  }

  /** A text yields its tokens by stripping and then segmenting. */
  function Tokenize(text: string, cls: CharClasses, cut: Segmenter): (tokens: seq<Token>)
    ensures (forall i :: 0 <= i < |text| ==> !Kept(cls, text[i])) ==> tokens == cut("")
  {
    StripIsOrderedFilter(text, cls);
    cut(StripPunctuation(text, cls))
  }

  lemma {:induction false} SubsequenceMultiset(r: string, t: string)
    requires IsSubsequence(r, t)
    ensures multiset(r) <= multiset(t)
    decreases |t|
  {
    if |r| > 0 {
      assert t == [t[0]] + t[1..];
      if r[0] == t[0] {
        SubsequenceMultiset(r[1..], t[1..]);
        assert r == [r[0]] + r[1..];
      } else {
        SubsequenceMultiset(r, t[1..]);
      }
    }
  }

  /**
   The three properties of `StripPunctuation` determine its result: any string
   of kept characters, taken in order from the text, holding every kept
   character as often as the text does, is the stripped text.
   */
  lemma {:induction false} StripIsTheFilter(text: string, cls: CharClasses, r: string)
    requires forall i :: 0 <= i < |r| ==> Kept(cls, r[i])
    requires forall c :: Kept(cls, c) ==> multiset(r)[c] == multiset(text)[c]
    requires IsSubsequence(r, text)
    ensures r == StripPunctuation(text, cls)
    decreases |text|
  {
    if |text| > 0 {
      var t0, rest := text[0], text[1..];
      assert text == [t0] + rest;
      if Kept(cls, t0) {
        assert multiset(r)[t0] >= 1;
        assert |r| > 0;
        assert r == [r[0]] + r[1..];
        if r[0] == t0 {
          StripIsTheFilter(rest, cls, r[1..]);
        } else {
          SubsequenceMultiset(r, rest);
        }
      } else {
        if |r| > 0 {
          assert r[0] != t0;
        }
        StripIsTheFilter(rest, cls, r);
      }
    }
  }

  /** Stripping distributes over concatenation. */
  lemma {:induction false} StripAppend(s: string, t: string, cls: CharClasses)
    ensures StripPunctuation(s + t, cls) == StripPunctuation(s, cls) + StripPunctuation(t, cls)
  {
    if |s| > 0 {
      var st := s + t;
      assert st[0] == s[0] && st[1..] == s[1..] + t;
      StripAppend(s[1..], t, cls);
      var a, b, c := StripPunctuation(s[1..], cls), StripPunctuation(t, cls), [s[0]];
      if Kept(cls, s[0]) {
        assert StripPunctuation(st, cls) == c + (a + b);
        assert c + (a + b) == (c + a) + b;
      }
    } else {
      assert s + t == t;
    }
  }

  /** A text is left unchanged exactly when it has no character to strip. */
  lemma {:induction false} StripUnchangedIff(text: string, cls: CharClasses)
    ensures StripPunctuation(text, cls) == text <==> forall i :: 0 <= i < |text| ==> Kept(cls, text[i])
  {
    if |text| > 0 {
      StripUnchangedIff(text[1..], cls);
      if Kept(cls, text[0]) {
        assert forall i :: 1 <= i < |text| ==> text[i] == text[1..][i - 1];
      }
    }
  }

  /** Stripping twice is stripping once. */
  lemma {:induction false} StripIdempotent(text: string, cls: CharClasses)
    ensures StripPunctuation(StripPunctuation(text, cls), cls) == StripPunctuation(text, cls)
  {
    StripUnchangedIff(StripPunctuation(text, cls), cls);
  }

  /**
   A text without any word or whitespace character, the empty text included,
   strips to nothing and so yields no tokens under a segmenter that maps the
   empty text to no tokens.
   */
  lemma {:induction false} NothingKeptNoTokens(text: string, cls: CharClasses, cut: Segmenter)
    requires cut("") == []
    requires forall i :: 0 <= i < |text| ==> !Kept(cls, text[i])
    ensures StripPunctuation(text, cls) == ""
    ensures Tokenize(text, cls, cut) == []
  {
    StripIsOrderedFilter(text, cls);
  }
}
