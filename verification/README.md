# Text similarity core: a Dafny model

This project models the core of a plagiarism checker that scores two
documents by the cosine similarity of their term frequencies (`main.py`).
The core has three parts:

- **Preprocessing** (`preprocess_text`). The text is cleaned by a regular
  expression that deletes every character that is neither a word character
  nor whitespace. The cleaned text is then cut into tokens by a
  dictionary-backed word segmenter.
- **Frequency counting** (`calculate_similarity`). Each token list is counted
  into a map from token to number of occurrences.
- **Cosine similarity** (`calculate_cosine_similarity`). The vocabulary is the
  union of both key sets. Both maps are expanded into aligned count vectors,
  where a missing key counts as 0. The score is the dot product divided by the
  product of the Euclidean norms, and it is 0 whenever either norm is 0.

Modules and files:

| file | module | models |
|---|---|---|
| `terms.dfy` | `Terms` | tokens, frequency maps, `get(word, 0)`, sums over a vocabulary |
| `vectors.dfy` | `Vectors` | dense count vectors, dot product, sum of squares, Cauchy–Schwarz |
| `cosine.dfy` | `Cosine` | `calculate_cosine_similarity` and its properties |
| `frequency.dfy` | `Frequency` | the `Counter` step |
| `preprocess.dfy` | `Preprocess` | the punctuation filter, with the segmenter abstract |
| `similarity.dfy` | `Similarity` | `calculate_similarity`: tokenize, count, score |
| `test_cases.dfy` | `TestCases` | the concrete maps of the unit tests |

How the score is represented. Real square roots are not available, so the
score is kept as the integers it is computed from. `Score` is either
`ZeroMagnitude`, the guarded branch whose value is 0, or
`Ratio(dot, sumSq1, sumSq2)`, whose value is `dot / sqrt(sumSq1 * sumSq2)`.
The predicate `Denotes(s, x)` says that the real `x` is the value of `s`.
For a ratio, that means `x * x * sumSq1 * sumSq2 == dot * dot` and `x` has the
sign of `dot`. `DenotesUnique` shows that this fixes `x`.

The reference definition `Cosine.CosineOf` sums over the vocabulary as a set.
The method `Cosine.CosineSimilarity` follows the source instead. It walks the
vocabulary in an arbitrary order, as Python iterates a set. It builds the two
count lists and then takes `Dot` and `SumSq` of them. `ExpandDot` connects the
two views for every repetition-free order.

Abstract parts. The character classes `\w` and `\s` are the two functions of
a `CharClasses` value. The segmenter is a parameter of type `Segmenter`. The
only assumption ever made about it is that the empty text gives no tokens, and
only the lemmas that need it assume it. Whitespace survives stripping, so
the zero-score lemma for texts without tokens covers texts made only of
punctuation, not texts holding spaces: what the segmenter makes of spaces is
not visible.

Counts are integers (`int`), as `Counter` produces them and as the unit tests pass them. The range `[0, 1]` is proved for
non-negative counts, and `Count` always produces such counts.

## Model

| member | source | states |
|---|---|---|
| Vectors.SumSq | main.py:68-69 | a sum of squares of the count vector is never negative |
| Vectors.SumSqZeroIff | main.py:68-73 | a sum of squares is 0 exactly when every entry of the vector is 0 |
| Vectors.SumSqIsSelfDot | main.py:65-69 | the sum of squares of a vector equals its dot product with itself |
| Vectors.DotCommutes | main.py:65 | the dot product of the two count vectors does not depend on their order |
| Vectors.Dot | main.py:65 | the dot product of the aligned count vectors; for vectors of non-negative counts it is non-negative |
| Vectors.CombineSumSq | main.py:65-69 | the sum of squares of x*v - y*u expands into x²·|v|² - 2xy·(u·v) + y²·|u|² (the Lagrange-style step) |
| Vectors.CauchySchwarz | main.py:65-69 | the square of the dot product is at most the product of the two sums of squares |
| Terms.Get | main.py:61-62 | a token that is not a key counts as 0, a key gives its stored count, and the count is non-negative for a non-negative map |
| Terms.SumProdSplit | main.py:65 | a sum over the vocabulary may take out any token first |
| Terms.SumProdDropZeros | main.py:61-65 | tokens whose product is 0 can be dropped from the sum |
| Cosine.Vocabulary | main.py:58 | the vocabulary is exactly the union of the two key sets: it holds every key of both maps and nothing else, and outside it both maps count 0 |
| Cosine.Expand | main.py:61-62 | the vector along an order has one entry per token: a present key gives its stored count, a missing key gives 0, and non-negative maps give non-negative vectors |
| Cosine.Denotes | main.py:68-76 | the real value of a score: 0 for the guard, dot / sqrt(sumSq1 * sumSq2) for a ratio (in squared form with the sign of dot); the value is 0 exactly in the guard or when dot is 0 |
| Cosine.CosineOf | main.py:58-76 | a non-guarded score has two strictly positive sums of squares, so the division is defined |
| Cosine.Enumerate | main.py:58-62 | every finite vocabulary has a repetition-free listing of exactly its tokens |
| Cosine.ExpandDot | main.py:58-65 | along any repetition-free order of the vocabulary, the dot product of the expanded vectors is the sum over the vocabulary |
| Cosine.SelfSumZeroIff | main.py:68-73 | a sum of squares over the vocabulary is non-negative, and 0 exactly when every count on it is 0 |
| Cosine.SumProdCommutes | main.py:65 | the dot product over the vocabulary is unchanged when the two maps are swapped |
| Cosine.SharedKeysOnly | main.py:58-65 | missing keys count as 0, so the dot product equals the sum over the shared keys only |
| Cosine.ZeroPolicy | main.py:72-73 | the zero guard fires exactly when one map has only zero counts (the empty map included), and then the value is exactly 0 |
| Cosine.Symmetry | main.py:58-76 | swapping the maps swaps the two norms, keeps the dot product, and keeps the value |
| Cosine.Orthogonal | main.py:58-76 | maps with disjoint keys have dot product 0 and value 0 |
| Cosine.Bounds | main.py:55-76 | for non-negative counts, 0 <= dot and dot² <= sumSq1·sumSq2, so every value lies in [0, 1] |
| Cosine.UnitRange | main.py:76 | a ratio with non-negative numerator whose square is at most the denominator's square lies in [0, 1] |
| Cosine.DenotesUnique | main.py:76 | a score has at most one real value |
| Cosine.SelfSimilarity | main.py:58-76 | a map with a non-zero count has dot = sumSq1 = sumSq2 > 0 against itself, and value exactly 1 |
| Cosine.CosineSimilarity | main.py:47-76 | the dense-vector computation over an arbitrary vocabulary order gives the reference score; it is guarded exactly when one map has only zero counts |
| Frequency.Count | main.py:113-114 | the keys are exactly the distinct tokens, each count is the token's number of occurrences, and every count is at least 1 |
| Frequency.CountOrderIndependent | main.py:113-114 | token lists that are permutations of each other give the same frequency map |
| Frequency.TotalIncrement | main.py:113-114 | adding one occurrence of a token adds one to the total of the counts |
| Frequency.CountTotal | main.py:113-114 | the counts add up to the length of the token list |
| Frequency.CountAllZeroIff | main.py:113-114 | the counts are non-negative, and they are all zero exactly when the token list is empty |
| Preprocess.StripPunctuation | main.py:40 | every character of the result is a word or whitespace character, and the result is no longer than the text |
| Preprocess.StripIsOrderedFilter | main.py:40 | the result is a subsequence of the text holding every kept character exactly as often as the text, and no other character |
| Preprocess.Tokenize | main.py:39-44 | tokens are the segmenter's output on the stripped text, so a text with no word or whitespace character gets what the segmenter gives for the empty text |
| Preprocess.SubsequenceMultiset | main.py:40 | a subsequence holds no character more often than the text it is taken from |
| Preprocess.StripIsTheFilter | main.py:40 | those properties determine the result: any string having them is the stripped text |
| Preprocess.StripAppend | main.py:40 | stripping a concatenation is the concatenation of the stripped parts |
| Preprocess.StripUnchangedIff | main.py:40 | a text is unchanged by stripping exactly when all its characters are word or whitespace characters |
| Preprocess.StripIdempotent | main.py:40 | stripping twice is stripping once |
| Preprocess.NothingKeptNoTokens | main.py:39-44 | a text with no word or whitespace character (the empty text included) strips to the empty text and gives no tokens when the segmenter maps the empty text to no tokens |
| Similarity.CalculateSimilarity | main.py:98-118 | the pipeline computes the reference score of the two token counts; it is guarded exactly when a text gives no tokens; its value lies in [0, 1] |
| Similarity.TextSymmetry | main.py:98-118 | exchanging the two texts keeps the value of the score |
| Similarity.EmptyTextScoresZero | main.py:108-118 | under a segmenter that maps the empty text to no tokens, an empty text, or one made only of punctuation, scores exactly 0 against any text |
| Similarity.SameTextScoresOne | main.py:98-118 | a text with at least one token scores exactly 1 against itself |
| TestCases.PartialOverlap | test_main.py:123-139 | {西区:1, 共享:1, 食堂:1} against {西区:1, 共享:1, 吃饭:1} gives dot 2, sums of squares 3 and 3, value 2/3 |
| TestCases.PartialOverlapSums | test_main.py:128-138 | the two maps of the partial-overlap test give the integer triple (2, 3, 3) |
| TestCases.Identical | test_main.py:105-112 | {明天:2, 空气:1, 爽:1} against itself gives the triple (6, 6, 6) and value 1 |
| TestCases.NoSharedToken | test_main.py:114-121 | {昨天:1, 太阳:1} against {后天:1, 暴雨:1} gives dot 0 and value 0 |
| TestCases.BothEmpty | test_main.py:141-146 | two empty maps take the zero-magnitude guard |

## Left out

- `read_file` and `main` (file reading, argument checking, exit codes, writing the score with two decimals) are I/O glue outside the core.
- The word segmenter (`jieba.cut`) is a foreign, dictionary-backed library. It is a `Segmenter` parameter, and the only fact used about it is that the empty text gives no tokens. Claims about which tokens it produces, such as "no punctuation token appears", are therefore not modelled.
- The Unicode tables behind `\w` and `\s` are not encoded. Both classes are abstract predicates on characters.
- Floating point is not modelled. `math.sqrt`, the final division and rounding are replaced by the exact real value that `Denotes` characterises. "Exactly 1" and "exactly 2/3" hold in the reals; the float result may differ by rounding.
- The commented-out NumPy version of the cosine routine is dead code.
- The integration tests (subprocesses, timing, temporary files) and the script that prints CPU counts are not part of the core.
- Cosine.CosineSimilarity: the model does not raise the `OverflowError` that `math.sqrt` raises when a sum of squares is too large to convert to a float (beyond about 1.8·10^308). For example, `{'a': 10**200}` against `{'a': 1}` raises in the source, while the model returns `Ratio(10^200, 10^400, 1)` with value 1. Counts from the counting step cannot reach this: such a sum of squares would need about 10^154 tokens.
- Cosine.Bounds: the range [0, 1] is proved only for non-negative counts. The routine accepts any dictionary, and with negative counts the value can be negative (it stays at most 1 in absolute value by Cauchy–Schwarz).
