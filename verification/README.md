# BM25F ranking, modelled in Dafny

A model of the `BM25F` class of the Ruby `bm25f` library (`lib/bm25f.rb`).

The class ranks multi-field documents against a query. `fit` takes an array of documents, each a Hash from field name to text. From them it computes:

- the field weights, where every document key the caller left out gets weight 1;
- every document's per-field character lengths;
- one global average length: all characters of all fields of all documents, divided by the number of documents;
- a smoothed IDF per weighted field, `ln((N - df + 0.5) / (df + 0.5) + 1)`. Here `df` counts the documents whose field is non-empty.

`score` then gives every document id `0...N` the sum, over weighted fields and query terms, of

    weight * (tf * (k1 + 1) / (tf + k1 * norm) * idf),    norm = 1 - b + b * len / avg

Here `tf` is `String#scan(term).count`: the number of non-overlapping, left-to-right occurrences of the term in the field text.

The Dafny modules follow the class:

- `Wrappers`: `Option` and `Result`.
- `RubyHash`: Ruby's insertion-ordered Hash, as a sequence of key/value pairs with distinct keys. It provides `Keys`, `Get` (`Hash#[]`) and `Set` (`Hash#[]=`).
- `Scan`: `String#scan(term).count` for a String pattern, as a function (`ScanCount`) and as a cursor loop (`CountOccurrences`).
- `Formula`: the IDF, the length normalisation, the saturation and the per-term contribution, over exact reals.
- `CorpusIndex`: `fit`. It covers weight defaulting, the lengths, the average, the document frequency, the IDF table, and the `NoMethodError` that `calculate_idf` raises on a nil field. The object's instance variables become an immutable `Index` value.
- `Scorer`: `score`, `calculate_document_score`, `field_term_frequency` and `field_length_norm`.
- `ScoreProperties`: properties of the score, relating several calls. They cover query append and duplication, query permutation, sign and zero score, and weight monotonicity.
- `Fixture`: the scenario of `test/test_bm25f.rb`, computed end to end.

A few points about the code are easy to miss:

- **Term frequency.** `field_term_frequency` (line 130) counts with `String#scan`, which resumes the search after each match. Occurrences therefore never overlap: "aa" occurs once in "aaa" (`Scan.NonOverlappingExample`).
- **A weighted field missing from a document.** `calculate_idf` calls `.empty?` on the field's value (line 91). For a nil or missing field this raises `NoMethodError`. `CorpusIndex.Fit` returns `Failure(NilField(field, docId))` instead.
- **An empty corpus.** `fit` raises nothing. The average length is `0 / 0.0`, which is NaN, and `score` returns an empty Hash. The model records the average as `None`, and `Fit` succeeds.
- **An average length of 0.** `field_length_norm` divides by it (line 139). The model has no value for that quotient, so scoring requires `Scorable`, which excludes these inputs.
- **Document preprocessing.** The comment on `preprocess_documents` (line 52) says it tokenises and stems the documents. Its block takes `|k, v|` over an Array of Hashes (lines 56-61). Each element is one Hash, so `v` is nil, the `next` always fires, and the documents come back unchanged. The model uses the documents as given.

## Model

| member | source | states |
|---|---|---|
| CorpusIndex.AllKeys | lib/bm25f.rb:23 | a key is in the flattened key list exactly when some document has it |
| CorpusIndex.Uniq | lib/bm25f.rb:23 | `uniq` keeps exactly the elements of its input and no element twice |
| CorpusIndex.UniqOrder | lib/bm25f.rb:23 | `uniq` lists the elements in the order of their first occurrence in the input |
| CorpusIndex.AddDefaultWeights | lib/bm25f.rb:25-27 | the caller's entries stay first, in order, with their values; the result's keys are the caller's keys plus the added keys |
| CorpusIndex.AddDefaultWeightsGivesOne | lib/bm25f.rb:25-27 | a key the caller did not weight ends up with weight 1 |
| CorpusIndex.AddDefaultWeightsOrder | lib/bm25f.rb:25-27 | every entry after the caller's is a key of the list, and the added entries follow the order of the list |
| CorpusIndex.DefaultWeights | lib/bm25f.rb:23-27 | after defaulting, every key of every document is weighted; caller-supplied weights keep their values and their positions |
| CorpusIndex.DefaultWeightsGivesOne | lib/bm25f.rb:23-27 | every document key missing from the caller's weights gets weight 1 |
| CorpusIndex.DefaultWeightsOrder | lib/bm25f.rb:23-27 | the defaulted entries come after the caller's, are document keys the caller did not weight, and follow the order in which the keys first appear across the documents |
| CorpusIndex.TotalLengthPositive | lib/bm25f.rb:69 | the corpus length is positive exactly when some field of some document is a non-empty String |
| CorpusIndex.AverageDocumentLength | lib/bm25f.rb:68-71 | no average for an empty corpus; otherwise average times N equals the total length of all fields of all documents, and the average is positive exactly when some field is non-empty |
| CorpusIndex.LengthMap | lib/bm25f.rb:80 | a document's length map has exactly the document's keys, each mapped to its value's length, with 0 for nil |
| CorpusIndex.DocumentLengths | lib/bm25f.rb:77-83 | one length map per document; map i has exactly document i's keys, each mapped to its value's character length, with 0 for nil |
| CorpusIndex.TableTotalIsTotal | lib/bm25f.rb:69-81 | any length table that agrees with the documents sums to the corpus total length |
| CorpusIndex.LengthTableMatchesAverage | lib/bm25f.rb:68-83 | average length times N equals the sum of every entry of every document's length map |
| CorpusIndex.DocFreq | lib/bm25f.rb:91 | the document frequency of a field is at most N |
| CorpusIndex.DocFreqCountsNonEmpty | lib/bm25f.rb:91 | the document frequency is the number of documents whose field text is non-empty |
| CorpusIndex.IdfTable | lib/bm25f.rb:88-95 | exactly the weighted fields get an IDF; each is positive, is the smoothed IDF of the number of documents whose field is non-empty, and is strictly smaller for a field that more documents fill |
| CorpusIndex.NilDoc | lib/bm25f.rb:91 | finds the first document whose field is not a String, and finds none exactly when the field is a String everywhere |
| CorpusIndex.FirstNilField | lib/bm25f.rb:90-91 | the error `calculate_idf` raises, if any: the first weighted field that is nil or missing in some document, and the first such document; no error exactly when every weighted field is a String everywhere |
| CorpusIndex.FirstNilFieldIsFirst | lib/bm25f.rb:90-91 | every weighted field listed before the one the error names is a String in every document, so the error names the first failing field in weight order |
| CorpusIndex.BuildIndex | lib/bm25f.rb:29-34 | the stored state: the settled weights, the documents, the average, the length table, N, and an IDF for exactly the weighted fields; every weighted field is ready to score |
| CorpusIndex.Fit | lib/bm25f.rb:19-35 | fit succeeds exactly when every settled weight names a String field in every document, and then stores the index built from the defaulted weights; a failure names a document and a field, from the caller or a document, that is not a String there |
| CorpusIndex.FitSucceedsIff | lib/bm25f.rb:19-35 | fit succeeds if and only if every field named by the caller's weights or by any document is a String in every document |
| Formula.IdfArg | lib/bm25f.rb:92 | the logarithm's argument is strictly greater than 1 |
| Formula.IdfArgDecreasing | lib/bm25f.rb:91-92 | the argument strictly decreases as the document frequency grows |
| Formula.Idf | lib/bm25f.rb:92 | the IDF is positive for every df from 0 to N |
| Formula.IdfDecreasing | lib/bm25f.rb:91-92 | a field present in more documents has a strictly smaller IDF |
| Formula.Norm | lib/bm25f.rb:139 | the norm is at least 1 - b; it is 1 when the length equals the average; it is positive when b < 1 or the length is positive |
| Formula.NormMonotone | lib/bm25f.rb:139 | the norm does not decrease as the field length grows |
| Formula.Saturation | lib/bm25f.rb:117 | the saturated frequency is 0 for tf = 0 and positive otherwise; for a positive norm it stays below k1 + 1 |
| Formula.SaturationIncreasing | lib/bm25f.rb:117 | more occurrences give a strictly larger saturated frequency |
| Formula.Contribution | lib/bm25f.rb:117 | a term's contribution is exactly 0 when tf = 0; it is non-negative for non-negative weight and idf; for positive tf, weight, idf and norm it is strictly between 0 and weight * (k1 + 1) * idf |
| Formula.ContributionWeightMonotone | lib/bm25f.rb:117 | a larger weight never lowers a contribution, and strictly raises it when tf > 0 and idf > 0 |
| Scan.ScanCount | lib/bm25f.rb:129-131 | `text.scan(term).count` for a String term; it has no ensures of its own, and its meaning is stated by the Scan lemmas below: 0 exactly when the term is absent (`ScanCountZeroIffAbsent`), the first match counted before the search resumes after it (`ScanCountFromMatch`), matches that do not overlap (`ScanCountBound`, `ScanCountAtMostOverlapCount`) |
| Scan.ScanCountBound | lib/bm25f.rb:130 | for a non-empty term, tf * \|term\| never exceeds the text length |
| Scan.ScanCountZeroIffAbsent | lib/bm25f.rb:129-131 | tf is 0 exactly when the term is not a substring of the text |
| Scan.ScanCountZeroWithoutChar | lib/bm25f.rb:130 | a term with a character the text lacks has tf 0 |
| Scan.ScanCountSkipTo | lib/bm25f.rb:130 | the search counts nothing over a stretch that lacks the term's first character |
| Scan.ScanCountFromMatch | lib/bm25f.rb:130 | when the first match starts at `i`, the search counts it and resumes right after it |
| Scan.ScanCountFirstMatch | lib/bm25f.rb:130 | a match at `i` with no occurrence in the text before its last character is counted, and the search resumes after it |
| Scan.ScanCountOnceBetween | lib/bm25f.rb:130 | a term found once in `a + term + z` has tf 1 when its first character is not in `a` and `z` lacks one of its characters |
| Scan.CountOccurrences | lib/bm25f.rb:130 | the cursor loop of `String#scan` returns the non-overlapping count |
| Scan.ScanCountAtMostOverlapCount | lib/bm25f.rb:130 | the non-overlapping count never exceeds the count of overlapping start positions |
| Scan.NonOverlappingExample | lib/bm25f.rb:130 | "aa" in "aaa": the non-overlapping count is 1, while there are 2 overlapping start positions |
| Scorer.TermFrequency | lib/bm25f.rb:129-131 | `field_term_frequency`: the scan count of the term in the document's field text; it has no ensures of its own, and `TermScoreSign` states that, for a positive weight, a term scores 0 exactly when it is absent from the field |
| Scorer.FieldLengthNorm | lib/bm25f.rb:138-140 | a scorable field's norm is positive and at least 1 - b |
| Scorer.TermScore | lib/bm25f.rb:114-117 | the summand of `calculate_document_score` for one field and one term; it has no ensures of its own; its sign and its monotonicity in the weight are stated by `TermScoreSign` and `TermScoreWeightMonotone` |
| Scorer.FieldScore | lib/bm25f.rb:113-118 | the inner loop over the query terms for one field; it has no ensures of its own; `FieldScoreAppend`, `FieldScorePermutation`, `FieldScoreSign` and `FieldScoreWeightMonotone` state that it adds up over query parts, ignores their order, is positive exactly when a term occurs, and grows with the weight |
| Scorer.FieldsScore | lib/bm25f.rb:112-119 | the outer loop over the weighted fields; it has no ensures of its own; the `FieldsScore` lemmas below state the same facts summed over the fields |
| Scorer.DocumentScore | lib/bm25f.rb:110-121 | `calculate_document_score`; it has no ensures of its own; the `DocumentScore` lemmas below state that it adds up over query parts, counts a duplicate twice, ignores term order, is 0 without overlap, is non-negative and positive exactly when a query term occurs, and grows with the weights |
| Scorer.Score | lib/bm25f.rb:41-48 | the result's keys are exactly the ids 0...total_docs, and each value is that document's score |
| ScoreProperties.FieldScoreAppend | lib/bm25f.rb:113-118 | a field's score over a concatenated query is the sum of its scores over the parts |
| ScoreProperties.FieldsScoreAppend | lib/bm25f.rb:112-119 | the same over every weighted field |
| ScoreProperties.DocumentScoreAppend | lib/bm25f.rb:110-121 | a document's score over a concatenated query is the sum of its scores over the parts |
| ScoreProperties.DocumentScoreDuplicate | lib/bm25f.rb:110-121 | a duplicated query term contributes its score twice |
| ScoreProperties.FieldScorePermutation | lib/bm25f.rb:113-118 | a field's score does not depend on the order of the query terms |
| ScoreProperties.FieldsScorePermutation | lib/bm25f.rb:112-119 | the same over every weighted field |
| ScoreProperties.DocumentScorePermutation | lib/bm25f.rb:110-121 | a document's score does not depend on the order of the query terms |
| ScoreProperties.ScorePermutation | lib/bm25f.rb:41-48 | the score map is unchanged by permuting the query terms |
| ScoreProperties.TermScoreSign | lib/bm25f.rb:117 | a term that does not occur in the field contributes 0; a non-negative weight gives a non-negative contribution; a positive weight and an occurring term give a positive one |
| ScoreProperties.FieldScoreSign | lib/bm25f.rb:113-118 | a field's score is 0 when no query term occurs in it; it is non-negative for a non-negative weight; for a positive weight it is positive exactly when some query term occurs |
| ScoreProperties.FieldsScoreSign | lib/bm25f.rb:110-121 | the same, summed over the weighted fields |
| ScoreProperties.QueryOverlapsAtEntry | lib/bm25f.rb:112-113 | a query term occurring in a weighted field is the same as one occurring in the field of some weight entry |
| ScoreProperties.DocumentScoreZeroWithoutOverlap | lib/bm25f.rb:110-121 | a document in none of whose weighted fields any query term occurs scores exactly 0 |
| ScoreProperties.DocumentScoreNonNegative | lib/bm25f.rb:110-121 | with non-negative weights, no document scores below 0 |
| ScoreProperties.DocumentScorePositiveIffOverlap | lib/bm25f.rb:110-121 | with positive weights, a document scores above 0 exactly when some query term occurs in some weighted field |
| ScoreProperties.TermScoreWeightMonotone | lib/bm25f.rb:117 | raising the weight never lowers a term's contribution, and strictly raises it for a term that occurs |
| ScoreProperties.FieldScoreWeightMonotone | lib/bm25f.rb:113-118 | the same for a field's score over the whole query |
| ScoreProperties.FieldsScoreWeightLe | lib/bm25f.rb:110-121 | raising weights entry by entry, over the same fields in the same order, never lowers the sum over the fields |
| ScoreProperties.FieldsScoreWeightLt | lib/bm25f.rb:110-121 | strictly raising the weight of an entry whose field holds a query term strictly raises the sum over the fields |
| ScoreProperties.FieldsScoreWeightMonotone | lib/bm25f.rb:110-121 | raising any weights never lowers the sum over fields; the sum rises strictly when a raised field contains a query term |
| ScoreProperties.DocumentScoreWeightMonotone | lib/bm25f.rb:110-121 | raising one field's weight never lowers a document's score, and strictly raises it when a query term occurs in that field |
| Fixture.FixtureDefaultWeights | test/test_bm25f.rb:7-14 | with no caller weights, the fixture's settled weights are title 1 and content 1, in that order |
| Fixture.FixtureAverage | test/test_bm25f.rb:7-10 | the fixture's average document length is 22 |
| Fixture.FixtureDocFreq | test/test_bm25f.rb:7-10 | both fields are non-empty in both documents, so df is 2 for each |
| Fixture.FixtureFit | test/test_bm25f.rb:7-14 | fitting the fixture with default parameters and no weights succeeds with the expected index |
| Fixture.FixtureStats | test/test_bm25f.rb:7-14 | the fitted statistics are the expected ones: lengths 11/11 and 7/15, average 22, and both fields with df 2 |
| Fixture.TermFrequenciesContent1 | test/test_bm25f.rb:9-15 | in "goodbye, world!" only "world" occurs, once |
| Fixture.FieldsComparison | test/test_bm25f.rb:7-21 | with k1 = 1.33, the fixture's norms and any common positive idf, document 0's fields outscore document 1's |
| Fixture.FixtureRanking | test/test_bm25f.rb:7-21 | for every logarithm: fit succeeds, the scores have keys exactly 0 and 1, and document 0 scores strictly higher than document 1 for "hello world foo bar baz" |

## Left out

- The `treat` NLP calls (`sentence`, `tokenize`, `stem`, lines 1, 4, 59 and 102) are an external library. Query terms are an input sequence of strings. `Fixture.Query` holds the fixture query split into its words, assuming stemming leaves them unchanged.
- `Math.log` is a parameter `log`. The model assumes only that `log(1) = 0` and that it is strictly increasing on positive reals. Nothing depends on its actual values.
- IEEE floating point, rounding and NaN are not modelled: arithmetic is over exact reals. The NaN average of an empty corpus is `None`.
- Scorer.Score: requires `Scorable`: `k1 > 0`, `0 <= b <= 1`, a positive average length, and, when `b = 1`, no empty weighted field. The model scores no other input, although the source scores some of them finitely: an empty query or no weighted field gives 0, and a negative `k1` or a `b` outside `[0, 1]` usually gives finite scores. Other excluded inputs make the source divide by `0.0`, for example an average length of 0, or a term absent from a field whose norm is 0. Those give NaN or Infinity, which the model does not represent. Every lemma about scores carries the same precondition.
- Scorer.FieldLengthNorm: defined only for scorable fields, for the reason above.
- The `to_i` truncation and `sort_by` of the test (test/test_bm25f.rb:18) are left out. `Fixture.FixtureRanking` states the strict order of the exact real scores instead.
- `fit` mutates the caller's weight Hash (line 26) and the object's instance variables. The model returns a new `Index` value, and the caller's Hash is never changed.
- The source keys Hashes by Symbols and gives defaulted weights the Integer 1. The model uses strings and the real 1.0; Symbols are only ever compared for equality, and `1 * x == 1.0 * x`.
- There is no concurrency to model.
