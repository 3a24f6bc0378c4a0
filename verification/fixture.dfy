/** The repository's test scenario: two documents with a title and a
    content field, the default parameters and no caller weights, queried
    with the terms of "hello world foo bar baz". Document 0 ranks first. */
module Fixture {
  import opened Wrappers
  import opened RubyHash
  import opened Formula
  import opened Scan
  import opened CorpusIndex
  import opened Scorer

  const Doc0: Doc := [("title", Str("hello world")), ("content", Str("foo bar baz"))]
  const Doc1: Doc := [("title", Str("foo bar")), ("content", Str("goodbye, world!"))]
  const Corpus: seq<Doc> := [Doc0, Doc1]

  /** The query after tokenising: its words, in order. */
  const Query: seq<string> := ["hello", "world", "foo", "bar", "baz"]

  /** The weights `fit` settles on when the caller passes none. */
  const FittedWeights: Hash<real> := [("title", 1.0), ("content", 1.0)]

  /** Frequencies of the query terms in the title of document 0. */
  lemma TermFrequenciesTitle0()
    ensures ScanCount("hello world", "hello") == 1
    ensures ScanCount("hello world", "world") == 1
    ensures ScanCount("hello world", "foo") == 0
    ensures ScanCount("hello world", "bar") == 0
    ensures ScanCount("hello world", "baz") == 0
  {
    AbsentTermsTitle0("hello world");
    OccurringTermsTitle0("hello world");
  }

  /** The query terms absent from the title of document 0 each have a character
      that text lacks. */
  lemma AbsentTermsTitle0(t: string)
    requires t == "hello world"
    ensures ScanCount(t, "foo") == 0
    ensures ScanCount(t, "bar") == 0
    ensures ScanCount(t, "baz") == 0
  {
    ScanCountZeroWithoutChar(t, "foo", 0);
    ScanCountZeroWithoutChar(t, "bar", 0);
    ScanCountZeroWithoutChar(t, "baz", 0);
  }

  /** "hello" and "world" occur once in the title of document 0. */
  lemma OccurringTermsTitle0(t: string)
    requires t == "hello world"
    ensures ScanCount(t, "hello") == 1
    ensures ScanCount(t, "world") == 1
  {
    assert ScanCount(t, "hello") == 1 by {
      ScanCountOnceBetween(t, "", "hello", " world", 0);
    }
    assert ScanCount(t, "world") == 1 by {
      ScanCountOnceBetween(t, "hello ", "world", "", 0);
    }
  }

  /** Frequencies of the query terms in the content of document 0. */
  lemma TermFrequenciesContent0()
    ensures ScanCount("foo bar baz", "hello") == 0
    ensures ScanCount("foo bar baz", "world") == 0
    ensures ScanCount("foo bar baz", "foo") == 1
    ensures ScanCount("foo bar baz", "bar") == 1
    ensures ScanCount("foo bar baz", "baz") == 1
  {
    AbsentTermsContent0("foo bar baz");
    OccurringTermsContent0("foo bar baz");
    FrequencyContent0Baz("foo bar baz");
  }

  /** The query terms absent from the content of document 0 each have a character
      that text lacks. */
  lemma AbsentTermsContent0(t: string)
    requires t == "foo bar baz"
    ensures ScanCount(t, "hello") == 0
    ensures ScanCount(t, "world") == 0
  {
    ScanCountZeroWithoutChar(t, "hello", 0);
    ScanCountZeroWithoutChar(t, "world", 0);
  }

  /** "foo" and "bar" occur once in the content of document 0: neither
      first letter occurs before the term, and "foo" has no 'f' after it and
      "bar" no 'r'. */
  lemma OccurringTermsContent0(t: string)
    requires t == "foo bar baz"
    ensures ScanCount(t, "foo") == 1
    ensures ScanCount(t, "bar") == 1
  {
    assert ScanCount(t, "foo") == 1 by {
      ScanCountOnceBetween(t, "", "foo", " bar baz", 0);
    }
    assert ScanCount(t, "bar") == 1 by {
      ScanCountOnceBetween(t, "foo ", "bar", " baz", 2);
    }
  }

  /** "baz" occurs once in the content of document 0: it shares "ba" with
      "bar", but the text before its last letter has no 'z'. */
  lemma FrequencyContent0Baz(t: string)
    requires t == "foo bar baz"
    ensures ScanCount(t, "baz") == 1
  {
    assert t == "foo bar " + "baz" + "";
    assert t[8..11] == "baz";
    assert t[..10] == "foo bar ba";
    assert t[11..] == "";
    ScanCountZeroWithoutChar(t[..10], "baz", 2);
    ScanCountFirstMatch(t, "baz", 8);
    ScanCountZeroWithoutChar(t[11..], "baz", 0);
  }

  /** Frequencies of the query terms in the title of document 1. */
  lemma TermFrequenciesTitle1()
    ensures ScanCount("foo bar", "hello") == 0
    ensures ScanCount("foo bar", "world") == 0
    ensures ScanCount("foo bar", "foo") == 1
    ensures ScanCount("foo bar", "bar") == 1
    ensures ScanCount("foo bar", "baz") == 0
  {
    AbsentTermsTitle1("foo bar");
    OccurringTermsTitle1("foo bar");
  }

  /** The query terms absent from the title of document 1 each have a character
      that text lacks. */
  lemma AbsentTermsTitle1(t: string)
    requires t == "foo bar"
    ensures ScanCount(t, "hello") == 0
    ensures ScanCount(t, "world") == 0
    ensures ScanCount(t, "baz") == 0
  {
    ScanCountZeroWithoutChar(t, "hello", 0);
    ScanCountZeroWithoutChar(t, "world", 0);
    ScanCountZeroWithoutChar(t, "baz", 2);
  }

  /** "foo" and "bar" occur once in the title of document 1. */
  lemma OccurringTermsTitle1(t: string)
    requires t == "foo bar"
    ensures ScanCount(t, "foo") == 1
    ensures ScanCount(t, "bar") == 1
  {
    assert ScanCount(t, "foo") == 1 by {
      ScanCountOnceBetween(t, "", "foo", " bar", 0);
    }
    assert ScanCount(t, "bar") == 1 by {
      ScanCountOnceBetween(t, "foo ", "bar", "", 0);
    }
  }

  /** Frequencies of the query terms in the content of document 1. */
  lemma TermFrequenciesContent1()
    ensures ScanCount("goodbye, world!", "hello") == 0
    ensures ScanCount("goodbye, world!", "world") == 1
    ensures ScanCount("goodbye, world!", "foo") == 0
    ensures ScanCount("goodbye, world!", "bar") == 0
    ensures ScanCount("goodbye, world!", "baz") == 0
  {
    AbsentTermsContent1("goodbye, world!");
    OccurringTermsContent1("goodbye, world!");
  }

  /** The query terms absent from the content of document 1 each have a character
      that text lacks; "bar" and "baz" both contain an 'a'. */
  lemma AbsentTermsContent1(t: string)
    requires t == "goodbye, world!"
    ensures ScanCount(t, "hello") == 0
    ensures ScanCount(t, "foo") == 0
    ensures ScanCount(t, "bar") == 0
    ensures ScanCount(t, "baz") == 0
  {
    ScanCountZeroWithoutChar(t, "hello", 0);
    ScanCountZeroWithoutChar(t, "foo", 0);
    LacksA(t, "bar");
    LacksA(t, "baz");
  }

  /** A term with an 'a' in second place does not occur in the content of
      document 1. */
  lemma LacksA(t: string, pat: string)
    requires t == "goodbye, world!" && |pat| > 1 && pat[1] == 'a'
    ensures ScanCount(t, pat) == 0
  {
    ScanCountZeroWithoutChar(t, pat, 1);
  }

  /** "world" occurs once in the content of document 1: "goodbye, " and
      "!" have no 'w'. */
  lemma OccurringTermsContent1(t: string)
    requires t == "goodbye, world!"
    ensures ScanCount(t, "world") == 1
  {
    assert ScanCount(t, "world") == 1 by {
      ScanCountOnceBetween(t, "goodbye, ", "world", "!", 0);
    }
  }

  lemma FixtureKeys()
    ensures Keys(Doc0) == ["title", "content"] && Keys(Doc1) == ["title", "content"]
    ensures AllKeys(Corpus) == ["title", "content", "title", "content"]
  {
    assert Keys(Doc0) == ["title", "content"];
    assert Keys(Doc1) == ["title", "content"];
    assert Corpus[1..] == [Doc1] && [Doc1][1..] == [];
    assert AllKeys([Doc1]) == Keys(Doc1) + AllKeys([]);
    assert AllKeys(Corpus) == Keys(Doc0) + AllKeys([Doc1]);
  }

  /** The distinct keys of the scenario, in order of first appearance. */
  lemma FixtureUniq()
    ensures Uniq(["title", "content", "title", "content"]) == ["title", "content"]
  {
    var s := ["title", "content", "title", "content"];
    assert s[..1][..0] == [];
    assert Uniq(s[..1]) == ["title"];
    assert s[..2][..1] == s[..1];
    assert Uniq(s[..2]) == ["title", "content"];
    assert s[..3][..2] == s[..2];
    assert Uniq(s[..3]) == ["title", "content"];
    assert s[..3] == s[..|s| - 1];
  }

  /** Weight 1 for each key in turn, starting from no weights. */
  lemma FixtureAddDefaults()
    ensures AddDefaultWeights([], ["title", "content"]) == FittedWeights
  {
    var none: Hash<real> := [];
    var one: Hash<real> := [("title", 1.0)];
    assert Set(none, "title", 1.0) == one;
    assert Keys(one) == ["title"];
    assert Set(one, "content", 1.0) == FittedWeights;
    assert AddDefaultWeights(FittedWeights, ["title", "content"][1..][1..]) == FittedWeights;
    assert AddDefaultWeights(one, ["title", "content"][1..]) == FittedWeights;
  }

  /** With no caller weights, every field gets weight 1, title first. */
  lemma FixtureDefaultWeights()
    ensures DefaultWeights([], Corpus) == FittedWeights
  {
    FixtureKeys();
    FixtureUniq();
    FixtureAddDefaults();
  }

  lemma FixtureHasStrings()
    ensures Get(Doc0, "title") == Some(Str("hello world"))
    ensures Get(Doc0, "content") == Some(Str("foo bar baz"))
    ensures Get(Doc1, "title") == Some(Str("foo bar"))
    ensures Get(Doc1, "content") == Some(Str("goodbye, world!"))
    ensures forall f, i :: f in Keys(FittedWeights) && 0 <= i < |Corpus| ==> HasString(Corpus[i], f)
  {
    assert Doc0[0].0 == "title" && Doc0[1].0 == "content";
    assert Doc1[0].0 == "title" && Doc1[1].0 == "content";
    assert Keys(FittedWeights) == ["title", "content"];
  }

  /** The fitted index of the scenario. */
  function FixtureIndex(log: real -> real): (ix: Index)
    requires IsLog(log)
    ensures Valid(ix) && ix.weights == FittedWeights
  {
    FixtureHasStrings();
    BuildIndex(DefaultParams, Corpus, FittedWeights, log)
  }

  /** `fit` succeeds on the scenario and produces that index. */
  lemma FixtureFit(log: real -> real)
    requires IsLog(log)
    ensures Fit(DefaultParams, Corpus, [], log) == Success(FixtureIndex(log))
  {
    FixtureDefaultWeights();
    FixtureKeys();
    FixtureHasStrings();
  }

  /** Both documents have 22 characters. */
  lemma FixtureTotalLength()
    ensures TotalLength(Corpus) == 44
  {
    assert Doc0[1..][1..] == [] && Doc1[1..][1..] == [];
    assert DocTotalLength(Doc0) == 22;
    assert DocTotalLength(Doc1) == 22;
    assert Corpus[1..] == [Doc1] && [Doc1][1..] == [];
    assert TotalLength([Doc1]) == 22;
  }

  /** Both fields are non-empty in both documents. */
  lemma FixtureDocFreq()
    ensures DocFreq(Corpus, "title") == 2
    ensures DocFreq(Corpus, "content") == 2
  {
    FixtureHasStrings();
    assert Corpus[..1] == [Doc0] && [Doc0][..0] == [];
    assert DocFreq([Doc0], "title") == 1;
    assert DocFreq([Doc0], "content") == 1;
  }

  /** The statistics of the scenario, written out: an average length of
      44 / 2, the field lengths, and one common IDF since both fields are
      non-empty in both documents. */
  function ExpectedStats(log: real -> real): Stats
    requires IsLog(log)
  {
    var idf := Idf(2, 2, log);
    Stats(DefaultParams, Corpus, Some(22.0),
          [map["title" := 11, "content" := 11], map["title" := 7, "content" := 15]],
          2, map["title" := idf, "content" := idf])
  }

  /** The length map of a document with a title and a content String. */
  lemma TwoFieldLengthMap(d: Doc, title: string, content: string)
    requires d == [("title", Str(title)), ("content", Str(content))]
    ensures LengthMap(d) == map["title" := |title|, "content" := |content|]
  {
    assert Keys(d) == ["title", "content"];
    assert d[0].0 == "title" && d[1].0 == "content";
  }

  /** The length table of a two-document corpus. */
  lemma TwoDocumentLengths(docs: seq<Doc>)
    requires |docs| == 2
    ensures DocumentLengths(docs) == [LengthMap(docs[0]), LengthMap(docs[1])]
  {
  }

  lemma FixtureLengths(log: real -> real)
    requires IsLog(log)
    ensures FixtureIndex(log).stats.docLengths == ExpectedStats(log).docLengths
  {
    TwoFieldLengthMap(Doc0, "hello world", "foo bar baz");
    TwoFieldLengthMap(Doc1, "foo bar", "goodbye, world!");
    TwoDocumentLengths(Corpus);
  }

  /** A map keyed by exactly the two fields. */
  lemma FieldDomain<V>(m: map<string, V>, ks: seq<string>)
    requires forall x :: x in m <==> x in ks
    requires ks == ["title", "content"]
    ensures m.Keys == {"title", "content"}
  {
  }

  lemma FixtureIdfKeys(log: real -> real)
    requires IsLog(log)
    ensures FixtureIndex(log).stats.idf.Keys == {"title", "content"}
  {
    FixtureHasStrings();
    assert Keys(FittedWeights) == ["title", "content"];
    FieldDomain(FixtureIndex(log).stats.idf, Keys(FittedWeights));
  }

  lemma FixtureIdfValues(log: real -> real)
    requires IsLog(log)
    ensures FixtureIndex(log).stats.idf["title"] == Idf(2, 2, log)
    ensures FixtureIndex(log).stats.idf["content"] == Idf(2, 2, log)
  {
    FixtureDocFreq();
    FixtureHasStrings();
    assert Keys(FittedWeights) == ["title", "content"];
  }

  lemma FixtureIdf(log: real -> real)
    requires IsLog(log)
    ensures FixtureIndex(log).stats.idf == ExpectedStats(log).idf
  {
    FixtureIdfKeys(log);
    FixtureIdfValues(log);
    TwoFieldMap(FixtureIndex(log).stats.idf, Idf(2, 2, log));
  }

  /** A map from exactly the two fields to one common value. */
  lemma TwoFieldMap(m: map<string, real>, a: real)
    requires m.Keys == {"title", "content"} && m["title"] == a && m["content"] == a
    ensures m == map["title" := a, "content" := a]
  {
  }

  lemma FixtureAverage()
    ensures AverageDocumentLength(Corpus) == Some(22.0)
  {
    FixtureTotalLength();
  }

  /** `fit` computes exactly those statistics. */
  lemma FixtureStats(log: real -> real)
    requires IsLog(log)
    ensures FixtureIndex(log).stats == ExpectedStats(log)
  {
    FixtureAverage();
    FixtureLengths(log);
    FixtureIdf(log);
    var st := FixtureIndex(log).stats;
    var ex := ExpectedStats(log);
    assert st.params == ex.params && st.docs == ex.docs && st.totalDocs == ex.totalDocs;
    assert st.avgDocLength == ex.avgDocLength;
  }

  /** Every field of both documents can be scored. */
  lemma ExpectedStatsScorable(log: real -> real)
    requires IsLog(log)
    ensures ScorableField(ExpectedStats(log), 0, "title")
    ensures ScorableField(ExpectedStats(log), 0, "content")
    ensures ScorableField(ExpectedStats(log), 1, "title")
    ensures ScorableField(ExpectedStats(log), 1, "content")
  {
    FixtureHasStrings();
  }

  /** The fitted index can be scored. */
  lemma FixtureScorable(log: real -> real)
    requires IsLog(log)
    ensures Scorable(FixtureIndex(log))
  {
    FixtureStats(log);
  }

  /** A field's score for the scenario's query, term by term. */
  lemma QueryFieldScore(st: Stats, d: nat, f: string, w: real)
    requires ScorableField(st, d, f)
    ensures FieldScore(st, d, f, w, Query) ==
      TermScore(st, d, f, w, "hello") + TermScore(st, d, f, w, "world") + TermScore(st, d, f, w, "foo")
      + TermScore(st, d, f, w, "bar") + TermScore(st, d, f, w, "baz")
  {
    assert Query[4..][1..] == [];
    assert FieldScore(st, d, f, w, Query[4..]) == TermScore(st, d, f, w, "baz");
    assert Query[3..][1..] == Query[4..];
    assert FieldScore(st, d, f, w, Query[3..]) == TermScore(st, d, f, w, "bar") + TermScore(st, d, f, w, "baz");
    assert Query[2..][1..] == Query[3..];
    assert FieldScore(st, d, f, w, Query[2..]) == TermScore(st, d, f, w, "foo")
      + (TermScore(st, d, f, w, "bar") + TermScore(st, d, f, w, "baz"));
    assert Query[1..][1..] == Query[2..];
    assert Query[1..] == ["world", "foo", "bar", "baz"];
  }

  /** With weight 1, a term that does not occur adds nothing ... */
  lemma AbsentTermScore(st: Stats, d: nat, f: string, t: string)
    requires ScorableField(st, d, f) && TermFrequency(st, d, f, t) == 0
    ensures TermScore(st, d, f, 1.0, t) == 0.0
  {
  }

  /** ... and a term that occurs once adds its saturation times the
      field's IDF. */
  lemma SingleTermScore(st: Stats, d: nat, f: string, t: string)
    requires ScorableField(st, d, f) && TermFrequency(st, d, f, t) == 1
    ensures TermScore(st, d, f, 1.0, t) == Saturation(1, st.params.k1, FieldLengthNorm(st, d, f)) * st.idf[f]
  {
  }

  lemma Title0Frequencies(st: Stats)
    requires FieldReady(st, 0, "title") && FieldText(st.docs[0], "title") == "hello world"
    ensures TermFrequency(st, 0, "title", "hello") == 1
    ensures TermFrequency(st, 0, "title", "world") == 1
    ensures TermFrequency(st, 0, "title", "foo") == 0
    ensures TermFrequency(st, 0, "title", "bar") == 0
    ensures TermFrequency(st, 0, "title", "baz") == 0
  {
    TermFrequenciesTitle0();
  }

  /** Title "hello world": two of the five terms occur once. */
  lemma Title0Score(st: Stats)
    requires ScorableField(st, 0, "title") && FieldText(st.docs[0], "title") == "hello world"
    ensures FieldScore(st, 0, "title", 1.0, Query)
      == 2.0 * (Saturation(1, st.params.k1, FieldLengthNorm(st, 0, "title")) * st.idf["title"])
  {
    Title0Frequencies(st);
    Title0Counted(st);
  }

  lemma Title0Counted(st: Stats)
    requires ScorableField(st, 0, "title")
    requires TermFrequency(st, 0, "title", "hello") == 1
    requires TermFrequency(st, 0, "title", "world") == 1
    requires TermFrequency(st, 0, "title", "foo") == 0
    requires TermFrequency(st, 0, "title", "bar") == 0
    requires TermFrequency(st, 0, "title", "baz") == 0
    ensures FieldScore(st, 0, "title", 1.0, Query)
      == 2.0 * (Saturation(1, st.params.k1, FieldLengthNorm(st, 0, "title")) * st.idf["title"])
  {
    QueryFieldScore(st, 0, "title", 1.0);
    SingleTermScore(st, 0, "title", "hello");
    SingleTermScore(st, 0, "title", "world");
    AbsentTermScore(st, 0, "title", "foo");
    AbsentTermScore(st, 0, "title", "bar");
    AbsentTermScore(st, 0, "title", "baz");
  }

  lemma Content0Frequencies(st: Stats)
    requires FieldReady(st, 0, "content") && FieldText(st.docs[0], "content") == "foo bar baz"
    ensures TermFrequency(st, 0, "content", "hello") == 0
    ensures TermFrequency(st, 0, "content", "world") == 0
    ensures TermFrequency(st, 0, "content", "foo") == 1
    ensures TermFrequency(st, 0, "content", "bar") == 1
    ensures TermFrequency(st, 0, "content", "baz") == 1
  {
    TermFrequenciesContent0();
  }

  /** Content "foo bar baz": three of the five terms occur once. */
  lemma Content0Score(st: Stats)
    requires ScorableField(st, 0, "content") && FieldText(st.docs[0], "content") == "foo bar baz"
    ensures FieldScore(st, 0, "content", 1.0, Query)
      == 3.0 * (Saturation(1, st.params.k1, FieldLengthNorm(st, 0, "content")) * st.idf["content"])
  {
    Content0Frequencies(st);
    Content0Counted(st);
  }

  lemma Content0Counted(st: Stats)
    requires ScorableField(st, 0, "content")
    requires TermFrequency(st, 0, "content", "hello") == 0
    requires TermFrequency(st, 0, "content", "world") == 0
    requires TermFrequency(st, 0, "content", "foo") == 1
    requires TermFrequency(st, 0, "content", "bar") == 1
    requires TermFrequency(st, 0, "content", "baz") == 1
    ensures FieldScore(st, 0, "content", 1.0, Query)
      == 3.0 * (Saturation(1, st.params.k1, FieldLengthNorm(st, 0, "content")) * st.idf["content"])
  {
    QueryFieldScore(st, 0, "content", 1.0);
    AbsentTermScore(st, 0, "content", "hello");
    AbsentTermScore(st, 0, "content", "world");
    SingleTermScore(st, 0, "content", "foo");
    SingleTermScore(st, 0, "content", "bar");
    SingleTermScore(st, 0, "content", "baz");
  }

  lemma Title1Frequencies(st: Stats)
    requires FieldReady(st, 1, "title") && FieldText(st.docs[1], "title") == "foo bar"
    ensures TermFrequency(st, 1, "title", "hello") == 0
    ensures TermFrequency(st, 1, "title", "world") == 0
    ensures TermFrequency(st, 1, "title", "foo") == 1
    ensures TermFrequency(st, 1, "title", "bar") == 1
    ensures TermFrequency(st, 1, "title", "baz") == 0
  {
    TermFrequenciesTitle1();
  }

  /** Title "foo bar": two of the five terms occur once. */
  lemma Title1Score(st: Stats)
    requires ScorableField(st, 1, "title") && FieldText(st.docs[1], "title") == "foo bar"
    ensures FieldScore(st, 1, "title", 1.0, Query)
      == 2.0 * (Saturation(1, st.params.k1, FieldLengthNorm(st, 1, "title")) * st.idf["title"])
  {
    Title1Frequencies(st);
    Title1Counted(st);
  }

  lemma Title1Counted(st: Stats)
    requires ScorableField(st, 1, "title")
    requires TermFrequency(st, 1, "title", "hello") == 0
    requires TermFrequency(st, 1, "title", "world") == 0
    requires TermFrequency(st, 1, "title", "foo") == 1
    requires TermFrequency(st, 1, "title", "bar") == 1
    requires TermFrequency(st, 1, "title", "baz") == 0
    ensures FieldScore(st, 1, "title", 1.0, Query)
      == 2.0 * (Saturation(1, st.params.k1, FieldLengthNorm(st, 1, "title")) * st.idf["title"])
  {
    QueryFieldScore(st, 1, "title", 1.0);
    AbsentTermScore(st, 1, "title", "hello");
    AbsentTermScore(st, 1, "title", "world");
    SingleTermScore(st, 1, "title", "foo");
    SingleTermScore(st, 1, "title", "bar");
    AbsentTermScore(st, 1, "title", "baz");
  }

  lemma Content1Frequencies(st: Stats)
    requires FieldReady(st, 1, "content") && FieldText(st.docs[1], "content") == "goodbye, world!"
    ensures TermFrequency(st, 1, "content", "hello") == 0
    ensures TermFrequency(st, 1, "content", "world") == 1
    ensures TermFrequency(st, 1, "content", "foo") == 0
    ensures TermFrequency(st, 1, "content", "bar") == 0
    ensures TermFrequency(st, 1, "content", "baz") == 0
  {
    TermFrequenciesContent1();
  }

  /** Content "goodbye, world!": one of the five terms occurs once. */
  lemma Content1Score(st: Stats)
    requires ScorableField(st, 1, "content") && FieldText(st.docs[1], "content") == "goodbye, world!"
    ensures FieldScore(st, 1, "content", 1.0, Query)
      == (Saturation(1, st.params.k1, FieldLengthNorm(st, 1, "content")) * st.idf["content"])
  {
    Content1Frequencies(st);
    Content1Counted(st);
  }

  lemma Content1Counted(st: Stats)
    requires ScorableField(st, 1, "content")
    requires TermFrequency(st, 1, "content", "hello") == 0
    requires TermFrequency(st, 1, "content", "world") == 1
    requires TermFrequency(st, 1, "content", "foo") == 0
    requires TermFrequency(st, 1, "content", "bar") == 0
    requires TermFrequency(st, 1, "content", "baz") == 0
    ensures FieldScore(st, 1, "content", 1.0, Query)
      == (Saturation(1, st.params.k1, FieldLengthNorm(st, 1, "content")) * st.idf["content"])
  {
    QueryFieldScore(st, 1, "content", 1.0);
    AbsentTermScore(st, 1, "content", "hello");
    SingleTermScore(st, 1, "content", "world");
    AbsentTermScore(st, 1, "content", "foo");
    AbsentTermScore(st, 1, "content", "bar");
    AbsentTermScore(st, 1, "content", "baz");
  }

  /** Under the fitted weights a document's score is the sum of its two
      field scores. */
  lemma TwoFieldDocumentScore(ix: Index, d: nat)
    requires Scorable(ix) && d < ix.stats.totalDocs && ix.weights == FittedWeights
    ensures ScorableField(ix.stats, d, "title") && ScorableField(ix.stats, d, "content")
    ensures DocumentScore(ix, d, Query)
      == FieldScore(ix.stats, d, "title", 1.0, Query) + FieldScore(ix.stats, d, "content", 1.0, Query)
  {
    ScorableEntries(ix, d);
    var es := ix.weights;
    assert es[0] == ("title", 1.0) && es[1] == ("content", 1.0);
    assert es[1..][1..] == [];
    assert FieldsScore(ix.stats, d, es[1..], Query) == FieldScore(ix.stats, d, "content", 1.0, Query);
  }

  /** What the scenario's statistics give each field: its text, its norm
      (the 11-character fields of document 0 sit exactly at the average of
      22 per document, so 1 - b + b * 11 / 22 = 0.6) and the common IDF. */
  lemma ExpectedFields(st: Stats, log: real -> real)
    requires IsLog(log) && st == ExpectedStats(log)
    ensures ScorableField(st, 0, "title") && FieldText(st.docs[0], "title") == "hello world"
    ensures ScorableField(st, 0, "content") && FieldText(st.docs[0], "content") == "foo bar baz"
    ensures ScorableField(st, 1, "title") && FieldText(st.docs[1], "title") == "foo bar"
    ensures ScorableField(st, 1, "content") && FieldText(st.docs[1], "content") == "goodbye, world!"
    ensures st.params.k1 == 1.33
    ensures FieldLengthNorm(st, 0, "title") == 0.6 && FieldLengthNorm(st, 0, "content") == 0.6
    ensures FieldLengthNorm(st, 1, "title") == 5.0 / 11.0
    ensures FieldLengthNorm(st, 1, "content") == 41.0 / 55.0
    ensures st.idf["title"] == st.idf["content"] == Idf(2, 2, log)
  {
    FixtureHasStrings();
    ExpectedStatsScorable(log);
  }

  /** The saturations at the three norms of the scenario, bracketed. */
  lemma FixtureSaturations(k1: real, average: real, short: real, long: real)
    requires k1 == 1.33 && average == 0.6 && short == 5.0 / 11.0 && long == 41.0 / 55.0
    ensures Saturation(1, k1, average) > 1.29
    ensures Saturation(1, k1, short) < 1.46
    ensures Saturation(1, k1, long) < 1.18
  {
  }

  /** What the scoring needs to know about the scenario's statistics: the
      field texts, the parameter k1, the four norms and a common positive
      IDF. */
  ghost predicate ScenarioFields(st: Stats) {
    && ScorableField(st, 0, "title") && FieldText(st.docs[0], "title") == "hello world"
    && ScorableField(st, 0, "content") && FieldText(st.docs[0], "content") == "foo bar baz"
    && ScorableField(st, 1, "title") && FieldText(st.docs[1], "title") == "foo bar"
    && ScorableField(st, 1, "content") && FieldText(st.docs[1], "content") == "goodbye, world!"
    && st.params.k1 == 1.33
    && FieldLengthNorm(st, 0, "title") == 0.6 && FieldLengthNorm(st, 0, "content") == 0.6
    && FieldLengthNorm(st, 1, "title") == 5.0 / 11.0
    && FieldLengthNorm(st, 1, "content") == 41.0 / 55.0
    && st.idf["title"] == st.idf["content"] > 0.0
  }

  /** m occurrence units, each saturating above c, are worth more than
      m * c IDFs ... */
  lemma UnitsAbove(score: real, m: real, s: real, idf: real, c: real)
    requires score == m * (s * idf) && m > 0.0 && s > c && idf > 0.0
    ensures score > m * c * idf
  {
    assert score - m * c * idf == m * ((s - c) * idf);
    assert (s - c) * idf > 0.0;
  }

  /** ... and, each saturating below c, less than m * c IDFs. */
  lemma UnitsBelow(score: real, m: real, s: real, idf: real, c: real)
    requires score == m * (s * idf) && m > 0.0 && s < c && idf > 0.0
    ensures score < m * c * idf
  {
    assert m * c * idf - score == m * ((c - s) * idf);
    assert (c - s) * idf > 0.0;
  }

  /** The title of document 0, of average length, holds two query terms. */
  lemma Title0Lower(st: Stats, q: seq<string>)
    requires ScorableField(st, 0, "title") && st.params.k1 == 1.33 && FieldLengthNorm(st, 0, "title") == 0.6
    requires FieldScore(st, 0, "title", 1.0, q)
      == 2.0 * (Saturation(1, st.params.k1, FieldLengthNorm(st, 0, "title")) * st.idf["title"])
    ensures FieldScore(st, 0, "title", 1.0, q) > 2.58 * st.idf["title"]
  {
    FixtureSaturations(st.params.k1, FieldLengthNorm(st, 0, "title"), 5.0 / 11.0, 41.0 / 55.0);
    UnitsAbove(FieldScore(st, 0, "title", 1.0, q), 2.0,
               Saturation(1, st.params.k1, FieldLengthNorm(st, 0, "title")), st.idf["title"], 1.29);
  }

  /** The content of document 0, of average length, holds three. */
  lemma Content0Lower(st: Stats, q: seq<string>)
    requires ScorableField(st, 0, "content") && st.params.k1 == 1.33 && FieldLengthNorm(st, 0, "content") == 0.6
    requires FieldScore(st, 0, "content", 1.0, q)
      == 3.0 * (Saturation(1, st.params.k1, FieldLengthNorm(st, 0, "content")) * st.idf["content"])
    ensures FieldScore(st, 0, "content", 1.0, q) > 3.87 * st.idf["content"]
  {
    FixtureSaturations(st.params.k1, FieldLengthNorm(st, 0, "content"), 5.0 / 11.0, 41.0 / 55.0);
    UnitsAbove(FieldScore(st, 0, "content", 1.0, q), 3.0,
               Saturation(1, st.params.k1, FieldLengthNorm(st, 0, "content")), st.idf["content"], 1.29);
  }

  /** The title of document 1, shorter than the average, holds two. */
  lemma Title1Upper(st: Stats, q: seq<string>)
    requires ScorableField(st, 1, "title") && st.params.k1 == 1.33
    requires FieldLengthNorm(st, 1, "title") == 5.0 / 11.0
    requires FieldScore(st, 1, "title", 1.0, q)
      == 2.0 * (Saturation(1, st.params.k1, FieldLengthNorm(st, 1, "title")) * st.idf["title"])
    ensures FieldScore(st, 1, "title", 1.0, q) < 2.92 * st.idf["title"]
  {
    FixtureSaturations(st.params.k1, 0.6, FieldLengthNorm(st, 1, "title"), 41.0 / 55.0);
    UnitsBelow(FieldScore(st, 1, "title", 1.0, q), 2.0,
               Saturation(1, st.params.k1, FieldLengthNorm(st, 1, "title")), st.idf["title"], 1.46);
  }

  /** The content of document 1, longer than the average, holds one. */
  lemma Content1Upper(st: Stats, q: seq<string>)
    requires ScorableField(st, 1, "content") && st.params.k1 == 1.33
    requires FieldLengthNorm(st, 1, "content") == 41.0 / 55.0
    requires FieldScore(st, 1, "content", 1.0, q)
      == Saturation(1, st.params.k1, FieldLengthNorm(st, 1, "content")) * st.idf["content"]
    ensures FieldScore(st, 1, "content", 1.0, q) < 1.18 * st.idf["content"]
  {
    FixtureSaturations(st.params.k1, 0.6, 5.0 / 11.0, FieldLengthNorm(st, 1, "content"));
    UnitsBelow(FieldScore(st, 1, "content", 1.0, q), 1.0,
               Saturation(1, st.params.k1, FieldLengthNorm(st, 1, "content")), st.idf["content"], 1.18);
  }

  /** With the scenario's texts, norms and a common positive IDF, document
      0's two field scores add up to more than document 1's. */
  lemma FieldsComparison(st: Stats)
    requires ScenarioFields(st)
    ensures FieldScore(st, 0, "title", 1.0, Query) + FieldScore(st, 0, "content", 1.0, Query)
          > FieldScore(st, 1, "title", 1.0, Query) + FieldScore(st, 1, "content", 1.0, Query)
  {
    Title0Score(st);
    Content0Score(st);
    Title1Score(st);
    Content1Score(st);
    Title0Lower(st, Query);
    Content0Lower(st, Query);
    Title1Upper(st, Query);
    Content1Upper(st, Query);
  }

  /** Any index with the scenario's weights and statistics ranks document 0
      above document 1. */
  lemma ExpectedRanking(ix: Index, log: real -> real)
    requires IsLog(log)
    requires Scorable(ix) && ix.weights == FittedWeights && ix.stats == ExpectedStats(log)
    ensures ix.stats.totalDocs == 2
    ensures DocumentScore(ix, 0, Query) > DocumentScore(ix, 1, Query)
  {
    ExpectedFields(ix.stats, log);
    FieldsComparison(ix.stats);
    TwoFieldDocumentScore(ix, 0);
    TwoFieldDocumentScore(ix, 1);
  }

  /** `score` reports a value for both documents, and document 0 ranks
      first when its document score is the larger. */
  lemma TwoDocumentScores(ix: Index)
    requires Scorable(ix) && ix.stats.totalDocs == 2
    requires DocumentScore(ix, 0, Query) > DocumentScore(ix, 1, Query)
    ensures Score(ix, Query).Keys == {0, 1}
    ensures Score(ix, Query)[0] > Score(ix, Query)[1]
  {
    var scores := Score(ix, Query);
    forall x ensures x in scores.Keys <==> x in {0, 1} {
    }
  }

  /** The test's assertion: fitting the two documents with the default
      parameters and no weights, then scoring "hello world foo bar baz",
      ranks document 0 strictly above document 1, whatever the common IDF
      is as long as it is positive. */
  lemma FixtureRanking(log: real -> real)
    requires IsLog(log)
    ensures Fit(DefaultParams, Corpus, [], log).Success?
    ensures Scorable(Fit(DefaultParams, Corpus, [], log).value)
    ensures Score(Fit(DefaultParams, Corpus, [], log).value, Query).Keys == {0, 1}
    ensures Score(Fit(DefaultParams, Corpus, [], log).value, Query)[0]
          > Score(Fit(DefaultParams, Corpus, [], log).value, Query)[1]
  {
    FixtureFit(log);
    FixtureScorable(log);
    FixtureStats(log);
    ExpectedRanking(FixtureIndex(log), log);
    TwoDocumentScores(FixtureIndex(log));
  }
}
