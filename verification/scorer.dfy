/** `BM25F#score`: every document's BM25F score for a list of query
    terms, computed from a fitted index. */
module Scorer {
  import opened Wrappers
  import opened RubyHash
  import opened Formula
  import opened Scan
  import opened CorpusIndex

  /** The conditions under which no score is NaN: k1 > 0 and 0 <= b <= 1,
      a positive average length (`x / 0.0` otherwise), and, when b = 1, no
      empty weighted field (0 / 0.0 otherwise). */
  ghost predicate Scorable(ix: Index) {
    && Valid(ix)
    && ParamsOk(ix.stats.params)
    && (ix.stats.avgDocLength.Some? ==> ix.stats.avgDocLength.value > 0.0)
    && (ix.stats.params.b == 1.0 ==>
          forall d: nat, f :: d < ix.stats.totalDocs && f in Keys(ix.weights) ==>
            FieldReady(ix.stats, d, f) && ix.stats.docLengths[d][f] > 0)
  }

  /** Field `f` of document `d` can be scored without dividing by zero. */
  ghost predicate ScorableField(st: Stats, d: nat, f: string) {
    && FieldReady(st, d, f)
    && st.idf[f] > 0.0
    && ParamsOk(st.params)
    && st.avgDocLength.Some? && st.avgDocLength.value > 0.0
    && (st.params.b < 1.0 || st.docLengths[d][f] > 0)
  }

  /** Every entry of a weight list names a field that can be scored. */
  ghost predicate EntriesScorable(st: Stats, d: nat, es: seq<(string, real)>) {
    forall j :: 0 <= j < |es| ==> ScorableField(st, d, es[j].0)
  }

  lemma ScorableEntries(ix: Index, d: nat)
    requires Scorable(ix) && d < ix.stats.totalDocs
    ensures EntriesScorable(ix.stats, d, ix.weights)
  {
    forall j | 0 <= j < |ix.weights|
      ensures ScorableField(ix.stats, d, ix.weights[j].0)
    {
      assert ix.weights[j].0 in Keys(ix.weights);
    }
  }

  /** `field_term_frequency`: `@documents[doc_id][field].scan(term).count`. */
  function TermFrequency(st: Stats, d: nat, f: string, term: string): nat
    requires FieldReady(st, d, f)
  {
    ScanCount(FieldText(st.docs[d], f), term)
  }

  /** `field_length_norm`, against the single global average length. */
  function FieldLengthNorm(st: Stats, d: nat, f: string): (norm: real)
    requires ScorableField(st, d, f)
    ensures norm >= 1.0 - st.params.b
    ensures norm > 0.0
  {
    Norm(st.params.b, st.docLengths[d][f], st.avgDocLength.value)
  }

  /** The contribution of one query term in one field: the summand of
      `calculate_document_score`. */
  function TermScore(st: Stats, d: nat, f: string, w: real, term: string): real
    requires ScorableField(st, d, f)
  {
    Contribution(w, TermFrequency(st, d, f, term), st.params.k1, FieldLengthNorm(st, d, f), st.idf[f])
  }

  /** The inner loop of `calculate_document_score`: one field, every term. */
  function FieldScore(st: Stats, d: nat, f: string, w: real, terms: seq<string>): real
    requires ScorableField(st, d, f)
  {
    if |terms| == 0 then 0.0
    else TermScore(st, d, f, w, terms[0]) + FieldScore(st, d, f, w, terms[1..])
  }

  /** The outer loop of `calculate_document_score`: every weighted field. */
  function FieldsScore(st: Stats, d: nat, es: seq<(string, real)>, terms: seq<string>): real
    requires EntriesScorable(st, d, es)
  {
    if |es| == 0 then 0.0
    else FieldScore(st, d, es[0].0, es[0].1, terms) + FieldsScore(st, d, es[1..], terms)
  }

  /** `calculate_document_score(doc_id, query_terms)`. */
  function DocumentScore(ix: Index, d: nat, terms: seq<string>): real
    requires Scorable(ix) && d < ix.stats.totalDocs
  {
    ScorableEntries(ix, d);
    FieldsScore(ix.stats, d, ix.weights, terms)
  }

  /** `BM25F#score`: one score per document id 0...total_docs. */
  function Score(ix: Index, terms: seq<string>): (scores: map<nat, real>)
    requires Scorable(ix)
    ensures forall d: nat :: d in scores <==> d < ix.stats.totalDocs
    ensures forall d: nat :: d in scores ==> scores[d] == DocumentScore(ix, d, terms)
  {
    map d: nat | d < ix.stats.totalDocs :: DocumentScore(ix, d, terms)
  }
}
