/** Properties of BM25F scores: zeros and signs, independence from the
    order of the query terms, additivity over the query, and monotonicity
    in the field weights. */
module ScoreProperties {
  import opened Wrappers
  import opened RubyHash
  import opened Formula
  import opened Scan
  import opened CorpusIndex
  import opened Scorer

  // ---------------------------------------------------------------------
  // Additivity over the query

  lemma {:induction false} FieldScoreAppend(st: Stats, d: nat, f: string, w: real, a: seq<string>, b: seq<string>)
    requires ScorableField(st, d, f)
    ensures FieldScore(st, d, f, w, a + b) == FieldScore(st, d, f, w, a) + FieldScore(st, d, f, w, b)
    decreases |a|
  {
    if |a| > 0 {
      assert (a + b)[1..] == a[1..] + b;
      FieldScoreAppend(st, d, f, w, a[1..], b);
    } else {
      assert a + b == b;
    }
  }

  lemma {:induction false} FieldsScoreAppend(st: Stats, d: nat, es: seq<(string, real)>, a: seq<string>, b: seq<string>)
    requires EntriesScorable(st, d, es)
    ensures FieldsScore(st, d, es, a + b) == FieldsScore(st, d, es, a) + FieldsScore(st, d, es, b)
    decreases |es|
  {
    if |es| > 0 {
      FieldScoreAppend(st, d, es[0].0, es[0].1, a, b);
      FieldsScoreAppend(st, d, es[1..], a, b);
    }
  }

  /** Scoring a concatenated query adds the scores of its parts. */
  lemma DocumentScoreAppend(ix: Index, d: nat, a: seq<string>, b: seq<string>)
    requires Scorable(ix) && d < ix.stats.totalDocs
    ensures DocumentScore(ix, d, a + b) == DocumentScore(ix, d, a) + DocumentScore(ix, d, b)
  {
    ScorableEntries(ix, d);
    FieldsScoreAppend(ix.stats, d, ix.weights, a, b);
  }

  /** A repeated query term is counted once per repetition. */
  lemma DocumentScoreDuplicate(ix: Index, d: nat, terms: seq<string>, t: string)
    requires Scorable(ix) && d < ix.stats.totalDocs
    ensures DocumentScore(ix, d, terms + [t, t]) == DocumentScore(ix, d, terms) + 2.0 * DocumentScore(ix, d, [t])
  {
    DocumentScoreAppend(ix, d, terms, [t, t]);
    assert [t, t] == [t] + [t];
    DocumentScoreAppend(ix, d, [t], [t]);
  }

  // ---------------------------------------------------------------------
  // Order of the query terms

  /** Removing the same element from two permutations of each other
      leaves permutations of each other. */
  lemma RemoveMatched(s: seq<string>, t: seq<string>, j: nat)
    requires multiset(s) == multiset(t) && |s| > 0 && j < |t| && t[j] == s[0]
    ensures multiset(s[1..]) == multiset(t[..j] + t[j + 1..])
  {
    var x := s[0];
    assert t == t[..j] + ([x] + t[j + 1..]);
    assert s == [x] + s[1..];
    assert multiset(t) == multiset(t[..j]) + multiset{x} + multiset(t[j + 1..]);
    assert multiset(s) == multiset{x} + multiset(s[1..]);
    assert multiset(t[..j] + t[j + 1..]) == multiset(t[..j]) + multiset(t[j + 1..]);
    assert multiset(s[1..]) == multiset(s) - multiset{x};
  }

  lemma {:induction false} FieldScorePermutation(st: Stats, d: nat, f: string, w: real, s: seq<string>, t: seq<string>)
    requires ScorableField(st, d, f)
    requires multiset(s) == multiset(t)
    ensures FieldScore(st, d, f, w, s) == FieldScore(st, d, f, w, t)
    decreases |s|
  {
    if |s| == 0 {
      assert |t| == |multiset(t)| == 0;
    } else {
      var x := s[0];
      assert x in multiset(t);
      var j :| 0 <= j < |t| && t[j] == x;
      var rest := t[..j] + t[j + 1..];
      RemoveMatched(s, t, j);
      assert t == t[..j] + ([x] + t[j + 1..]);
      FieldScorePermutation(st, d, f, w, s[1..], rest);
      FieldScoreAppend(st, d, f, w, t[..j], [x] + t[j + 1..]);
      FieldScoreAppend(st, d, f, w, [x], t[j + 1..]);
      FieldScoreAppend(st, d, f, w, t[..j], t[j + 1..]);
    }
  }

  lemma {:induction false} FieldsScorePermutation(st: Stats, d: nat, es: seq<(string, real)>, s: seq<string>, t: seq<string>)
    requires EntriesScorable(st, d, es)
    requires multiset(s) == multiset(t)
    ensures FieldsScore(st, d, es, s) == FieldsScore(st, d, es, t)
    decreases |es|
  {
    if |es| > 0 {
      FieldScorePermutation(st, d, es[0].0, es[0].1, s, t);
      FieldsScorePermutation(st, d, es[1..], s, t);
    }
  }

  /** Reordering the query terms leaves every score unchanged. */
  lemma DocumentScorePermutation(ix: Index, d: nat, s: seq<string>, t: seq<string>)
    requires Scorable(ix) && d < ix.stats.totalDocs
    requires multiset(s) == multiset(t)
    ensures DocumentScore(ix, d, s) == DocumentScore(ix, d, t)
  {
    ScorableEntries(ix, d);
    FieldsScorePermutation(ix.stats, d, ix.weights, s, t);
  }

  lemma ScorePermutation(ix: Index, s: seq<string>, t: seq<string>)
    requires Scorable(ix)
    requires multiset(s) == multiset(t)
    ensures Score(ix, s) == Score(ix, t)
  {
    forall d: nat | d < ix.stats.totalDocs
      ensures DocumentScore(ix, d, s) == DocumentScore(ix, d, t)
    {
      DocumentScorePermutation(ix, d, s, t);
    }
  }

  // ---------------------------------------------------------------------
  // Zeros and signs

  /** Query term `t` occurs, as a substring, in field `f` of document `d`. */
  ghost predicate Occurs(st: Stats, d: nat, f: string, t: string) {
    d < |st.docs| && HasString(st.docs[d], f) && IsSubstring(t, FieldText(st.docs[d], f))
  }

  /** Some query term occurs in some weighted field of document `d`. */
  ghost predicate QueryOverlaps(ix: Index, d: nat, terms: seq<string>) {
    exists f, t :: f in Keys(ix.weights) && t in terms && Occurs(ix.stats, d, f, t)
  }

  lemma TermScoreSign(st: Stats, d: nat, f: string, w: real, t: string)
    requires ScorableField(st, d, f)
    ensures !Occurs(st, d, f, t) ==> TermScore(st, d, f, w, t) == 0.0
    ensures w >= 0.0 ==> TermScore(st, d, f, w, t) >= 0.0
    ensures w > 0.0 && Occurs(st, d, f, t) ==> TermScore(st, d, f, w, t) > 0.0
  {
    ScanCountZeroIffAbsent(FieldText(st.docs[d], f), t);
  }

  /** Some query term occurs in field `f` of document `d`. */
  ghost predicate FieldOverlaps(st: Stats, d: nat, f: string, terms: seq<string>) {
    exists t :: t in terms && Occurs(st, d, f, t)
  }

  /** Some query term occurs in the field of some entry of `es`. */
  ghost predicate EntriesOverlap(st: Stats, d: nat, es: seq<(string, real)>, terms: seq<string>) {
    exists j :: 0 <= j < |es| && FieldOverlaps(st, d, es[j].0, terms)
  }

  predicate NonNegativeWeights(es: seq<(string, real)>) {
    forall j :: 0 <= j < |es| ==> es[j].1 >= 0.0
  }

  predicate PositiveWeights(es: seq<(string, real)>) {
    forall j :: 0 <= j < |es| ==> es[j].1 > 0.0
  }

  lemma {:induction false} FieldScoreSign(st: Stats, d: nat, f: string, w: real, terms: seq<string>)
    requires ScorableField(st, d, f)
    ensures !FieldOverlaps(st, d, f, terms) ==> FieldScore(st, d, f, w, terms) == 0.0
    ensures w >= 0.0 ==> FieldScore(st, d, f, w, terms) >= 0.0
    ensures w > 0.0 ==> (FieldScore(st, d, f, w, terms) > 0.0 <==> FieldOverlaps(st, d, f, terms))
    decreases |terms|
  {
    if |terms| > 0 {
      TermScoreSign(st, d, f, w, terms[0]);
      FieldScoreSign(st, d, f, w, terms[1..]);
      assert forall t :: t in terms <==> t == terms[0] || t in terms[1..];
    }
  }

  /** Overlap splits between the first entry and the rest. */
  lemma EntriesOverlapHeadTail(st: Stats, d: nat, es: seq<(string, real)>, terms: seq<string>)
    requires |es| > 0
    ensures EntriesOverlap(st, d, es, terms) <==>
      FieldOverlaps(st, d, es[0].0, terms) || EntriesOverlap(st, d, es[1..], terms)
  {
    var tl := es[1..];
    if EntriesOverlap(st, d, es, terms) {
      var j :| 0 <= j < |es| && FieldOverlaps(st, d, es[j].0, terms);
      if j > 0 {
        assert tl[j - 1] == es[j];
      }
    }
    if EntriesOverlap(st, d, tl, terms) {
      var j :| 0 <= j < |tl| && FieldOverlaps(st, d, tl[j].0, terms);
      assert tl[j] == es[j + 1];
    }
  }

  /** The signs of the weights split between the first entry and the rest. */
  lemma WeightsHeadTail(es: seq<(string, real)>)
    requires |es| > 0
    ensures NonNegativeWeights(es) <==> es[0].1 >= 0.0 && NonNegativeWeights(es[1..])
    ensures PositiveWeights(es) <==> es[0].1 > 0.0 && PositiveWeights(es[1..])
  {
    assert forall j :: 0 <= j < |es| - 1 ==> es[1..][j] == es[j + 1];
  }

  lemma {:induction false} FieldsScoreSign(st: Stats, d: nat, es: seq<(string, real)>, terms: seq<string>)
    requires EntriesScorable(st, d, es)
    ensures !EntriesOverlap(st, d, es, terms) ==> FieldsScore(st, d, es, terms) == 0.0
    ensures NonNegativeWeights(es) ==> FieldsScore(st, d, es, terms) >= 0.0
    ensures PositiveWeights(es) ==>
      (FieldsScore(st, d, es, terms) > 0.0 <==> EntriesOverlap(st, d, es, terms))
    decreases |es|
  {
    if |es| > 0 {
      FieldScoreSign(st, d, es[0].0, es[0].1, terms);
      FieldsScoreSign(st, d, es[1..], terms);
      EntriesOverlapHeadTail(st, d, es, terms);
      WeightsHeadTail(es);
    }
  }

  /** The document-level overlap, restated over the positions of the
      weight list. */
  lemma QueryOverlapsAtEntry(ix: Index, d: nat, terms: seq<string>)
    ensures QueryOverlaps(ix, d, terms) <==> EntriesOverlap(ix.stats, d, ix.weights, terms)
  {
    var ks := Keys(ix.weights);
    if QueryOverlaps(ix, d, terms) {
      var f, t :| f in ks && t in terms && Occurs(ix.stats, d, f, t);
      var j :| 0 <= j < |ks| && ks[j] == f;
      assert FieldOverlaps(ix.stats, d, ix.weights[j].0, terms);
    }
    if EntriesOverlap(ix.stats, d, ix.weights, terms) {
      var j :| 0 <= j < |ix.weights| && FieldOverlaps(ix.stats, d, ix.weights[j].0, terms);
      var t :| t in terms && Occurs(ix.stats, d, ix.weights[j].0, t);
      assert ks[j] == ix.weights[j].0;
    }
  }

  /** A document none of whose weighted fields contains any query term
      scores exactly 0, whatever the weights. */
  lemma DocumentScoreZeroWithoutOverlap(ix: Index, d: nat, terms: seq<string>)
    requires Scorable(ix) && d < ix.stats.totalDocs
    requires !QueryOverlaps(ix, d, terms)
    ensures DocumentScore(ix, d, terms) == 0.0
  {
    ScorableEntries(ix, d);
    QueryOverlapsAtEntry(ix, d, terms);
    FieldsScoreSign(ix.stats, d, ix.weights, terms);
  }

  /** With non-negative weights no score is negative. */
  lemma DocumentScoreNonNegative(ix: Index, d: nat, terms: seq<string>)
    requires Scorable(ix) && d < ix.stats.totalDocs
    requires NonNegativeWeights(ix.weights)
    ensures DocumentScore(ix, d, terms) >= 0.0
  {
    ScorableEntries(ix, d);
    FieldsScoreSign(ix.stats, d, ix.weights, terms);
  }

  /** With positive weights a score is positive exactly when some query
      term occurs in some weighted field of the document. */
  lemma DocumentScorePositiveIffOverlap(ix: Index, d: nat, terms: seq<string>)
    requires Scorable(ix) && d < ix.stats.totalDocs
    requires PositiveWeights(ix.weights)
    ensures DocumentScore(ix, d, terms) > 0.0 <==> QueryOverlaps(ix, d, terms)
  {
    ScorableEntries(ix, d);
    QueryOverlapsAtEntry(ix, d, terms);
    FieldsScoreSign(ix.stats, d, ix.weights, terms);
  }

  // ---------------------------------------------------------------------
  // Field weights

  lemma TermScoreWeightMonotone(st: Stats, d: nat, f: string, w1: real, w2: real, t: string)
    requires ScorableField(st, d, f)
    requires w1 <= w2
    ensures TermScore(st, d, f, w1, t) <= TermScore(st, d, f, w2, t)
    ensures w1 < w2 && Occurs(st, d, f, t) ==>
      TermScore(st, d, f, w1, t) < TermScore(st, d, f, w2, t)
  {
    ScanCountZeroIffAbsent(FieldText(st.docs[d], f), t);
    ContributionWeightMonotone(w1, w2, TermFrequency(st, d, f, t), st.params.k1,
                               FieldLengthNorm(st, d, f), st.idf[f]);
  }

  /** Raising a field's weight never lowers its score, and strictly raises
      it when some query term occurs in that field. */
  lemma {:induction false} FieldScoreWeightMonotone(st: Stats, d: nat, f: string, w1: real, w2: real, terms: seq<string>)
    requires ScorableField(st, d, f)
    requires w1 <= w2
    ensures FieldScore(st, d, f, w1, terms) <= FieldScore(st, d, f, w2, terms)
    ensures w1 < w2 && (exists t :: t in terms && Occurs(st, d, f, t)) ==>
      FieldScore(st, d, f, w1, terms) < FieldScore(st, d, f, w2, terms)
    decreases |terms|
  {
    if |terms| > 0 {
      TermScoreWeightMonotone(st, d, f, w1, w2, terms[0]);
      FieldScoreWeightMonotone(st, d, f, w1, w2, terms[1..]);
      assert forall t :: t in terms <==> t == terms[0] || t in terms[1..];
    }
  }

  /** Two weight lists that name the same fields in the same order are
      scorable together. */
  lemma EntriesScorableSameFields(st: Stats, d: nat, es1: seq<(string, real)>, es2: seq<(string, real)>)
    requires EntriesScorable(st, d, es1)
    requires |es1| == |es2| && forall j :: 0 <= j < |es1| ==> es2[j].0 == es1[j].0
    ensures EntriesScorable(st, d, es2)
  {
    forall j | 0 <= j < |es2| ensures ScorableField(st, d, es2[j].0) {
      assert es2[j].0 == es1[j].0;
    }
  }

  /** `es2` names the fields of `es1` in the same order, each with a weight
      at least as large. */
  ghost predicate Raised(es1: seq<(string, real)>, es2: seq<(string, real)>) {
    |es1| == |es2| && forall j :: 0 <= j < |es1| ==> es2[j].0 == es1[j].0 && es1[j].1 <= es2[j].1
  }

  /** The tails of two raised weight lists are raised, and scorable when the
      lists are. */
  lemma RaisedTails(st: Stats, d: nat, es1: seq<(string, real)>, es2: seq<(string, real)>)
    requires EntriesScorable(st, d, es1) && Raised(es1, es2) && |es1| > 0
    ensures EntriesScorable(st, d, es2)
    ensures EntriesScorable(st, d, es1[1..]) && Raised(es1[1..], es2[1..])
  {
    EntriesScorableSameFields(st, d, es1, es2);
    forall j | 0 <= j < |es1| - 1
      ensures ScorableField(st, d, es1[1..][j].0)
      ensures es2[1..][j].0 == es1[1..][j].0 && es1[1..][j].1 <= es2[1..][j].1
    {
      assert es1[1..][j] == es1[j + 1] && es2[1..][j] == es2[j + 1];
    }
  }

  /** Raising weights entry by entry never lowers the sum over the fields. */
  lemma {:induction false} FieldsScoreWeightLe(st: Stats, d: nat, es1: seq<(string, real)>,
                                               es2: seq<(string, real)>, terms: seq<string>)
    requires EntriesScorable(st, d, es1) && Raised(es1, es2)
    ensures EntriesScorable(st, d, es2)
    ensures FieldsScore(st, d, es1, terms) <= FieldsScore(st, d, es2, terms)
    decreases |es1|
  {
    EntriesScorableSameFields(st, d, es1, es2);
    if |es1| > 0 {
      FieldScoreWeightMonotone(st, d, es1[0].0, es1[0].1, es2[0].1, terms);
      RaisedTails(st, d, es1, es2);
      FieldsScoreWeightLe(st, d, es1[1..], es2[1..], terms);
    }
  }

  /** Strictly raising the weight of an entry whose field holds a query
      term strictly raises the sum over the fields. */
  lemma {:induction false} FieldsScoreWeightLt(st: Stats, d: nat, es1: seq<(string, real)>,
                                               es2: seq<(string, real)>, terms: seq<string>, j: nat, t: string)
    requires EntriesScorable(st, d, es1) && Raised(es1, es2)
    requires j < |es1| && es1[j].1 < es2[j].1 && t in terms && Occurs(st, d, es1[j].0, t)
    ensures EntriesScorable(st, d, es2)
    ensures FieldsScore(st, d, es1, terms) < FieldsScore(st, d, es2, terms)
    decreases |es1|
  {
    FieldScoreWeightMonotone(st, d, es1[0].0, es1[0].1, es2[0].1, terms);
    RaisedTails(st, d, es1, es2);
    if j == 0 {
      FieldsScoreWeightLe(st, d, es1[1..], es2[1..], terms);
    } else {
      assert es1[1..][j - 1] == es1[j] && es2[1..][j - 1] == es2[j];
      FieldsScoreWeightLt(st, d, es1[1..], es2[1..], terms, j - 1, t);
    }
  }

  /** Raising weights entry by entry never lowers the sum over the fields,
      and strictly raises it when a strictly raised field holds a query
      term. */
  lemma FieldsScoreWeightMonotone(st: Stats, d: nat, es1: seq<(string, real)>,
                                  es2: seq<(string, real)>, terms: seq<string>)
    requires EntriesScorable(st, d, es1)
    requires |es1| == |es2|
    requires forall j :: 0 <= j < |es1| ==> es2[j].0 == es1[j].0 && es1[j].1 <= es2[j].1
    ensures EntriesScorable(st, d, es2)
    ensures FieldsScore(st, d, es1, terms) <= FieldsScore(st, d, es2, terms)
    ensures (exists j, t :: 0 <= j < |es1| && es1[j].1 < es2[j].1 && t in terms
                            && Occurs(st, d, es1[j].0, t)) ==>
      FieldsScore(st, d, es1, terms) < FieldsScore(st, d, es2, terms)
  {
    FieldsScoreWeightLe(st, d, es1, es2, terms);
    if exists j, t :: 0 <= j < |es1| && es1[j].1 < es2[j].1 && t in terms
                      && Occurs(st, d, es1[j].0, t) {
      var j, t :| 0 <= j < |es1| && es1[j].1 < es2[j].1 && t in terms
                  && Occurs(st, d, es1[j].0, t);
      FieldsScoreWeightLt(st, d, es1, es2, terms, j, t);
    }
  }

  /** The index with field `f` re-weighted to `w`. */
  function WithWeight(ix: Index, f: string, w: real): Index {
    ix.(weights := Set(ix.weights, f, w))
  }

  /** Scorability depends on the weights only through their keys. */
  lemma ScorableSameKeys(ix: Index, ix2: Index)
    requires Scorable(ix) && ix2.stats == ix.stats && Keys(ix2.weights) == Keys(ix.weights)
    ensures Scorable(ix2)
  {
  }

  /** Re-weighting a field the index already weighs keeps it scorable. */
  lemma WithWeightScorable(ix: Index, f: string, w: real)
    requires Scorable(ix) && f in Keys(ix.weights)
    ensures Keys(WithWeight(ix, f, w).weights) == Keys(ix.weights)
    ensures Scorable(WithWeight(ix, f, w))
  {
    var ix2 := WithWeight(ix, f, w);
    assert Keys(ix2.weights) == Keys(ix.weights);
    ScorableSameKeys(ix, ix2);
  }

  lemma WithWeightEntries(ix: Index, f: string, w: real, d: nat)
    requires Scorable(ix) && d < ix.stats.totalDocs
    requires f in Keys(ix.weights) && Get(ix.weights, f).value <= w
    ensures Scorable(WithWeight(ix, f, w))
    ensures EntriesScorable(ix.stats, d, ix.weights)
    ensures Raised(ix.weights, WithWeight(ix, f, w).weights)
    ensures |WithWeight(ix, f, w).weights| == |ix.weights|
    ensures forall j :: 0 <= j < |ix.weights| ==>
      && WithWeight(ix, f, w).weights[j].0 == ix.weights[j].0
      && ix.weights[j].1 <= WithWeight(ix, f, w).weights[j].1
      && (ix.weights[j].0 == f ==> WithWeight(ix, f, w).weights[j].1 == w && ix.weights[j].1 == Get(ix.weights, f).value)
  {
    WithWeightScorable(ix, f, w);
    ScorableEntries(ix, d);
    forall j | 0 <= j < |ix.weights| && ix.weights[j].0 == f
      ensures ix.weights[j].1 == Get(ix.weights, f).value
    {
    }
  }

  /** Raising one field's weight never lowers any document's score, and
      strictly raises the score of a document in whose field `f` some query
      term occurs. */
  lemma DocumentScoreWeightMonotone(ix: Index, f: string, w: real, d: nat, terms: seq<string>)
    requires Scorable(ix) && d < ix.stats.totalDocs
    requires f in Keys(ix.weights) && Get(ix.weights, f).value <= w
    ensures Scorable(WithWeight(ix, f, w))
    ensures DocumentScore(ix, d, terms) <= DocumentScore(WithWeight(ix, f, w), d, terms)
    ensures Get(ix.weights, f).value < w && (exists t :: t in terms && Occurs(ix.stats, d, f, t)) ==>
      DocumentScore(ix, d, terms) < DocumentScore(WithWeight(ix, f, w), d, terms)
  {
    var ix2 := WithWeight(ix, f, w);
    WithWeightEntries(ix, f, w, d);
    FieldsScoreWeightLe(ix.stats, d, ix.weights, ix2.weights, terms);
    if Get(ix.weights, f).value < w && exists t :: t in terms && Occurs(ix.stats, d, f, t) {
      var t :| t in terms && Occurs(ix.stats, d, f, t);
      var j :| 0 <= j < |ix.weights| && ix.weights[j].0 == f;
      FieldsScoreWeightLt(ix.stats, d, ix.weights, ix2.weights, terms, j, t);
    }
  }
}
