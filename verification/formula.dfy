/** The real-valued parts of BM25F: the smoothed inverse document
    frequency, the length normalisation factor and the saturated per-term
    contribution.  Float arithmetic is modelled by exact reals and Math.log
    by any function that behaves like a logarithm where it matters here. */
module Formula {

  /** The properties of `Math.log` that the IDF needs: ln 1 = 0 and ln is
      strictly increasing on the positive reals. */
  ghost predicate IsLog(log: real -> real) {
    && log(1.0) == 0.0
    && forall x, y :: 0.0 < x < y ==> log(x) < log(y)
  }

  /** The argument of the logarithm in the IDF of a field that is non-empty
      in `df` of `n` documents: (n - df + 0.5) / (df + 0.5) + 1. */
  function IdfArg(n: nat, df: nat): (a: real)
    requires df <= n
    ensures a > 1.0
  {
    (n as real - df as real + 0.5) / (df as real + 0.5) + 1.0
  }

  /** The more documents carry a field, the smaller its IDF argument. */
  lemma IdfArgDecreasing(n: nat, df1: nat, df2: nat)
    requires df1 < df2 <= n
    ensures IdfArg(n, df2) < IdfArg(n, df1)
  {
    var x1 := n as real - df1 as real + 0.5;
    var x2 := n as real - df2 as real + 0.5;
    var y1 := df1 as real + 0.5;
    var y2 := df2 as real + 0.5;
    assert x2 < x1 && y1 < y2 && 0.0 < x2 && 0.0 < y1;
    assert x2 / y2 < x1 / y2 by {
      assert x2 / y2 * y2 == x2;
      assert x1 / y2 * y2 == x1;
    }
    assert x1 / y2 <= x1 / y1 by {
      assert x1 / y2 * y2 == x1;
      assert x1 / y1 * y1 == x1;
      assert x1 / y1 * y2 >= x1 / y1 * y1;
    }
  }

  /** The smoothed IDF ln((N - df + 0.5) / (df + 0.5) + 1) is positive,
      even for a field that every document carries. */
  function Idf(n: nat, df: nat, log: real -> real): (idf: real)
    requires df <= n
    requires IsLog(log)
    ensures idf > 0.0
  {
    log(IdfArg(n, df))
  }

  lemma IdfDecreasing(n: nat, df1: nat, df2: nat, log: real -> real)
    requires df1 < df2 <= n
    requires IsLog(log)
    ensures Idf(n, df2, log) < Idf(n, df1, log)
  {
    IdfArgDecreasing(n, df1, df2);
  }

  /** The field length normalisation 1 - b + b * len / avg. */
  function Norm(b: real, len: nat, avg: real): (norm: real)
    requires 0.0 <= b <= 1.0
    requires avg > 0.0
    ensures norm >= 1.0 - b
    ensures len as real == avg ==> norm == 1.0
    ensures b < 1.0 || len > 0 ==> norm > 0.0
  {
    assert len as real / avg >= 0.0;
    assert len > 0 ==> len as real / avg > 0.0;
    1.0 - b + b * (len as real / avg)
  }

  /** Longer fields are normalised more strongly. */
  lemma NormMonotone(b: real, len1: nat, len2: nat, avg: real)
    requires 0.0 <= b <= 1.0
    requires avg > 0.0
    requires len1 <= len2
    ensures Norm(b, len1, avg) <= Norm(b, len2, avg)
  {
    var x1 := len1 as real / avg;
    var x2 := len2 as real / avg;
    assert x1 <= x2 by {
      assert x1 * avg == len1 as real;
      assert x2 * avg == len2 as real;
      assert (x2 - x1) * avg == (len2 - len1) as real >= 0.0;
    }
    assert b * x2 - b * x1 == b * (x2 - x1);
    assert b * (x2 - x1) >= 0.0;
  }

  /** The saturated term frequency tf * (k1 + 1) / (tf + k1 * norm); the
      denominator is non-zero unless tf = 0 and norm = 0, where
      `calculate_document_score` divides zero by zero. */
  function Saturation(tf: nat, k1: real, norm: real): (s: real)
    requires k1 > 0.0 && norm >= 0.0
    requires tf > 0 || norm > 0.0
    ensures tf == 0 ==> s == 0.0
    ensures tf > 0 ==> 0.0 < s
    ensures norm > 0.0 ==> s < k1 + 1.0
  {
    var num := tf as real * (k1 + 1.0);
    var den := tf as real + k1 * norm;
    assert den > 0.0;
    assert norm > 0.0 ==> num < (k1 + 1.0) * den by {
      if norm > 0.0 {
        assert (k1 + 1.0) * den == num + (k1 + 1.0) * (k1 * norm);
        assert (k1 + 1.0) * (k1 * norm) > 0.0;
      }
    }
    assert norm > 0.0 ==> num / den < k1 + 1.0 by {
      if norm > 0.0 {
        QuotientBelow(num, den, k1 + 1.0);
      }
    }
    num / den
  }

  lemma QuotientBelow(a: real, d: real, c: real)
    requires d > 0.0 && a < c * d
    ensures a / d < c
  {
    var q := a / d;
    assert q * d == a;
    if q >= c {
      assert q * d >= c * d;
    }
  }

  lemma ScaledBelow(w: real, s: real, m: real, idf: real)
    ensures w > 0.0 && idf > 0.0 && s < m ==> w * (s * idf) < w * m * idf
  {
    if w > 0.0 && idf > 0.0 && s < m {
      assert s * idf < m * idf;
      assert w * (s * idf) < w * (m * idf);
    }
  }

  /** More occurrences never lower the saturated frequency. */
  lemma SaturationIncreasing(tf1: nat, tf2: nat, k1: real, norm: real)
    requires k1 > 0.0 && norm > 0.0
    requires tf1 < tf2
    ensures Saturation(tf1, k1, norm) < Saturation(tf2, k1, norm)
  {
    var c := k1 * norm;
    var d1 := tf1 as real + c;
    var d2 := tf2 as real + c;
    assert c > 0.0;
    var s1 := tf1 as real * (k1 + 1.0) / d1;
    var s2 := tf2 as real * (k1 + 1.0) / d2;
    assert s1 * d1 == tf1 as real * (k1 + 1.0);
    assert s2 * d2 == tf2 as real * (k1 + 1.0);
    assert tf1 as real * d2 < tf2 as real * d1 by {
      assert tf1 as real * d2 == tf1 as real * tf2 as real + tf1 as real * c;
      assert tf2 as real * d1 == tf1 as real * tf2 as real + tf2 as real * c;
      assert tf1 as real * c < tf2 as real * c;
    }
    assert s1 * d1 * d2 < s2 * d2 * d1 by {
      assert s1 * d1 * d2 == (k1 + 1.0) * (tf1 as real * d2);
      assert s2 * d2 * d1 == (k1 + 1.0) * (tf2 as real * d1);
    }
  }

  /** The summand of `calculate_document_score` for one field and one
      query term: weight * (saturation * idf). */
  function Contribution(weight: real, tf: nat, k1: real, norm: real, idf: real): (c: real)
    requires k1 > 0.0 && norm >= 0.0
    requires tf > 0 || norm > 0.0
    ensures tf == 0 ==> c == 0.0
    ensures weight >= 0.0 && idf >= 0.0 ==> c >= 0.0
    ensures tf > 0 && weight > 0.0 && idf > 0.0 ==> c > 0.0
    ensures tf > 0 && weight > 0.0 && idf > 0.0 && norm > 0.0 ==> c < weight * (k1 + 1.0) * idf
  {
    var s := Saturation(tf, k1, norm);
    assert weight >= 0.0 && idf >= 0.0 ==> s * idf >= 0.0 && weight * (s * idf) >= 0.0;
    assert tf > 0 && weight > 0.0 && idf > 0.0 ==> s * idf > 0.0 && weight * (s * idf) > 0.0;
    ScaledBelow(weight, s, k1 + 1.0, idf);
    weight * (s * idf)
  }

  /** A larger weight never gives a smaller contribution, and gives a
      strictly larger one for a term that occurs. */
  lemma ContributionWeightMonotone(w1: real, w2: real, tf: nat, k1: real, norm: real, idf: real)
    requires k1 > 0.0 && norm >= 0.0
    requires tf > 0 || norm > 0.0
    requires idf >= 0.0 && w1 <= w2
    ensures Contribution(w1, tf, k1, norm, idf) <= Contribution(w2, tf, k1, norm, idf)
    ensures w1 < w2 && tf > 0 && idf > 0.0 ==>
      Contribution(w1, tf, k1, norm, idf) < Contribution(w2, tf, k1, norm, idf)
  {
    var x := Saturation(tf, k1, norm) * idf;
    assert Contribution(w1, tf, k1, norm, idf) == w1 * x;
    assert Contribution(w2, tf, k1, norm, idf) == w2 * x;
    assert x >= 0.0;
    assert tf > 0 && idf > 0.0 ==> x > 0.0;
    assert w2 * x - w1 * x == (w2 - w1) * x;
    assert (w2 - w1) * x >= 0.0;
    assert w1 < w2 && x > 0.0 ==> (w2 - w1) * x > 0.0;
  }
}
