/** `String#scan(term).count` with a String pattern, as
    `field_term_frequency` uses it: i.e. the number of non-overlapping occurrences of
    `term` found by a left-to-right search that resumes after each match.
    An empty pattern matches at every position, |text| + 1 times. */
module Scan {

  /** `pat` occurs somewhere in `text` as a contiguous substring. */
  predicate IsSubstring(pat: string, text: string) {
    exists i | 0 <= i <= |text| :: MatchesAt(pat, text, i)
  }

  /** `pat` occurs in `text` starting at position `i`. */
  predicate MatchesAt(pat: string, text: string, i: int) {
    0 <= i && i + |pat| <= |text| && text[i..i + |pat|] == pat
  }

  /** `text.scan(pat).count`, as described above. */
  function ScanCount(text: string, pat: string): (n: nat)
    decreases |text|
  {
    if |pat| == 0 then |text| + 1
    else if |text| < |pat| then 0
    else if text[..|pat|] == pat then 1 + ScanCount(text[|pat|..], pat)
    else ScanCount(text[1..], pat)
  }

  /** The matches counted do not overlap, so together they fit in the text. */
  lemma {:induction false} ScanCountBound(text: string, pat: string)
    requires |pat| > 0
    ensures ScanCount(text, pat) * |pat| <= |text|
    decreases |text|
  {
    if |text| < |pat| {
      assert ScanCount(text, pat) == 0;
    } else if text[..|pat|] == pat {
      var rest := ScanCount(text[|pat|..], pat);
      ScanCountBound(text[|pat|..], pat);
      assert ScanCount(text, pat) == 1 + rest;
      MultiplySucc(rest, |pat|, |text|);
    } else {
      ScanCountBound(text[1..], pat);
      assert ScanCount(text, pat) == ScanCount(text[1..], pat);
    }
  }

  /** One more match of length `p` fits when the others fit in `l - p`. */
  lemma MultiplySucc(r: nat, p: nat, l: int)
    requires r * p <= l - p
    ensures (1 + r) * p <= l
  {
    assert (1 + r) * p == p + r * p;
  }

  /** Dropping the first character of the text shifts every match one
      position to the left. */
  lemma MatchesAtTail(text: string, pat: string, j: nat)
    requires |text| > 0
    ensures MatchesAt(pat, text[1..], j) <==> MatchesAt(pat, text, j + 1)
  {
    if j + 1 + |pat| <= |text| {
      assert text[1..][j..j + |pat|] == text[j + 1..j + 1 + |pat|];
    }
  }

  /** Without a match at the front, the search moves on by one character. */
  lemma ScanCountNoMatchAtFront(text: string, pat: string)
    requires |pat| > 0 && |text| > 0 && !MatchesAt(pat, text, 0)
    ensures ScanCount(text, pat) == ScanCount(text[1..], pat)
  {
    if |text| >= |pat| {
      assert text[..|pat|] == text[0..0 + |pat|];
    }
  }

  /** A term has frequency 0 in a text exactly when it does not occur in it
      (the empty term occurs everywhere). */
  lemma {:induction false} ScanCountZeroIffAbsent(text: string, pat: string)
    ensures ScanCount(text, pat) == 0 <==> !IsSubstring(pat, text)
    decreases |text|
  {
    if |pat| == 0 {
      assert MatchesAt(pat, text, 0);
    } else if |text| < |pat| {
    } else if MatchesAt(pat, text, 0) {
      assert text[..|pat|] == text[0..0 + |pat|];
    } else {
      var tail := text[1..];
      ScanCountZeroIffAbsent(tail, pat);
      ScanCountNoMatchAtFront(text, pat);
      if IsSubstring(pat, text) {
        var i :| 0 <= i <= |text| && MatchesAt(pat, text, i);
        MatchesAtTail(text, pat, i - 1);
      }
      if IsSubstring(pat, tail) {
        var i :| 0 <= i <= |tail| && MatchesAt(pat, tail, i);
        MatchesAtTail(text, pat, i);
      }
    }
  }

  /** A term containing a character the text lacks has frequency 0. */
  lemma ScanCountZeroWithoutChar(text: string, pat: string, k: nat)
    requires k < |pat| && pat[k] !in text
    ensures ScanCount(text, pat) == 0
  {
    ScanCountZeroIffAbsent(text, pat);
    forall i | 0 <= i <= |text| ensures !MatchesAt(pat, text, i) {
      if i + |pat| <= |text| {
        assert text[i..i + |pat|][k] == text[i + k];
        assert text[i + k] in text;
      }
    }
  }

  /** A mismatch at the front moves the search on by one character. */
  lemma ScanCountSkip(text: string, pat: string, k: nat)
    requires k < |pat| <= |text| && text[k] != pat[k]
    ensures ScanCount(text, pat) == ScanCount(text[1..], pat)
  {
    assert text[..|pat|][k] == text[k];
  }

  /** The search passes over a stretch of the text in which the term's first
      character does not appear without counting anything. */
  lemma {:induction false} ScanCountSkipTo(text: string, pat: string, j: nat)
    requires |pat| > 0 && j <= |text| && pat[0] !in text[..j]
    ensures ScanCount(text, pat) == ScanCount(text[j..], pat)
    decreases j
  {
    if j > 0 {
      assert text[0] == text[..j][0];
      assert text[1..][..j - 1] == text[..j][1..];
      ScanCountSkipTo(text[1..], pat, j - 1);
      assert text[1..][j - 1..] == text[j..];
      if |text| >= |pat| {
        ScanCountSkip(text, pat, 0);
      }
    }
  }

  /** When no match starts before `i`, the search reaches `i`, counts the
      match there and resumes after it. */
  lemma {:induction false} ScanCountFromMatch(text: string, pat: string, i: nat)
    requires |pat| > 0 && MatchesAt(pat, text, i)
    requires forall j :: 0 <= j < i ==> !MatchesAt(pat, text, j)
    ensures ScanCount(text, pat) == 1 + ScanCount(text[i + |pat|..], pat)
    decreases i
  {
    if i == 0 {
      assert text[..|pat|] == text[0..0 + |pat|];
    } else {
      var tail := text[1..];
      ScanCountNoMatchAtFront(text, pat);
      forall j | 0 <= j < i - 1
        ensures !MatchesAt(pat, tail, j)
      {
        MatchesAtTail(text, pat, j);
      }
      MatchesAtTail(text, pat, i - 1);
      ScanCountFromMatch(tail, pat, i - 1);
      ScanCountTailSuffix(text, pat, i);
    }
  }

  /** The count of the rest after a match, seen from the text without its
      first character. */
  lemma ScanCountTailSuffix(text: string, pat: string, i: nat)
    requires 0 < i && i + |pat| <= |text|
    requires ScanCount(text, pat) == ScanCount(text[1..], pat)
    requires ScanCount(text[1..], pat) == 1 + ScanCount(text[1..][i - 1 + |pat|..], pat)
    ensures ScanCount(text, pat) == 1 + ScanCount(text[i + |pat|..], pat)
  {
    assert text[1..][i - 1 + |pat|..] == text[i + |pat|..];
  }

  /** If the text up to (not including) the last character of a match at
      `i` holds no occurrence, the match at `i` is the first one counted:
      the count is one more than the count of the rest after it. */
  lemma ScanCountFirstMatch(text: string, pat: string, i: nat)
    requires |pat| > 0 && MatchesAt(pat, text, i)
    requires ScanCount(text[..i + |pat| - 1], pat) == 0
    ensures ScanCount(text, pat) == 1 + ScanCount(text[i + |pat|..], pat)
  {
    var prefix := text[..i + |pat| - 1];
    ScanCountZeroIffAbsent(prefix, pat);
    forall j | 0 <= j < i
      ensures !MatchesAt(pat, text, j)
    {
      if MatchesAt(pat, text, j) {
        assert prefix[j..j + |pat|] == text[j..j + |pat|];
        assert MatchesAt(pat, prefix, j);
      }
    }
    ScanCountFromMatch(text, pat, i);
  }

  /** A term occurs exactly once in `a + pat + z` when its first character
      is not in `a` and some character of it is not in `z`. */
  lemma ScanCountOnceBetween(text: string, a: string, pat: string, z: string, k: nat)
    requires text == a + pat + z && |pat| > 0
    requires pat[0] !in a && k < |pat| && pat[k] !in z
    ensures ScanCount(text, pat) == 1
  {
    var i := |a|;
    assert text[..i] == a && text[i..i + |pat|] == pat && text[i + |pat|..] == z;
    ScanCountSkipTo(text, pat, i);
    var r := text[i..];
    assert r[..|pat|] == pat && r[|pat|..] == z;
    ScanCountZeroWithoutChar(z, pat, k);
  }

  /** The left-to-right search of String#scan, written as a loop over a
      cursor into the text. */
  method CountOccurrences(text: string, term: string) returns (n: nat)
    ensures n == ScanCount(text, term)
  {
    if |term| == 0 {
      return |text| + 1;
    }
    n := 0;
    var i := 0;
    while i + |term| <= |text|
      invariant 0 <= i <= |text|
      invariant n + ScanCount(text[i..], term) == ScanCount(text, term)
      decreases |text| - i
    {
      if text[i..i + |term|] == term {
        assert term <= text[i..];
        assert text[i..][|term|..] == text[i + |term|..];
        n := n + 1;
        i := i + |term|;
      } else {
        assert !(term <= text[i..]);
        assert text[i..][1..] == text[i + 1..];
        i := i + 1;
      }
    }
  }

  /** The number of possibly overlapping occurrences: every start position
      at which `pat` matches. `String#scan` does not count these. */
  function OverlapCount(text: string, pat: string): nat
    requires |pat| > 0
    decreases |text|
  {
    if |text| < |pat| then 0
    else (if pat <= text then 1 else 0) + OverlapCount(text[1..], pat)
  }

  lemma {:induction false} OverlapCountSuffix(text: string, pat: string, k: nat)
    requires |pat| > 0 && k <= |text|
    ensures OverlapCount(text[k..], pat) <= OverlapCount(text, pat)
    decreases k
  {
    if k > 0 {
      assert text[k..] == text[1..][k - 1..];
      OverlapCountSuffix(text[1..], pat, k - 1);
    }
  }

  /** Non-overlapping matches never outnumber overlapping ones. */
  lemma {:induction false} ScanCountAtMostOverlapCount(text: string, pat: string)
    requires |pat| > 0
    ensures ScanCount(text, pat) <= OverlapCount(text, pat)
    decreases |text|
  {
    if |text| < |pat| {
    } else if pat <= text {
      ScanCountAtMostOverlapCount(text[|pat|..], pat);
      assert text[|pat|..] == text[1..][|pat| - 1..];
      OverlapCountSuffix(text[1..], pat, |pat| - 1);
    } else {
      ScanCountAtMostOverlapCount(text[1..], pat);
    }
  }

  /** The two counts differ: "aa" occurs once in "aaa" for String#scan but
      at two start positions. */
  lemma NonOverlappingExample()
    ensures ScanCount("aaa", "aa") == 1
    ensures OverlapCount("aaa", "aa") == 2
  {
    assert "aa" <= "aaa";
    assert "aaa"[2..] == "a";
    assert "aaa"[1..] == "aa";
    assert "aa"[1..] == "a";
  }
}
