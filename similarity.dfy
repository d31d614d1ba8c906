/**
 * `calculateSimilarity`: edit distance normalised by the length of the
 * longer of the two normalised strings.
 */
module TextSimilarity {
  import opened TextNorm
  import opened Numbers
  import opened Levenshtein

  /** The similarity score of two strings, exactly as a ratio. */
  function Similarity(str1: string, str2: string): real {
    Ratio(Normalize(str1), Normalize(str2))
  }

  /** The score of two already normalised strings. When both have the same
      length the first is taken as the shorter one. */
  function Ratio(s1: string, s2: string): real {
    if s1 == s2 then 1.0
    else
      var longer := if |s1| > |s2| then s1 else s2;
      var shorter := if |s1| > |s2| then s2 else s1;
      if |longer| == 0 then 1.0
      else
        DistanceBounds(shorter, longer);
        Fraction(|longer| - Distance(shorter, longer), |longer|)
  }

  /** n / L as an exact ratio, for 0 <= n <= L. */
  function Fraction(n: nat, L: nat): (q: real)
    requires 0 < L && n <= L
    ensures 0.0 <= q <= 1.0
    ensures q == 1.0 <==> n == L
  {
    n as real / L as real
  }

  /** The ratio when the first string is the longer one. */
  lemma RatioFirstLonger(s1: string, s2: string)
    requires s1 != s2 && |s1| > |s2|
    ensures Distance(s1, s2) <= |s1|
    ensures Ratio(s1, s2) == Fraction(|s1| - Distance(s1, s2), |s1|)
  {
    DistanceBounds(s1, s2);
    DistanceSymmetric(s1, s2);
  }

  /** The ratio when the second string is at least as long as the first. */
  lemma RatioSecondLonger(s1: string, s2: string)
    requires s1 != s2 && |s1| <= |s2|
    ensures |s2| > 0 && Distance(s1, s2) <= |s2|
    ensures Ratio(s1, s2) == Fraction(|s2| - Distance(s1, s2), |s2|)
  {
    DistanceBounds(s1, s2);
    assert |s2| == 0 ==> s1 == s2;
  }

  /** For different strings the ratio is (L - d) / L, with L the longer
      length and d the edit distance (the first string counts as the shorter
      one on a tie, which the symmetry of the distance makes immaterial). */
  lemma RatioValue(s1: string, s2: string)
    requires s1 != s2
    ensures Max(|s1|, |s2|) > 0 && Distance(s1, s2) < Max(|s1|, |s2|) + 1
    ensures Ratio(s1, s2) == Fraction(Max(|s1|, |s2|) - Distance(s1, s2), Max(|s1|, |s2|))
  {
    DistanceBounds(s1, s2);
    if |s1| > |s2| {
      assert Max(|s1|, |s2|) == |s1|;
      RatioFirstLonger(s1, s2);
    } else {
      assert Max(|s1|, |s2|) == |s2|;
      RatioSecondLonger(s1, s2);
    }
  }

  /** The ratio lies in [0, 1] and is 1 exactly for equal strings. */
  lemma RatioRange(s1: string, s2: string)
    ensures 0.0 <= Ratio(s1, s2) <= 1.0
    ensures Ratio(s1, s2) == 1.0 <==> s1 == s2
  {
    if s1 != s2 {
      RatioValue(s1, s2);
      DistanceZeroIff(s1, s2);
    }
  }

  /** The score is 1 for strings that normalise to the same text; otherwise it
      is (L - d) / L over the normalised strings. It lies in [0, 1] and is
      below 1 whenever the normalised strings differ. */
  lemma SimilarityValue(str1: string, str2: string)
    ensures var s1, s2 := Normalize(str1), Normalize(str2);
      s1 != s2 ==> Distance(s1, s2) <= Max(|s1|, |s2|) && Similarity(str1, str2) == Fraction(Max(|s1|, |s2|) - Distance(s1, s2), Max(|s1|, |s2|))
    ensures 0.0 <= Similarity(str1, str2) <= 1.0
    ensures Similarity(str1, str2) == 1.0 <==> Normalize(str1) == Normalize(str2)
  {
    var s1, s2 := Normalize(str1), Normalize(str2);
    if s1 != s2 {
      RatioValue(s1, s2);
    }
    RatioRange(s1, s2);
  }

  /** The score does not depend on the order of the two strings. */
  lemma SimilaritySymmetric(str1: string, str2: string)
    ensures Similarity(str1, str2) == Similarity(str2, str1)
  {
    var s1, s2 := Normalize(str1), Normalize(str2);
    if s1 != s2 {
      RatioValue(s1, s2);
      RatioValue(s2, s1);
      DistanceSymmetric(s1, s2);
      assert Max(|s1|, |s2|) == Max(|s2|, |s1|);
    }
  }

  /** Every string has score 1 against itself. */
  lemma SimilarityReflexive(s: string)
    ensures Similarity(s, s) == 1.0
  {
  }

  /** `calculateSimilarity(str1, str2)`, computing the distance with the
      rolling-array method. */
  method CalculateSimilarity(str1: string, str2: string) returns (r: real)
    ensures r == Similarity(str1, str2)
  {
    var s1 := Normalize(str1);
    var s2 := Normalize(str2);
    assert Similarity(str1, str2) == Ratio(s1, s2);
    if s1 == s2 {
      return 1.0;
    }
    var longer := if |s1| > |s2| then s1 else s2;
    var shorter := if |s1| > |s2| then s2 else s1;
    if |longer| == 0 {
      return 1.0;
    }
    var editDistance := LevenshteinDistance(shorter, longer);
    DistanceBounds(shorter, longer);
    r := Fraction(|longer| - editDistance, |longer|);
  }
}
