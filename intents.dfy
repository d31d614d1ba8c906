/**
 * The chatbot's intent engine (`findResponse` and `getContextualSuggestions`):
 * the response catalogue, the weighted keyword patterns, whole-word
 * matching, the two selection stages and the fixed fallback.
 */
module Intents {
  import opened Wrappers
  import opened TextNorm
  import opened TextSimilarity

  /** The keys of `botResponses`. */
  datatype Key = Greeting | About | Usecase | How | Models | Features | Start | Tech
               | Accuracy | Troubleshoot | Tips | System

  /** The key's own text, which the similarity fallback compares against. */
  function Name(k: Key): string {
    match k
    case Greeting => "greeting"
    case About => "about"
    case Usecase => "usecase"
    case How => "how"
    case Models => "models"
    case Features => "features"
    case Start => "start"
    case Tech => "tech"
    case Accuracy => "accuracy"
    case Troubleshoot => "troubleshoot"
    case Tips => "tips"
    case System => "system"
  }

  /** The keys in the object's insertion order, the order `for ... in` visits them. */
  const Keys: seq<Key> :=
    [Greeting, About, Usecase, How, Models, Features, Start, Tech, Accuracy, Troubleshoot, Tips, System]

  /** How many response variants each key has. */
  function VariantCount(k: Key): nat {
    if k == Greeting then 3 else 2
  }

  /** What `findResponse` returns: variant `index` of `botResponses[key]`, or
      the fixed fallback text. The response texts themselves are opaque. */
  datatype Response = Variant(key: Key, index: nat) | Fallback

  predicate ValidResponse(r: Response) {
    r.Variant? ==> r.index < VariantCount(r.key)
  }

  /** A pattern `\b(alt1|alt2|...)\b` with its key and its weight times 100. */
  datatype Pattern = Pattern(alternatives: seq<string>, key: Key, weight: nat)

  const Patterns: seq<Pattern> := [
    Pattern(["hello", "hi", "hey", "greetings", "sup", "yo"], Greeting, 90),
    Pattern(["what is", "tell me about", "about", "project", "this", "system"], About, 95),
    Pattern(["use case", "usecase", "application", "where", "purpose", "benefit", "help"], Usecase, 92),
    Pattern(["how", "work", "process", "function", "operate", "explain"], How, 90),
    Pattern(["model", "models", "available", "choose", "type", "which"], Models, 95),
    Pattern(["feature", "features", "capability", "can you", "what can", "ability"], Features, 88),
    Pattern(["start", "begin", "get started", "how to use", "guide", "tutorial", "first"], Start, 93),
    Pattern(["technology", "tech", "stack", "python", "react", "tensorflow", "backend", "frontend"], Tech, 91),
    Pattern(["accu", "precise", "accurate", "confident", "error", "mistake"], Accuracy, 89),
    Pattern(["problem", "issue", "trouble", "help", "error", "bug", "fix"], Troubleshoot, 85),
    Pattern(["tip", "trick", "hint", "advice", "better", "improve", "optimize"], Tips, 88),
    Pattern(["status", "info", "current", "now", "system", "state"], System, 80)
  ]

  /** The similarity a key must strictly exceed, 0.4. */
  const Threshold: real := 0.4

  // ---------------------------------------------------------------------------
  // Whole-word matching
  // ---------------------------------------------------------------------------

  /** `w[k..]` occurs in `msg` at position `i + k`, compared character by character. */
  predicate MatchesFrom(msg: string, w: string, i: nat, k: nat)
    decreases |w| - k
  {
    k >= |w| || (i + k < |msg| && msg[i + k] == w[k] && MatchesFrom(msg, w, i, k + 1))
  }

  /** `w` occurs at position `i` and neither neighbour is a word character. */
  predicate WholeWordAt(msg: string, w: string, i: nat) {
    && i + |w| <= |msg|
    && MatchesFrom(msg, w, i, 0)
    && (i == 0 || !IsWordChar(msg[i - 1]))
    && (i + |w| == |msg| || !IsWordChar(msg[i + |w|]))
  }

  /** Some position at or after `i` holds a whole-word occurrence of `w`. */
  predicate WholeWordFrom(msg: string, w: string, i: nat)
    decreases |msg| - i
  {
    i + |w| <= |msg| && (WholeWordAt(msg, w, i) || WholeWordFrom(msg, w, i + 1))
  }

  /** Some alternative from index `k` on occurs as a whole word. */
  predicate AnyAlternativeFrom(msg: string, alts: seq<string>, k: nat)
    decreases |alts| - k
  {
    k < |alts| && (WholeWordFrom(msg, alts[k], 0) || AnyAlternativeFrom(msg, alts, k + 1))
  }

  /** `pattern.regex.test(msg)`. */
  predicate Fires(p: Pattern, msg: string) {
    AnyAlternativeFrom(msg, p.alternatives, 0)
  }

  // ---------------------------------------------------------------------------
  // The regular-expression reading of a pattern, and its agreement with Fires
  // ---------------------------------------------------------------------------

  /** `\b` at position `i`: exactly one of the two characters around it is a word character. */
  predicate WordBoundary(msg: string, i: int)
    requires 0 <= i <= |msg|
  {
    (i > 0 && IsWordChar(msg[i - 1])) != (i < |msg| && IsWordChar(msg[i]))
  }

  /** The regular expression `\bw\b` matches at position `i`. */
  predicate RegexMatchAt(msg: string, w: string, i: int) {
    0 <= i && i + |w| <= |msg| && msg[i..i + |w|] == w
    && WordBoundary(msg, i) && WordBoundary(msg, i + |w|)
  }

  /** `/\b(alt1|alt2|...)\b/.test(msg)`: some alternative matches, with word
      boundaries, at some position. */
  ghost predicate RegexTest(alts: seq<string>, msg: string) {
    exists k, i :: 0 <= k < |alts| && RegexMatchAt(msg, alts[k], i)
  }

  /** An alternative that starts and ends with a word character, as every
      alternative of the table does. */
  predicate WordLike(w: string) {
    |w| > 0 && IsWordChar(w[0]) && IsWordChar(w[|w| - 1])
  }

  lemma {:induction false} MatchesFromSpec(msg: string, w: string, i: nat, k: nat)
    requires i + |w| <= |msg| && k <= |w|
    ensures MatchesFrom(msg, w, i, k) <==> msg[i + k..i + |w|] == w[k..]
    decreases |w| - k
  {
    if k < |w| {
      MatchesFromSpec(msg, w, i, k + 1);
      assert msg[i + k..i + |w|] == [msg[i + k]] + msg[i + k + 1..i + |w|];
      assert w[k..] == [w[k]] + w[k + 1..];
    }
  }

  /** For a word-like alternative, the boundary tests of WholeWordAt are the
      regular expression's `\b` on both sides. */
  lemma WholeWordAtIsRegexMatch(msg: string, w: string, i: nat)
    requires WordLike(w)
    ensures WholeWordAt(msg, w, i) <==> RegexMatchAt(msg, w, i)
  {
    if i + |w| <= |msg| {
      MatchesFromSpec(msg, w, i, 0);
      if msg[i..i + |w|] == w {
        assert msg[i] == w[0] && msg[i + |w| - 1] == w[|w| - 1];
      }
    }
  }

  lemma {:induction false} WholeWordFromSpec(msg: string, w: string, i: nat)
    ensures WholeWordFrom(msg, w, i) <==> exists j: nat :: i <= j && WholeWordAt(msg, w, j)
    decreases |msg| - i
  {
    if i + |w| <= |msg| {
      WholeWordFromSpec(msg, w, i + 1);
      if exists j: nat :: i <= j && WholeWordAt(msg, w, j) {
        var j: nat :| i <= j && WholeWordAt(msg, w, j);
        assert j == i || (i + 1 <= j && WholeWordAt(msg, w, j));
      }
    }
  }

  lemma {:induction false} AnyAlternativeFromSpec(msg: string, alts: seq<string>, k: nat)
    ensures AnyAlternativeFrom(msg, alts, k) <==> exists m :: k <= m < |alts| && WholeWordFrom(msg, alts[m], 0)
    decreases |alts| - k
  {
    if k < |alts| {
      AnyAlternativeFromSpec(msg, alts, k + 1);
    }
  }

  /** A pattern fires exactly when its regular expression matches, provided
      its alternatives are word-like. */
  lemma FiresIsRegexTest(p: Pattern, msg: string)
    requires forall k :: 0 <= k < |p.alternatives| ==> WordLike(p.alternatives[k])
    ensures Fires(p, msg) <==> RegexTest(p.alternatives, msg)
  {
    var alts := p.alternatives;
    AnyAlternativeFromSpec(msg, alts, 0);
    if Fires(p, msg) {
      var m :| 0 <= m < |alts| && WholeWordFrom(msg, alts[m], 0);
      WholeWordFromSpec(msg, alts[m], 0);
      var j: nat :| WholeWordAt(msg, alts[m], j);
      WholeWordAtIsRegexMatch(msg, alts[m], j);
    }
    if RegexTest(alts, msg) {
      var m, j :| 0 <= m < |alts| && RegexMatchAt(msg, alts[m], j);
      WholeWordAtIsRegexMatch(msg, alts[m], j);
      WholeWordFromSpec(msg, alts[m], 0);
    }
  }

  /** The pattern indices, one by one. */
  lemma PatternIndex(j: int)
    requires 0 <= j < |Patterns|
    ensures j == 0 || j == 1 || j == 2 || j == 3 || j == 4 || j == 5
         || j == 6 || j == 7 || j == 8 || j == 9 || j == 10 || j == 11
  {
  }

  /** The alternatives of pattern `j` start and end with word characters. */
  predicate AlternativesWordLike(j: nat)
    requires j < |Patterns|
  {
    forall k :: 0 <= k < |Patterns[j].alternatives| ==> WordLike(Patterns[j].alternatives[k])
  }

  lemma PatternsWordLike0()
    ensures AlternativesWordLike(0) && AlternativesWordLike(1) && AlternativesWordLike(2)
  {
  }

  lemma PatternsWordLike1()
    ensures AlternativesWordLike(3) && AlternativesWordLike(4) && AlternativesWordLike(5)
  {
  }

  lemma PatternsWordLike2()
    ensures AlternativesWordLike(6) && AlternativesWordLike(7) && AlternativesWordLike(8)
  {
  }

  lemma PatternsWordLike3()
    ensures AlternativesWordLike(9) && AlternativesWordLike(10) && AlternativesWordLike(11)
  {
  }

  /** Every alternative of the table starts and ends with a word character. */
  lemma PatternsWordLike(j: int)
    requires 0 <= j < |Patterns|
    ensures forall k :: 0 <= k < |Patterns[j].alternatives| ==> WordLike(Patterns[j].alternatives[k])
  {
    PatternsWordLike0();
    PatternsWordLike1();
    PatternsWordLike2();
    PatternsWordLike3();
    PatternIndex(j);
  }

  /** Each pattern of the table fires exactly when its regular expression
      `\b(alt1|alt2|...)\b` matches the message. */
  lemma PatternIsRegex(j: int, msg: string)
    requires 0 <= j < |Patterns|
    ensures Fires(Patterns[j], msg) <==> RegexTest(Patterns[j].alternatives, msg)
  {
    PatternsWordLike(j);
    FiresIsRegexTest(Patterns[j], msg);
  }

  /** A message made only of word characters. */
  predicate IsOneWord(msg: string) {
    |msg| > 0 && forall i :: 0 <= i < |msg| ==> IsWordChar(msg[i])
  }

  /** On a one-word message a pattern fires exactly when the message is one
      of its alternatives: the word boundaries leave no room for a part of
      the word to match. */
  lemma OneWordFires(p: Pattern, msg: string)
    requires IsOneWord(msg)
    ensures Fires(p, msg) <==> msg in p.alternatives
  {
    var alts := p.alternatives;
    AnyAlternativeFromSpec(msg, alts, 0);
    if Fires(p, msg) {
      var m :| 0 <= m < |alts| && WholeWordFrom(msg, alts[m], 0);
      var w := alts[m];
      WholeWordFromSpec(msg, w, 0);
      var j: nat :| WholeWordAt(msg, w, j);
      assert j == 0;
      assert j + |w| == |msg|;
      MatchesFromSpec(msg, w, 0, 0);
      assert msg == msg[0..|msg|] == w;
    }
    if msg in alts {
      var m :| 0 <= m < |alts| && alts[m] == msg;
      MatchesFromSpec(msg, msg, 0, 0);
      assert WholeWordAt(msg, msg, 0);
      WholeWordFromSpec(msg, msg, 0);
    }
  }

  // ---------------------------------------------------------------------------
  // Stage 1: the weighted pattern scan
  // ---------------------------------------------------------------------------

  /** Pattern `b` fires, no firing pattern outweighs it, and every firing
      pattern before it weighs strictly less. */
  predicate IsBestPattern(msg: string, b: int) {
    && 0 <= b < |Patterns| && Fires(Patterns[b], msg)
    && (forall j :: 0 <= j < |Patterns| && Fires(Patterns[j], msg) ==> Patterns[j].weight <= Patterns[b].weight)
    && (forall j :: 0 <= j < b && Fires(Patterns[j], msg) ==> Patterns[j].weight < Patterns[b].weight)
  }

  predicate NoPatternFires(msg: string) {
    forall j :: 0 <= j < |Patterns| ==> !Fires(Patterns[j], msg)
  }

  /** At most one pattern is the best one, so the winning key is determined by the message. */
  lemma BestPatternUnique(msg: string, a: int, b: int)
    requires IsBestPattern(msg, a) && IsBestPattern(msg, b)
    ensures a == b
  {
  }

  /** The state of the pattern scan after the first `i` patterns: either none
      of them fired and the best weight is still 0, or `best` is the first
      heaviest firing pattern among them, of weight `bestWeight`. */
  predicate MatchState(msg: string, i: int, best: Option<nat>, bestWeight: int) {
    && 0 <= i <= |Patterns|
    && (best.None? ==> bestWeight == 0 && forall j :: 0 <= j < i ==> !Fires(Patterns[j], msg))
    && (best.Some? ==>
          && best.value < i && Fires(Patterns[best.value], msg) && bestWeight == Patterns[best.value].weight
          && (forall j :: 0 <= j < i && Fires(Patterns[j], msg) ==> Patterns[j].weight <= bestWeight)
          && (forall j :: 0 <= j < best.value && Fires(Patterns[j], msg) ==> Patterns[j].weight < bestWeight))
  }

  /** One step of the pattern scan. */
  lemma MatchStep(msg: string, i: int, best: Option<nat>, bestWeight: int)
    requires MatchState(msg, i, best, bestWeight) && i < |Patterns|
    ensures var adopt := Fires(Patterns[i], msg) && Patterns[i].weight > bestWeight;
      MatchState(msg, i + 1, if adopt then Some(i) else best, if adopt then Patterns[i].weight else bestWeight)
  {
  }

  /** The pattern loop of `findResponse`: every pattern is tested, and a firing pattern
      replaces the current best only when its weight is strictly greater. */
  method MatchPattern(msg: string) returns (best: Option<nat>)
    ensures best.None? <==> NoPatternFires(msg)
    ensures best.Some? ==> IsBestPattern(msg, best.value)
  {
    best := None;
    var bestWeight := 0;
    for i := 0 to |Patterns|
      invariant MatchState(msg, i, best, bestWeight)
    {
      MatchStep(msg, i, best, bestWeight);
      if Fires(Patterns[i], msg) {
        if Patterns[i].weight > bestWeight {
          bestWeight := Patterns[i].weight;
          best := Some(i);
        }
      }
    }
  }

  // ---------------------------------------------------------------------------
  // Stage 2: the similarity fallback over the keys
  // ---------------------------------------------------------------------------

  function KeySimilarity(msg: string, c: nat): real
    requires c < |Keys|
  {
    Similarity(msg, Name(Keys[c]))
  }

  /** The similarity of the message to every key, in key order. */
  function KeyScores(msg: string): (s: seq<real>)
    ensures |s| == |Keys|
    ensures forall j :: 0 <= j < |Keys| ==> s[j] == KeySimilarity(msg, j)
  {
    seq(|Keys|, j requires 0 <= j < |Keys| => KeySimilarity(msg, j))
  }

  /** `s[c]` exceeds `t`, no score is higher, and every score before it is strictly lower. */
  predicate IsFirstMaxAbove(s: seq<real>, t: real, c: int) {
    && 0 <= c < |s| && s[c] > t
    && (forall j :: 0 <= j < |s| ==> s[j] <= s[c])
    && (forall j :: 0 <= j < c ==> s[j] < s[c])
  }

  /** No score among the first `n` exceeds `t`. */
  predicate NoneAbove(s: seq<real>, n: int, t: real)
    requires 0 <= n <= |s|
  {
    forall j :: 0 <= j < n ==> s[j] <= t
  }

  /** The state of the scan after the first `i` scores: either none cleared
      the threshold and the best is still 0, or `closest` is the first
      maximum of the prefix, above the threshold, with score `best`. */
  predicate ScanState(s: seq<real>, t: real, i: int, closest: Option<nat>, best: real) {
    && 0 <= i <= |s|
    && (closest.None? ==> best == 0.0 && NoneAbove(s, i, t))
    && (closest.Some? ==> IsFirstMaxAbove(s[..i], t, closest.value) && best == s[closest.value])
  }

  /** One step of the scan: score `i` is adopted when it beats both the best
      so far and the threshold. */
  lemma ScanStep(s: seq<real>, t: real, i: int, closest: Option<nat>, best: real)
    requires 0.0 <= t && ScanState(s, t, i, closest, best) && i < |s|
    ensures var adopt := s[i] > best && s[i] > t;
      ScanState(s, t, i + 1, if adopt then Some(i) else closest, if adopt then s[i] else best)
  {
    assert forall j :: 0 <= j < i ==> s[..i + 1][j] == s[..i][j];
  }

  /** A finished scan finds the first maximum above the threshold, if any. */
  lemma ScanDone(s: seq<real>, t: real, closest: Option<nat>, best: real)
    requires ScanState(s, t, |s|, closest, best)
    ensures closest.None? <==> NoneAbove(s, |s|, t)
    ensures closest.Some? ==> IsFirstMaxAbove(s, t, closest.value)
  {
    assert s[..|s|] == s;
  }

  /** Key `c` clears the threshold, no key is more similar, and every key
      before it is strictly less similar. */
  predicate IsClosestKey(msg: string, c: int) {
    IsFirstMaxAbove(KeyScores(msg), Threshold, c)
  }

  /** No key is more similar than the threshold. */
  predicate NoKeyIsClose(msg: string) {
    NoneAbove(KeyScores(msg), |Keys|, Threshold)
  }

  lemma ClosestKeyUnique(msg: string, a: int, b: int)
    requires IsClosestKey(msg, a) && IsClosestKey(msg, b)
    ensures a == b
  {
  }

  /** `calculateSimilarity(message, key)` for the key at position `i`. */
  method ScoreKey(msg: string, i: nat) returns (similarity: real)
    requires i < |Keys|
    ensures similarity == KeyScores(msg)[i]
  {
    similarity := CalculateSimilarity(msg, Name(Keys[i]));
  }

  /** The fuzzy loop of `findResponse` over the knowledge-base keys: a key is adopted when its similarity beats
      both the best so far and the threshold. */
  method ClosestKey(msg: string) returns (closest: Option<nat>)
    ensures closest.None? <==> NoKeyIsClose(msg)
    ensures closest.Some? ==> IsClosestKey(msg, closest.value)
  {
    ghost var scores := KeyScores(msg);
    var highestSimilarity := 0.0;
    closest := None;
    for i := 0 to |Keys|
      invariant ScanState(scores, Threshold, i, closest, highestSimilarity)
    {
      var similarity := ScoreKey(msg, i);
      ScanStep(scores, Threshold, i, closest, highestSimilarity);
      if similarity > highestSimilarity && similarity > Threshold {
        highestSimilarity := similarity;
        closest := Some(i);
      }
    }
    ScanDone(scores, Threshold, closest, highestSimilarity);
  }

  // ---------------------------------------------------------------------------
  // Response selection
  // ---------------------------------------------------------------------------

  /** `Math.floor(rand * n)` for `rand = Math.random()` in [0, 1). */
  function PickIndex(rand: real, n: nat): (i: nat)
    requires 0.0 <= rand < 1.0 && n > 0
    ensures i < n
  {
    assert 0.0 <= rand * n as real < n as real;
    (rand * n as real).Floor
  }

  /** `findResponse(userMessage)`, with `rand` the value `Math.random()` would
      return. A firing pattern decides the key; otherwise the closest key
      above the threshold does; otherwise the fixed fallback is returned. */
  method FindResponse(userMessage: string, rand: real) returns (r: Response)
    requires 0.0 <= rand < 1.0
    ensures ValidResponse(r)
    ensures var msg := Normalize(userMessage);
      !NoPatternFires(msg) ==>
        exists b :: IsBestPattern(msg, b) && r == Variant(Patterns[b].key, PickIndex(rand, VariantCount(Patterns[b].key)))
    ensures var msg := Normalize(userMessage);
      NoPatternFires(msg) && !NoKeyIsClose(msg) ==>
        exists c :: IsClosestKey(msg, c) && r == Variant(Keys[c], PickIndex(rand, VariantCount(Keys[c])))
    ensures var msg := Normalize(userMessage);
      r == Fallback <==> NoPatternFires(msg) && NoKeyIsClose(msg)
  {
    var message := Normalize(userMessage);
    var bestMatch := MatchPattern(message);
    if bestMatch.Some? {
      var key := Patterns[bestMatch.value].key;
      return Variant(key, PickIndex(rand, VariantCount(key)));
    }
    var closest := ClosestKey(message);
    if closest.Some? {
      var key := Keys[closest.value];
      return Variant(key, PickIndex(rand, VariantCount(key)));
    }
    return Fallback;
  }

  // ---------------------------------------------------------------------------
  // Follow-up suggestions
  // ---------------------------------------------------------------------------

  const OnboardingSuggestions: seq<string> :=
    ["\U{1F680} Get Started", "❓ About Project", "\U{1F3AF} Models", "⚡ Features"]

  const ModelSuggestionPrefix: string := "\U{1F4DD} About "

  /** `getContextualSuggestions()`: four prompts; with the camera on and a
      model named, the second one names that model. */
  function ContextualSuggestions(isCameraOn: bool, activeModel: string): (r: seq<string>)
    ensures |r| == 4
    ensures isCameraOn && activeModel != [] ==>
      |r[1]| == |ModelSuggestionPrefix| + |activeModel| + |" model"|
      && r[1][..|ModelSuggestionPrefix|] == ModelSuggestionPrefix
      && r[1][|ModelSuggestionPrefix|..|ModelSuggestionPrefix| + |activeModel|] == activeModel
    ensures isCameraOn && activeModel != [] ==>
      r == ["\U{1F3A5} How to improve accuracy?",
            ModelSuggestionPrefix + activeModel + " model",
            "\U{1F4A1} Pro tips",
            "\U{1F504} Switch models"]
    ensures !(isCameraOn && activeModel != []) ==> r == OnboardingSuggestions
  {
    if isCameraOn && activeModel != [] then
      ["\U{1F3A5} How to improve accuracy?",
       ModelSuggestionPrefix + activeModel + " model",
       "\U{1F4A1} Pro tips",
       "\U{1F504} Switch models"]
    else OnboardingSuggestions
  }
}
