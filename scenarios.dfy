/**
 * Concrete conversations: which intent `findResponse` settles on for a few
 * messages, derived from the model (the pattern table, whole-word matching,
 * the similarity fallback).
 */
module Scenarios {
  import opened TextNorm
  import opened Levenshtein
  import opened TextSimilarity
  import opened Intents

  /** No character from index `k` on is an upper-case letter (decided
      character by character, so it evaluates on literals). */
  predicate LowerFrom(s: string, k: nat)
    decreases |s| - k
  {
    k >= |s| || (!IsUpper(s[k]) && LowerFrom(s, k + 1))
  }

  lemma {:induction false} LowerFromSpec(s: string, k: nat)
    requires LowerFrom(s, k)
    ensures forall i :: k <= i < |s| ==> !IsUpper(s[i])
    decreases |s| - k
  {
    if k < |s| {
      LowerFromSpec(s, k + 1);
    }
  }

  /** Every character from index `k` on is a word character (decided
      character by character, so it evaluates on literals). */
  predicate WordFrom(s: string, k: nat)
    decreases |s| - k
  {
    k >= |s| || (IsWordChar(s[k]) && WordFrom(s, k + 1))
  }

  lemma {:induction false} WordFromSpec(s: string, k: nat)
    requires WordFrom(s, k)
    ensures forall i :: k <= i < |s| ==> IsWordChar(s[i])
    decreases |s| - k
  {
    if k < |s| {
      WordFromSpec(s, k + 1);
    }
  }

  /** A message without upper-case letters and without surrounding
      whitespace is already normalised. */
  lemma NormalForm(s: string)
    requires LowerFrom(s, 0)
    requires s == [] || (!IsJsWhitespace(s[0]) && !IsJsWhitespace(s[|s| - 1]))
    ensures Normalize(s) == s
  {
    LowerFromSpec(s, 0);
    LowerSpec(s);
    TrimOfTrimmed(s);
  }

  /** "help" is both a use-case word (weight 0.92) and a troubleshooting word
      (weight 0.85); the heavier use-case pattern wins. */
  lemma HelpIsAUseCase()
    ensures Normalize("help") == "help" && IsBestPattern("help", 2)
    ensures forall j :: 0 <= j < |Patterns| ==> (Fires(Patterns[j], "help") <==> j == 2 || j == 9)
  {
    NormalForm("help");
    UseCaseAndTroubleshootFire();
  }

  /** Of all patterns, exactly the use-case and troubleshooting ones fire on
      "help". */
  lemma UseCaseAndTroubleshootFire()
    ensures forall j :: 0 <= j < |Patterns| ==> (Fires(Patterns[j], "help") <==> j == 2 || j == 9)
  {
    WordFromSpec("help", 0);
    forall j | 0 <= j < |Patterns|
      ensures Fires(Patterns[j], "help") <==> j == 2 || j == 9
    {
      PatternIndex(j);
      OneWordFires(Patterns[j], "help");
    }
  }

  /** "model" is no whole word of "models", whose one whole word is itself. */
  lemma ModelsIsOneWholeWord()
    ensures !WholeWordFrom("models", "model", 0) && WholeWordFrom("models", "models", 0)
  {
    WordFromSpec("models", 0);
    OneWordFires(Pattern(["model"], Models, 95), "models");
    OneWordFires(Pattern(["models"], Models, 95), "models");
  }

  /** "models" fires the models pattern through its "models" alternative
      ("model" is not a whole word of it), and no other pattern fires. */
  lemma ModelsIsAModelsQuestion()
    ensures Normalize("models") == "models" && IsBestPattern("models", 4)
    ensures forall j :: 0 <= j < |Patterns| ==> (Fires(Patterns[j], "models") <==> j == 4)
    ensures !WholeWordFrom("models", "model", 0) && WholeWordFrom("models", "models", 0)
  {
    NormalForm("models");
    ModelsIsOneWholeWord();
    OnlyModelsFires();
  }

  /** Of all patterns, only the models pattern fires on "models". */
  lemma OnlyModelsFires()
    ensures forall j :: 0 <= j < |Patterns| ==> (Fires(Patterns[j], "models") <==> j == 4)
  {
    WordFromSpec("models", 0);
    forall j | 0 <= j < |Patterns|
      ensures Fires(Patterns[j], "models") <==> j == 4
    {
      PatternIndex(j);
      OneWordFires(Patterns[j], "models");
    }
  }

  /** The key indices, one by one. */
  lemma KeyIndex(c: int)
    requires 0 <= c < |Keys|
    ensures c == 0 || c == 1 || c == 2 || c == 3 || c == 4 || c == 5
         || c == 6 || c == 7 || c == 8 || c == 9 || c == 10 || c == 11
  {
  }

  /** Every key's text is already normalised. */
  lemma NameNormal(k: Key)
    ensures Normalize(Name(k)) == Name(k)
  {
    match k
    case Greeting => NormalForm("greeting");
    case About => NormalForm("about");
    case Usecase => NormalForm("usecase");
    case How => NormalForm("how");
    case Models => NormalForm("models");
    case Features => NormalForm("features");
    case Start => NormalForm("start");
    case Tech => NormalForm("tech");
    case Accuracy => NormalForm("accuracy");
    case Troubleshoot => NormalForm("troubleshoot");
    case Tips => NormalForm("tips");
    case System => NormalForm("system");
  }

  /** Different keys have different texts. */
  lemma KeyNamesDistinct(c: int, d: int)
    requires 0 <= c < |Keys| && 0 <= d < |Keys| && c != d
    ensures Name(Keys[c]) != Name(Keys[d])
  {
    KeyIndex(c);
    KeyIndex(d);
  }

  /** A message that is exactly a key's text scores 1 against that key and
      less against every other, so that key is the closest one. */
  lemma KeyTextIsClosest(msg: string, c: int)
    requires 0 <= c < |Keys| && msg == Name(Keys[c])
    ensures IsClosestKey(msg, c)
  {
    NameNormal(Keys[c]);
    SimilarityValue(msg, Name(Keys[c]));
    forall j | 0 <= j < |Keys|
      ensures KeyScores(msg)[j] <= 1.0
      ensures j != c ==> KeyScores(msg)[j] < 1.0
    {
      NameNormal(Keys[j]);
      SimilarityValue(msg, Name(Keys[j]));
      if j != c {
        KeyNamesDistinct(c, j);
      }
    }
  }

  /** "about models" fires both the about pattern and the models pattern, of
      equal weight 0.95, the heaviest there is; the earlier one, about, is
      kept. */
  lemma TieGoesToTheEarlierPattern()
    ensures Normalize("about models") == "about models"
    ensures Fires(Patterns[1], "about models") && Fires(Patterns[4], "about models")
    ensures IsBestPattern("about models", 1)
  {
    var m := "about models";
    NormalForm(m);
    assert WholeWordAt(m, "about", 0);
    assert WholeWordAt(m, "models", 6);
    WholeWordFromSpec(m, "about", 0);
    WholeWordFromSpec(m, "models", 0);
    AnyAlternativeFromSpec(m, Patterns[1].alternatives, 0);
    AnyAlternativeFromSpec(m, Patterns[4].alternatives, 0);
    assert Patterns[1].alternatives[2] == "about";
    assert Patterns[4].alternatives[1] == "models";
    forall j | 0 <= j < |Patterns|
      ensures Patterns[j].weight <= Patterns[1].weight
    {
      PatternIndex(j);
    }
  }

  /** Alternatives match whole words only: the tip pattern does not fire on
      "tips", and no other pattern does either. */
  lemma NoPatternForTips()
    ensures Normalize("tips") == "tips" && NoPatternFires("tips")
  {
    NormalForm("tips");
    WordFromSpec("tips", 0);
    forall j | 0 <= j < |Patterns|
      ensures !Fires(Patterns[j], "tips")
    {
      PatternIndex(j);
      OneWordFires(Patterns[j], "tips");
    }
  }

  /** The accuracy pattern's alternative "accu" is not a whole word of
      "accuracy", and no other pattern fires on it either. */
  lemma NoPatternForAccuracy()
    ensures Normalize("accuracy") == "accuracy" && NoPatternFires("accuracy")
  {
    NormalForm("accuracy");
    WordFromSpec("accuracy", 0);
    forall j | 0 <= j < |Patterns|
      ensures !Fires(Patterns[j], "accuracy")
    {
      PatternIndex(j);
      OneWordFires(Patterns[j], "accuracy");
    }
  }

  /** The empty message scores 0 against any non-empty normalised text. */
  lemma EmptyScore(t: string)
    requires t != [] && Normalize(t) == t
    ensures Similarity([], t) == 0.0
  {
    NormalForm([]);
    SimilarityValue([], t);
    assert Distance([], t) == |t|;
  }

  /** A message that is blank after trimming fires no pattern and is not
      close to any key. */
  lemma BlankMessage(userMessage: string)
    requires Normalize(userMessage) == []
    ensures NoPatternFires(Normalize(userMessage))
    ensures NoKeyIsClose(Normalize(userMessage))
  {
    forall j | 0 <= j < |Patterns|
      ensures !Fires(Patterns[j], [])
    {
      PatternIndex(j);
    }
    forall c | 0 <= c < |Keys|
      ensures KeyScores([])[c] <= Threshold
    {
      NameNormal(Keys[c]);
      EmptyScore(Name(Keys[c]));
    }
  }

  /** A message whose best pattern is `b` is answered from that pattern's
      responses ("help" is one, with the use-case pattern). */
  method ReplyByPattern(userMessage: string, b: nat, rand: real) returns (r: Response)
    requires 0.0 <= rand < 1.0 && IsBestPattern(Normalize(userMessage), b)
    ensures r == Variant(Patterns[b].key, PickIndex(rand, VariantCount(Patterns[b].key)))
  {
    r := FindResponse(userMessage, rand);
    var b' :| IsBestPattern(Normalize(userMessage), b')
      && r == Variant(Patterns[b'].key, PickIndex(rand, VariantCount(Patterns[b'].key)));
    BestPatternUnique(Normalize(userMessage), b, b');
  }

  /** A message that fires no pattern and normalises to a key's text is
      answered from that key's responses, whatever its case and surrounding
      whitespace ("tips" and "accuracy" are two such messages). */
  method ReplyToKeyText(userMessage: string, c: nat, rand: real) returns (r: Response)
    requires 0.0 <= rand < 1.0 && c < |Keys|
    requires Normalize(userMessage) == Name(Keys[c]) && NoPatternFires(Name(Keys[c]))
    ensures r == Variant(Keys[c], PickIndex(rand, VariantCount(Keys[c])))
  {
    r := FindResponse(userMessage, rand);
    KeyTextIsClosest(Name(Keys[c]), c);
    var d :| IsClosestKey(Name(Keys[c]), d) && r == Variant(Keys[d], PickIndex(rand, VariantCount(Keys[d])));
    ClosestKeyUnique(Name(Keys[c]), c, d);
  }

  /** A blank message gets the fixed fallback. */
  method ReplyToBlank(userMessage: string, rand: real) returns (r: Response)
    requires 0.0 <= rand < 1.0 && Normalize(userMessage) == []
    ensures r == Fallback
  {
    r := FindResponse(userMessage, rand);
    BlankMessage(userMessage);
  }
}
