/**
 * The keyword intent classifier of modules/intent_classifier.py: per-intent
 * keyword tables, the counting classifier with its fallback chain, and the
 * confidence of a given intent.
 */
module Intent {
  import opened Common
  import opened Text

  const BookingKeywords: seq<string> := [
    "book", "schedule", "appointment", "reserve", "available",
    "slot", "time", "when can", "make appointment", "see doctor",
    "visit", "come in"
  ]

  const FaqKeywords: seq<string> := [
    "hours", "cost", "price", "insurance", "location", "where",
    "phone", "contact", "accept", "how much", "when open",
    "services", "do you", "emergency"
  ]

  const KnowledgeKeywords: seq<string> := [
    "what is", "how to", "tell me about", "explain", "information",
    "learn", "treatment", "procedure", "pain", "care", "recovery",
    "healing", "advice", "recommend", "cleaning", "filling",
    "crown", "root canal", "whitening", "braces", "implant"
  ]

  /** intent_patterns, in the dict's insertion order. */
  const IntentPatterns: seq<(string, seq<string>)> := [
    ("booking", BookingKeywords),
    ("faq", FaqKeywords),
    ("knowledge", KnowledgeKeywords)
  ]

  const BookingPhrases: seq<string> := [
    "book an appointment", "schedule appointment", "make appointment",
    "available times", "free slots", "when can i come"
  ]

  const QuestionWords: seq<string> := ["what", "when", "where", "how", "why", "who", "which"]

  /** The three intents classify_intent can produce. */
  predicate IsIntent(r: string)
  {
    r == "booking" || r == "faq" || r == "knowledge"
  }

  /** The score of every intent, in table order: how many of its keywords
      occur in the lowercased input. */
  function Scores(lower: string): (s: seq<nat>)
    ensures |s| == |IntentPatterns|
    ensures forall i :: 0 <= i < |s| ==> s[i] == CountIn(lower, IntentPatterns[i].1)
    ensures forall i :: 0 <= i < |s| ==> s[i] <= |IntentPatterns[i].1|
    ensures forall i :: 0 <= i < |s| ==>
      (s[i] == 0 <==> forall k :: k in IntentPatterns[i].1 ==> !Contains(lower, k))
  {
    seq(|IntentPatterns|, i requires 0 <= i < |IntentPatterns| => CountIn(lower, IntentPatterns[i].1))
  }

  /** max(values): the largest entry. */
  function MaxOf(xs: seq<nat>): (m: nat)
    requires |xs| > 0
    ensures forall i :: 0 <= i < |xs| ==> xs[i] <= m
    ensures exists i :: 0 <= i < |xs| && xs[i] == m
  {
    if |xs| == 1 then xs[0]
    else
      var m := MaxOf(xs[..|xs| - 1]);
      assert forall i :: 0 <= i < |xs| - 1 ==> xs[..|xs| - 1][i] == xs[i];
      Max(m, xs[|xs| - 1])
  }

  /** max(d, key=d.get): the first index with the largest entry. */
  function FirstArgMax(xs: seq<nat>): (r: nat)
    requires |xs| > 0
    ensures r < |xs|
    ensures xs[r] == MaxOf(xs)
    ensures forall j :: 0 <= j < r ==> xs[j] < xs[r]
  {
    if |xs| == 1 then 0
    else
      var r := FirstArgMax(xs[..|xs| - 1]);
      assert forall i :: 0 <= i < |xs| - 1 ==> xs[..|xs| - 1][i] == xs[i];
      if xs[|xs| - 1] > xs[r] then |xs| - 1 else r
  }

  predicate SomeBookingPhrase(lower: string)
  {
    exists k :: 0 <= k < |BookingPhrases| && Contains(lower, BookingPhrases[k])
  }

  predicate StartsWithQuestionWord(lower: string)
  {
    exists k :: 0 <= k < |QuestionWords| && StartsWith(lower, QuestionWords[k])
  }

  /** What classify_intent returns for userInput. */
  function Classify(userInput: string): (r: string)
    ensures IsIntent(r)
  {
    var lower := Lower(userInput);
    var scores := Scores(lower);
    if MaxOf(scores) > 0 then
      var i := FirstArgMax(scores);
      assert i == 0 || i == 1 || i == 2;
      IntentPatterns[i].0
    else if SomeBookingPhrase(lower) then "booking"
    else if StartsWithQuestionWord(lower) then "faq"
    else "knowledge"
  }

  /** One intent's score: a loop over its keywords counting those that occur
      in the lowercased input. */
  method ScoreIntent(lower: string, keywords: seq<string>) returns (score: nat)
    ensures score == CountIn(lower, keywords)
  {
    score := 0;
    for j := 0 to |keywords|
      invariant score == CountIn(lower, keywords[..j])
    {
      CountInPrefixStep(lower, keywords, j);
      if Contains(lower, keywords[j]) {
        score := score + 1;
      }
    }
    assert keywords[..|keywords|] == keywords;
  }

  /** The fallback chain of classify_intent for an input no keyword matched. */
  method Fallback(lower: string) returns (intent: string)
    ensures intent == (if SomeBookingPhrase(lower) then "booking"
                       else if StartsWithQuestionWord(lower) then "faq"
                       else "knowledge")
  {
    for p := 0 to |BookingPhrases|
      invariant forall k :: 0 <= k < p ==> !Contains(lower, BookingPhrases[k])
    {
      if Contains(lower, BookingPhrases[p]) {
        return "booking";
      }
    }
    for q := 0 to |QuestionWords|
      invariant forall k :: 0 <= k < q ==> !StartsWith(lower, QuestionWords[k])
    {
      if StartsWith(lower, QuestionWords[q]) {
        return "faq";
      }
    }
    return "knowledge";
  }

  /** classify_intent: score every intent in table order, take the first
      best one if any keyword matched, otherwise run the fallback chain. */
  method ClassifyIntent(userInput: string) returns (intent: string)
    ensures intent == Classify(userInput)
  {
    var lower := Lower(userInput);
    var scores: seq<nat> := [];
    for i := 0 to |IntentPatterns|
      invariant |scores| == i
      invariant forall k :: 0 <= k < i ==> scores[k] == CountIn(lower, IntentPatterns[k].1)
    {
      var score := ScoreIntent(lower, IntentPatterns[i].1);
      scores := scores + [score];
    }
    assert scores == Scores(lower);
    if MaxOf(scores) > 0 {
      intent := IntentPatterns[FirstArgMax(scores)].0;
    } else {
      intent := Fallback(lower);
    }
  }

  /** classify_intent never answers 'general', whatever its docstring says. */
  lemma NeverGeneral(userInput: string)
    ensures Classify(userInput) != "general"
  {
    assert IsIntent(Classify(userInput));
  }

  /** When some keyword matches, the answer is an intent with the highest
      score, and every intent listed before it scores strictly less. */
  lemma ClassifyIsFirstBest(userInput: string)
    requires MaxOf(Scores(Lower(userInput))) > 0
    ensures var scores := Scores(Lower(userInput));
      exists i :: 0 <= i < |IntentPatterns| && Classify(userInput) == IntentPatterns[i].0 &&
        (forall j :: 0 <= j < |IntentPatterns| ==> scores[j] <= scores[i]) &&
        (forall j :: 0 <= j < i ==> scores[j] < scores[i])
  {
    var scores := Scores(Lower(userInput));
    var i := FirstArgMax(scores);
    assert Classify(userInput) == IntentPatterns[i].0;
  }

  /** The tie-break among the three scores once some keyword matched:
      booking wins ties with both others, faq wins ties with knowledge. */
  lemma ClassifyByScores(userInput: string)
    requires MaxOf(Scores(Lower(userInput))) > 0
    ensures var s := Scores(Lower(userInput));
      (Classify(userInput) == "booking" <==> s[0] >= s[1] && s[0] >= s[2]) &&
      (Classify(userInput) == "faq" <==> s[1] > s[0] && s[1] >= s[2]) &&
      (Classify(userInput) == "knowledge" <==> s[2] > s[0] && s[2] > s[1])
  {
    var s := Scores(Lower(userInput));
    var i := FirstArgMax(s);
    assert i == 0 || i == 1 || i == 2;
    assert Classify(userInput) == IntentPatterns[i].0;
  }

  /** Every booking phrase contains a booking keyword. */
  lemma PhrasesHoldBookingKeywords(k: nat)
    requires k < |BookingPhrases|
    ensures exists j :: 0 <= j < |BookingKeywords| && Contains(BookingPhrases[k], BookingKeywords[j])
  {
    var phrase := BookingPhrases[k];
    if k == 0 {
      assert OccursAt(phrase, BookingKeywords[0], 0);
    } else if k == 1 {
      assert OccursAt(phrase, BookingKeywords[1], 0);
    } else if k == 2 {
      assert OccursAt(phrase, BookingKeywords[8], 0);
    } else if k == 3 {
      assert OccursAt(phrase, BookingKeywords[4], 0);
    } else if k == 4 {
      assert OccursAt(phrase, BookingKeywords[5], 5);
    } else {
      assert OccursAt(phrase, BookingKeywords[7], 0);
    }
  }

  /** The booking-phrase fallback is dead code: an input holding a booking
      phrase already gives the booking intent a positive score. */
  lemma BookingPhraseFallbackDead(lower: string)
    requires SomeBookingPhrase(lower)
    ensures Scores(lower)[0] > 0
  {
    var k :| 0 <= k < |BookingPhrases| && Contains(lower, BookingPhrases[k]);
    PhrasesHoldBookingKeywords(k);
    var j :| 0 <= j < |BookingKeywords| && Contains(BookingPhrases[k], BookingKeywords[j]);
    ContainsTransitive(lower, BookingPhrases[k], BookingKeywords[j]);
    assert BookingKeywords[j] in IntentPatterns[0].1;
  }

  /** With no keyword match, a leading question word gives 'faq' and anything
      else 'knowledge'. */
  lemma ZeroScoreFallback(userInput: string)
    requires MaxOf(Scores(Lower(userInput))) == 0
    ensures Classify(userInput) == "faq" <==> StartsWithQuestionWord(Lower(userInput))
    ensures Classify(userInput) == "knowledge" <==> !StartsWithQuestionWord(Lower(userInput))
  {
    var lower := Lower(userInput);
    if SomeBookingPhrase(lower) {
      BookingPhraseFallbackDead(lower);
      assert false;
    }
  }

  /** intent_patterns.get(intent, []). */
  function KeywordsOf(intent: string): (kws: seq<string>)
    ensures kws == [] <==> !IsIntent(intent)
  {
    if intent == "booking" then BookingKeywords
    else if intent == "faq" then FaqKeywords
    else if intent == "knowledge" then KnowledgeKeywords
    else []
  }

  /** get_confidence_score: the capped share min(matches / len, 1) of the
      intent's keywords that occur in the lowercased input, 0 when the intent
      has no keywords. The cap never changes the value. */
  function ConfidenceScore(userInput: string, intent: string): (r: Ratio)
    ensures !IsIntent(intent) ==> r.num == 0
    ensures IsIntent(intent) ==>
      r.num == CountIn(Lower(userInput), KeywordsOf(intent)) && r.den == |KeywordsOf(intent)|
    ensures r.den > 0 && r.num <= r.den
  {
    var keywords := KeywordsOf(intent);
    if keywords == [] then Ratio(0, 1)
    else
      var matches := CountIn(Lower(userInput), keywords);
      Ratio(Min(matches, |keywords|), |keywords|)
  }
}
