/**
 * IntentClassifier.suggest_intent_examples: the example phrases offered for
 * each intent, kept apart from the classifier's tables. How the classifier
 * treats each phrase is proved in IntentExampleProofs.
 */
module IntentExamples {
  import opened Intent

  // Each phrase is written as a concatenation of pieces of at most fourteen
  // characters, cut where a keyword of the classifier's tables begins or
  // ends; its value is the whole phrase.
  const BookAnAppointment := "I'd like to " + "book" + " an " + "appointment"
  const AvailableNextWeek := "When are you " + "available" + " next week?"
  const ScheduleCleaning := "Schedule" + " me for a " + "cleaning"
  const OfficeHours := "What are your " + "office " + "hours" + "?"
  const AcceptInsurance := "Do you" + " " + "accept" + " my " + "insurance" + "?"
  const CleaningCost := "How much" + " does a " + "cleaning" + " " + "cost" + "?"
  const RootCanal := "What is" + " a " + "root canal" + "?"
  const CareAfterSurgery := "How do I " + "care" + " for my teeth " + "after surgery?"
  const TeethWhitening := "Tell me about" + " teeth " + "whitening" + " options"

  /** suggest_intent_examples: three example phrases per intent. */
  function SuggestIntentExamples(): (r: seq<(string, seq<string>)>)
    ensures |r| == |IntentPatterns|
    ensures forall i :: 0 <= i < |r| ==> r[i].0 == IntentPatterns[i].0 && |r[i].1| == 3
  {
    [
      ("booking", [BookAnAppointment, AvailableNextWeek, ScheduleCleaning]),
      ("faq", [OfficeHours, AcceptInsurance, CleaningCost]),
      ("knowledge", [RootCanal, CareAfterSurgery, TeethWhitening])
    ]
  }
}
