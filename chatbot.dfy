/**
 * The orchestrator of modules/chatbot.py: routing a message to a handler,
 * the FAQ best match, the booking answers, the knowledge and general answers
 * around the language model, the prompt sent to it, and the conversation
 * state the assistant keeps.
 */
module Chatbot {
  import opened Common
  import opened Text
  import opened Helpers
  import opened Intent
  import opened Booking
  import opened Rag

  const ClinicName: string := "Bright Smile Dental Clinic"
  const ClinicPhone: string := "(555) 123-DENT"

  /** How many exchanges the conversation history keeps. */
  const HistoryLimit: nat := 10
  /** How many slots the booking handler lists. */
  const SlotsShown: nat := 5
  /** How many characters of the context the knowledge fallback quotes. */
  const ContextPreviewLength: nat := 500
  /** The timestamp of every history entry: Config has no clock. */
  const NoTimestamp: string := "N/A"

  /** Words that make a booking request a request for the open slots. */
  const SlotWords: seq<string> := ["available", "slots", "times", "when"]

  const EmptyInputMessage: string := "I didn't receive any message. How can I help you today?"
  const SlotsHeader: string := "Here are our available appointment slots:\n\n"
  const SlotsFooter: string :=
    "\n\U{1F4A1} To book an appointment, please tell me:\n- Your preferred slot ID\n- Your name and phone number\n- Type of appointment needed"
  const NoSlotsMessage: string :=
    "I'm sorry, but there are no available appointment slots at the moment. Please call us at " + ClinicPhone + " for assistance."
  const BookingInfoMessage: string :=
    "I'd be happy to help you book an appointment! \n\nHere's what I can help you with:\n"
    + "- \U{1F4C5} Show available appointment slots\n- \U{1F550} Find specific times or dates\n"
    + "- \U{1F9B7} Schedule different types of appointments\n\nTo get started, you can say:\n"
    + "- \"Show me available appointments\"\n- \"I need a cleaning appointment\"\n"
    + "- \"What times are available next week?\"\n\nOr call us directly at " + ClinicPhone + "."
  const KnowledgePrefix: string := "Based on our dental knowledge:\n\n"
  const GeneralSystemPrompt: string :=
    "You are a helpful dental clinic assistant for " + ClinicName + ". \n"
    + "            Provide helpful, professional, and friendly responses about dental care and services. \n"
    + "            If you don't know something specific about our clinic, suggest they call " + ClinicPhone
    + " for more information.\n            Keep responses concise but informative."
  const GeneralFallbackMessage: string :=
    "I'm here to help with your dental questions! You can ask me about:\n\n\U{2022} Our services and procedures\n"
    + "\U{2022} Appointment booking\n\U{2022} General dental care\n\U{2022} Office hours and location\n\n"
    + "What would you like to know?"

  /** The pieces of the prompt. */
  const InstructionsLabel: string := "Instructions: "
  const DefaultPreamble: string :=
    "You are a helpful dental clinic assistant for " + ClinicName + ". Provide professional and friendly dental advice."
  const ContextHeading: string := "Context from our knowledge base:\n"
  const QuestionLabel: string := "User question: "
  const ClosingLine: string := "Please provide a helpful response:"
  const PromptSeparator: string := "\n\n"

  /** One FAQ entry; an entry without keywords has the empty list. */
  datatype Faq = Faq(question: string, answer: string, keywords: seq<string>)

  /** The additional_data of a reply. */
  datatype ReplyData =
    | NoData
    | MatchedFaq(faq: Faq, confidence: Ratio)
    | ShowSlots(availableSlots: seq<Slot>)
    | BookingInfo
    | ContextUsed(relevantChunks: nat)
    | ContextAiError
    | AiGenerated
    | AiError

  datatype Reply = Reply(response: string, intent: string, data: ReplyData)

  /** One entry of the conversation history. */
  datatype Exchange = Exchange(userInput: string, botResponse: string, intent: string, timestamp: string)

  /** The language model: the reply text for a prompt, None when the call
      raises. */
  type Gemini = string -> Option<string>

  // ---------------------------------------------------------------------
  // FAQ matching
  // ---------------------------------------------------------------------

  /** Twice the score of _handle_faq: keyword hits count 2, hits of the
      question's words count 1. */
  function FaqScore(userInput: string, faq: Faq): nat
  {
    2 * CountIn(Lower(userInput), LowerAll(faq.keywords))
    + CountIn(Lower(userInput), LowerAll(Split(Lower(faq.question))))
  }

  function FaqScores(userInput: string, faqs: seq<Faq>): (s: seq<nat>)
    ensures |s| == |faqs|
    ensures forall k :: 0 <= k < |faqs| ==> s[k] == FaqScore(userInput, faqs[k])
    ensures forall k :: 0 <= k < |faqs| ==>
      s[k] <= 2 * |faqs[k].keywords| + |Split(Lower(faqs[k].question))|
    ensures forall k :: 0 <= k < |faqs| ==>
      (s[k] == 0 <==>
        (forall w :: w in LowerAll(faqs[k].keywords) ==> !Contains(Lower(userInput), w)) &&
        (forall w :: w in LowerAll(Split(Lower(faqs[k].question))) ==> !Contains(Lower(userInput), w)))
  {
    seq(|faqs|, k requires 0 <= k < |faqs| => FaqScore(userInput, faqs[k]))
  }

  /** The first position holding the largest entry, when that entry is
      positive. */
  function FirstBest(xs: seq<nat>): (r: Option<nat>)
    ensures r.None? <==> forall k :: 0 <= k < |xs| ==> xs[k] == 0
    ensures r.Some? ==> r.value < |xs| && xs[r.value] > 0
    ensures r.Some? ==> forall k :: 0 <= k < |xs| ==> xs[k] <= xs[r.value]
    ensures r.Some? ==> forall k :: 0 <= k < r.value ==> xs[k] < xs[r.value]
  {
    if |xs| == 0 || MaxOf(xs) == 0 then None else Some(FirstArgMax(xs))
  }

  /** The entry at a position, 0 for none. */
  function ScoreAt(xs: seq<nat>, b: Option<nat>): nat
  {
    if b.Some? && b.value < |xs| then xs[b.value] else 0
  }

  /** One more entry replaces the running best only when it is strictly
      larger. */
  lemma FirstBestStep(xs: seq<nat>, k: nat)
    requires k < |xs|
    ensures FirstBest(xs[..k + 1]) ==
      if xs[k] > ScoreAt(xs, FirstBest(xs[..k])) then Some(k) else FirstBest(xs[..k])
  {
    var p, q := xs[..k], xs[..k + 1];
    assert q[..k] == p;
    assert forall j :: 0 <= j < k ==> p[j] == xs[j] && q[j] == xs[j];
    if k > 0 {
      assert MaxOf(q) == Max(MaxOf(p), xs[k]);
    }
  }

  /** The FAQ _handle_faq settles on: the first one with the highest positive
      score, none when every score is zero. */
  function BestFaq(userInput: string, faqs: seq<Faq>): (r: Option<nat>)
    ensures r.None? <==> forall k :: 0 <= k < |faqs| ==> FaqScore(userInput, faqs[k]) == 0
    ensures r.Some? ==> r.value < |faqs| && FaqScore(userInput, faqs[r.value]) > 0
    ensures r.Some? ==> forall k :: 0 <= k < |faqs| ==> FaqScore(userInput, faqs[k]) <= FaqScore(userInput, faqs[r.value])
    ensures r.Some? ==> forall k :: 0 <= k < r.value ==> FaqScore(userInput, faqs[k]) < FaqScore(userInput, faqs[r.value])
  {
    FirstBest(FaqScores(userInput, faqs))
  }

  /** The loop of _handle_faq: the running best (doubled) score and the
      FAQ that reached it, replaced only on a strictly higher score. */
  method FindBestFaq(userInput: string, faqs: seq<Faq>) returns (best: Option<nat>, bestScore: nat)
    ensures best == FirstBest(FaqScores(userInput, faqs))
    ensures bestScore == ScoreAt(FaqScores(userInput, faqs), best)
  {
    ghost var scores := FaqScores(userInput, faqs);
    best := None;
    bestScore := 0;
    for k := 0 to |faqs|
      invariant best == FirstBest(scores[..k])
      invariant bestScore == ScoreAt(scores, best)
    {
      var total := ScoreFaq(userInput, faqs[k]);
      FirstBestStep(scores, k);
      if total > bestScore {
        bestScore := total;
        best := Some(k);
      }
    }
    assert scores[..|faqs|] == scores;
  }

  /** The score of one FAQ, doubled. */
  method ScoreFaq(userInput: string, faq: Faq) returns (total: nat)
    ensures total == FaqScore(userInput, faq)
  {
    var score := FindKeywordsInText(userInput, faq.keywords);
    var questionWords := Split(Lower(faq.question));
    var questionScore := FindKeywordsInText(userInput, questionWords);
    total := 2 * score + questionScore;
  }

  /** min(best / 3, 1) with best the undoubled score. */
  function FaqConfidence(doubled: nat): Ratio
  {
    Ratio(Min(doubled, 6), 6)
  }

  function FaqResponse(faq: Faq): string
  {
    "**" + faq.question + "**\n\n" + faq.answer
  }

  /** The reply of _handle_faq when some FAQ matched. */
  function FaqMatch(userInput: string, faqs: seq<Faq>): Option<Reply>
  {
    match BestFaq(userInput, faqs)
    case None => None
    case Some(i) =>
      Some(Reply(FaqResponse(faqs[i]), "faq", MatchedFaq(faqs[i], FaqConfidence(FaqScore(userInput, faqs[i])))))
  }

  /** An FAQ reply exists exactly when some FAQ scores; it quotes the best
      FAQ, with a confidence in (0, 1]. */
  lemma FaqMatchFacts(userInput: string, faqs: seq<Faq>)
    ensures FaqMatch(userInput, faqs).Some? <==> exists k :: 0 <= k < |faqs| && FaqScore(userInput, faqs[k]) > 0
    ensures FaqMatch(userInput, faqs).Some? ==>
      var r := FaqMatch(userInput, faqs).value;
      var i := BestFaq(userInput, faqs).value;
      r.intent == "faq" && r.data == MatchedFaq(faqs[i], r.data.confidence) && r.response == FaqResponse(faqs[i]) &&
      0 < r.data.confidence.num <= r.data.confidence.den
  {
    if FaqMatch(userInput, faqs).None? {
      assert forall k :: 0 <= k < |faqs| ==> FaqScore(userInput, faqs[k]) == 0;
    }
  }

  // ---------------------------------------------------------------------
  // Booking replies
  // ---------------------------------------------------------------------

  predicate AsksForSlots(userInput: string)
  {
    exists k :: 0 <= k < |SlotWords| && Contains(Lower(userInput), SlotWords[k])
  }

  /** get_available_slots(5). */
  function FirstAvailable(slots: seq<Slot>): seq<Slot>
  {
    var all := Select(slots, IsAvailable());
    all[..Min(SlotsShown, |all|)]
  }

  /** The listing line of the i-th slot, counting from 1. */
  function SlotLine(i: nat, slot: Slot, formatSlot: Slot -> string): string
  {
    "**" + NatToString(i) + ". " + formatSlot(slot) + "**\n\n"
  }

  function SlotLines(slots: seq<Slot>, formatSlot: Slot -> string): string
  {
    if slots == [] then ""
    else SlotLines(slots[..|slots| - 1], formatSlot) + SlotLine(|slots|, slots[|slots| - 1], formatSlot)
  }

  /** What _handle_booking returns. */
  function BookingReply(userInput: string, slots: seq<Slot>, formatSlot: Slot -> string): Reply
  {
    if AsksForSlots(userInput) then
      var shown := FirstAvailable(slots);
      if shown != [] then Reply(SlotsHeader + SlotLines(shown, formatSlot) + SlotsFooter, "booking", ShowSlots(shown))
      else Reply(NoSlotsMessage, "booking", NoData)
    else Reply(BookingInfoMessage, "booking", BookingInfo)
  }

  /** A request for slots lists the first (at most five) open slots, or says
      there are none exactly when no slot is open; any other booking request
      gets the booking information. */
  lemma BookingReplyFacts(userInput: string, slots: seq<Slot>, formatSlot: Slot -> string)
    ensures var r := BookingReply(userInput, slots, formatSlot);
      r.intent == "booking" &&
      (r.data == BookingInfo <==> !AsksForSlots(userInput)) &&
      (r.data == NoData <==> AsksForSlots(userInput) && forall x :: x in slots ==> !x.available) &&
      (r.data.ShowSlots? ==>
        1 <= |r.data.availableSlots| <= SlotsShown &&
        r.data.availableSlots == FirstAvailable(slots) &&
        forall x :: x in r.data.availableSlots ==> x in slots && x.available)
  {
    var all := Select(slots, IsAvailable());
    if AsksForSlots(userInput) && FirstAvailable(slots) == [] {
      forall x | x in slots ensures !x.available {
        if x.available {
          SelectComplete(slots, IsAvailable(), x);
        }
      }
    }
    forall x | x in FirstAvailable(slots) ensures x in slots && x.available {
      assert x in all;
    }
  }

  // ---------------------------------------------------------------------
  // The prompt and the model
  // ---------------------------------------------------------------------

  /** prompt_parts of _generate_ai_response. */
  function PromptParts(userInput: string, context: string, systemPrompt: string): seq<string>
  {
    [if systemPrompt != "" then InstructionsLabel + systemPrompt else DefaultPreamble]
    + (if context != "" then [ContextHeading + context] else [])
    + [QuestionLabel + userInput, ClosingLine]
  }

  function BuildPrompt(userInput: string, context: string, systemPrompt: string): string
  {
    Join(PromptSeparator, PromptParts(userInput, context, systemPrompt))
  }

  /** The prompt opens with the instructions or the default preamble, has a
      context section exactly when there is context, quotes the question,
      and closes with the request for a reply. */
  lemma PromptFacts(userInput: string, context: string, systemPrompt: string)
    ensures var parts := PromptParts(userInput, context, systemPrompt);
      var prompt := BuildPrompt(userInput, context, systemPrompt);
      StartsWith(prompt, if systemPrompt != "" then InstructionsLabel + systemPrompt else DefaultPreamble) &&
      (context != "" ==> |parts| == 4 && parts[1] == ContextHeading + context && Contains(prompt, ContextHeading + context)) &&
      (context == "" ==> parts == [parts[0], QuestionLabel + userInput, ClosingLine]) &&
      Contains(prompt, QuestionLabel + userInput) &&
      EndsWith(prompt, ClosingLine)
  {
    var parts := PromptParts(userInput, context, systemPrompt);
    var n := |parts|;
    JoinStartsWith(PromptSeparator, parts);
    JoinEndsWith(PromptSeparator, parts);
    JoinContainsPart(PromptSeparator, parts, n - 2);
    if context != "" {
      JoinContainsPart(PromptSeparator, parts, 1);
    }
  }

  /** What _generate_ai_response returns, None when it raises. */
  function AiResponse(hasModel: bool, userInput: string, context: string, systemPrompt: string, gemini: Gemini): Option<string>
  {
    if !hasModel then None
    else
      match gemini(BuildPrompt(userInput, context, systemPrompt))
      case None => None
      case Some(text) => Some(Strip(text))
  }

  // ---------------------------------------------------------------------
  // Knowledge and general replies
  // ---------------------------------------------------------------------

  /** What _handle_general_query returns. */
  function GeneralReply(userInput: string, hasModel: bool, gemini: Gemini): Reply
  {
    match AiResponse(hasModel, userInput, "", GeneralSystemPrompt, gemini)
    case Some(text) => Reply(text, "general", AiGenerated)
    case None => Reply(GeneralFallbackMessage, "general", AiError)
  }

  /** What _handle_knowledge_query returns for the retrieval answer. */
  function KnowledgeReply(userInput: string, answer: Answer, hasModel: bool, gemini: Gemini): Reply
  {
    if answer.hasContext then
      match AiResponse(hasModel, userInput, answer.context, "", gemini)
      case Some(text) => Reply(text, "knowledge", ContextUsed(|answer.relevantChunks|))
      case None =>
        var preview := answer.context[..Min(ContextPreviewLength, |answer.context|)];
        Reply(KnowledgePrefix + preview + "...", "knowledge", ContextAiError)
    else GeneralReply(userInput, hasModel, gemini)
  }

  /** What _handle_faq returns. */
  function FaqReply(userInput: string, faqs: seq<Faq>, answer: Answer, hasModel: bool, gemini: Gemini): Reply
  {
    match FaqMatch(userInput, faqs)
    case Some(r) => r
    case None => KnowledgeReply(userInput, answer, hasModel, gemini)
  }

  /** What process_message returns; answer is the retrieval answer for the
      input, consulted only on the knowledge paths. */
  function Respond(userInput: string, faqs: seq<Faq>, slots: seq<Slot>, answer: Answer, hasModel: bool,
                   gemini: Gemini, formatSlot: Slot -> string): Reply
  {
    if !HasNonSpace(userInput) then Reply(EmptyInputMessage, "general", NoData)
    else
      var intent := Classify(userInput);
      if intent == "faq" then FaqReply(userInput, faqs, answer, hasModel, gemini)
      else if intent == "booking" then BookingReply(userInput, slots, formatSlot)
      else if intent == "knowledge" then KnowledgeReply(userInput, answer, hasModel, gemini)
      else GeneralReply(userInput, hasModel, gemini)
  }

  /** Blank input gets the prompt to say something, without classifying. */
  lemma BlankInputIsGeneral(userInput: string, faqs: seq<Faq>, slots: seq<Slot>, answer: Answer, hasModel: bool,
                            gemini: Gemini, formatSlot: Slot -> string)
    requires !HasNonSpace(userInput)
    ensures Respond(userInput, faqs, slots, answer, hasModel, gemini, formatSlot) == Reply(EmptyInputMessage, "general", NoData)
  {
  }

  /** The FAQ handler answers as faq exactly when some FAQ matched, and
      otherwise as the knowledge handler does. */
  lemma FaqReplyIntent(userInput: string, faqs: seq<Faq>, answer: Answer, hasModel: bool, gemini: Gemini)
    ensures FaqMatch(userInput, faqs).Some? ==> FaqReply(userInput, faqs, answer, hasModel, gemini).intent == "faq"
    ensures FaqMatch(userInput, faqs).None? ==>
      FaqReply(userInput, faqs, answer, hasModel, gemini) == KnowledgeReply(userInput, answer, hasModel, gemini)
  {
    FaqMatchFacts(userInput, faqs);
  }

  /** The knowledge handler answers as knowledge exactly when the retrieval
      found context, and as general otherwise. */
  lemma KnowledgeReplyIntent(userInput: string, answer: Answer, hasModel: bool, gemini: Gemini)
    ensures KnowledgeReply(userInput, answer, hasModel, gemini).intent ==
      if answer.hasContext then "knowledge" else "general"
  {
  }

  /** The intent the reply carries, case by case. */
  lemma ReplyIntentCases(userInput: string, faqs: seq<Faq>, slots: seq<Slot>, answer: Answer, hasModel: bool,
                         gemini: Gemini, formatSlot: Slot -> string)
    ensures Respond(userInput, faqs, slots, answer, hasModel, gemini, formatSlot).intent ==
      if !HasNonSpace(userInput) then "general"
      else if Classify(userInput) == "booking" then "booking"
      else if Classify(userInput) == "faq" && FaqMatch(userInput, faqs).Some? then "faq"
      else if answer.hasContext then "knowledge"
      else "general"
  {
    var r := Respond(userInput, faqs, slots, answer, hasModel, gemini, formatSlot);
    var intent := Classify(userInput);
    KnowledgeReplyIntent(userInput, answer, hasModel, gemini);
    if HasNonSpace(userInput) {
      if intent == "faq" {
        FaqReplyIntent(userInput, faqs, answer, hasModel, gemini);
      } else if intent == "booking" {
        assert r == BookingReply(userInput, slots, formatSlot);
      } else {
        assert r == KnowledgeReply(userInput, answer, hasModel, gemini);
      }
    }
  }

  /** The intent of the reply: booking requests stay booking; a question
      stays faq only when some FAQ matches; everything else becomes knowledge
      when the retrieval found context and general otherwise. The general
      handler is never chosen by the classifier itself. */
  lemma ReplyIntent(userInput: string, faqs: seq<Faq>, slots: seq<Slot>, answer: Answer, hasModel: bool,
                    gemini: Gemini, formatSlot: Slot -> string)
    ensures var r := Respond(userInput, faqs, slots, answer, hasModel, gemini, formatSlot);
      var asked := HasNonSpace(userInput);
      var intent := Classify(userInput);
      var faqHit := intent == "faq" && FaqMatch(userInput, faqs).Some?;
      (r.intent == "booking" <==> asked && intent == "booking") &&
      (r.intent == "faq" <==> asked && faqHit) &&
      (r.intent == "knowledge" <==> asked && intent != "booking" && !faqHit && answer.hasContext) &&
      (r.intent == "general" <==> !asked || (intent != "booking" && !faqHit && !answer.hasContext))
  {
    ReplyIntentCases(userInput, faqs, slots, answer, hasModel, gemini, formatSlot);
  }

  // ---------------------------------------------------------------------
  // Conversation history
  // ---------------------------------------------------------------------

  /** The last HistoryLimit entries. */
  function Recent(h: seq<Exchange>): seq<Exchange>
  {
    if |h| > HistoryLimit then h[|h| - HistoryLimit..] else h
  }

  /** Appending to a history within the limit keeps everything while there is
      room, and otherwise drops exactly the oldest entry. */
  lemma HistoryAppend(h: seq<Exchange>, e: Exchange)
    requires |h| <= HistoryLimit
    ensures Recent(h + [e]) == if |h| < HistoryLimit then h + [e] else h[1..] + [e]
    ensures |Recent(h + [e])| <= HistoryLimit && Recent(h + [e])[|Recent(h + [e])| - 1] == e
  {
    if |h| == HistoryLimit {
      assert (h + [e])[1..] == h[1..] + [e];
    }
  }

  // ---------------------------------------------------------------------
  // The assistant
  // ---------------------------------------------------------------------

  /** DentalAssistantBot. hasModel says whether a Gemini key was
      configured; formatSlot stands for format_slot_display. */
  class DentalAssistantBot {
    const hasModel: bool
    const booking: BookingSystem
    const rag: RagSystem
    const faqs: seq<Faq>
    const formatSlot: Slot -> string
    var conversationHistory: seq<Exchange>
    var userContext: map<string, string>

    predicate Valid()
      reads this
    {
      |conversationHistory| <= HistoryLimit
    }

    constructor(hasModel: bool, booking: BookingSystem, rag: RagSystem, faqs: seq<Faq>, formatSlot: Slot -> string)
      ensures Valid()
      ensures this.hasModel == hasModel && this.booking == booking && this.rag == rag
      ensures this.faqs == faqs && this.formatSlot == formatSlot
      ensures conversationHistory == [] && userContext == map[]
    {
      this.hasModel := hasModel;
      this.booking := booking;
      this.rag := rag;
      this.faqs := faqs;
      this.formatSlot := formatSlot;
      conversationHistory := [];
      userContext := map[];
    }

    /** The retrieval answer for a question. */
    function RagAnswer(question: string, hits: Option<seq<EmbeddingHit>>): Answer
      reads rag
      requires HitsInRange(rag.knowledgeChunks, hits)
    {
      AnswerFor(rag.knowledgeChunks, rag.hasModel, rag.hasEmbeddings, question, hits)
    }

    /** process_message. */
    method ProcessMessage(userInput: string, hits: Option<seq<EmbeddingHit>>, gemini: Gemini) returns (reply: Reply)
      requires HitsInRange(rag.knowledgeChunks, hits)
      ensures reply == Respond(userInput, faqs, booking.slots, RagAnswer(userInput, hits), hasModel, gemini, formatSlot)
    {
      StripShape(userInput);
      if |Strip(userInput)| == 0 {
        return Reply(EmptyInputMessage, "general", NoData);
      }
      var intent := ClassifyIntent(userInput);
      if intent == "faq" {
        reply := HandleFaq(userInput, hits, gemini);
      } else if intent == "booking" {
        reply := HandleBooking(userInput);
      } else if intent == "knowledge" {
        reply := HandleKnowledgeQuery(userInput, hits, gemini);
      } else {
        reply := HandleGeneralQuery(userInput, gemini);
      }
    }

    /** _handle_faq: the best FAQ's question and answer, or the knowledge
        handler when no FAQ scores. */
    method HandleFaq(userInput: string, hits: Option<seq<EmbeddingHit>>, gemini: Gemini) returns (reply: Reply)
      requires HitsInRange(rag.knowledgeChunks, hits)
      ensures reply == FaqReply(userInput, faqs, RagAnswer(userInput, hits), hasModel, gemini)
    {
      var best, bestScore := FindBestFaq(userInput, faqs);
      if best.Some? && bestScore > 0 {
        var faq := faqs[best.value];
        reply := Reply(FaqResponse(faq), "faq", MatchedFaq(faq, FaqConfidence(bestScore)));
      } else {
        reply := HandleKnowledgeQuery(userInput, hits, gemini);
      }
    }

    /** _handle_booking: the open slots when asked for them, else the booking
        information. */
    method HandleBooking(userInput: string) returns (reply: Reply)
      ensures reply == BookingReply(userInput, booking.slots, formatSlot)
    {
      if AsksForSlots(userInput) {
        var shown := booking.GetAvailableSlots(SlotsShown);
        if shown != [] {
          var response := ListSlots(shown);
          return Reply(response, "booking", ShowSlots(shown));
        }
        return Reply(NoSlotsMessage, "booking", NoData);
      }
      reply := Reply(BookingInfoMessage, "booking", BookingInfo);
    }

    /** The slot listing of _handle_booking: a numbered line per slot between
        the header and the instructions. */
    method ListSlots(shown: seq<Slot>) returns (response: string)
      ensures response == SlotsHeader + SlotLines(shown, formatSlot) + SlotsFooter
    {
      response := SlotsHeader;
      for i := 0 to |shown|
        invariant response == SlotsHeader + SlotLines(shown[..i], formatSlot)
      {
        assert shown[..i + 1][..i] == shown[..i];
        response := response + SlotLine(i + 1, shown[i], formatSlot);
      }
      assert shown[..|shown|] == shown;
      response := response + SlotsFooter;
    }

    /** _handle_knowledge_query. */
    method HandleKnowledgeQuery(userInput: string, hits: Option<seq<EmbeddingHit>>, gemini: Gemini) returns (reply: Reply)
      requires HitsInRange(rag.knowledgeChunks, hits)
      ensures reply == KnowledgeReply(userInput, RagAnswer(userInput, hits), hasModel, gemini)
    {
      var ragResult := rag.AnswerQuestionWithContext(userInput, hits);
      if ragResult.hasContext {
        var text := GenerateAiResponse(userInput, ragResult.context, "", gemini);
        match text {
          case Some(t) =>
            reply := Reply(t, "knowledge", ContextUsed(|ragResult.relevantChunks|));
          case None =>
            var preview := ragResult.context[..Min(ContextPreviewLength, |ragResult.context|)];
            reply := Reply(KnowledgePrefix + preview + "...", "knowledge", ContextAiError);
        }
      } else {
        reply := HandleGeneralQuery(userInput, gemini);
      }
    }

    /** _handle_general_query. */
    method HandleGeneralQuery(userInput: string, gemini: Gemini) returns (reply: Reply)
      ensures reply == GeneralReply(userInput, hasModel, gemini)
    {
      var text := GenerateAiResponse(userInput, "", GeneralSystemPrompt, gemini);
      match text {
        case Some(t) => reply := Reply(t, "general", AiGenerated);
        case None => reply := Reply(GeneralFallbackMessage, "general", AiError);
      }
    }

    /** _generate_ai_response: no model raises before any prompt is built;
        otherwise the prompt parts are collected, joined and sent. */
    method GenerateAiResponse(userInput: string, context: string, systemPrompt: string, gemini: Gemini)
      returns (text: Option<string>)
      ensures !hasModel ==> text == None
      ensures text == AiResponse(hasModel, userInput, context, systemPrompt, gemini)
    {
      if !hasModel {
        return None;
      }
      var parts: seq<string> := [];
      if systemPrompt != "" {
        parts := parts + [InstructionsLabel + systemPrompt];
      } else {
        parts := parts + [DefaultPreamble];
      }
      if context != "" {
        parts := parts + [ContextHeading + context];
      }
      parts := parts + [QuestionLabel + userInput];
      parts := parts + [ClosingLine];
      assert parts == PromptParts(userInput, context, systemPrompt);
      var fullPrompt := Join(PromptSeparator, parts);
      match gemini(fullPrompt) {
        case None => text := None;
        case Some(t) => text := Some(Strip(t));
      }
    }

    /** add_to_conversation_history: append, then keep the last ten. */
    method AddToConversationHistory(userInput: string, botResponse: string, intent: string)
      modifies this
      ensures conversationHistory == Recent(old(conversationHistory) + [Exchange(userInput, botResponse, intent, NoTimestamp)])
      ensures userContext == old(userContext)
      ensures Valid()
    {
      conversationHistory := conversationHistory + [Exchange(userInput, botResponse, intent, NoTimestamp)];
      if |conversationHistory| > HistoryLimit {
        conversationHistory := conversationHistory[|conversationHistory| - HistoryLimit..];
      }
    }

    /** set_user_context. */
    method SetUserContext(key: string, value: string)
      modifies this
      ensures userContext == old(userContext)[key := value]
      ensures GetUserContext(key) == Some(value)
      ensures forall k :: k != key ==> GetUserContext(k) == old(GetUserContext(k))
      ensures conversationHistory == old(conversationHistory)
    {
      userContext := userContext[key := value];
    }

    /** get_user_context: the stored value, None for an unknown key. */
    function GetUserContext(key: string): (r: Option<string>)
      reads this
      ensures r.Some? <==> key in userContext
      ensures r.Some? ==> r.value == userContext[key]
    {
      if key in userContext then Some(userContext[key]) else None
    }
  }
}
