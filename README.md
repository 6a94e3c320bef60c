# Dental clinic assistant: a verified model of its core

The system is a chat assistant for a dental clinic. A message is first checked
for content. It is then classified by keyword counting as a booking request, an
FAQ question or a knowledge question, and routed to a handler:

- The FAQ handler scores every FAQ entry against the message and quotes the
  best one. When no entry scores, it defers to the knowledge handler.
- The booking handler lists the first open appointment slots, or explains how
  to book.
- The knowledge handler retrieves chunks of a knowledge base and hands them,
  with the question, to a language model. When retrieval finds nothing, the
  general handler asks the model without context. When the model call fails,
  the knowledge handler quotes the first 500 characters of the retrieved
  context and the general handler gives a fixed apology.

The assistant also keeps the last ten exchanges and a small key/value user
context.

The model has one Dafny module per source file:

- `Text` (text.dfy): Python's `str.lower`, `strip`, `split`, `join`, `in`,
  `startswith` and `sorted` on strings, restricted to ASCII.
- `Helpers` (helpers.dfy): `chunk_text`, `find_keywords_in_text` and
  `clean_text` of utils/helpers.py.
- `Intent` (intent.dfy) and `IntentExamples` (intent_examples.dfy): the
  classifier of modules/intent_classifier.py.
- `KeywordScan` and `IntentExampleProofs` (intent_example_proofs.dfy): how the
  classifier treats each of its own example phrases. `KeywordScan` holds
  general facts about keyword search on a fixed text. `IntentExampleProofs`
  scores each phrase against the three keyword tables.
- `Booking` (booking.dfy): `BookingSystem` of modules/booking_system.py. It is a
  class whose two fields are the slot list and the booking list. Booking and
  cancelling are also given as transitions on an `AppointmentsData` value, and
  the lemmas are proved about those transitions.
- `Rag` (rag.dfy): `RAGSystem` of modules/rag_system.py. It is a class holding
  the chunks and whether the model and the embeddings are available.
- `Chatbot` (chatbot.dfy): `DentalAssistantBot` of modules/chatbot.py. Its
  methods follow the handlers step by step. Beside them are the functions
  (`Respond`, `FaqReply`, `BookingReply`, `KnowledgeReply`, `GeneralReply`,
  `BuildPrompt`) that specify what each handler returns.
- `Common` (common.dfy): `Option` and the non-negative fraction `Ratio`.

The code and its docstrings disagree in one place. The docstring of
`classify_intent` lists 'general' among its answers, but the code never returns
it. The model follows the code (`Intent.NeverGeneral`), so the final else
branch of `process_message` is unreachable; `_handle_general_query` runs only
from the knowledge handler (directly or via the FAQ handler).

Fractions are kept exact. A fallback search score is `Ratio(matches,
|query words|)`. All scores of one search share a denominator, so they are
ranked by their numerators. The FAQ score `keywords + 0.5 * question words` is
kept doubled, as the integer `2 * keywords + question words`, and its
confidence `min(score / 3, 1)` is `Ratio(min(doubled, 6), 6)`.

## Model

| member | source | states |
|---|---|---|
| Helpers.ChunkText | utils/helpers.py:38-53 | the chunks are the word windows starting at 0, step, 2·step, … (step = size − overlap) of `text.split()`, each of at most size words joined by single spaces, stopping after the first window that reaches the last word; empty text gives no chunks |
| Helpers.ChunkWordList | utils/helpers.py:44-53 | the `range(0, len(words), step)` loop with its early break produces exactly those joined windows |
| Helpers.ChunkCountBounds | utils/helpers.py:46-51 | the last window starts inside the word list and reaches its end, and the window before it stops short of the end |
| Helpers.ChunkCountClosedForm | utils/helpers.py:46-51 | past one window there are 1 + ⌈(n − size) / step⌉ windows |
| Helpers.ChunkCountUnique | utils/helpers.py:46-51 | the window count is the one determined by the loop's break condition |
| Helpers.WindowFacts | utils/helpers.py:46-51 | window k is `words[k·step .. k·step + size]` clamped to the list; every window but the last ends before the last word, the last reaches it |
| Helpers.NoChunksIffBlank | utils/helpers.py:38-53 | a text yields no chunk exactly when it has no non-whitespace character |
| Helpers.ChunksNonBlank | utils/helpers.py:38-53 | every chunk holds a non-whitespace character |
| Helpers.ChunkWords | utils/helpers.py:47 | splitting chunk k gives back window k, of between 1 and size words |
| Helpers.SingleChunk | utils/helpers.py:46-51 | words that fit in one window give one chunk, all of them joined |
| Helpers.OnlyLastChunkShort | utils/helpers.py:46-51 | every chunk but the last holds exactly size words; the last ends at the final word |
| Helpers.ConsecutiveChunksOverlap | utils/helpers.py:46-47 | consecutive chunks share exactly overlap words: the first overlap words of one are the last overlap words of the one before |
| Helpers.ReassembleWindows | utils/helpers.py:46-51 | the first window plus every later window without its first overlap words is the whole word list |
| Helpers.PiecesOfJoinedWindows | utils/helpers.py:47 | splitting each joined chunk again gives back the windows |
| Helpers.ChunkRoundTrip | utils/helpers.py:38-53 | the chunks, split and put back together without their overlaps, give `text.split()` back |
| Helpers.FindKeywordsInText | utils/helpers.py:67-74 | the count is how many keywords, lowercased, occur in the lowercased text, and never more than the number of keywords |
| Helpers.EmptyKeywordCounts | utils/helpers.py:72 | an empty keyword occurs in every text, so it always counts |
| Helpers.CleanText | utils/helpers.py:63-65 | the cleaned text is empty exactly when the text is all whitespace |
| Helpers.CleanTextIdempotent | utils/helpers.py:63-65 | cleaning cleaned text changes nothing |
| Text.StripShape | modules/chatbot.py:36 | `s.strip()` is empty exactly when s is all whitespace, and otherwise starts and ends with non-whitespace |
| Text.SplitEmptyIff | utils/helpers.py:43 | `s.split()` yields no words exactly when s is all whitespace |
| Text.SplitJoin | utils/helpers.py:47 | words joined by single spaces split back into the same words |
| Text.CountIn | modules/intent_classifier.py:36-39 | the number of keys occurring is at most the number of keys, zero exactly when none occurs, and all of them exactly when every one occurs |
| Text.LowerIdempotent | utils/helpers.py:72 | lowering twice is lowering once |
| Text.SortSet | modules/booking_system.py:176 | `sorted(list(s))` lists each element of s exactly once, in strictly ascending order |
| Text.JoinHasNonSpace | modules/rag_system.py:129 | joining with a whitespace separator gives non-whitespace exactly when some part has it |
| Intent.Classify | modules/intent_classifier.py:26-62 | the answer is always one of 'booking', 'faq', 'knowledge' |
| Intent.ScoreIntent | modules/intent_classifier.py:36-40 | an intent's score is the number of its keywords occurring in the lowercased input |
| Intent.Fallback | modules/intent_classifier.py:46-62 | with no keyword match: a booking phrase gives 'booking', else a leading question word gives 'faq', else 'knowledge' |
| Intent.ClassifyIntent | modules/intent_classifier.py:26-62 | the looping classifier returns exactly `Classify` |
| Intent.Scores | modules/intent_classifier.py:34-40 | each intent's score is at most its number of keywords, and zero exactly when none of its keywords occurs in the input |
| Intent.MaxOf | modules/intent_classifier.py:43 | the largest score: no score exceeds it and some score equals it |
| Intent.FirstArgMax | modules/intent_classifier.py:44 | `max(d, key=d.get)` picks the first intent with the largest score |
| Intent.NeverGeneral | modules/intent_classifier.py:26-62 | the classifier never answers 'general' |
| Intent.ClassifyIsFirstBest | modules/intent_classifier.py:42-44 | once some keyword matches, the answer has the highest score and every intent before it scores strictly less |
| Intent.ClassifyByScores | modules/intent_classifier.py:42-44 | booking wins a tie with either other intent, and faq wins a tie with knowledge |
| Intent.PhrasesHoldBookingKeywords | modules/intent_classifier.py:8-12 | every booking phrase contains a booking keyword |
| Intent.BookingPhraseFallbackDead | modules/intent_classifier.py:46-53 | an input holding a booking phrase already scores above zero for booking, so the phrase check never decides |
| Intent.ZeroScoreFallback | modules/intent_classifier.py:55-62 | with no keyword match the answer is 'faq' exactly when the input starts with a question word, and 'knowledge' otherwise |
| Intent.KeywordsOf | modules/intent_classifier.py:67 | `intent_patterns.get(intent, [])` is empty exactly for an unknown intent |
| Intent.ConfidenceScore | modules/intent_classifier.py:64-70 | the confidence is matches / number of keywords for a known intent, 0 for an unknown one, and never above 1 |
| IntentExamples.SuggestIntentExamples | modules/intent_classifier.py:72-90 | three examples for each intent, in the table's order |
| IntentExampleProofs.ExamplesClassifyAsListed | modules/intent_classifier.py:72-90 | every example phrase is classified as the intent it is listed under |
| IntentExampleProofs.ClassifyWithCounts | modules/intent_classifier.py:34-44 | once the booking, faq and knowledge scores are known and one is positive, the answer is 'booking' if booking scores at least both others, else 'faq' if faq scores at least knowledge, else 'knowledge' |
| IntentExampleProofs.BookAnAppointmentClassified | modules/intent_classifier.py:76 | "I'd like to book an appointment" is classified as 'booking'; it scores 2 for booking and nothing else |
| IntentExampleProofs.AvailableNextWeekClassified | modules/intent_classifier.py:77 | "When are you available next week?" is classified as 'booking'; it scores 1 for booking and nothing else |
| IntentExampleProofs.ScheduleCleaningClassified | modules/intent_classifier.py:78 | "Schedule me for a cleaning" is classified as 'booking'; it scores 1 for booking and 1 for knowledge, a tie that booking wins |
| IntentExampleProofs.OfficeHoursClassified | modules/intent_classifier.py:81 | "What are your office hours?" is classified as 'faq'; it scores 1 for faq and nothing else |
| IntentExampleProofs.AcceptInsuranceClassified | modules/intent_classifier.py:82 | "Do you accept my insurance?" is classified as 'faq'; it scores 3 for faq and nothing else |
| IntentExampleProofs.CleaningCostClassified | modules/intent_classifier.py:83 | "How much does a cleaning cost?" is classified as 'faq'; it scores 2 for faq and 1 for knowledge |
| IntentExampleProofs.RootCanalClassified | modules/intent_classifier.py:86 | "What is a root canal?" is classified as 'knowledge'; it scores 2 for knowledge and nothing else |
| IntentExampleProofs.CareAfterSurgeryClassified | modules/intent_classifier.py:87 | "How do I care for my teeth after surgery?" is classified as 'knowledge'; it scores 1 for knowledge and nothing else |
| IntentExampleProofs.TeethWhiteningClassified | modules/intent_classifier.py:88 | "Tell me about teeth whitening options" is classified as 'knowledge'; it scores 2 for knowledge and nothing else |
| KeywordScan.CountInHits | modules/intent_classifier.py:36-40 | the score is the number of keywords shown to occur, when every other keyword is shown not to occur |
| KeywordScan.AbsentChar | modules/intent_classifier.py:38 | a keyword does not occur in a text that lacks one of its characters |
| KeywordScan.AbsentPair | modules/intent_classifier.py:38 | a keyword does not occur in a text where two of its adjacent characters are never adjacent |
| Booking.Select | modules/booking_system.py:21-46 | a filter keeps only accepted slots, all taken from the list |
| Booking.SelectAppend | modules/booking_system.py:21-46 | filtering keeps the stored order of the slots |
| Booking.SelectComplete | modules/booking_system.py:24-26 | every slot the filter accepts is kept |
| Booking.AvailableValues | modules/booking_system.py:170-184 | a value is collected exactly when some available slot carries it |
| Booking.FindSlot | modules/booking_system.py:54-58 | the first slot with the id, or none exactly when no slot has it |
| Booking.FindBooking | modules/booking_system.py:119-123 | the first booking with the id, or none exactly when no booking has it |
| Booking.RemoveAt | modules/booking_system.py:141 | `del bookings[k]` removes entry k and keeps the others in order |
| Booking.FindSlotSameIds | modules/booking_system.py:54-58 | which slot is found depends only on the slot ids |
| Booking.FindBookingAppended | modules/booking_system.py:95 | under a fresh id, the appended booking is the one found |
| Booking.BookUnknownSlot | modules/booking_system.py:60-65 | an unknown slot id fails with 'Appointment slot not found.' and changes nothing |
| Booking.BookTakenSlot | modules/booking_system.py:67-74 | a taken slot fails with 'This appointment slot is no longer available.' and changes nothing |
| Booking.BookFreeSlot | modules/booking_system.py:76-113 | booking a free slot appends one confirmed record copying the slot, marks only that slot taken, keeps everything else, and reports success with the booking id exactly when saving succeeded (the change stays in memory either way) |
| Booking.SecondBookingFails | modules/booking_system.py:67-74 | booking the same slot again fails with 'This appointment slot is no longer available.' and changes nothing, whether or not the first save succeeded |
| Booking.BookPreservesInv | modules/booking_system.py:48-113 | booking keeps slot ids unique, one booking per slot, and every booked slot unavailable |
| Booking.CancelUnknownBooking | modules/booking_system.py:125-129 | an unknown booking id fails with 'Booking not found.' and changes nothing |
| Booking.CancelKnownBooking | modules/booking_system.py:131-152 | cancelling deletes the first booking with the id, reopens the first slot with its slot id, changes nothing else, and reports success exactly when saving succeeded |
| Booking.ReopenSameIds | modules/booking_system.py:135-138 | reopening a slot changes no id and no other slot |
| Booking.RemoveKeepsOnePerSlot | modules/booking_system.py:141 | deleting a booking keeps one booking per slot |
| Booking.CancelPreservesInv | modules/booking_system.py:115-152 | cancelling keeps the store invariant |
| Booking.BookThenCancelRestores | modules/booking_system.py:48-152 | booking a free slot under a fresh id and then cancelling that id restores both lists |
| Booking.BookingSystem.constructor | modules/booking_system.py:9-11 | the store holds the loaded document |
| Booking.BookingSystem.GetAvailableSlots | modules/booking_system.py:21-29 | the available slots in stored order, cut at limit; a limit below 1 still returns the first available slot |
| Booking.BookingSystem.GetSlotsByDate | modules/booking_system.py:31-37 | the available slots on the date, in stored order |
| Booking.BookingSystem.GetSlotsByType | modules/booking_system.py:39-46 | the available slots whose type matches up to case, in stored order |
| Booking.BookingSystem.GetBookingSummary | modules/booking_system.py:163-168 | the first booking with the id, or none exactly when there is no such booking |
| Booking.BookingSystem.CollectAvailable | modules/booking_system.py:172-175 | the loop collects exactly the values of the available slots |
| Booking.BookingSystem.GetAvailableDates | modules/booking_system.py:170-176 | each date with an available slot, once, in ascending order, and no other date |
| Booking.BookingSystem.GetAvailableTypes | modules/booking_system.py:178-184 | each type with an available slot, once, in ascending order, and no other type |
| Booking.BookingSystem.BookAppointment | modules/booking_system.py:48-113 | the new lists and the result are those of the `Book` transition on the old lists, and the store invariant is kept |
| Booking.BookingSystem.CancelBooking | modules/booking_system.py:115-152 | the new lists and the result are those of the `Cancel` transition on the old lists, and the store invariant is kept |
| Rag.Insert | modules/rag_system.py:111 | inserting one entry adds exactly that entry |
| Rag.SortByScore | modules/rag_system.py:111 | the sort is a permutation of the results |
| Rag.InsertRanked | modules/rag_system.py:111 | inserting into a ranked list an entry whose chunk comes before the chunk of every listed entry keeps the list ranked, which is what makes the descending sort stable |
| Rag.SortRanked | modules/rag_system.py:111 | the stable descending sort of results in chunk order ranks them by score, and equal scores by chunk position |
| Rag.Candidates | modules/rag_system.py:95-108 | one entry per chunk that some query word occurs in, in chunk order, each quoting its chunk and scored matches / number of words |
| Rag.CandidatesCover | modules/rag_system.py:100-108 | every chunk that some query word occurs in has an entry |
| Rag.SortedCandidates | modules/rag_system.py:110-111 | the sorted entries are ranked and are all candidates |
| Rag.FallbackFacts | modules/rag_system.py:88-112 | the hits are the first MaxChunks ranked candidates, fewer only when fewer chunks match |
| Rag.PrefixRanked | modules/rag_system.py:112 | truncating a ranked list keeps it ranked |
| Rag.FallbackHitScore | modules/rag_system.py:96-108 | each hit quotes its chunk and scores the share of query words in it: above 0, and 1 exactly when every word occurs |
| Rag.CandidateSorted | modules/rag_system.py:102-111 | a matching chunk is among the sorted entries |
| Rag.FallbackKeepsBest | modules/rag_system.py:110-112 | a matching chunk left out of the hits is outranked by every hit |
| Rag.OutrankedByPrefix | modules/rag_system.py:112 | in a ranked list, every entry of a prefix outranks any entry after it |
| Rag.BlankQueryFindsNothing | modules/rag_system.py:99-102 | a query without words finds nothing |
| Rag.MatchedChunkNonBlank | modules/rag_system.py:100 | a chunk that a query word occurs in has a non-whitespace character |
| Rag.CollectContents | modules/rag_system.py:125-127 | the loop collects the texts of the hits, in order |
| Rag.ContextHoldsHits | modules/rag_system.py:129 | the context contains the text of every hit |
| Rag.ContextBlankIff | modules/rag_system.py:121-129 | when every hit has non-whitespace, the context has non-whitespace exactly when there is a hit |
| Rag.FallbackHitsNonBlank | modules/rag_system.py:88-112 | every fallback hit has a non-whitespace character |
| Rag.RagSystem.constructor | modules/rag_system.py:10-26 | the chunks are those of the knowledge text (none for an empty text), and embeddings exist exactly when there are chunks, a model and encoding succeeded |
| Rag.RagSystem.LoadKnowledgeBase | modules/rag_system.py:28-52 | an empty text changes nothing; otherwise the chunks are replaced, and the embeddings are reset from the encoding outcome when there are chunks and a model |
| Rag.RagSystem.FallbackSearch | modules/rag_system.py:88-112 | the looping search returns exactly the ranked, truncated candidates |
| Rag.RagSystem.SearchKnowledge | modules/rag_system.py:54-86 | the fallback search without chunks, model or embeddings, or when the embedding search raises; otherwise the embedding hits |
| Rag.RagSystem.GetContextForQuery | modules/rag_system.py:114-129 | the search hits' texts separated by blank lines ("" without hits) |
| Rag.RagSystem.AnswerQuestionWithContext | modules/rag_system.py:131-143 | the question, the context and the hits, with has_context true exactly when the context has non-whitespace; over loaded chunks that is exactly when there was a hit |
| Chatbot.FaqScores | modules/chatbot.py:61-70 | an FAQ's doubled score is at most twice its keywords plus its question's words, and zero exactly when neither any keyword nor any question word occurs in the input |
| Chatbot.FirstBest | modules/chatbot.py:72-76 | the first position with the largest entry, when that entry is positive; none exactly when every entry is zero |
| Chatbot.FirstBestStep | modules/chatbot.py:72-74 | one more FAQ replaces the running best only when it scores strictly higher |
| Chatbot.BestFaq | modules/chatbot.py:61-76 | the first FAQ with the highest positive score, none exactly when no FAQ scores |
| Chatbot.FindBestFaq | modules/chatbot.py:58-74 | the loop ends with that FAQ and its score |
| Chatbot.ScoreFaq | modules/chatbot.py:63-70 | the doubled score counts twice the FAQ's keywords in the input plus the question's words in it |
| Chatbot.FaqMatchFacts | modules/chatbot.py:76-86 | an FAQ reply exists exactly when some FAQ scores; it quotes the best FAQ as faq, with a confidence in (0, 1] |
| Chatbot.BookingReplyFacts | modules/chatbot.py:91-143 | a request for slots lists the first (at most five) open slots, or the no-slots message exactly when no slot is open; any other booking request gets the booking information |
| Chatbot.PromptFacts | modules/chatbot.py:207-224 | the prompt opens with the instructions or the default preamble, has a context section exactly when there is context, contains the question, and ends with the request for a reply |
| Chatbot.BlankInputIsGeneral | modules/chatbot.py:36-41 | blank input gets the prompt to say something, as general, without classifying |
| Chatbot.FaqReplyIntent | modules/chatbot.py:76-89 | the FAQ handler answers as faq when an FAQ matched, and as the knowledge handler otherwise |
| Chatbot.KnowledgeReplyIntent | modules/chatbot.py:145-173 | the knowledge handler answers as knowledge exactly when retrieval found context, and as general otherwise |
| Chatbot.ReplyIntentCases | modules/chatbot.py:32-54 | the reply's intent for each route |
| Chatbot.ReplyIntent | modules/chatbot.py:32-54 | the reply is booking exactly for a booking request, faq exactly for a question with an FAQ match, knowledge exactly when otherwise retrieval found context, and general in every other case |
| Chatbot.HistoryAppend | modules/chatbot.py:251-262 | adding to a history within the limit keeps every entry while there is room, and otherwise drops exactly the oldest; the new entry is last |
| Chatbot.DentalAssistantBot.constructor | modules/chatbot.py:11-30 | empty history and user context, and the given components |
| Chatbot.DentalAssistantBot.ProcessMessage | modules/chatbot.py:32-54 | the reply is `Respond` for the input, the FAQs, the slots and the retrieval answer |
| Chatbot.DentalAssistantBot.HandleFaq | modules/chatbot.py:56-89 | the reply is `FaqReply` |
| Chatbot.DentalAssistantBot.HandleBooking | modules/chatbot.py:91-143 | the reply is `BookingReply` for the stored slots |
| Chatbot.DentalAssistantBot.ListSlots | modules/chatbot.py:98-105 | the header, one numbered line per slot from 1, then the instructions |
| Chatbot.DentalAssistantBot.HandleKnowledgeQuery | modules/chatbot.py:145-173 | the reply is `KnowledgeReply` for the retrieval answer: the model's text, the first 500 context characters when the model fails, or the general handler without context |
| Chatbot.DentalAssistantBot.HandleGeneralQuery | modules/chatbot.py:175-200 | the model's reply to the general prompt, or the fallback message when it fails |
| Chatbot.DentalAssistantBot.GenerateAiResponse | modules/chatbot.py:202-238 | fails without a model; otherwise the stripped model reply to the joined prompt parts, or failure when the call raises |
| Chatbot.DentalAssistantBot.AddToConversationHistory | modules/chatbot.py:251-262 | the history becomes the last ten entries of the old history plus the new exchange, with timestamp 'N/A', so it never holds more than ten; the user context is untouched |
| Chatbot.DentalAssistantBot.SetUserContext | modules/chatbot.py:264-266 | the key now maps to the value, every other key reads as before, and the history is untouched |
| Chatbot.DentalAssistantBot.GetUserContext | modules/chatbot.py:268-270 | the stored value for a known key, none exactly for an unknown key |

## Left out

- File and network I/O are not modelled. The JSON documents (appointments, FAQs) and the knowledge text are constructor parameters. Whether `save_appointments` succeeds is the `saved` parameter.
- `load_json_file`, `save_json_file`, `load_text_file`, `validate_file_exists` and `get_current_timestamp` of utils/helpers.py are not modelled, because they are file and clock access.
- `book_appointment` reads the clock for the booking id and `booked_at`. Both are parameters of `BookAppointment`.
- Slots are assumed to carry every field. `slot.get('available', False)` and the other `.get` defaults on records with missing keys are not modelled.
- FAQ entries are assumed to carry 'question' and 'answer'. `_handle_faq` reads both without a default, so the source raises KeyError on an entry missing either. A missing 'keywords' reads as `[]`, which is `Faq(…, [])` here.
- Dictionaries shared by reference are not modelled. The booking record in the result and the one in the list are one object in the source, and values here.
- Embeddings are not modelled: the sentence-transformer model, `encode`, cosine similarity, `argsort`, the 0.1 threshold and `max_results`. Their outcome is the `hits` parameter (the hits in order, or None when the search raises). The `encode` outcome is the `encodeOk` parameter.
- Rag.RagSystem.AnswerQuestionWithContext: both searches in `answer_question_with_context` are given the same `hits`, because the embedding model is deterministic. A model that answered differently on the second call is not covered.
- The Gemini call is the `gemini` parameter, a function from prompt to reply text (None when it raises). The model name, the generation settings and the exception message text in `ai_error` are not modelled.
- The "Gemini API key not configured" exception is modelled only as a failed response.
- `format_slot_display` and `format_date` are the `formatSlot` field. Month names and `strptime` parsing are not modelled.
- Text.Lower: `str.lower`, `str.split` and `str.strip` are modelled on ASCII only. Unicode case mapping and non-ASCII whitespace are not covered.
- Floating-point scores are exact fractions (`Ratio`), so rounding in `matches / len(words)` and `best_score / 3` is not modelled.
- Helpers.ChunkText: requires 0 <= overlap < chunk_size. For the excluded cases the source raises on a zero step, skips words on a negative overlap, and returns [] when overlap exceeds chunk_size (the step is negative, so the range is empty). Every caller passes 200 and 50.
- `add_to_knowledge_base`, `get_knowledge_stats` and `test_rag_system` of modules/rag_system.py are not modelled. They are file writes and diagnostics outside the query path.
- `get_clinic_info` of modules/chatbot.py is not modelled, because it only reports constants and sizes.
- `load_appointments` and `save_appointments` of modules/booking_system.py are not modelled, because they are file access.
- Printed warnings and log messages are not modelled.
