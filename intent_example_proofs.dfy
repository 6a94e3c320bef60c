/**
 * Facts about keyword search (Text.Contains and Text.CountIn) on a fixed
 * text: a keyword is absent when one of its characters, or two of its
 * adjacent characters, never appear in the text; a keyword present as a
 * whole piece of the text occurs there; and the count is the number of
 * keywords shown present when all others are shown absent.
 */
module KeywordScan {
  import opened Text

  /** Every character of s is in cs. */
  predicate CharsWithin(s: string, cs: set<char>)
  {
    forall i :: 0 <= i < |s| ==> s[i] in cs
  }

  /** Every two adjacent characters of s form a pair in ps. */
  predicate PairsWithin(s: string, ps: set<(char, char)>)
  {
    forall i :: 0 <= i < |s| - 1 ==> (s[i], s[i + 1]) in ps
  }

  lemma AbsentChar(s: string, t: string, j: nat, cs: set<char>)
    requires CharsWithin(s, cs)
    requires j < |t| && t[j] !in cs
    ensures !Contains(s, t)
  {
    forall i | 0 <= i <= |s| - |t|
      ensures !OccursAt(s, t, i)
    {
      assert s[i + j] in cs;
    }
  }

  lemma AbsentPair(s: string, t: string, j: nat, ps: set<(char, char)>)
    requires PairsWithin(s, ps)
    requires j + 1 < |t| && (t[j], t[j + 1]) !in ps
    ensures !Contains(s, t)
  {
    forall i | 0 <= i <= |s| - |t|
      ensures !OccursAt(s, t, i)
    {
      assert (s[i + j], s[i + j + 1]) in ps;
    }
  }

  lemma LowerAppend(a: string, b: string)
    ensures Lower(a + b) == Lower(a) + Lower(b)
  {
  }

  lemma CharsWithinAppend(a: string, b: string, cs: set<char>)
    requires CharsWithin(a, cs) && CharsWithin(b, cs)
    ensures CharsWithin(a + b, cs)
  {
  }

  /** Pairs of a + b: those of a, those of b, and the one across the join. */
  lemma PairsWithinAppend(a: string, b: string, ps: set<(char, char)>)
    requires PairsWithin(a, ps) && PairsWithin(b, ps)
    requires |a| > 0 && |b| > 0 && (a[|a| - 1], b[0]) in ps
    ensures PairsWithin(a + b, ps)
  {
    var s := a + b;
    forall i | 0 <= i < |s| - 1
      ensures (s[i], s[i + 1]) in ps
    {
      if i + 1 < |a| {
        assert s[i] == a[i] && s[i + 1] == a[i + 1];
      } else if i + 1 == |a| {
        assert s[i] == a[|a| - 1] && s[i + 1] == b[0];
      } else {
        assert s[i] == b[i - |a|] && s[i + 1] == b[i - |a| + 1];
      }
    }
  }

  lemma OccursInMiddle(a: string, t: string, b: string)
    ensures OccursAt(a + t + b, t, |a|)
  {
    assert (a + t + b)[|a|..|a| + |t|] == t;
  }

  /** The count of occurring keys is the number of indices known to occur,
      when every other index is known not to. */
  lemma {:induction false} CountInHits(hay: string, keys: seq<string>, hits: set<nat>)
    requires forall j :: j in hits ==> j < |keys| && Contains(hay, keys[j])
    requires forall j :: 0 <= j < |keys| && j !in hits ==> !Contains(hay, keys[j])
    ensures CountIn(hay, keys) == |hits|
    decreases |keys|
  {
    if keys != [] {
      var last := |keys| - 1;
      var front := keys[..last];
      var rest := hits - {last};
      forall j | j in rest
        ensures j < |front| && Contains(hay, front[j])
      {
        assert front[j] == keys[j];
      }
      forall j | 0 <= j < |front| && j !in rest
        ensures !Contains(hay, front[j])
      {
        assert front[j] == keys[j];
      }
      CountInHits(hay, front, rest);
      assert CountIn(hay, keys) == CountIn(hay, front) + (if Contains(hay, keys[last]) then 1 else 0);
      if last in hits {
        assert hits == rest + {last};
      } else {
        assert rest == hits;
      }
    }
  }
}

/**
 * How IntentClassifier.classify_intent treats the example phrases of
 * suggest_intent_examples: each phrase is classified as the intent it is
 * listed under. For every phrase the lowered text is fixed piece by piece,
 * every keyword of the three tables is shown to occur or not, and the scores
 * follow.
 */
module IntentExampleProofs {
  import opened Text
  import opened Intent
  import opened IntentExamples
  import opened KeywordScan

  lemma PatternTables()
    ensures IntentPatterns[0].1 == BookingKeywords
    ensures IntentPatterns[1].1 == FaqKeywords
    ensures IntentPatterns[2].1 == KnowledgeKeywords
  {
  }

  /** What classify_intent answers once the three scores are known and one
      of them is positive. */
  lemma ClassifyWithCounts(userInput: string, b: nat, f: nat, k: nat)
    requires CountIn(Lower(userInput), BookingKeywords) == b
    requires CountIn(Lower(userInput), FaqKeywords) == f
    requires CountIn(Lower(userInput), KnowledgeKeywords) == k
    requires b + f + k > 0
    ensures Classify(userInput) ==
      if b >= f && b >= k then "booking" else if f >= k then "faq" else "knowledge"
  {
    PatternTables();
    var s := Scores(Lower(userInput));
    assert s[0] == b && s[1] == f && s[2] == k;
    assert MaxOf(s) > 0 by {
      assert s[0] <= MaxOf(s) && s[1] <= MaxOf(s) && s[2] <= MaxOf(s);
    }
    ClassifyByScores(userInput);
  }

  /** Every example phrase is classified as the intent it is listed under. */
  lemma ExamplesClassifyAsListed()
    ensures var r := SuggestIntentExamples();
      forall i, j :: 0 <= i < |r| && 0 <= j < |r[i].1| ==> Classify(r[i].1[j]) == r[i].0
  {
    var r := SuggestIntentExamples();
    forall i, j | 0 <= i < |r| && 0 <= j < |r[i].1|
      ensures Classify(r[i].1[j]) == r[i].0
    {
      if i == 0 {
        BookingExamplesClassified(j);
      } else if i == 1 {
        FaqExamplesClassified(j);
      } else {
        KnowledgeExamplesClassified(j);
      }
    }
  }

  lemma BookingExamplesClassified(j: nat)
    requires j < 3
    ensures Classify(SuggestIntentExamples()[0].1[j]) == "booking"
  {
    assert SuggestIntentExamples()[0].1 == [BookAnAppointment, AvailableNextWeek, ScheduleCleaning];
    if j == 0 {
      BookAnAppointmentClassified();
    } else if j == 1 {
      AvailableNextWeekClassified();
    } else {
      ScheduleCleaningClassified();
    }
  }

  lemma FaqExamplesClassified(j: nat)
    requires j < 3
    ensures Classify(SuggestIntentExamples()[1].1[j]) == "faq"
  {
    assert SuggestIntentExamples()[1].1 == [OfficeHours, AcceptInsurance, CleaningCost];
    if j == 0 {
      OfficeHoursClassified();
    } else if j == 1 {
      AcceptInsuranceClassified();
    } else {
      CleaningCostClassified();
    }
  }

  lemma KnowledgeExamplesClassified(j: nat)
    requires j < 3
    ensures Classify(SuggestIntentExamples()[2].1[j]) == "knowledge"
  {
    assert SuggestIntentExamples()[2].1 == [RootCanal, CareAfterSurgery, TeethWhitening];
    if j == 0 {
      RootCanalClassified();
    } else if j == 1 {
      CareAfterSurgeryClassified();
    } else {
      TeethWhiteningClassified();
    }
  }

  // BookAnAppointment: "I'd like to book an appointment"

  const BookAnAppointmentLower := "i'd like to " + "book" + " an " + "appointment"

  const BookAnAppointmentChars: set<char> := {
    ' ', '\'', 'a', 'b', 'd', 'e', 'i', 'k', 'l', 'm', 'n', 'o', 'p', 't'
  }

  const BookAnAppointmentPairs: set<(char, char)> := {
    (' ', 'a'), (' ', 'b'), (' ', 'l'), (' ', 't'), ('\'', 'd'), ('a', 'n'),
    ('a', 'p'), ('b', 'o'), ('d', ' '), ('e', ' '), ('e', 'n'), ('i', '\''),
    ('i', 'k'), ('i', 'n'), ('k', ' '), ('k', 'e'), ('l', 'i'), ('m', 'e'),
    ('n', ' '), ('n', 't'), ('o', ' '), ('o', 'i'), ('o', 'k'), ('o', 'o'),
    ('p', 'o'), ('p', 'p'), ('t', 'm'), ('t', 'o')
  }

  lemma BookAnAppointmentLowered()
    ensures Lower(BookAnAppointment) == BookAnAppointmentLower
  {
    assert Lower("I'd like to ") == "i'd like to ";
    assert Lower("book") == "book";
    assert Lower(" an ") == " an ";
    assert Lower("appointment") == "appointment";
    LowerAppend("I'd like to ", "book");
    LowerAppend("I'd like to " + "book", " an ");
    LowerAppend("I'd like to " + "book" + " an ", "appointment");
  }

  lemma BookAnAppointmentCharsWithin()
    ensures CharsWithin(BookAnAppointmentLower, BookAnAppointmentChars)
  {
    assert CharsWithin("i'd like to ", BookAnAppointmentChars);
    assert CharsWithin("book", BookAnAppointmentChars);
    assert CharsWithin(" an ", BookAnAppointmentChars);
    assert CharsWithin("appointment", BookAnAppointmentChars);
    CharsWithinAppend("i'd like to ", "book", BookAnAppointmentChars);
    CharsWithinAppend("i'd like to " + "book", " an ", BookAnAppointmentChars);
    CharsWithinAppend("i'd like to " + "book" + " an ", "appointment", BookAnAppointmentChars);
  }

  lemma BookAnAppointmentPairsWithin()
    ensures PairsWithin(BookAnAppointmentLower, BookAnAppointmentPairs)
  {
    assert PairsWithin("i'd like to ", BookAnAppointmentPairs);
    assert PairsWithin("book", BookAnAppointmentPairs);
    assert PairsWithin(" an ", BookAnAppointmentPairs);
    assert PairsWithin("appointment", BookAnAppointmentPairs);
    PairsWithinAppend("i'd like to ", "book", BookAnAppointmentPairs);
    PairsWithinAppend("i'd like to " + "book", " an ", BookAnAppointmentPairs);
    PairsWithinAppend("i'd like to " + "book" + " an ", "appointment", BookAnAppointmentPairs);
  }

  lemma BookAnAppointmentBookingMisses0(s: string)
    requires CharsWithin(s, BookAnAppointmentChars) && PairsWithin(s, BookAnAppointmentPairs)
    ensures forall j :: 0 <= j < 6 && j != 0 && j != 2 ==> !Contains(s, BookingKeywords[j])
  {
    AbsentChar(s, BookingKeywords[1], 0, BookAnAppointmentChars);
    AbsentChar(s, BookingKeywords[3], 0, BookAnAppointmentChars);
    AbsentChar(s, BookingKeywords[4], 1, BookAnAppointmentChars);
    AbsentChar(s, BookingKeywords[5], 0, BookAnAppointmentChars);
  }

  lemma BookAnAppointmentBookingMisses1(s: string)
    requires CharsWithin(s, BookAnAppointmentChars) && PairsWithin(s, BookAnAppointmentPairs)
    ensures forall j :: 6 <= j < 12 ==> !Contains(s, BookingKeywords[j])
  {
    AbsentPair(s, BookingKeywords[6], 0, BookAnAppointmentPairs);
    AbsentChar(s, BookingKeywords[7], 0, BookAnAppointmentChars);
    AbsentPair(s, BookingKeywords[8], 0, BookAnAppointmentPairs);
    AbsentChar(s, BookingKeywords[9], 0, BookAnAppointmentChars);
    AbsentChar(s, BookingKeywords[10], 0, BookAnAppointmentChars);
    AbsentChar(s, BookingKeywords[11], 0, BookAnAppointmentChars);
  }

  lemma BookAnAppointmentBookingHit0()
    ensures OccursAt(BookAnAppointmentLower, BookingKeywords[0], 12)
  {
    OccursInMiddle("i'd like to ", "book", " an " + "appointment");
  }

  lemma BookAnAppointmentBookingHit2()
    ensures OccursAt(BookAnAppointmentLower, BookingKeywords[2], 20)
  {
    OccursInMiddle("i'd like to " + "book" + " an ", "appointment", "");
  }

  lemma BookAnAppointmentBooking()
    ensures CountIn(BookAnAppointmentLower, BookingKeywords) == 2
  {
    BookAnAppointmentCharsWithin();
    BookAnAppointmentPairsWithin();
    BookAnAppointmentBookingMisses0(BookAnAppointmentLower);
    BookAnAppointmentBookingMisses1(BookAnAppointmentLower);
    BookAnAppointmentBookingHit0();
    BookAnAppointmentBookingHit2();
    CountInHits(BookAnAppointmentLower, BookingKeywords, {0, 2});
  }

  lemma BookAnAppointmentFaqMisses0(s: string)
    requires CharsWithin(s, BookAnAppointmentChars) && PairsWithin(s, BookAnAppointmentPairs)
    ensures forall j :: 0 <= j < 5 ==> !Contains(s, FaqKeywords[j])
  {
    AbsentChar(s, FaqKeywords[0], 0, BookAnAppointmentChars);
    AbsentChar(s, FaqKeywords[1], 0, BookAnAppointmentChars);
    AbsentChar(s, FaqKeywords[2], 1, BookAnAppointmentChars);
    AbsentChar(s, FaqKeywords[3], 2, BookAnAppointmentChars);
    AbsentChar(s, FaqKeywords[4], 2, BookAnAppointmentChars);
  }

  lemma BookAnAppointmentFaqMisses1(s: string)
    requires CharsWithin(s, BookAnAppointmentChars) && PairsWithin(s, BookAnAppointmentPairs)
    ensures forall j :: 5 <= j < 10 ==> !Contains(s, FaqKeywords[j])
  {
    AbsentChar(s, FaqKeywords[5], 0, BookAnAppointmentChars);
    AbsentChar(s, FaqKeywords[6], 1, BookAnAppointmentChars);
    AbsentChar(s, FaqKeywords[7], 0, BookAnAppointmentChars);
    AbsentChar(s, FaqKeywords[8], 1, BookAnAppointmentChars);
    AbsentChar(s, FaqKeywords[9], 0, BookAnAppointmentChars);
  }

  lemma BookAnAppointmentFaqMisses2(s: string)
    requires CharsWithin(s, BookAnAppointmentChars) && PairsWithin(s, BookAnAppointmentPairs)
    ensures forall j :: 10 <= j < 14 ==> !Contains(s, FaqKeywords[j])
  {
    AbsentChar(s, FaqKeywords[10], 0, BookAnAppointmentChars);
    AbsentChar(s, FaqKeywords[11], 0, BookAnAppointmentChars);
    AbsentChar(s, FaqKeywords[12], 3, BookAnAppointmentChars);
    AbsentChar(s, FaqKeywords[13], 3, BookAnAppointmentChars);
  }

  lemma BookAnAppointmentFaq()
    ensures CountIn(BookAnAppointmentLower, FaqKeywords) == 0
  {
    BookAnAppointmentCharsWithin();
    BookAnAppointmentPairsWithin();
    BookAnAppointmentFaqMisses0(BookAnAppointmentLower);
    BookAnAppointmentFaqMisses1(BookAnAppointmentLower);
    BookAnAppointmentFaqMisses2(BookAnAppointmentLower);
    CountInHits(BookAnAppointmentLower, FaqKeywords, {});
  }

  lemma BookAnAppointmentKnowledgeMisses0(s: string)
    requires CharsWithin(s, BookAnAppointmentChars) && PairsWithin(s, BookAnAppointmentPairs)
    ensures forall j :: 0 <= j < 5 ==> !Contains(s, KnowledgeKeywords[j])
  {
    AbsentChar(s, KnowledgeKeywords[0], 0, BookAnAppointmentChars);
    AbsentChar(s, KnowledgeKeywords[1], 0, BookAnAppointmentChars);
    AbsentChar(s, KnowledgeKeywords[2], 11, BookAnAppointmentChars);
    AbsentChar(s, KnowledgeKeywords[3], 1, BookAnAppointmentChars);
    AbsentChar(s, KnowledgeKeywords[4], 2, BookAnAppointmentChars);
  }

  lemma BookAnAppointmentKnowledgeMisses1(s: string)
    requires CharsWithin(s, BookAnAppointmentChars) && PairsWithin(s, BookAnAppointmentPairs)
    ensures forall j :: 5 <= j < 10 ==> !Contains(s, KnowledgeKeywords[j])
  {
    AbsentChar(s, KnowledgeKeywords[5], 3, BookAnAppointmentChars);
    AbsentChar(s, KnowledgeKeywords[6], 1, BookAnAppointmentChars);
    AbsentChar(s, KnowledgeKeywords[7], 1, BookAnAppointmentChars);
    AbsentPair(s, KnowledgeKeywords[8], 0, BookAnAppointmentPairs);
    AbsentChar(s, KnowledgeKeywords[9], 0, BookAnAppointmentChars);
  }

  lemma BookAnAppointmentKnowledgeMisses2(s: string)
    requires CharsWithin(s, BookAnAppointmentChars) && PairsWithin(s, BookAnAppointmentPairs)
    ensures forall j :: 10 <= j < 15 ==> !Contains(s, KnowledgeKeywords[j])
  {
    AbsentChar(s, KnowledgeKeywords[10], 0, BookAnAppointmentChars);
    AbsentChar(s, KnowledgeKeywords[11], 0, BookAnAppointmentChars);
    AbsentChar(s, KnowledgeKeywords[12], 2, BookAnAppointmentChars);
    AbsentChar(s, KnowledgeKeywords[13], 0, BookAnAppointmentChars);
    AbsentChar(s, KnowledgeKeywords[14], 0, BookAnAppointmentChars);
  }

  lemma BookAnAppointmentKnowledgeMisses3(s: string)
    requires CharsWithin(s, BookAnAppointmentChars) && PairsWithin(s, BookAnAppointmentPairs)
    ensures forall j :: 15 <= j < 21 ==> !Contains(s, KnowledgeKeywords[j])
  {
    AbsentChar(s, KnowledgeKeywords[15], 0, BookAnAppointmentChars);
    AbsentChar(s, KnowledgeKeywords[16], 0, BookAnAppointmentChars);
    AbsentChar(s, KnowledgeKeywords[17], 0, BookAnAppointmentChars);
    AbsentChar(s, KnowledgeKeywords[18], 0, BookAnAppointmentChars);
    AbsentChar(s, KnowledgeKeywords[19], 1, BookAnAppointmentChars);
    AbsentPair(s, KnowledgeKeywords[20], 0, BookAnAppointmentPairs);
  }

  lemma BookAnAppointmentKnowledge()
    ensures CountIn(BookAnAppointmentLower, KnowledgeKeywords) == 0
  {
    BookAnAppointmentCharsWithin();
    BookAnAppointmentPairsWithin();
    BookAnAppointmentKnowledgeMisses0(BookAnAppointmentLower);
    BookAnAppointmentKnowledgeMisses1(BookAnAppointmentLower);
    BookAnAppointmentKnowledgeMisses2(BookAnAppointmentLower);
    BookAnAppointmentKnowledgeMisses3(BookAnAppointmentLower);
    CountInHits(BookAnAppointmentLower, KnowledgeKeywords, {});
  }

  /** How classify_intent scores and classifies "I'd like to book an appointment". */
  lemma BookAnAppointmentClassified()
    ensures CountIn(Lower(BookAnAppointment), BookingKeywords) == 2
    ensures CountIn(Lower(BookAnAppointment), FaqKeywords) == 0
    ensures CountIn(Lower(BookAnAppointment), KnowledgeKeywords) == 0
    ensures Classify(BookAnAppointment) == "booking"
  {
    BookAnAppointmentLowered();
    BookAnAppointmentBooking();
    BookAnAppointmentFaq();
    BookAnAppointmentKnowledge();
    ClassifyWithCounts(BookAnAppointment, 2, 0, 0);
  }

  // AvailableNextWeek: "When are you available next week?"

  const AvailableNextWeekLower := "when are you " + "available" + " next week?"

  const AvailableNextWeekChars: set<char> := {
    ' ', '?', 'a', 'b', 'e', 'h', 'i', 'k', 'l', 'n', 'o', 'r', 't', 'u', 'v',
    'w', 'x', 'y'
  }

  const AvailableNextWeekPairs: set<(char, char)> := {
    (' ', 'a'), (' ', 'n'), (' ', 'w'), (' ', 'y'), ('a', 'b'), ('a', 'i'),
    ('a', 'r'), ('a', 'v'), ('b', 'l'), ('e', ' '), ('e', 'e'), ('e', 'k'),
    ('e', 'n'), ('e', 'x'), ('h', 'e'), ('i', 'l'), ('k', '?'), ('l', 'a'),
    ('l', 'e'), ('n', ' '), ('n', 'e'), ('o', 'u'), ('r', 'e'), ('t', ' '),
    ('u', ' '), ('v', 'a'), ('w', 'e'), ('w', 'h'), ('x', 't'), ('y', 'o')
  }

  lemma AvailableNextWeekLowered()
    ensures Lower(AvailableNextWeek) == AvailableNextWeekLower
  {
    assert Lower("When are you ") == "when are you ";
    assert Lower("available") == "available";
    assert Lower(" next week?") == " next week?";
    LowerAppend("When are you ", "available");
    LowerAppend("When are you " + "available", " next week?");
  }

  lemma AvailableNextWeekCharsWithin()
    ensures CharsWithin(AvailableNextWeekLower, AvailableNextWeekChars)
  {
    assert CharsWithin("when are you ", AvailableNextWeekChars);
    assert CharsWithin("available", AvailableNextWeekChars);
    assert CharsWithin(" next week?", AvailableNextWeekChars);
    CharsWithinAppend("when are you ", "available", AvailableNextWeekChars);
    CharsWithinAppend("when are you " + "available", " next week?", AvailableNextWeekChars);
  }

  lemma AvailableNextWeekPairsWithin()
    ensures PairsWithin(AvailableNextWeekLower, AvailableNextWeekPairs)
  {
    assert PairsWithin("when are you ", AvailableNextWeekPairs);
    assert PairsWithin("available", AvailableNextWeekPairs);
    assert PairsWithin(" next week?", AvailableNextWeekPairs);
    PairsWithinAppend("when are you ", "available", AvailableNextWeekPairs);
    PairsWithinAppend("when are you " + "available", " next week?", AvailableNextWeekPairs);
  }

  lemma AvailableNextWeekBookingMisses0(s: string)
    requires CharsWithin(s, AvailableNextWeekChars) && PairsWithin(s, AvailableNextWeekPairs)
    ensures forall j :: 0 <= j < 6 && j != 4 ==> !Contains(s, BookingKeywords[j])
  {
    AbsentPair(s, BookingKeywords[0], 0, AvailableNextWeekPairs);
    AbsentChar(s, BookingKeywords[1], 0, AvailableNextWeekChars);
    AbsentChar(s, BookingKeywords[2], 1, AvailableNextWeekChars);
    AbsentChar(s, BookingKeywords[3], 2, AvailableNextWeekChars);
    AbsentChar(s, BookingKeywords[5], 0, AvailableNextWeekChars);
  }

  lemma AvailableNextWeekBookingMisses1(s: string)
    requires CharsWithin(s, AvailableNextWeekChars) && PairsWithin(s, AvailableNextWeekPairs)
    ensures forall j :: 6 <= j < 12 ==> !Contains(s, BookingKeywords[j])
  {
    AbsentChar(s, BookingKeywords[6], 2, AvailableNextWeekChars);
    AbsentChar(s, BookingKeywords[7], 5, AvailableNextWeekChars);
    AbsentChar(s, BookingKeywords[8], 0, AvailableNextWeekChars);
    AbsentChar(s, BookingKeywords[9], 0, AvailableNextWeekChars);
    AbsentChar(s, BookingKeywords[10], 2, AvailableNextWeekChars);
    AbsentChar(s, BookingKeywords[11], 0, AvailableNextWeekChars);
  }

  lemma AvailableNextWeekBookingHit4()
    ensures OccursAt(AvailableNextWeekLower, BookingKeywords[4], 13)
  {
    OccursInMiddle("when are you ", "available", " next week?");
  }

  lemma AvailableNextWeekBooking()
    ensures CountIn(AvailableNextWeekLower, BookingKeywords) == 1
  {
    AvailableNextWeekCharsWithin();
    AvailableNextWeekPairsWithin();
    AvailableNextWeekBookingMisses0(AvailableNextWeekLower);
    AvailableNextWeekBookingMisses1(AvailableNextWeekLower);
    AvailableNextWeekBookingHit4();
    CountInHits(AvailableNextWeekLower, BookingKeywords, {4});
  }

  lemma AvailableNextWeekFaqMisses0(s: string)
    requires CharsWithin(s, AvailableNextWeekChars) && PairsWithin(s, AvailableNextWeekPairs)
    ensures forall j :: 0 <= j < 5 ==> !Contains(s, FaqKeywords[j])
  {
    AbsentChar(s, FaqKeywords[0], 4, AvailableNextWeekChars);
    AbsentChar(s, FaqKeywords[1], 0, AvailableNextWeekChars);
    AbsentChar(s, FaqKeywords[2], 0, AvailableNextWeekChars);
    AbsentChar(s, FaqKeywords[3], 2, AvailableNextWeekChars);
    AbsentChar(s, FaqKeywords[4], 2, AvailableNextWeekChars);
  }

  lemma AvailableNextWeekFaqMisses1(s: string)
    requires CharsWithin(s, AvailableNextWeekChars) && PairsWithin(s, AvailableNextWeekPairs)
    ensures forall j :: 5 <= j < 10 ==> !Contains(s, FaqKeywords[j])
  {
    AbsentPair(s, FaqKeywords[5], 2, AvailableNextWeekPairs);
    AbsentChar(s, FaqKeywords[6], 0, AvailableNextWeekChars);
    AbsentChar(s, FaqKeywords[7], 0, AvailableNextWeekChars);
    AbsentChar(s, FaqKeywords[8], 1, AvailableNextWeekChars);
    AbsentChar(s, FaqKeywords[9], 4, AvailableNextWeekChars);
  }

  lemma AvailableNextWeekFaqMisses2(s: string)
    requires CharsWithin(s, AvailableNextWeekChars) && PairsWithin(s, AvailableNextWeekPairs)
    ensures forall j :: 10 <= j < 14 ==> !Contains(s, FaqKeywords[j])
  {
    AbsentChar(s, FaqKeywords[10], 6, AvailableNextWeekChars);
    AbsentChar(s, FaqKeywords[11], 0, AvailableNextWeekChars);
    AbsentChar(s, FaqKeywords[12], 0, AvailableNextWeekChars);
    AbsentChar(s, FaqKeywords[13], 1, AvailableNextWeekChars);
  }

  lemma AvailableNextWeekFaq()
    ensures CountIn(AvailableNextWeekLower, FaqKeywords) == 0
  {
    AvailableNextWeekCharsWithin();
    AvailableNextWeekPairsWithin();
    AvailableNextWeekFaqMisses0(AvailableNextWeekLower);
    AvailableNextWeekFaqMisses1(AvailableNextWeekLower);
    AvailableNextWeekFaqMisses2(AvailableNextWeekLower);
    CountInHits(AvailableNextWeekLower, FaqKeywords, {});
  }

  lemma AvailableNextWeekKnowledgeMisses0(s: string)
    requires CharsWithin(s, AvailableNextWeekChars) && PairsWithin(s, AvailableNextWeekPairs)
    ensures forall j :: 0 <= j < 5 ==> !Contains(s, KnowledgeKeywords[j])
  {
    AbsentChar(s, KnowledgeKeywords[0], 6, AvailableNextWeekChars);
    AbsentPair(s, KnowledgeKeywords[1], 0, AvailableNextWeekPairs);
    AbsentChar(s, KnowledgeKeywords[2], 5, AvailableNextWeekChars);
    AbsentChar(s, KnowledgeKeywords[3], 2, AvailableNextWeekChars);
    AbsentChar(s, KnowledgeKeywords[4], 2, AvailableNextWeekChars);
  }

  lemma AvailableNextWeekKnowledgeMisses1(s: string)
    requires CharsWithin(s, AvailableNextWeekChars) && PairsWithin(s, AvailableNextWeekPairs)
    ensures forall j :: 5 <= j < 10 ==> !Contains(s, KnowledgeKeywords[j])
  {
    AbsentPair(s, KnowledgeKeywords[5], 1, AvailableNextWeekPairs);
    AbsentChar(s, KnowledgeKeywords[6], 5, AvailableNextWeekChars);
    AbsentChar(s, KnowledgeKeywords[7], 0, AvailableNextWeekChars);
    AbsentChar(s, KnowledgeKeywords[8], 0, AvailableNextWeekChars);
    AbsentChar(s, KnowledgeKeywords[9], 0, AvailableNextWeekChars);
  }

  lemma AvailableNextWeekKnowledgeMisses2(s: string)
    requires CharsWithin(s, AvailableNextWeekChars) && PairsWithin(s, AvailableNextWeekPairs)
    ensures forall j :: 10 <= j < 15 ==> !Contains(s, KnowledgeKeywords[j])
  {
    AbsentChar(s, KnowledgeKeywords[10], 2, AvailableNextWeekChars);
    AbsentChar(s, KnowledgeKeywords[11], 6, AvailableNextWeekChars);
    AbsentChar(s, KnowledgeKeywords[12], 1, AvailableNextWeekChars);
    AbsentChar(s, KnowledgeKeywords[13], 2, AvailableNextWeekChars);
    AbsentChar(s, KnowledgeKeywords[14], 0, AvailableNextWeekChars);
  }

  lemma AvailableNextWeekKnowledgeMisses3(s: string)
    requires CharsWithin(s, AvailableNextWeekChars) && PairsWithin(s, AvailableNextWeekPairs)
    ensures forall j :: 15 <= j < 21 ==> !Contains(s, KnowledgeKeywords[j])
  {
    AbsentChar(s, KnowledgeKeywords[15], 0, AvailableNextWeekChars);
    AbsentChar(s, KnowledgeKeywords[16], 0, AvailableNextWeekChars);
    AbsentChar(s, KnowledgeKeywords[17], 5, AvailableNextWeekChars);
    AbsentChar(s, KnowledgeKeywords[18], 8, AvailableNextWeekChars);
    AbsentChar(s, KnowledgeKeywords[19], 3, AvailableNextWeekChars);
    AbsentChar(s, KnowledgeKeywords[20], 1, AvailableNextWeekChars);
  }

  lemma AvailableNextWeekKnowledge()
    ensures CountIn(AvailableNextWeekLower, KnowledgeKeywords) == 0
  {
    AvailableNextWeekCharsWithin();
    AvailableNextWeekPairsWithin();
    AvailableNextWeekKnowledgeMisses0(AvailableNextWeekLower);
    AvailableNextWeekKnowledgeMisses1(AvailableNextWeekLower);
    AvailableNextWeekKnowledgeMisses2(AvailableNextWeekLower);
    AvailableNextWeekKnowledgeMisses3(AvailableNextWeekLower);
    CountInHits(AvailableNextWeekLower, KnowledgeKeywords, {});
  }

  /** How classify_intent scores and classifies "When are you available next week?". */
  lemma AvailableNextWeekClassified()
    ensures CountIn(Lower(AvailableNextWeek), BookingKeywords) == 1
    ensures CountIn(Lower(AvailableNextWeek), FaqKeywords) == 0
    ensures CountIn(Lower(AvailableNextWeek), KnowledgeKeywords) == 0
    ensures Classify(AvailableNextWeek) == "booking"
  {
    AvailableNextWeekLowered();
    AvailableNextWeekBooking();
    AvailableNextWeekFaq();
    AvailableNextWeekKnowledge();
    ClassifyWithCounts(AvailableNextWeek, 1, 0, 0);
  }

  // ScheduleCleaning: "Schedule me for a cleaning"

  const ScheduleCleaningLower := "schedule" + " me for a " + "cleaning"

  const ScheduleCleaningChars: set<char> := {
    ' ', 'a', 'c', 'd', 'e', 'f', 'g', 'h', 'i', 'l', 'm', 'n', 'o', 'r', 's',
    'u'
  }

  const ScheduleCleaningPairs: set<(char, char)> := {
    (' ', 'a'), (' ', 'c'), (' ', 'f'), (' ', 'm'), ('a', ' '), ('a', 'n'),
    ('c', 'h'), ('c', 'l'), ('d', 'u'), ('e', ' '), ('e', 'a'), ('e', 'd'),
    ('f', 'o'), ('h', 'e'), ('i', 'n'), ('l', 'e'), ('m', 'e'), ('n', 'g'),
    ('n', 'i'), ('o', 'r'), ('r', ' '), ('s', 'c'), ('u', 'l')
  }

  lemma ScheduleCleaningLowered()
    ensures Lower(ScheduleCleaning) == ScheduleCleaningLower
  {
    assert Lower("Schedule") == "schedule";
    assert Lower(" me for a ") == " me for a ";
    assert Lower("cleaning") == "cleaning";
    LowerAppend("Schedule", " me for a ");
    LowerAppend("Schedule" + " me for a ", "cleaning");
  }

  lemma ScheduleCleaningCharsWithin()
    ensures CharsWithin(ScheduleCleaningLower, ScheduleCleaningChars)
  {
    assert CharsWithin("schedule", ScheduleCleaningChars);
    assert CharsWithin(" me for a ", ScheduleCleaningChars);
    assert CharsWithin("cleaning", ScheduleCleaningChars);
    CharsWithinAppend("schedule", " me for a ", ScheduleCleaningChars);
    CharsWithinAppend("schedule" + " me for a ", "cleaning", ScheduleCleaningChars);
  }

  lemma ScheduleCleaningPairsWithin()
    ensures PairsWithin(ScheduleCleaningLower, ScheduleCleaningPairs)
  {
    assert PairsWithin("schedule", ScheduleCleaningPairs);
    assert PairsWithin(" me for a ", ScheduleCleaningPairs);
    assert PairsWithin("cleaning", ScheduleCleaningPairs);
    PairsWithinAppend("schedule", " me for a ", ScheduleCleaningPairs);
    PairsWithinAppend("schedule" + " me for a ", "cleaning", ScheduleCleaningPairs);
  }

  lemma ScheduleCleaningBookingMisses0(s: string)
    requires CharsWithin(s, ScheduleCleaningChars) && PairsWithin(s, ScheduleCleaningPairs)
    ensures forall j :: 0 <= j < 6 && j != 1 ==> !Contains(s, BookingKeywords[j])
  {
    AbsentChar(s, BookingKeywords[0], 0, ScheduleCleaningChars);
    AbsentChar(s, BookingKeywords[2], 1, ScheduleCleaningChars);
    AbsentChar(s, BookingKeywords[3], 5, ScheduleCleaningChars);
    AbsentChar(s, BookingKeywords[4], 1, ScheduleCleaningChars);
    AbsentChar(s, BookingKeywords[5], 3, ScheduleCleaningChars);
  }

  lemma ScheduleCleaningBookingMisses1(s: string)
    requires CharsWithin(s, ScheduleCleaningChars) && PairsWithin(s, ScheduleCleaningPairs)
    ensures forall j :: 6 <= j < 12 ==> !Contains(s, BookingKeywords[j])
  {
    AbsentChar(s, BookingKeywords[6], 0, ScheduleCleaningChars);
    AbsentChar(s, BookingKeywords[7], 0, ScheduleCleaningChars);
    AbsentChar(s, BookingKeywords[8], 2, ScheduleCleaningChars);
    AbsentChar(s, BookingKeywords[9], 7, ScheduleCleaningChars);
    AbsentChar(s, BookingKeywords[10], 0, ScheduleCleaningChars);
    AbsentPair(s, BookingKeywords[11], 0, ScheduleCleaningPairs);
  }

  lemma ScheduleCleaningBookingHit1()
    ensures OccursAt(ScheduleCleaningLower, BookingKeywords[1], 0)
  {
    OccursInMiddle("", "schedule", " me for a " + "cleaning");
  }

  lemma ScheduleCleaningBooking()
    ensures CountIn(ScheduleCleaningLower, BookingKeywords) == 1
  {
    ScheduleCleaningCharsWithin();
    ScheduleCleaningPairsWithin();
    ScheduleCleaningBookingMisses0(ScheduleCleaningLower);
    ScheduleCleaningBookingMisses1(ScheduleCleaningLower);
    ScheduleCleaningBookingHit1();
    CountInHits(ScheduleCleaningLower, BookingKeywords, {1});
  }

  lemma ScheduleCleaningFaqMisses0(s: string)
    requires CharsWithin(s, ScheduleCleaningChars) && PairsWithin(s, ScheduleCleaningPairs)
    ensures forall j :: 0 <= j < 5 ==> !Contains(s, FaqKeywords[j])
  {
    AbsentPair(s, FaqKeywords[0], 0, ScheduleCleaningPairs);
    AbsentChar(s, FaqKeywords[1], 3, ScheduleCleaningChars);
    AbsentChar(s, FaqKeywords[2], 0, ScheduleCleaningChars);
    AbsentPair(s, FaqKeywords[3], 1, ScheduleCleaningPairs);
    AbsentChar(s, FaqKeywords[4], 4, ScheduleCleaningChars);
  }

  lemma ScheduleCleaningFaqMisses1(s: string)
    requires CharsWithin(s, ScheduleCleaningChars) && PairsWithin(s, ScheduleCleaningPairs)
    ensures forall j :: 5 <= j < 10 ==> !Contains(s, FaqKeywords[j])
  {
    AbsentChar(s, FaqKeywords[5], 0, ScheduleCleaningChars);
    AbsentChar(s, FaqKeywords[6], 0, ScheduleCleaningChars);
    AbsentChar(s, FaqKeywords[7], 3, ScheduleCleaningChars);
    AbsentChar(s, FaqKeywords[8], 4, ScheduleCleaningChars);
    AbsentChar(s, FaqKeywords[9], 2, ScheduleCleaningChars);
  }

  lemma ScheduleCleaningFaqMisses2(s: string)
    requires CharsWithin(s, ScheduleCleaningChars) && PairsWithin(s, ScheduleCleaningPairs)
    ensures forall j :: 10 <= j < 14 ==> !Contains(s, FaqKeywords[j])
  {
    AbsentChar(s, FaqKeywords[10], 0, ScheduleCleaningChars);
    AbsentChar(s, FaqKeywords[11], 3, ScheduleCleaningChars);
    AbsentChar(s, FaqKeywords[12], 3, ScheduleCleaningChars);
    AbsentChar(s, FaqKeywords[13], 8, ScheduleCleaningChars);
  }

  lemma ScheduleCleaningFaq()
    ensures CountIn(ScheduleCleaningLower, FaqKeywords) == 0
  {
    ScheduleCleaningCharsWithin();
    ScheduleCleaningPairsWithin();
    ScheduleCleaningFaqMisses0(ScheduleCleaningLower);
    ScheduleCleaningFaqMisses1(ScheduleCleaningLower);
    ScheduleCleaningFaqMisses2(ScheduleCleaningLower);
    CountInHits(ScheduleCleaningLower, FaqKeywords, {});
  }

  lemma ScheduleCleaningKnowledgeMisses0(s: string)
    requires CharsWithin(s, ScheduleCleaningChars) && PairsWithin(s, ScheduleCleaningPairs)
    ensures forall j :: 0 <= j < 5 ==> !Contains(s, KnowledgeKeywords[j])
  {
    AbsentChar(s, KnowledgeKeywords[0], 0, ScheduleCleaningChars);
    AbsentChar(s, KnowledgeKeywords[1], 2, ScheduleCleaningChars);
    AbsentChar(s, KnowledgeKeywords[2], 0, ScheduleCleaningChars);
    AbsentChar(s, KnowledgeKeywords[3], 1, ScheduleCleaningChars);
    AbsentChar(s, KnowledgeKeywords[4], 7, ScheduleCleaningChars);
  }

  lemma ScheduleCleaningKnowledgeMisses1(s: string)
    requires CharsWithin(s, ScheduleCleaningChars) && PairsWithin(s, ScheduleCleaningPairs)
    ensures forall j :: 5 <= j < 10 ==> !Contains(s, KnowledgeKeywords[j])
  {
    AbsentPair(s, KnowledgeKeywords[5], 2, ScheduleCleaningPairs);
    AbsentChar(s, KnowledgeKeywords[6], 0, ScheduleCleaningChars);
    AbsentChar(s, KnowledgeKeywords[7], 0, ScheduleCleaningChars);
    AbsentChar(s, KnowledgeKeywords[8], 0, ScheduleCleaningChars);
    AbsentPair(s, KnowledgeKeywords[9], 0, ScheduleCleaningPairs);
  }

  lemma ScheduleCleaningKnowledgeMisses2(s: string)
    requires CharsWithin(s, ScheduleCleaningChars) && PairsWithin(s, ScheduleCleaningPairs)
    ensures forall j :: 10 <= j < 15 && j != 14 ==> !Contains(s, KnowledgeKeywords[j])
  {
    AbsentChar(s, KnowledgeKeywords[10], 4, ScheduleCleaningChars);
    AbsentPair(s, KnowledgeKeywords[11], 2, ScheduleCleaningPairs);
    AbsentChar(s, KnowledgeKeywords[12], 2, ScheduleCleaningChars);
    AbsentPair(s, KnowledgeKeywords[13], 0, ScheduleCleaningPairs);
  }

  lemma ScheduleCleaningKnowledgeMisses3(s: string)
    requires CharsWithin(s, ScheduleCleaningChars) && PairsWithin(s, ScheduleCleaningPairs)
    ensures forall j :: 15 <= j < 21 ==> !Contains(s, KnowledgeKeywords[j])
  {
    AbsentPair(s, KnowledgeKeywords[15], 0, ScheduleCleaningPairs);
    AbsentChar(s, KnowledgeKeywords[16], 3, ScheduleCleaningChars);
    AbsentChar(s, KnowledgeKeywords[17], 3, ScheduleCleaningChars);
    AbsentChar(s, KnowledgeKeywords[18], 0, ScheduleCleaningChars);
    AbsentChar(s, KnowledgeKeywords[19], 0, ScheduleCleaningChars);
    AbsentChar(s, KnowledgeKeywords[20], 2, ScheduleCleaningChars);
  }

  lemma ScheduleCleaningKnowledgeHit14()
    ensures OccursAt(ScheduleCleaningLower, KnowledgeKeywords[14], 18)
  {
    OccursInMiddle("schedule" + " me for a ", "cleaning", "");
  }

  lemma ScheduleCleaningKnowledge()
    ensures CountIn(ScheduleCleaningLower, KnowledgeKeywords) == 1
  {
    ScheduleCleaningCharsWithin();
    ScheduleCleaningPairsWithin();
    ScheduleCleaningKnowledgeMisses0(ScheduleCleaningLower);
    ScheduleCleaningKnowledgeMisses1(ScheduleCleaningLower);
    ScheduleCleaningKnowledgeMisses2(ScheduleCleaningLower);
    ScheduleCleaningKnowledgeMisses3(ScheduleCleaningLower);
    ScheduleCleaningKnowledgeHit14();
    CountInHits(ScheduleCleaningLower, KnowledgeKeywords, {14});
  }

  /** How classify_intent scores and classifies "Schedule me for a cleaning". */
  lemma ScheduleCleaningClassified()
    ensures CountIn(Lower(ScheduleCleaning), BookingKeywords) == 1
    ensures CountIn(Lower(ScheduleCleaning), FaqKeywords) == 0
    ensures CountIn(Lower(ScheduleCleaning), KnowledgeKeywords) == 1
    ensures Classify(ScheduleCleaning) == "booking"
  {
    ScheduleCleaningLowered();
    ScheduleCleaningBooking();
    ScheduleCleaningFaq();
    ScheduleCleaningKnowledge();
    ClassifyWithCounts(ScheduleCleaning, 1, 0, 1);
  }

  // OfficeHours: "What are your office hours?"

  const OfficeHoursLower := "what are your " + "office " + "hours" + "?"

  const OfficeHoursChars: set<char> := {
    ' ', '?', 'a', 'c', 'e', 'f', 'h', 'i', 'o', 'r', 's', 't', 'u', 'w', 'y'
  }

  const OfficeHoursPairs: set<(char, char)> := {
    (' ', 'a'), (' ', 'h'), (' ', 'o'), (' ', 'y'), ('a', 'r'), ('a', 't'),
    ('c', 'e'), ('e', ' '), ('f', 'f'), ('f', 'i'), ('h', 'a'), ('h', 'o'),
    ('i', 'c'), ('o', 'f'), ('o', 'u'), ('r', ' '), ('r', 'e'), ('r', 's'),
    ('s', '?'), ('t', ' '), ('u', 'r'), ('w', 'h'), ('y', 'o')
  }

  lemma OfficeHoursLowered()
    ensures Lower(OfficeHours) == OfficeHoursLower
  {
    assert Lower("What are your ") == "what are your ";
    assert Lower("office ") == "office ";
    assert Lower("hours") == "hours";
    assert Lower("?") == "?";
    LowerAppend("What are your ", "office ");
    LowerAppend("What are your " + "office ", "hours");
    LowerAppend("What are your " + "office " + "hours", "?");
  }

  lemma OfficeHoursCharsWithin()
    ensures CharsWithin(OfficeHoursLower, OfficeHoursChars)
  {
    assert CharsWithin("what are your ", OfficeHoursChars);
    assert CharsWithin("office ", OfficeHoursChars);
    assert CharsWithin("hours", OfficeHoursChars);
    assert CharsWithin("?", OfficeHoursChars);
    CharsWithinAppend("what are your ", "office ", OfficeHoursChars);
    CharsWithinAppend("what are your " + "office ", "hours", OfficeHoursChars);
    CharsWithinAppend("what are your " + "office " + "hours", "?", OfficeHoursChars);
  }

  lemma OfficeHoursPairsWithin()
    ensures PairsWithin(OfficeHoursLower, OfficeHoursPairs)
  {
    assert PairsWithin("what are your ", OfficeHoursPairs);
    assert PairsWithin("office ", OfficeHoursPairs);
    assert PairsWithin("hours", OfficeHoursPairs);
    assert PairsWithin("?", OfficeHoursPairs);
    PairsWithinAppend("what are your ", "office ", OfficeHoursPairs);
    PairsWithinAppend("what are your " + "office ", "hours", OfficeHoursPairs);
    PairsWithinAppend("what are your " + "office " + "hours", "?", OfficeHoursPairs);
  }

  lemma OfficeHoursBookingMisses0(s: string)
    requires CharsWithin(s, OfficeHoursChars) && PairsWithin(s, OfficeHoursPairs)
    ensures forall j :: 0 <= j < 6 ==> !Contains(s, BookingKeywords[j])
  {
    AbsentChar(s, BookingKeywords[0], 0, OfficeHoursChars);
    AbsentChar(s, BookingKeywords[1], 4, OfficeHoursChars);
    AbsentChar(s, BookingKeywords[2], 1, OfficeHoursChars);
    AbsentChar(s, BookingKeywords[3], 5, OfficeHoursChars);
    AbsentChar(s, BookingKeywords[4], 1, OfficeHoursChars);
    AbsentChar(s, BookingKeywords[5], 1, OfficeHoursChars);
  }

  lemma OfficeHoursBookingMisses1(s: string)
    requires CharsWithin(s, OfficeHoursChars) && PairsWithin(s, OfficeHoursPairs)
    ensures forall j :: 6 <= j < 12 ==> !Contains(s, BookingKeywords[j])
  {
    AbsentChar(s, BookingKeywords[6], 2, OfficeHoursChars);
    AbsentChar(s, BookingKeywords[7], 3, OfficeHoursChars);
    AbsentChar(s, BookingKeywords[8], 0, OfficeHoursChars);
    AbsentChar(s, BookingKeywords[9], 4, OfficeHoursChars);
    AbsentChar(s, BookingKeywords[10], 0, OfficeHoursChars);
    AbsentChar(s, BookingKeywords[11], 2, OfficeHoursChars);
  }

  lemma OfficeHoursBooking()
    ensures CountIn(OfficeHoursLower, BookingKeywords) == 0
  {
    OfficeHoursCharsWithin();
    OfficeHoursPairsWithin();
    OfficeHoursBookingMisses0(OfficeHoursLower);
    OfficeHoursBookingMisses1(OfficeHoursLower);
    CountInHits(OfficeHoursLower, BookingKeywords, {});
  }

  lemma OfficeHoursFaqMisses0(s: string)
    requires CharsWithin(s, OfficeHoursChars) && PairsWithin(s, OfficeHoursPairs)
    ensures forall j :: 0 <= j < 5 && j != 0 ==> !Contains(s, FaqKeywords[j])
  {
    AbsentPair(s, FaqKeywords[1], 0, OfficeHoursPairs);
    AbsentChar(s, FaqKeywords[2], 0, OfficeHoursChars);
    AbsentChar(s, FaqKeywords[3], 1, OfficeHoursChars);
    AbsentChar(s, FaqKeywords[4], 0, OfficeHoursChars);
  }

  lemma OfficeHoursFaqMisses1(s: string)
    requires CharsWithin(s, OfficeHoursChars) && PairsWithin(s, OfficeHoursPairs)
    ensures forall j :: 5 <= j < 10 ==> !Contains(s, FaqKeywords[j])
  {
    AbsentPair(s, FaqKeywords[5], 1, OfficeHoursPairs);
    AbsentChar(s, FaqKeywords[6], 0, OfficeHoursChars);
    AbsentChar(s, FaqKeywords[7], 2, OfficeHoursChars);
    AbsentChar(s, FaqKeywords[8], 4, OfficeHoursChars);
    AbsentChar(s, FaqKeywords[9], 4, OfficeHoursChars);
  }

  lemma OfficeHoursFaqMisses2(s: string)
    requires CharsWithin(s, OfficeHoursChars) && PairsWithin(s, OfficeHoursPairs)
    ensures forall j :: 10 <= j < 14 ==> !Contains(s, FaqKeywords[j])
  {
    AbsentChar(s, FaqKeywords[10], 3, OfficeHoursChars);
    AbsentChar(s, FaqKeywords[11], 3, OfficeHoursChars);
    AbsentChar(s, FaqKeywords[12], 0, OfficeHoursChars);
    AbsentChar(s, FaqKeywords[13], 1, OfficeHoursChars);
  }

  lemma OfficeHoursFaqHit0()
    ensures OccursAt(OfficeHoursLower, FaqKeywords[0], 21)
  {
    OccursInMiddle("what are your " + "office ", "hours", "?");
  }

  lemma OfficeHoursFaq()
    ensures CountIn(OfficeHoursLower, FaqKeywords) == 1
  {
    OfficeHoursCharsWithin();
    OfficeHoursPairsWithin();
    OfficeHoursFaqMisses0(OfficeHoursLower);
    OfficeHoursFaqMisses1(OfficeHoursLower);
    OfficeHoursFaqMisses2(OfficeHoursLower);
    OfficeHoursFaqHit0();
    CountInHits(OfficeHoursLower, FaqKeywords, {0});
  }

  lemma OfficeHoursKnowledgeMisses0(s: string)
    requires CharsWithin(s, OfficeHoursChars) && PairsWithin(s, OfficeHoursPairs)
    ensures forall j :: 0 <= j < 5 ==> !Contains(s, KnowledgeKeywords[j])
  {
    AbsentPair(s, KnowledgeKeywords[0], 4, OfficeHoursPairs);
    AbsentPair(s, KnowledgeKeywords[1], 1, OfficeHoursPairs);
    AbsentChar(s, KnowledgeKeywords[2], 2, OfficeHoursChars);
    AbsentChar(s, KnowledgeKeywords[3], 1, OfficeHoursChars);
    AbsentChar(s, KnowledgeKeywords[4], 1, OfficeHoursChars);
  }

  lemma OfficeHoursKnowledgeMisses1(s: string)
    requires CharsWithin(s, OfficeHoursChars) && PairsWithin(s, OfficeHoursPairs)
    ensures forall j :: 5 <= j < 10 ==> !Contains(s, KnowledgeKeywords[j])
  {
    AbsentChar(s, KnowledgeKeywords[5], 0, OfficeHoursChars);
    AbsentChar(s, KnowledgeKeywords[6], 5, OfficeHoursChars);
    AbsentChar(s, KnowledgeKeywords[7], 0, OfficeHoursChars);
    AbsentChar(s, KnowledgeKeywords[8], 0, OfficeHoursChars);
    AbsentPair(s, KnowledgeKeywords[9], 0, OfficeHoursPairs);
  }

  lemma OfficeHoursKnowledgeMisses2(s: string)
    requires CharsWithin(s, OfficeHoursChars) && PairsWithin(s, OfficeHoursPairs)
    ensures forall j :: 10 <= j < 15 ==> !Contains(s, KnowledgeKeywords[j])
  {
    AbsentChar(s, KnowledgeKeywords[10], 4, OfficeHoursChars);
    AbsentChar(s, KnowledgeKeywords[11], 3, OfficeHoursChars);
    AbsentChar(s, KnowledgeKeywords[12], 1, OfficeHoursChars);
    AbsentChar(s, KnowledgeKeywords[13], 4, OfficeHoursChars);
    AbsentChar(s, KnowledgeKeywords[14], 1, OfficeHoursChars);
  }

  lemma OfficeHoursKnowledgeMisses3(s: string)
    requires CharsWithin(s, OfficeHoursChars) && PairsWithin(s, OfficeHoursPairs)
    ensures forall j :: 15 <= j < 21 ==> !Contains(s, KnowledgeKeywords[j])
  {
    AbsentChar(s, KnowledgeKeywords[15], 2, OfficeHoursChars);
    AbsentChar(s, KnowledgeKeywords[16], 4, OfficeHoursChars);
    AbsentChar(s, KnowledgeKeywords[17], 7, OfficeHoursChars);
    AbsentChar(s, KnowledgeKeywords[18], 5, OfficeHoursChars);
    AbsentChar(s, KnowledgeKeywords[19], 0, OfficeHoursChars);
    AbsentChar(s, KnowledgeKeywords[20], 1, OfficeHoursChars);
  }

  lemma OfficeHoursKnowledge()
    ensures CountIn(OfficeHoursLower, KnowledgeKeywords) == 0
  {
    OfficeHoursCharsWithin();
    OfficeHoursPairsWithin();
    OfficeHoursKnowledgeMisses0(OfficeHoursLower);
    OfficeHoursKnowledgeMisses1(OfficeHoursLower);
    OfficeHoursKnowledgeMisses2(OfficeHoursLower);
    OfficeHoursKnowledgeMisses3(OfficeHoursLower);
    CountInHits(OfficeHoursLower, KnowledgeKeywords, {});
  }

  /** How classify_intent scores and classifies "What are your office hours?". */
  lemma OfficeHoursClassified()
    ensures CountIn(Lower(OfficeHours), BookingKeywords) == 0
    ensures CountIn(Lower(OfficeHours), FaqKeywords) == 1
    ensures CountIn(Lower(OfficeHours), KnowledgeKeywords) == 0
    ensures Classify(OfficeHours) == "faq"
  {
    OfficeHoursLowered();
    OfficeHoursBooking();
    OfficeHoursFaq();
    OfficeHoursKnowledge();
    ClassifyWithCounts(OfficeHours, 0, 1, 0);
  }

  // AcceptInsurance: "Do you accept my insurance?"

  const AcceptInsuranceLower := "do you" + " " + "accept" + " my " + "insurance" + "?"

  const AcceptInsuranceChars: set<char> := {
    ' ', '?', 'a', 'c', 'd', 'e', 'i', 'm', 'n', 'o', 'p', 'r', 's', 't', 'u',
    'y'
  }

  const AcceptInsurancePairs: set<(char, char)> := {
    (' ', 'a'), (' ', 'i'), (' ', 'm'), (' ', 'y'), ('a', 'c'), ('a', 'n'),
    ('c', 'c'), ('c', 'e'), ('d', 'o'), ('e', '?'), ('e', 'p'), ('i', 'n'),
    ('m', 'y'), ('n', 'c'), ('n', 's'), ('o', ' '), ('o', 'u'), ('p', 't'),
    ('r', 'a'), ('s', 'u'), ('t', ' '), ('u', ' '), ('u', 'r'), ('y', ' '),
    ('y', 'o')
  }

  lemma AcceptInsuranceLowered()
    ensures Lower(AcceptInsurance) == AcceptInsuranceLower
  {
    assert Lower("Do you") == "do you";
    assert Lower(" ") == " ";
    assert Lower("accept") == "accept";
    assert Lower(" my ") == " my ";
    assert Lower("insurance") == "insurance";
    assert Lower("?") == "?";
    LowerAppend("Do you", " ");
    LowerAppend("Do you" + " ", "accept");
    LowerAppend("Do you" + " " + "accept", " my ");
    LowerAppend("Do you" + " " + "accept" + " my ", "insurance");
    LowerAppend("Do you" + " " + "accept" + " my " + "insurance", "?");
  }

  lemma AcceptInsuranceCharsWithin()
    ensures CharsWithin(AcceptInsuranceLower, AcceptInsuranceChars)
  {
    assert CharsWithin("do you", AcceptInsuranceChars);
    assert CharsWithin(" ", AcceptInsuranceChars);
    assert CharsWithin("accept", AcceptInsuranceChars);
    assert CharsWithin(" my ", AcceptInsuranceChars);
    assert CharsWithin("insurance", AcceptInsuranceChars);
    assert CharsWithin("?", AcceptInsuranceChars);
    CharsWithinAppend("do you", " ", AcceptInsuranceChars);
    CharsWithinAppend("do you" + " ", "accept", AcceptInsuranceChars);
    CharsWithinAppend("do you" + " " + "accept", " my ", AcceptInsuranceChars);
    CharsWithinAppend("do you" + " " + "accept" + " my ", "insurance", AcceptInsuranceChars);
    CharsWithinAppend("do you" + " " + "accept" + " my " + "insurance", "?", AcceptInsuranceChars);
  }

  lemma AcceptInsurancePairsWithin()
    ensures PairsWithin(AcceptInsuranceLower, AcceptInsurancePairs)
  {
    assert PairsWithin("do you", AcceptInsurancePairs);
    assert PairsWithin(" ", AcceptInsurancePairs);
    assert PairsWithin("accept", AcceptInsurancePairs);
    assert PairsWithin(" my ", AcceptInsurancePairs);
    assert PairsWithin("insurance", AcceptInsurancePairs);
    assert PairsWithin("?", AcceptInsurancePairs);
    PairsWithinAppend("do you", " ", AcceptInsurancePairs);
    PairsWithinAppend("do you" + " ", "accept", AcceptInsurancePairs);
    PairsWithinAppend("do you" + " " + "accept", " my ", AcceptInsurancePairs);
    PairsWithinAppend("do you" + " " + "accept" + " my ", "insurance", AcceptInsurancePairs);
    PairsWithinAppend("do you" + " " + "accept" + " my " + "insurance", "?", AcceptInsurancePairs);
  }

  lemma AcceptInsuranceBookingMisses0(s: string)
    requires CharsWithin(s, AcceptInsuranceChars) && PairsWithin(s, AcceptInsurancePairs)
    ensures forall j :: 0 <= j < 6 ==> !Contains(s, BookingKeywords[j])
  {
    AbsentChar(s, BookingKeywords[0], 0, AcceptInsuranceChars);
    AbsentChar(s, BookingKeywords[1], 2, AcceptInsuranceChars);
    AbsentPair(s, BookingKeywords[2], 0, AcceptInsurancePairs);
    AbsentChar(s, BookingKeywords[3], 5, AcceptInsuranceChars);
    AbsentChar(s, BookingKeywords[4], 1, AcceptInsuranceChars);
    AbsentChar(s, BookingKeywords[5], 1, AcceptInsuranceChars);
  }

  lemma AcceptInsuranceBookingMisses1(s: string)
    requires CharsWithin(s, AcceptInsuranceChars) && PairsWithin(s, AcceptInsurancePairs)
    ensures forall j :: 6 <= j < 12 ==> !Contains(s, BookingKeywords[j])
  {
    AbsentPair(s, BookingKeywords[6], 0, AcceptInsurancePairs);
    AbsentChar(s, BookingKeywords[7], 0, AcceptInsuranceChars);
    AbsentChar(s, BookingKeywords[8], 2, AcceptInsuranceChars);
    AbsentPair(s, BookingKeywords[9], 0, AcceptInsurancePairs);
    AbsentChar(s, BookingKeywords[10], 0, AcceptInsuranceChars);
    AbsentPair(s, BookingKeywords[11], 0, AcceptInsurancePairs);
  }

  lemma AcceptInsuranceBooking()
    ensures CountIn(AcceptInsuranceLower, BookingKeywords) == 0
  {
    AcceptInsuranceCharsWithin();
    AcceptInsurancePairsWithin();
    AcceptInsuranceBookingMisses0(AcceptInsuranceLower);
    AcceptInsuranceBookingMisses1(AcceptInsuranceLower);
    CountInHits(AcceptInsuranceLower, BookingKeywords, {});
  }

  lemma AcceptInsuranceFaqMisses0(s: string)
    requires CharsWithin(s, AcceptInsuranceChars) && PairsWithin(s, AcceptInsurancePairs)
    ensures forall j :: 0 <= j < 5 && j != 3 ==> !Contains(s, FaqKeywords[j])
  {
    AbsentChar(s, FaqKeywords[0], 0, AcceptInsuranceChars);
    AbsentPair(s, FaqKeywords[1], 0, AcceptInsurancePairs);
    AbsentPair(s, FaqKeywords[2], 0, AcceptInsurancePairs);
    AbsentChar(s, FaqKeywords[4], 0, AcceptInsuranceChars);
  }

  lemma AcceptInsuranceFaqMisses1(s: string)
    requires CharsWithin(s, AcceptInsuranceChars) && PairsWithin(s, AcceptInsurancePairs)
    ensures forall j :: 5 <= j < 10 && j != 8 ==> !Contains(s, FaqKeywords[j])
  {
    AbsentChar(s, FaqKeywords[5], 0, AcceptInsuranceChars);
    AbsentChar(s, FaqKeywords[6], 1, AcceptInsuranceChars);
    AbsentPair(s, FaqKeywords[7], 0, AcceptInsurancePairs);
    AbsentChar(s, FaqKeywords[9], 0, AcceptInsuranceChars);
  }

  lemma AcceptInsuranceFaqMisses2(s: string)
    requires CharsWithin(s, AcceptInsuranceChars) && PairsWithin(s, AcceptInsurancePairs)
    ensures forall j :: 10 <= j < 14 && j != 12 ==> !Contains(s, FaqKeywords[j])
  {
    AbsentChar(s, FaqKeywords[10], 0, AcceptInsuranceChars);
    AbsentChar(s, FaqKeywords[11], 3, AcceptInsuranceChars);
    AbsentChar(s, FaqKeywords[13], 4, AcceptInsuranceChars);
  }

  lemma AcceptInsuranceFaqHit3()
    ensures OccursAt(AcceptInsuranceLower, FaqKeywords[3], 17)
  {
    OccursInMiddle("do you" + " " + "accept" + " my ", "insurance", "?");
  }

  lemma AcceptInsuranceFaqHit8()
    ensures OccursAt(AcceptInsuranceLower, FaqKeywords[8], 7)
  {
    OccursInMiddle("do you" + " ", "accept", " my " + "insurance" + "?");
  }

  lemma AcceptInsuranceFaqHit12()
    ensures OccursAt(AcceptInsuranceLower, FaqKeywords[12], 0)
  {
    OccursInMiddle("", "do you", " " + "accept" + " my " + "insurance" + "?");
  }

  lemma AcceptInsuranceFaq()
    ensures CountIn(AcceptInsuranceLower, FaqKeywords) == 3
  {
    AcceptInsuranceCharsWithin();
    AcceptInsurancePairsWithin();
    AcceptInsuranceFaqMisses0(AcceptInsuranceLower);
    AcceptInsuranceFaqMisses1(AcceptInsuranceLower);
    AcceptInsuranceFaqMisses2(AcceptInsuranceLower);
    AcceptInsuranceFaqHit3();
    AcceptInsuranceFaqHit8();
    AcceptInsuranceFaqHit12();
    CountInHits(AcceptInsuranceLower, FaqKeywords, {3, 8, 12});
  }

  lemma AcceptInsuranceKnowledgeMisses0(s: string)
    requires CharsWithin(s, AcceptInsuranceChars) && PairsWithin(s, AcceptInsurancePairs)
    ensures forall j :: 0 <= j < 5 ==> !Contains(s, KnowledgeKeywords[j])
  {
    AbsentChar(s, KnowledgeKeywords[0], 0, AcceptInsuranceChars);
    AbsentChar(s, KnowledgeKeywords[1], 0, AcceptInsuranceChars);
    AbsentChar(s, KnowledgeKeywords[2], 2, AcceptInsuranceChars);
    AbsentChar(s, KnowledgeKeywords[3], 1, AcceptInsuranceChars);
    AbsentChar(s, KnowledgeKeywords[4], 2, AcceptInsuranceChars);
  }

  lemma AcceptInsuranceKnowledgeMisses1(s: string)
    requires CharsWithin(s, AcceptInsuranceChars) && PairsWithin(s, AcceptInsurancePairs)
    ensures forall j :: 5 <= j < 10 ==> !Contains(s, KnowledgeKeywords[j])
  {
    AbsentChar(s, KnowledgeKeywords[5], 0, AcceptInsuranceChars);
    AbsentPair(s, KnowledgeKeywords[6], 0, AcceptInsurancePairs);
    AbsentPair(s, KnowledgeKeywords[7], 0, AcceptInsurancePairs);
    AbsentPair(s, KnowledgeKeywords[8], 0, AcceptInsurancePairs);
    AbsentPair(s, KnowledgeKeywords[9], 0, AcceptInsurancePairs);
  }

  lemma AcceptInsuranceKnowledgeMisses2(s: string)
    requires CharsWithin(s, AcceptInsuranceChars) && PairsWithin(s, AcceptInsurancePairs)
    ensures forall j :: 10 <= j < 15 ==> !Contains(s, KnowledgeKeywords[j])
  {
    AbsentChar(s, KnowledgeKeywords[10], 4, AcceptInsuranceChars);
    AbsentChar(s, KnowledgeKeywords[11], 0, AcceptInsuranceChars);
    AbsentChar(s, KnowledgeKeywords[12], 2, AcceptInsuranceChars);
    AbsentPair(s, KnowledgeKeywords[13], 0, AcceptInsurancePairs);
    AbsentChar(s, KnowledgeKeywords[14], 1, AcceptInsuranceChars);
  }

  lemma AcceptInsuranceKnowledgeMisses3(s: string)
    requires CharsWithin(s, AcceptInsuranceChars) && PairsWithin(s, AcceptInsurancePairs)
    ensures forall j :: 15 <= j < 21 ==> !Contains(s, KnowledgeKeywords[j])
  {
    AbsentChar(s, KnowledgeKeywords[15], 0, AcceptInsuranceChars);
    AbsentChar(s, KnowledgeKeywords[16], 3, AcceptInsuranceChars);
    AbsentChar(s, KnowledgeKeywords[17], 9, AcceptInsuranceChars);
    AbsentChar(s, KnowledgeKeywords[18], 0, AcceptInsuranceChars);
    AbsentChar(s, KnowledgeKeywords[19], 0, AcceptInsuranceChars);
    AbsentChar(s, KnowledgeKeywords[20], 3, AcceptInsuranceChars);
  }

  lemma AcceptInsuranceKnowledge()
    ensures CountIn(AcceptInsuranceLower, KnowledgeKeywords) == 0
  {
    AcceptInsuranceCharsWithin();
    AcceptInsurancePairsWithin();
    AcceptInsuranceKnowledgeMisses0(AcceptInsuranceLower);
    AcceptInsuranceKnowledgeMisses1(AcceptInsuranceLower);
    AcceptInsuranceKnowledgeMisses2(AcceptInsuranceLower);
    AcceptInsuranceKnowledgeMisses3(AcceptInsuranceLower);
    CountInHits(AcceptInsuranceLower, KnowledgeKeywords, {});
  }

  /** How classify_intent scores and classifies "Do you accept my insurance?". */
  lemma AcceptInsuranceClassified()
    ensures CountIn(Lower(AcceptInsurance), BookingKeywords) == 0
    ensures CountIn(Lower(AcceptInsurance), FaqKeywords) == 3
    ensures CountIn(Lower(AcceptInsurance), KnowledgeKeywords) == 0
    ensures Classify(AcceptInsurance) == "faq"
  {
    AcceptInsuranceLowered();
    AcceptInsuranceBooking();
    AcceptInsuranceFaq();
    AcceptInsuranceKnowledge();
    ClassifyWithCounts(AcceptInsurance, 0, 3, 0);
  }

  // CleaningCost: "How much does a cleaning cost?"

  const CleaningCostLower := "how much" + " does a " + "cleaning" + " " + "cost" + "?"

  const CleaningCostChars: set<char> := {
    ' ', '?', 'a', 'c', 'd', 'e', 'g', 'h', 'i', 'l', 'm', 'n', 'o', 's', 't',
    'u', 'w'
  }

  const CleaningCostPairs: set<(char, char)> := {
    (' ', 'a'), (' ', 'c'), (' ', 'd'), (' ', 'm'), ('a', ' '), ('a', 'n'),
    ('c', 'h'), ('c', 'l'), ('c', 'o'), ('d', 'o'), ('e', 'a'), ('e', 's'),
    ('g', ' '), ('h', ' '), ('h', 'o'), ('i', 'n'), ('l', 'e'), ('m', 'u'),
    ('n', 'g'), ('n', 'i'), ('o', 'e'), ('o', 's'), ('o', 'w'), ('s', ' '),
    ('s', 't'), ('t', '?'), ('u', 'c'), ('w', ' ')
  }

  lemma CleaningCostLowered()
    ensures Lower(CleaningCost) == CleaningCostLower
  {
    assert Lower("How much") == "how much";
    assert Lower(" does a ") == " does a ";
    assert Lower("cleaning") == "cleaning";
    assert Lower(" ") == " ";
    assert Lower("cost") == "cost";
    assert Lower("?") == "?";
    LowerAppend("How much", " does a ");
    LowerAppend("How much" + " does a ", "cleaning");
    LowerAppend("How much" + " does a " + "cleaning", " ");
    LowerAppend("How much" + " does a " + "cleaning" + " ", "cost");
    LowerAppend("How much" + " does a " + "cleaning" + " " + "cost", "?");
  }

  lemma CleaningCostCharsWithin()
    ensures CharsWithin(CleaningCostLower, CleaningCostChars)
  {
    assert CharsWithin("how much", CleaningCostChars);
    assert CharsWithin(" does a ", CleaningCostChars);
    assert CharsWithin("cleaning", CleaningCostChars);
    assert CharsWithin(" ", CleaningCostChars);
    assert CharsWithin("cost", CleaningCostChars);
    assert CharsWithin("?", CleaningCostChars);
    CharsWithinAppend("how much", " does a ", CleaningCostChars);
    CharsWithinAppend("how much" + " does a ", "cleaning", CleaningCostChars);
    CharsWithinAppend("how much" + " does a " + "cleaning", " ", CleaningCostChars);
    CharsWithinAppend("how much" + " does a " + "cleaning" + " ", "cost", CleaningCostChars);
    CharsWithinAppend("how much" + " does a " + "cleaning" + " " + "cost", "?", CleaningCostChars);
  }

  lemma CleaningCostPairsWithin()
    ensures PairsWithin(CleaningCostLower, CleaningCostPairs)
  {
    assert PairsWithin("how much", CleaningCostPairs);
    assert PairsWithin(" does a ", CleaningCostPairs);
    assert PairsWithin("cleaning", CleaningCostPairs);
    assert PairsWithin(" ", CleaningCostPairs);
    assert PairsWithin("cost", CleaningCostPairs);
    assert PairsWithin("?", CleaningCostPairs);
    PairsWithinAppend("how much", " does a ", CleaningCostPairs);
    PairsWithinAppend("how much" + " does a ", "cleaning", CleaningCostPairs);
    PairsWithinAppend("how much" + " does a " + "cleaning", " ", CleaningCostPairs);
    PairsWithinAppend("how much" + " does a " + "cleaning" + " ", "cost", CleaningCostPairs);
    PairsWithinAppend("how much" + " does a " + "cleaning" + " " + "cost", "?", CleaningCostPairs);
  }

  lemma CleaningCostBookingMisses0(s: string)
    requires CharsWithin(s, CleaningCostChars) && PairsWithin(s, CleaningCostPairs)
    ensures forall j :: 0 <= j < 6 ==> !Contains(s, BookingKeywords[j])
  {
    AbsentChar(s, BookingKeywords[0], 0, CleaningCostChars);
    AbsentPair(s, BookingKeywords[1], 0, CleaningCostPairs);
    AbsentChar(s, BookingKeywords[2], 1, CleaningCostChars);
    AbsentChar(s, BookingKeywords[3], 0, CleaningCostChars);
    AbsentChar(s, BookingKeywords[4], 1, CleaningCostChars);
    AbsentPair(s, BookingKeywords[5], 0, CleaningCostPairs);
  }

  lemma CleaningCostBookingMisses1(s: string)
    requires CharsWithin(s, CleaningCostChars) && PairsWithin(s, CleaningCostPairs)
    ensures forall j :: 6 <= j < 12 ==> !Contains(s, BookingKeywords[j])
  {
    AbsentPair(s, BookingKeywords[6], 0, CleaningCostPairs);
    AbsentPair(s, BookingKeywords[7], 0, CleaningCostPairs);
    AbsentChar(s, BookingKeywords[8], 2, CleaningCostChars);
    AbsentChar(s, BookingKeywords[9], 9, CleaningCostChars);
    AbsentChar(s, BookingKeywords[10], 0, CleaningCostChars);
    AbsentPair(s, BookingKeywords[11], 1, CleaningCostPairs);
  }

  lemma CleaningCostBooking()
    ensures CountIn(CleaningCostLower, BookingKeywords) == 0
  {
    CleaningCostCharsWithin();
    CleaningCostPairsWithin();
    CleaningCostBookingMisses0(CleaningCostLower);
    CleaningCostBookingMisses1(CleaningCostLower);
    CountInHits(CleaningCostLower, BookingKeywords, {});
  }

  lemma CleaningCostFaqMisses0(s: string)
    requires CharsWithin(s, CleaningCostChars) && PairsWithin(s, CleaningCostPairs)
    ensures forall j :: 0 <= j < 5 && j != 1 ==> !Contains(s, FaqKeywords[j])
  {
    AbsentChar(s, FaqKeywords[0], 3, CleaningCostChars);
    AbsentChar(s, FaqKeywords[2], 0, CleaningCostChars);
    AbsentChar(s, FaqKeywords[3], 4, CleaningCostChars);
    AbsentPair(s, FaqKeywords[4], 0, CleaningCostPairs);
  }

  lemma CleaningCostFaqMisses1(s: string)
    requires CharsWithin(s, CleaningCostChars) && PairsWithin(s, CleaningCostPairs)
    ensures forall j :: 5 <= j < 10 && j != 9 ==> !Contains(s, FaqKeywords[j])
  {
    AbsentChar(s, FaqKeywords[5], 3, CleaningCostChars);
    AbsentChar(s, FaqKeywords[6], 0, CleaningCostChars);
    AbsentPair(s, FaqKeywords[7], 1, CleaningCostPairs);
    AbsentChar(s, FaqKeywords[8], 4, CleaningCostChars);
  }

  lemma CleaningCostFaqMisses2(s: string)
    requires CharsWithin(s, CleaningCostChars) && PairsWithin(s, CleaningCostPairs)
    ensures forall j :: 10 <= j < 14 ==> !Contains(s, FaqKeywords[j])
  {
    AbsentChar(s, FaqKeywords[10], 6, CleaningCostChars);
    AbsentChar(s, FaqKeywords[11], 2, CleaningCostChars);
    AbsentChar(s, FaqKeywords[12], 3, CleaningCostChars);
    AbsentChar(s, FaqKeywords[13], 3, CleaningCostChars);
  }

  lemma CleaningCostFaqHit1()
    ensures OccursAt(CleaningCostLower, FaqKeywords[1], 25)
  {
    OccursInMiddle("how much" + " does a " + "cleaning" + " ", "cost", "?");
  }

  lemma CleaningCostFaqHit9()
    ensures OccursAt(CleaningCostLower, FaqKeywords[9], 0)
  {
    OccursInMiddle("", "how much", " does a " + "cleaning" + " " + "cost" + "?");
  }

  lemma CleaningCostFaq()
    ensures CountIn(CleaningCostLower, FaqKeywords) == 2
  {
    CleaningCostCharsWithin();
    CleaningCostPairsWithin();
    CleaningCostFaqMisses0(CleaningCostLower);
    CleaningCostFaqMisses1(CleaningCostLower);
    CleaningCostFaqMisses2(CleaningCostLower);
    CleaningCostFaqHit1();
    CleaningCostFaqHit9();
    CountInHits(CleaningCostLower, FaqKeywords, {1, 9});
  }

  lemma CleaningCostKnowledgeMisses0(s: string)
    requires CharsWithin(s, CleaningCostChars) && PairsWithin(s, CleaningCostPairs)
    ensures forall j :: 0 <= j < 5 ==> !Contains(s, KnowledgeKeywords[j])
  {
    AbsentPair(s, KnowledgeKeywords[0], 0, CleaningCostPairs);
    AbsentPair(s, KnowledgeKeywords[1], 3, CleaningCostPairs);
    AbsentChar(s, KnowledgeKeywords[2], 9, CleaningCostChars);
    AbsentChar(s, KnowledgeKeywords[3], 1, CleaningCostChars);
    AbsentChar(s, KnowledgeKeywords[4], 2, CleaningCostChars);
  }

  lemma CleaningCostKnowledgeMisses1(s: string)
    requires CharsWithin(s, CleaningCostChars) && PairsWithin(s, CleaningCostPairs)
    ensures forall j :: 5 <= j < 10 ==> !Contains(s, KnowledgeKeywords[j])
  {
    AbsentChar(s, KnowledgeKeywords[5], 3, CleaningCostChars);
    AbsentChar(s, KnowledgeKeywords[6], 1, CleaningCostChars);
    AbsentChar(s, KnowledgeKeywords[7], 0, CleaningCostChars);
    AbsentChar(s, KnowledgeKeywords[8], 0, CleaningCostChars);
    AbsentChar(s, KnowledgeKeywords[9], 2, CleaningCostChars);
  }

  lemma CleaningCostKnowledgeMisses2(s: string)
    requires CharsWithin(s, CleaningCostChars) && PairsWithin(s, CleaningCostPairs)
    ensures forall j :: 10 <= j < 15 && j != 14 ==> !Contains(s, KnowledgeKeywords[j])
  {
    AbsentChar(s, KnowledgeKeywords[10], 0, CleaningCostChars);
    AbsentPair(s, KnowledgeKeywords[11], 0, CleaningCostPairs);
    AbsentChar(s, KnowledgeKeywords[12], 2, CleaningCostChars);
    AbsentChar(s, KnowledgeKeywords[13], 0, CleaningCostChars);
  }

  lemma CleaningCostKnowledgeMisses3(s: string)
    requires CharsWithin(s, CleaningCostChars) && PairsWithin(s, CleaningCostPairs)
    ensures forall j :: 15 <= j < 21 ==> !Contains(s, KnowledgeKeywords[j])
  {
    AbsentChar(s, KnowledgeKeywords[15], 0, CleaningCostChars);
    AbsentChar(s, KnowledgeKeywords[16], 1, CleaningCostChars);
    AbsentChar(s, KnowledgeKeywords[17], 0, CleaningCostChars);
    AbsentPair(s, KnowledgeKeywords[18], 0, CleaningCostPairs);
    AbsentChar(s, KnowledgeKeywords[19], 0, CleaningCostChars);
    AbsentChar(s, KnowledgeKeywords[20], 2, CleaningCostChars);
  }

  lemma CleaningCostKnowledgeHit14()
    ensures OccursAt(CleaningCostLower, KnowledgeKeywords[14], 16)
  {
    OccursInMiddle("how much" + " does a ", "cleaning", " " + "cost" + "?");
  }

  lemma CleaningCostKnowledge()
    ensures CountIn(CleaningCostLower, KnowledgeKeywords) == 1
  {
    CleaningCostCharsWithin();
    CleaningCostPairsWithin();
    CleaningCostKnowledgeMisses0(CleaningCostLower);
    CleaningCostKnowledgeMisses1(CleaningCostLower);
    CleaningCostKnowledgeMisses2(CleaningCostLower);
    CleaningCostKnowledgeMisses3(CleaningCostLower);
    CleaningCostKnowledgeHit14();
    CountInHits(CleaningCostLower, KnowledgeKeywords, {14});
  }

  /** How classify_intent scores and classifies "How much does a cleaning cost?". */
  lemma CleaningCostClassified()
    ensures CountIn(Lower(CleaningCost), BookingKeywords) == 0
    ensures CountIn(Lower(CleaningCost), FaqKeywords) == 2
    ensures CountIn(Lower(CleaningCost), KnowledgeKeywords) == 1
    ensures Classify(CleaningCost) == "faq"
  {
    CleaningCostLowered();
    CleaningCostBooking();
    CleaningCostFaq();
    CleaningCostKnowledge();
    ClassifyWithCounts(CleaningCost, 0, 2, 1);
  }

  // RootCanal: "What is a root canal?"

  const RootCanalLower := "what is" + " a " + "root canal" + "?"

  const RootCanalChars: set<char> := {
    ' ', '?', 'a', 'c', 'h', 'i', 'l', 'n', 'o', 'r', 's', 't', 'w'
  }

  const RootCanalPairs: set<(char, char)> := {
    (' ', 'a'), (' ', 'c'), (' ', 'i'), (' ', 'r'), ('a', ' '), ('a', 'l'),
    ('a', 'n'), ('a', 't'), ('c', 'a'), ('h', 'a'), ('i', 's'), ('l', '?'),
    ('n', 'a'), ('o', 'o'), ('o', 't'), ('r', 'o'), ('s', ' '), ('t', ' '),
    ('w', 'h')
  }

  lemma RootCanalLowered()
    ensures Lower(RootCanal) == RootCanalLower
  {
    assert Lower("What is") == "what is";
    assert Lower(" a ") == " a ";
    assert Lower("root canal") == "root canal";
    assert Lower("?") == "?";
    LowerAppend("What is", " a ");
    LowerAppend("What is" + " a ", "root canal");
    LowerAppend("What is" + " a " + "root canal", "?");
  }

  lemma RootCanalCharsWithin()
    ensures CharsWithin(RootCanalLower, RootCanalChars)
  {
    assert CharsWithin("what is", RootCanalChars);
    assert CharsWithin(" a ", RootCanalChars);
    assert CharsWithin("root canal", RootCanalChars);
    assert CharsWithin("?", RootCanalChars);
    CharsWithinAppend("what is", " a ", RootCanalChars);
    CharsWithinAppend("what is" + " a ", "root canal", RootCanalChars);
    CharsWithinAppend("what is" + " a " + "root canal", "?", RootCanalChars);
  }

  lemma RootCanalPairsWithin()
    ensures PairsWithin(RootCanalLower, RootCanalPairs)
  {
    assert PairsWithin("what is", RootCanalPairs);
    assert PairsWithin(" a ", RootCanalPairs);
    assert PairsWithin("root canal", RootCanalPairs);
    assert PairsWithin("?", RootCanalPairs);
    PairsWithinAppend("what is", " a ", RootCanalPairs);
    PairsWithinAppend("what is" + " a ", "root canal", RootCanalPairs);
    PairsWithinAppend("what is" + " a " + "root canal", "?", RootCanalPairs);
  }

  lemma RootCanalBookingMisses0(s: string)
    requires CharsWithin(s, RootCanalChars) && PairsWithin(s, RootCanalPairs)
    ensures forall j :: 0 <= j < 6 ==> !Contains(s, BookingKeywords[j])
  {
    AbsentChar(s, BookingKeywords[0], 0, RootCanalChars);
    AbsentChar(s, BookingKeywords[1], 3, RootCanalChars);
    AbsentChar(s, BookingKeywords[2], 1, RootCanalChars);
    AbsentChar(s, BookingKeywords[3], 1, RootCanalChars);
    AbsentChar(s, BookingKeywords[4], 1, RootCanalChars);
    AbsentPair(s, BookingKeywords[5], 0, RootCanalPairs);
  }

  lemma RootCanalBookingMisses1(s: string)
    requires CharsWithin(s, RootCanalChars) && PairsWithin(s, RootCanalPairs)
    ensures forall j :: 6 <= j < 12 ==> !Contains(s, BookingKeywords[j])
  {
    AbsentChar(s, BookingKeywords[6], 2, RootCanalChars);
    AbsentChar(s, BookingKeywords[7], 2, RootCanalChars);
    AbsentChar(s, BookingKeywords[8], 0, RootCanalChars);
    AbsentChar(s, BookingKeywords[9], 1, RootCanalChars);
    AbsentChar(s, BookingKeywords[10], 0, RootCanalChars);
    AbsentChar(s, BookingKeywords[11], 2, RootCanalChars);
  }

  lemma RootCanalBooking()
    ensures CountIn(RootCanalLower, BookingKeywords) == 0
  {
    RootCanalCharsWithin();
    RootCanalPairsWithin();
    RootCanalBookingMisses0(RootCanalLower);
    RootCanalBookingMisses1(RootCanalLower);
    CountInHits(RootCanalLower, BookingKeywords, {});
  }

  lemma RootCanalFaqMisses0(s: string)
    requires CharsWithin(s, RootCanalChars) && PairsWithin(s, RootCanalPairs)
    ensures forall j :: 0 <= j < 5 ==> !Contains(s, FaqKeywords[j])
  {
    AbsentChar(s, FaqKeywords[0], 2, RootCanalChars);
    AbsentPair(s, FaqKeywords[1], 0, RootCanalPairs);
    AbsentChar(s, FaqKeywords[2], 0, RootCanalChars);
    AbsentChar(s, FaqKeywords[3], 3, RootCanalChars);
    AbsentPair(s, FaqKeywords[4], 0, RootCanalPairs);
  }

  lemma RootCanalFaqMisses1(s: string)
    requires CharsWithin(s, RootCanalChars) && PairsWithin(s, RootCanalPairs)
    ensures forall j :: 5 <= j < 10 ==> !Contains(s, FaqKeywords[j])
  {
    AbsentChar(s, FaqKeywords[5], 2, RootCanalChars);
    AbsentChar(s, FaqKeywords[6], 0, RootCanalChars);
    AbsentPair(s, FaqKeywords[7], 0, RootCanalPairs);
    AbsentChar(s, FaqKeywords[8], 3, RootCanalChars);
    AbsentChar(s, FaqKeywords[9], 4, RootCanalChars);
  }

  lemma RootCanalFaqMisses2(s: string)
    requires CharsWithin(s, RootCanalChars) && PairsWithin(s, RootCanalPairs)
    ensures forall j :: 10 <= j < 14 ==> !Contains(s, FaqKeywords[j])
  {
    AbsentChar(s, FaqKeywords[10], 2, RootCanalChars);
    AbsentChar(s, FaqKeywords[11], 1, RootCanalChars);
    AbsentChar(s, FaqKeywords[12], 0, RootCanalChars);
    AbsentChar(s, FaqKeywords[13], 0, RootCanalChars);
  }

  lemma RootCanalFaq()
    ensures CountIn(RootCanalLower, FaqKeywords) == 0
  {
    RootCanalCharsWithin();
    RootCanalPairsWithin();
    RootCanalFaqMisses0(RootCanalLower);
    RootCanalFaqMisses1(RootCanalLower);
    RootCanalFaqMisses2(RootCanalLower);
    CountInHits(RootCanalLower, FaqKeywords, {});
  }

  lemma RootCanalKnowledgeMisses0(s: string)
    requires CharsWithin(s, RootCanalChars) && PairsWithin(s, RootCanalPairs)
    ensures forall j :: 0 <= j < 5 && j != 0 ==> !Contains(s, KnowledgeKeywords[j])
  {
    AbsentPair(s, KnowledgeKeywords[1], 0, RootCanalPairs);
    AbsentChar(s, KnowledgeKeywords[2], 1, RootCanalChars);
    AbsentChar(s, KnowledgeKeywords[3], 0, RootCanalChars);
    AbsentChar(s, KnowledgeKeywords[4], 2, RootCanalChars);
  }

  lemma RootCanalKnowledgeMisses1(s: string)
    requires CharsWithin(s, RootCanalChars) && PairsWithin(s, RootCanalPairs)
    ensures forall j :: 5 <= j < 10 ==> !Contains(s, KnowledgeKeywords[j])
  {
    AbsentChar(s, KnowledgeKeywords[5], 1, RootCanalChars);
    AbsentChar(s, KnowledgeKeywords[6], 2, RootCanalChars);
    AbsentChar(s, KnowledgeKeywords[7], 0, RootCanalChars);
    AbsentChar(s, KnowledgeKeywords[8], 0, RootCanalChars);
    AbsentChar(s, KnowledgeKeywords[9], 3, RootCanalChars);
  }

  lemma RootCanalKnowledgeMisses2(s: string)
    requires CharsWithin(s, RootCanalChars) && PairsWithin(s, RootCanalPairs)
    ensures forall j :: 10 <= j < 15 ==> !Contains(s, KnowledgeKeywords[j])
  {
    AbsentChar(s, KnowledgeKeywords[10], 1, RootCanalChars);
    AbsentChar(s, KnowledgeKeywords[11], 1, RootCanalChars);
    AbsentChar(s, KnowledgeKeywords[12], 1, RootCanalChars);
    AbsentChar(s, KnowledgeKeywords[13], 1, RootCanalChars);
    AbsentChar(s, KnowledgeKeywords[14], 2, RootCanalChars);
  }

  lemma RootCanalKnowledgeMisses3(s: string)
    requires CharsWithin(s, RootCanalChars) && PairsWithin(s, RootCanalPairs)
    ensures forall j :: 15 <= j < 21 && j != 17 ==> !Contains(s, KnowledgeKeywords[j])
  {
    AbsentChar(s, KnowledgeKeywords[15], 0, RootCanalChars);
    AbsentPair(s, KnowledgeKeywords[16], 0, RootCanalPairs);
    AbsentChar(s, KnowledgeKeywords[18], 4, RootCanalChars);
    AbsentChar(s, KnowledgeKeywords[19], 0, RootCanalChars);
    AbsentChar(s, KnowledgeKeywords[20], 1, RootCanalChars);
  }

  lemma RootCanalKnowledgeHit0()
    ensures OccursAt(RootCanalLower, KnowledgeKeywords[0], 0)
  {
    OccursInMiddle("", "what is", " a " + "root canal" + "?");
  }

  lemma RootCanalKnowledgeHit17()
    ensures OccursAt(RootCanalLower, KnowledgeKeywords[17], 10)
  {
    OccursInMiddle("what is" + " a ", "root canal", "?");
  }

  lemma RootCanalKnowledge()
    ensures CountIn(RootCanalLower, KnowledgeKeywords) == 2
  {
    RootCanalCharsWithin();
    RootCanalPairsWithin();
    RootCanalKnowledgeMisses0(RootCanalLower);
    RootCanalKnowledgeMisses1(RootCanalLower);
    RootCanalKnowledgeMisses2(RootCanalLower);
    RootCanalKnowledgeMisses3(RootCanalLower);
    RootCanalKnowledgeHit0();
    RootCanalKnowledgeHit17();
    CountInHits(RootCanalLower, KnowledgeKeywords, {0, 17});
  }

  /** How classify_intent scores and classifies "What is a root canal?". */
  lemma RootCanalClassified()
    ensures CountIn(Lower(RootCanal), BookingKeywords) == 0
    ensures CountIn(Lower(RootCanal), FaqKeywords) == 0
    ensures CountIn(Lower(RootCanal), KnowledgeKeywords) == 2
    ensures Classify(RootCanal) == "knowledge"
  {
    RootCanalLowered();
    RootCanalBooking();
    RootCanalFaq();
    RootCanalKnowledge();
    ClassifyWithCounts(RootCanal, 0, 0, 2);
  }

  // CareAfterSurgery: "How do I care for my teeth after surgery?"

  const CareAfterSurgeryLower := "how do i " + "care" + " for my teeth " + "after surgery?"

  const CareAfterSurgeryChars: set<char> := {
    ' ', '?', 'a', 'c', 'd', 'e', 'f', 'g', 'h', 'i', 'm', 'o', 'r', 's', 't',
    'u', 'w', 'y'
  }

  const CareAfterSurgeryPairs: set<(char, char)> := {
    (' ', 'a'), (' ', 'c'), (' ', 'd'), (' ', 'f'), (' ', 'i'), (' ', 'm'),
    (' ', 's'), (' ', 't'), ('a', 'f'), ('a', 'r'), ('c', 'a'), ('d', 'o'),
    ('e', ' '), ('e', 'e'), ('e', 'r'), ('e', 't'), ('f', 'o'), ('f', 't'),
    ('g', 'e'), ('h', ' '), ('h', 'o'), ('i', ' '), ('m', 'y'), ('o', ' '),
    ('o', 'r'), ('o', 'w'), ('r', ' '), ('r', 'e'), ('r', 'g'), ('r', 'y'),
    ('s', 'u'), ('t', 'e'), ('t', 'h'), ('u', 'r'), ('w', ' '), ('y', ' '),
    ('y', '?')
  }

  lemma CareAfterSurgeryLowered()
    ensures Lower(CareAfterSurgery) == CareAfterSurgeryLower
  {
    assert Lower("How do I ") == "how do i ";
    assert Lower("care") == "care";
    assert Lower(" for my teeth ") == " for my teeth ";
    assert Lower("after surgery?") == "after surgery?";
    LowerAppend("How do I ", "care");
    LowerAppend("How do I " + "care", " for my teeth ");
    LowerAppend("How do I " + "care" + " for my teeth ", "after surgery?");
  }

  lemma CareAfterSurgeryCharsWithin()
    ensures CharsWithin(CareAfterSurgeryLower, CareAfterSurgeryChars)
  {
    assert CharsWithin("how do i ", CareAfterSurgeryChars);
    assert CharsWithin("care", CareAfterSurgeryChars);
    assert CharsWithin(" for my teeth ", CareAfterSurgeryChars);
    assert CharsWithin("after surgery?", CareAfterSurgeryChars);
    CharsWithinAppend("how do i ", "care", CareAfterSurgeryChars);
    CharsWithinAppend("how do i " + "care", " for my teeth ", CareAfterSurgeryChars);
    CharsWithinAppend("how do i " + "care" + " for my teeth ", "after surgery?", CareAfterSurgeryChars);
  }

  lemma CareAfterSurgeryPairsWithin()
    ensures PairsWithin(CareAfterSurgeryLower, CareAfterSurgeryPairs)
  {
    assert PairsWithin("how do i ", CareAfterSurgeryPairs);
    assert PairsWithin("care", CareAfterSurgeryPairs);
    assert PairsWithin(" for my teeth ", CareAfterSurgeryPairs);
    assert PairsWithin("after surgery?", CareAfterSurgeryPairs);
    PairsWithinAppend("how do i ", "care", CareAfterSurgeryPairs);
    PairsWithinAppend("how do i " + "care", " for my teeth ", CareAfterSurgeryPairs);
    PairsWithinAppend("how do i " + "care" + " for my teeth ", "after surgery?", CareAfterSurgeryPairs);
  }

  lemma CareAfterSurgeryBookingMisses0(s: string)
    requires CharsWithin(s, CareAfterSurgeryChars) && PairsWithin(s, CareAfterSurgeryPairs)
    ensures forall j :: 0 <= j < 6 ==> !Contains(s, BookingKeywords[j])
  {
    AbsentChar(s, BookingKeywords[0], 0, CareAfterSurgeryChars);
    AbsentChar(s, BookingKeywords[1], 6, CareAfterSurgeryChars);
    AbsentChar(s, BookingKeywords[2], 1, CareAfterSurgeryChars);
    AbsentChar(s, BookingKeywords[3], 5, CareAfterSurgeryChars);
    AbsentChar(s, BookingKeywords[4], 1, CareAfterSurgeryChars);
    AbsentChar(s, BookingKeywords[5], 1, CareAfterSurgeryChars);
  }

  lemma CareAfterSurgeryBookingMisses1(s: string)
    requires CharsWithin(s, CareAfterSurgeryChars) && PairsWithin(s, CareAfterSurgeryPairs)
    ensures forall j :: 6 <= j < 12 ==> !Contains(s, BookingKeywords[j])
  {
    AbsentPair(s, BookingKeywords[6], 0, CareAfterSurgeryPairs);
    AbsentChar(s, BookingKeywords[7], 3, CareAfterSurgeryChars);
    AbsentChar(s, BookingKeywords[8], 2, CareAfterSurgeryChars);
    AbsentPair(s, BookingKeywords[9], 0, CareAfterSurgeryPairs);
    AbsentChar(s, BookingKeywords[10], 0, CareAfterSurgeryChars);
    AbsentChar(s, BookingKeywords[11], 6, CareAfterSurgeryChars);
  }

  lemma CareAfterSurgeryBooking()
    ensures CountIn(CareAfterSurgeryLower, BookingKeywords) == 0
  {
    CareAfterSurgeryCharsWithin();
    CareAfterSurgeryPairsWithin();
    CareAfterSurgeryBookingMisses0(CareAfterSurgeryLower);
    CareAfterSurgeryBookingMisses1(CareAfterSurgeryLower);
    CountInHits(CareAfterSurgeryLower, BookingKeywords, {});
  }

  lemma CareAfterSurgeryFaqMisses0(s: string)
    requires CharsWithin(s, CareAfterSurgeryChars) && PairsWithin(s, CareAfterSurgeryPairs)
    ensures forall j :: 0 <= j < 5 ==> !Contains(s, FaqKeywords[j])
  {
    AbsentPair(s, FaqKeywords[0], 1, CareAfterSurgeryPairs);
    AbsentPair(s, FaqKeywords[1], 0, CareAfterSurgeryPairs);
    AbsentChar(s, FaqKeywords[2], 0, CareAfterSurgeryChars);
    AbsentChar(s, FaqKeywords[3], 1, CareAfterSurgeryChars);
    AbsentChar(s, FaqKeywords[4], 0, CareAfterSurgeryChars);
  }

  lemma CareAfterSurgeryFaqMisses1(s: string)
    requires CharsWithin(s, CareAfterSurgeryChars) && PairsWithin(s, CareAfterSurgeryPairs)
    ensures forall j :: 5 <= j < 10 ==> !Contains(s, FaqKeywords[j])
  {
    AbsentPair(s, FaqKeywords[5], 0, CareAfterSurgeryPairs);
    AbsentChar(s, FaqKeywords[6], 0, CareAfterSurgeryChars);
    AbsentChar(s, FaqKeywords[7], 2, CareAfterSurgeryChars);
    AbsentChar(s, FaqKeywords[8], 4, CareAfterSurgeryChars);
    AbsentPair(s, FaqKeywords[9], 4, CareAfterSurgeryPairs);
  }

  lemma CareAfterSurgeryFaqMisses2(s: string)
    requires CharsWithin(s, CareAfterSurgeryChars) && PairsWithin(s, CareAfterSurgeryPairs)
    ensures forall j :: 10 <= j < 14 ==> !Contains(s, FaqKeywords[j])
  {
    AbsentChar(s, FaqKeywords[10], 3, CareAfterSurgeryChars);
    AbsentChar(s, FaqKeywords[11], 3, CareAfterSurgeryChars);
    AbsentPair(s, FaqKeywords[12], 2, CareAfterSurgeryPairs);
    AbsentChar(s, FaqKeywords[13], 6, CareAfterSurgeryChars);
  }

  lemma CareAfterSurgeryFaq()
    ensures CountIn(CareAfterSurgeryLower, FaqKeywords) == 0
  {
    CareAfterSurgeryCharsWithin();
    CareAfterSurgeryPairsWithin();
    CareAfterSurgeryFaqMisses0(CareAfterSurgeryLower);
    CareAfterSurgeryFaqMisses1(CareAfterSurgeryLower);
    CareAfterSurgeryFaqMisses2(CareAfterSurgeryLower);
    CountInHits(CareAfterSurgeryLower, FaqKeywords, {});
  }

  lemma CareAfterSurgeryKnowledgeMisses0(s: string)
    requires CharsWithin(s, CareAfterSurgeryChars) && PairsWithin(s, CareAfterSurgeryPairs)
    ensures forall j :: 0 <= j < 5 ==> !Contains(s, KnowledgeKeywords[j])
  {
    AbsentPair(s, KnowledgeKeywords[0], 0, CareAfterSurgeryPairs);
    AbsentPair(s, KnowledgeKeywords[1], 4, CareAfterSurgeryPairs);
    AbsentChar(s, KnowledgeKeywords[2], 2, CareAfterSurgeryChars);
    AbsentChar(s, KnowledgeKeywords[3], 1, CareAfterSurgeryChars);
    AbsentChar(s, KnowledgeKeywords[4], 1, CareAfterSurgeryChars);
  }

  lemma CareAfterSurgeryKnowledgeMisses1(s: string)
    requires CharsWithin(s, CareAfterSurgeryChars) && PairsWithin(s, CareAfterSurgeryPairs)
    ensures forall j :: 5 <= j < 10 && j != 9 ==> !Contains(s, KnowledgeKeywords[j])
  {
    AbsentChar(s, KnowledgeKeywords[5], 0, CareAfterSurgeryChars);
    AbsentChar(s, KnowledgeKeywords[6], 7, CareAfterSurgeryChars);
    AbsentChar(s, KnowledgeKeywords[7], 0, CareAfterSurgeryChars);
    AbsentChar(s, KnowledgeKeywords[8], 0, CareAfterSurgeryChars);
  }

  lemma CareAfterSurgeryKnowledgeMisses2(s: string)
    requires CharsWithin(s, CareAfterSurgeryChars) && PairsWithin(s, CareAfterSurgeryPairs)
    ensures forall j :: 10 <= j < 15 ==> !Contains(s, KnowledgeKeywords[j])
  {
    AbsentChar(s, KnowledgeKeywords[10], 4, CareAfterSurgeryChars);
    AbsentChar(s, KnowledgeKeywords[11], 3, CareAfterSurgeryChars);
    AbsentChar(s, KnowledgeKeywords[12], 2, CareAfterSurgeryChars);
    AbsentChar(s, KnowledgeKeywords[13], 7, CareAfterSurgeryChars);
    AbsentChar(s, KnowledgeKeywords[14], 1, CareAfterSurgeryChars);
  }

  lemma CareAfterSurgeryKnowledgeMisses3(s: string)
    requires CharsWithin(s, CareAfterSurgeryChars) && PairsWithin(s, CareAfterSurgeryPairs)
    ensures forall j :: 15 <= j < 21 ==> !Contains(s, KnowledgeKeywords[j])
  {
    AbsentChar(s, KnowledgeKeywords[15], 2, CareAfterSurgeryChars);
    AbsentChar(s, KnowledgeKeywords[16], 4, CareAfterSurgeryChars);
    AbsentChar(s, KnowledgeKeywords[17], 7, CareAfterSurgeryChars);
    AbsentChar(s, KnowledgeKeywords[18], 5, CareAfterSurgeryChars);
    AbsentChar(s, KnowledgeKeywords[19], 0, CareAfterSurgeryChars);
    AbsentChar(s, KnowledgeKeywords[20], 2, CareAfterSurgeryChars);
  }

  lemma CareAfterSurgeryKnowledgeHit9()
    ensures OccursAt(CareAfterSurgeryLower, KnowledgeKeywords[9], 9)
  {
    OccursInMiddle("how do i ", "care", " for my teeth " + "after surgery?");
  }

  lemma CareAfterSurgeryKnowledge()
    ensures CountIn(CareAfterSurgeryLower, KnowledgeKeywords) == 1
  {
    CareAfterSurgeryCharsWithin();
    CareAfterSurgeryPairsWithin();
    CareAfterSurgeryKnowledgeMisses0(CareAfterSurgeryLower);
    CareAfterSurgeryKnowledgeMisses1(CareAfterSurgeryLower);
    CareAfterSurgeryKnowledgeMisses2(CareAfterSurgeryLower);
    CareAfterSurgeryKnowledgeMisses3(CareAfterSurgeryLower);
    CareAfterSurgeryKnowledgeHit9();
    CountInHits(CareAfterSurgeryLower, KnowledgeKeywords, {9});
  }

  /** How classify_intent scores and classifies "How do I care for my teeth after surgery?". */
  lemma CareAfterSurgeryClassified()
    ensures CountIn(Lower(CareAfterSurgery), BookingKeywords) == 0
    ensures CountIn(Lower(CareAfterSurgery), FaqKeywords) == 0
    ensures CountIn(Lower(CareAfterSurgery), KnowledgeKeywords) == 1
    ensures Classify(CareAfterSurgery) == "knowledge"
  {
    CareAfterSurgeryLowered();
    CareAfterSurgeryBooking();
    CareAfterSurgeryFaq();
    CareAfterSurgeryKnowledge();
    ClassifyWithCounts(CareAfterSurgery, 0, 0, 1);
  }

  // TeethWhitening: "Tell me about teeth whitening options"

  const TeethWhiteningLower := "tell me about" + " teeth " + "whitening" + " options"

  const TeethWhiteningChars: set<char> := {
    ' ', 'a', 'b', 'e', 'g', 'h', 'i', 'l', 'm', 'n', 'o', 'p', 's', 't', 'u',
    'w'
  }

  const TeethWhiteningPairs: set<(char, char)> := {
    (' ', 'a'), (' ', 'm'), (' ', 'o'), (' ', 't'), (' ', 'w'), ('a', 'b'),
    ('b', 'o'), ('e', ' '), ('e', 'e'), ('e', 'l'), ('e', 'n'), ('e', 't'),
    ('g', ' '), ('h', ' '), ('h', 'i'), ('i', 'n'), ('i', 'o'), ('i', 't'),
    ('l', ' '), ('l', 'l'), ('m', 'e'), ('n', 'g'), ('n', 'i'), ('n', 's'),
    ('o', 'n'), ('o', 'p'), ('o', 'u'), ('p', 't'), ('t', ' '), ('t', 'e'),
    ('t', 'h'), ('t', 'i'), ('u', 't'), ('w', 'h')
  }

  lemma TeethWhiteningLowered()
    ensures Lower(TeethWhitening) == TeethWhiteningLower
  {
    assert Lower("Tell me about") == "tell me about";
    assert Lower(" teeth ") == " teeth ";
    assert Lower("whitening") == "whitening";
    assert Lower(" options") == " options";
    LowerAppend("Tell me about", " teeth ");
    LowerAppend("Tell me about" + " teeth ", "whitening");
    LowerAppend("Tell me about" + " teeth " + "whitening", " options");
  }

  lemma TeethWhiteningCharsWithin()
    ensures CharsWithin(TeethWhiteningLower, TeethWhiteningChars)
  {
    assert CharsWithin("tell me about", TeethWhiteningChars);
    assert CharsWithin(" teeth ", TeethWhiteningChars);
    assert CharsWithin("whitening", TeethWhiteningChars);
    assert CharsWithin(" options", TeethWhiteningChars);
    CharsWithinAppend("tell me about", " teeth ", TeethWhiteningChars);
    CharsWithinAppend("tell me about" + " teeth ", "whitening", TeethWhiteningChars);
    CharsWithinAppend("tell me about" + " teeth " + "whitening", " options", TeethWhiteningChars);
  }

  lemma TeethWhiteningPairsWithin()
    ensures PairsWithin(TeethWhiteningLower, TeethWhiteningPairs)
  {
    assert PairsWithin("tell me about", TeethWhiteningPairs);
    assert PairsWithin(" teeth ", TeethWhiteningPairs);
    assert PairsWithin("whitening", TeethWhiteningPairs);
    assert PairsWithin(" options", TeethWhiteningPairs);
    PairsWithinAppend("tell me about", " teeth ", TeethWhiteningPairs);
    PairsWithinAppend("tell me about" + " teeth ", "whitening", TeethWhiteningPairs);
    PairsWithinAppend("tell me about" + " teeth " + "whitening", " options", TeethWhiteningPairs);
  }

  lemma TeethWhiteningBookingMisses0(s: string)
    requires CharsWithin(s, TeethWhiteningChars) && PairsWithin(s, TeethWhiteningPairs)
    ensures forall j :: 0 <= j < 6 ==> !Contains(s, BookingKeywords[j])
  {
    AbsentChar(s, BookingKeywords[0], 3, TeethWhiteningChars);
    AbsentChar(s, BookingKeywords[1], 1, TeethWhiteningChars);
    AbsentPair(s, BookingKeywords[2], 0, TeethWhiteningPairs);
    AbsentChar(s, BookingKeywords[3], 0, TeethWhiteningChars);
    AbsentChar(s, BookingKeywords[4], 1, TeethWhiteningChars);
    AbsentPair(s, BookingKeywords[5], 0, TeethWhiteningPairs);
  }

  lemma TeethWhiteningBookingMisses1(s: string)
    requires CharsWithin(s, TeethWhiteningChars) && PairsWithin(s, TeethWhiteningPairs)
    ensures forall j :: 6 <= j < 12 ==> !Contains(s, BookingKeywords[j])
  {
    AbsentPair(s, BookingKeywords[6], 1, TeethWhiteningPairs);
    AbsentChar(s, BookingKeywords[7], 5, TeethWhiteningChars);
    AbsentChar(s, BookingKeywords[8], 2, TeethWhiteningChars);
    AbsentChar(s, BookingKeywords[9], 4, TeethWhiteningChars);
    AbsentChar(s, BookingKeywords[10], 0, TeethWhiteningChars);
    AbsentChar(s, BookingKeywords[11], 0, TeethWhiteningChars);
  }

  lemma TeethWhiteningBooking()
    ensures CountIn(TeethWhiteningLower, BookingKeywords) == 0
  {
    TeethWhiteningCharsWithin();
    TeethWhiteningPairsWithin();
    TeethWhiteningBookingMisses0(TeethWhiteningLower);
    TeethWhiteningBookingMisses1(TeethWhiteningLower);
    CountInHits(TeethWhiteningLower, BookingKeywords, {});
  }

  lemma TeethWhiteningFaqMisses0(s: string)
    requires CharsWithin(s, TeethWhiteningChars) && PairsWithin(s, TeethWhiteningPairs)
    ensures forall j :: 0 <= j < 5 ==> !Contains(s, FaqKeywords[j])
  {
    AbsentChar(s, FaqKeywords[0], 3, TeethWhiteningChars);
    AbsentChar(s, FaqKeywords[1], 0, TeethWhiteningChars);
    AbsentChar(s, FaqKeywords[2], 1, TeethWhiteningChars);
    AbsentChar(s, FaqKeywords[3], 4, TeethWhiteningChars);
    AbsentChar(s, FaqKeywords[4], 2, TeethWhiteningChars);
  }

  lemma TeethWhiteningFaqMisses1(s: string)
    requires CharsWithin(s, TeethWhiteningChars) && PairsWithin(s, TeethWhiteningPairs)
    ensures forall j :: 5 <= j < 10 ==> !Contains(s, FaqKeywords[j])
  {
    AbsentChar(s, FaqKeywords[5], 3, TeethWhiteningChars);
    AbsentPair(s, FaqKeywords[6], 0, TeethWhiteningPairs);
    AbsentChar(s, FaqKeywords[7], 0, TeethWhiteningChars);
    AbsentChar(s, FaqKeywords[8], 1, TeethWhiteningChars);
    AbsentChar(s, FaqKeywords[9], 6, TeethWhiteningChars);
  }

  lemma TeethWhiteningFaqMisses2(s: string)
    requires CharsWithin(s, TeethWhiteningChars) && PairsWithin(s, TeethWhiteningPairs)
    ensures forall j :: 10 <= j < 14 ==> !Contains(s, FaqKeywords[j])
  {
    AbsentPair(s, FaqKeywords[10], 1, TeethWhiteningPairs);
    AbsentChar(s, FaqKeywords[11], 2, TeethWhiteningChars);
    AbsentChar(s, FaqKeywords[12], 0, TeethWhiteningChars);
    AbsentChar(s, FaqKeywords[13], 3, TeethWhiteningChars);
  }

  lemma TeethWhiteningFaq()
    ensures CountIn(TeethWhiteningLower, FaqKeywords) == 0
  {
    TeethWhiteningCharsWithin();
    TeethWhiteningPairsWithin();
    TeethWhiteningFaqMisses0(TeethWhiteningLower);
    TeethWhiteningFaqMisses1(TeethWhiteningLower);
    TeethWhiteningFaqMisses2(TeethWhiteningLower);
    CountInHits(TeethWhiteningLower, FaqKeywords, {});
  }

  lemma TeethWhiteningKnowledgeMisses0(s: string)
    requires CharsWithin(s, TeethWhiteningChars) && PairsWithin(s, TeethWhiteningPairs)
    ensures forall j :: 0 <= j < 5 && j != 2 ==> !Contains(s, KnowledgeKeywords[j])
  {
    AbsentPair(s, KnowledgeKeywords[0], 1, TeethWhiteningPairs);
    AbsentPair(s, KnowledgeKeywords[1], 0, TeethWhiteningPairs);
    AbsentChar(s, KnowledgeKeywords[3], 1, TeethWhiteningChars);
    AbsentChar(s, KnowledgeKeywords[4], 2, TeethWhiteningChars);
  }

  lemma TeethWhiteningKnowledgeMisses1(s: string)
    requires CharsWithin(s, TeethWhiteningChars) && PairsWithin(s, TeethWhiteningPairs)
    ensures forall j :: 5 <= j < 10 ==> !Contains(s, KnowledgeKeywords[j])
  {
    AbsentChar(s, KnowledgeKeywords[5], 3, TeethWhiteningChars);
    AbsentChar(s, KnowledgeKeywords[6], 1, TeethWhiteningChars);
    AbsentChar(s, KnowledgeKeywords[7], 1, TeethWhiteningChars);
    AbsentPair(s, KnowledgeKeywords[8], 0, TeethWhiteningPairs);
    AbsentChar(s, KnowledgeKeywords[9], 0, TeethWhiteningChars);
  }

  lemma TeethWhiteningKnowledgeMisses2(s: string)
    requires CharsWithin(s, TeethWhiteningChars) && PairsWithin(s, TeethWhiteningPairs)
    ensures forall j :: 10 <= j < 15 ==> !Contains(s, KnowledgeKeywords[j])
  {
    AbsentChar(s, KnowledgeKeywords[10], 0, TeethWhiteningChars);
    AbsentPair(s, KnowledgeKeywords[11], 0, TeethWhiteningPairs);
    AbsentChar(s, KnowledgeKeywords[12], 1, TeethWhiteningChars);
    AbsentChar(s, KnowledgeKeywords[13], 0, TeethWhiteningChars);
    AbsentChar(s, KnowledgeKeywords[14], 0, TeethWhiteningChars);
  }

  lemma TeethWhiteningKnowledgeMisses3(s: string)
    requires CharsWithin(s, TeethWhiteningChars) && PairsWithin(s, TeethWhiteningPairs)
    ensures forall j :: 15 <= j < 21 && j != 18 ==> !Contains(s, KnowledgeKeywords[j])
  {
    AbsentChar(s, KnowledgeKeywords[15], 0, TeethWhiteningChars);
    AbsentChar(s, KnowledgeKeywords[16], 0, TeethWhiteningChars);
    AbsentChar(s, KnowledgeKeywords[17], 0, TeethWhiteningChars);
    AbsentChar(s, KnowledgeKeywords[19], 1, TeethWhiteningChars);
    AbsentPair(s, KnowledgeKeywords[20], 0, TeethWhiteningPairs);
  }

  lemma TeethWhiteningKnowledgeHit2()
    ensures OccursAt(TeethWhiteningLower, KnowledgeKeywords[2], 0)
  {
    OccursInMiddle("", "tell me about", " teeth " + "whitening" + " options");
  }

  lemma TeethWhiteningKnowledgeHit18()
    ensures OccursAt(TeethWhiteningLower, KnowledgeKeywords[18], 20)
  {
    OccursInMiddle("tell me about" + " teeth ", "whitening", " options");
  }

  lemma TeethWhiteningKnowledge()
    ensures CountIn(TeethWhiteningLower, KnowledgeKeywords) == 2
  {
    TeethWhiteningCharsWithin();
    TeethWhiteningPairsWithin();
    TeethWhiteningKnowledgeMisses0(TeethWhiteningLower);
    TeethWhiteningKnowledgeMisses1(TeethWhiteningLower);
    TeethWhiteningKnowledgeMisses2(TeethWhiteningLower);
    TeethWhiteningKnowledgeMisses3(TeethWhiteningLower);
    TeethWhiteningKnowledgeHit2();
    TeethWhiteningKnowledgeHit18();
    CountInHits(TeethWhiteningLower, KnowledgeKeywords, {2, 18});
  }

  /** How classify_intent scores and classifies "Tell me about teeth whitening options". */
  lemma TeethWhiteningClassified()
    ensures CountIn(Lower(TeethWhitening), BookingKeywords) == 0
    ensures CountIn(Lower(TeethWhitening), FaqKeywords) == 0
    ensures CountIn(Lower(TeethWhitening), KnowledgeKeywords) == 2
    ensures Classify(TeethWhitening) == "knowledge"
  {
    TeethWhiteningLowered();
    TeethWhiteningBooking();
    TeethWhiteningFaq();
    TeethWhiteningKnowledge();
    ClassifyWithCounts(TeethWhitening, 0, 0, 2);
  }
}
