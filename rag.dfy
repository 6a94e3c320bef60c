/**
 * The retrieval part of modules/rag_system.py: the knowledge base cut into
 * chunks, the keyword fallback search with its ranking, the choice between
 * that search and the embedding search, and the context handed to the
 * language model.
 */
module Rag {
  import opened Common
  import opened Text
  import opened Helpers

  /** Config.MAX_CHUNKS: how many chunks a search returns at most. */
  const MaxChunks: nat := 3
  /** Config.CHUNK_SIZE, the chunk length in words. */
  const ChunkSize: nat := 200
  /** The default overlap of chunk_text, which load_knowledge_base keeps. */
  const ChunkOverlap: nat := 50
  /** The separator between chunks in the context. */
  const ContextSeparator: string := "\n\n"

  /** One search hit: the chunk's text, its similarity and its position. */
  datatype SearchResult = SearchResult(content: string, score: Ratio, chunkId: nat)

  /** What the embedding search reports for one chunk that passed its
      similarity threshold. */
  datatype EmbeddingHit = EmbeddingHit(chunkId: nat, similarity: Ratio)

  /** The dictionary answer_question_with_context returns. */
  datatype Answer = Answer(question: string, context: string, relevantChunks: seq<SearchResult>, hasContext: bool)

  // ---------------------------------------------------------------------
  // Ranking
  // ---------------------------------------------------------------------

  /** The sort key. Within one fallback search every score has the same
      denominator (the number of query words), so scores compare as their
      numerators do. */
  function Rank(r: SearchResult): nat
  {
    r.score.num
  }

  /** x placed before the first entry whose key is not larger. */
  function Insert(x: SearchResult, s: seq<SearchResult>): (r: seq<SearchResult>)
    ensures multiset(r) == multiset(s) + multiset{x}
    ensures forall y :: y in r ==> y == x || y in s
  {
    if s == [] then [x]
    else if Rank(s[0]) <= Rank(x) then [x] + s
    else
      assert s == [s[0]] + s[1..];
      [s[0]] + Insert(x, s[1..])
  }

  /** results.sort(key=similarity, reverse=True): descending by key, and a
      stable sort, so entries with equal keys keep their order. */
  function SortByScore(rs: seq<SearchResult>): (r: seq<SearchResult>)
    ensures multiset(r) == multiset(rs)
  {
    if rs == [] then []
    else
      assert rs == [rs[0]] + rs[1..];
      Insert(rs[0], SortByScore(rs[1..]))
  }

  /** Chunk positions strictly increase. */
  predicate IdsIncreasing(s: seq<SearchResult>)
  {
    forall i, j :: 0 <= i < j < |s| ==> s[i].chunkId < s[j].chunkId
  }

  /** Descending by key, ties by ascending chunk position. */
  predicate Ranked(s: seq<SearchResult>)
  {
    forall i, j :: 0 <= i < j < |s| ==>
      Rank(s[i]) > Rank(s[j]) || (Rank(s[i]) == Rank(s[j]) && s[i].chunkId < s[j].chunkId)
  }

  lemma {:induction false} InsertRanked(x: SearchResult, s: seq<SearchResult>)
    requires Ranked(s)
    requires forall y :: y in s ==> x.chunkId < y.chunkId
    ensures Ranked(Insert(x, s))
  {
    if s != [] && Rank(s[0]) > Rank(x) {
      var tail := Insert(x, s[1..]);
      InsertRanked(x, s[1..]);
      assert Insert(x, s) == [s[0]] + tail;
      forall j | 0 <= j < |tail|
        ensures Rank(s[0]) > Rank(tail[j]) || (Rank(s[0]) == Rank(tail[j]) && s[0].chunkId < tail[j].chunkId)
      {
        assert tail[j] in tail;
      }
    }
  }

  /** Sorting entries taken in chunk order ranks them: best key first, and
      among equal keys the earlier chunk first. */
  lemma {:induction false} SortRanked(rs: seq<SearchResult>)
    requires IdsIncreasing(rs)
    ensures Ranked(SortByScore(rs))
  {
    if rs != [] {
      var rest := SortByScore(rs[1..]);
      SortRanked(rs[1..]);
      forall y | y in rest ensures rs[0].chunkId < y.chunkId {
        assert y in multiset(rest);
        assert y in rs[1..];
      }
      InsertRanked(rs[0], rest);
    }
  }

  // ---------------------------------------------------------------------
  // The keyword fallback search
  // ---------------------------------------------------------------------

  /** The entry _fallback_search builds for chunk i. */
  function Candidate(chunks: seq<string>, words: seq<string>, i: nat): SearchResult
    requires i < |chunks|
  {
    SearchResult(chunks[i], Ratio(CountIn(Lower(chunks[i]), words), |words|), i)
  }

  /** x is the entry of a chunk some query word occurs in. */
  predicate Scored(chunks: seq<string>, words: seq<string>, x: SearchResult)
  {
    x.chunkId < |chunks| && x == Candidate(chunks, words, x.chunkId) && x.score.num > 0
  }

  /** The entries of the chunks that some query word occurs in, in chunk
      order. */
  function Candidates(chunks: seq<string>, words: seq<string>): (r: seq<SearchResult>)
    ensures IdsIncreasing(r)
    ensures forall k :: 0 <= k < |r| ==> Scored(chunks, words, r[k])
  {
    if chunks == [] then []
    else
      var n := |chunks| - 1;
      var front := Candidates(chunks[..n], words);
      assert forall k :: 0 <= k < |front| ==> front[k].chunkId < n && chunks[..n][front[k].chunkId] == chunks[front[k].chunkId];
      if CountIn(Lower(chunks[n]), words) > 0 then front + [Candidate(chunks, words, n)]
      else front
  }

  /** Every chunk some query word occurs in has an entry. */
  lemma {:induction false} CandidatesCover(chunks: seq<string>, words: seq<string>, i: nat)
    requires i < |chunks| && CountIn(Lower(chunks[i]), words) > 0
    ensures exists k :: 0 <= k < |Candidates(chunks, words)| && Candidates(chunks, words)[k].chunkId == i
  {
    var n := |chunks| - 1;
    var r := Candidates(chunks, words);
    if i == n {
      assert r[|r| - 1].chunkId == i;
    } else {
      assert chunks[..n][i] == chunks[i];
      CandidatesCover(chunks[..n], words, i);
      var front := Candidates(chunks[..n], words);
      var k :| 0 <= k < |front| && front[k].chunkId == i;
      assert r[k] == front[k];
    }
  }

  /** The first entries of the ranked candidates: what _fallback_search returns. */
  function FallbackResults(chunks: seq<string>, query: string): seq<SearchResult>
  {
    var sorted := SortByScore(Candidates(chunks, Split(Lower(query))));
    sorted[..Min(MaxChunks, |sorted|)]
  }

  /** The sorted candidates are ranked and are all candidates. */
  lemma SortedCandidates(chunks: seq<string>, words: seq<string>)
    ensures Ranked(SortByScore(Candidates(chunks, words)))
    ensures forall k :: 0 <= k < |SortByScore(Candidates(chunks, words))| ==>
      Scored(chunks, words, SortByScore(Candidates(chunks, words))[k])
  {
    var cands := Candidates(chunks, words);
    var sorted := SortByScore(cands);
    SortRanked(cands);
    forall k | 0 <= k < |sorted| ensures Scored(chunks, words, sorted[k]) {
      assert sorted[k] in multiset(cands);
      var j :| 0 <= j < |cands| && cands[j] == sorted[k];
    }
  }

  /** The fallback hits are the first MaxChunks ranked candidates (fewer only
      when fewer chunks match), each the entry of a chunk some query word
      occurs in. */
  lemma FallbackFacts(chunks: seq<string>, query: string)
    ensures var words := Split(Lower(query));
      var r := FallbackResults(chunks, query);
      |r| == Min(MaxChunks, |Candidates(chunks, words)|) && Ranked(r) &&
      forall k :: 0 <= k < |r| ==> Scored(chunks, words, r[k])
  {
    var words := Split(Lower(query));
    var sorted := SortByScore(Candidates(chunks, words));
    SortedCandidates(chunks, words);
    PrefixRanked(sorted, Min(MaxChunks, |sorted|));
  }

  /** A prefix of a ranked sequence is ranked. */
  lemma PrefixRanked(s: seq<SearchResult>, n: nat)
    requires Ranked(s) && n <= |s|
    ensures Ranked(s[..n])
  {
    assert forall k :: 0 <= k < n ==> s[..n][k] == s[k];
  }

  /** A fallback hit quotes its chunk and scores the share of the query words
      occurring in it: above zero, and one exactly when every word occurs. */
  lemma FallbackHitScore(chunks: seq<string>, query: string, k: nat)
    requires k < |FallbackResults(chunks, query)|
    ensures var words := Split(Lower(query));
      var h := FallbackResults(chunks, query)[k];
      h.chunkId < |chunks| && h.content == chunks[h.chunkId] &&
      h.score == Ratio(CountIn(Lower(h.content), words), |words|) &&
      0 < h.score.num <= h.score.den &&
      (h.score.num == h.score.den <==> forall w :: w in words ==> Contains(Lower(h.content), w))
  {
    FallbackFacts(chunks, query);
  }

  /** h ranks above a chunk at position i scoring score: a higher score, or
      the same score from an earlier chunk. */
  predicate Outranks(h: SearchResult, score: nat, i: nat)
  {
    Rank(h) > score || (Rank(h) == score && h.chunkId < i)
  }

  /** A chunk some query word occurs in is among the sorted candidates. */
  lemma CandidateSorted(chunks: seq<string>, words: seq<string>, i: nat)
    requires i < |chunks| && CountIn(Lower(chunks[i]), words) > 0
    ensures Candidate(chunks, words, i) in SortByScore(Candidates(chunks, words))
  {
    var cands := Candidates(chunks, words);
    CandidatesCover(chunks, words, i);
    var k :| 0 <= k < |cands| && cands[k].chunkId == i;
    assert Scored(chunks, words, cands[k]);
    assert cands[k] in multiset(SortByScore(cands));
  }

  /** A matching chunk left out of the fallback hits ranks no higher than any
      hit, and on a tie the hit comes from an earlier chunk. */
  lemma FallbackKeepsBest(chunks: seq<string>, query: string, i: nat)
    requires i < |chunks|
    requires CountIn(Lower(chunks[i]), Split(Lower(query))) > 0
    requires forall k :: 0 <= k < |FallbackResults(chunks, query)| ==> FallbackResults(chunks, query)[k].chunkId != i
    ensures forall k :: 0 <= k < |FallbackResults(chunks, query)| ==>
      Outranks(FallbackResults(chunks, query)[k], CountIn(Lower(chunks[i]), Split(Lower(query))), i)
  {
    var words := Split(Lower(query));
    var sorted := SortByScore(Candidates(chunks, words));
    var r := FallbackResults(chunks, query);
    var x := Candidate(chunks, words, i);
    assert r == sorted[..|r|];
    assert forall k :: 0 <= k < |r| ==> sorted[k] == r[k];
    SortRanked(Candidates(chunks, words));
    CandidateSorted(chunks, words, i);
    OutrankedByPrefix(sorted, |r|, x);
  }

  /** In a ranked sequence, an entry outside a prefix is outranked by every
      entry of the prefix. */
  lemma OutrankedByPrefix(s: seq<SearchResult>, m: nat, x: SearchResult)
    requires Ranked(s) && m <= |s| && x in s
    requires forall k :: 0 <= k < m ==> s[k].chunkId != x.chunkId
    ensures forall k :: 0 <= k < m ==> Outranks(s[k], Rank(x), x.chunkId)
  {
    var j :| 0 <= j < |s| && s[j] == x;
    assert j >= m;
  }

  /** A query with no words finds nothing. */
  lemma BlankQueryFindsNothing(chunks: seq<string>, query: string)
    requires !HasNonSpace(query)
    ensures FallbackResults(chunks, query) == []
  {
    var lower := Lower(query);
    forall i | 0 <= i < |lower| ensures IsSpace(lower[i]) {
      LowerCharKeepsSpace(query[i]);
    }
    SplitEmptyIff(lower);
  }

  /** A chunk a query word occurs in holds a non-whitespace character. */
  lemma MatchedChunkNonBlank(chunk: string, w: string)
    requires IsWord(w) && Contains(Lower(chunk), w)
    ensures HasNonSpace(chunk)
  {
    var lower := Lower(chunk);
    var i :| 0 <= i <= |lower| - |w| && OccursAt(lower, w, i);
    assert lower[i] == w[0];
    LowerCharKeepsSpace(chunk[i]);
  }

  // ---------------------------------------------------------------------
  // Search dispatch and context
  // ---------------------------------------------------------------------

  /** The embedding hits as search results. */
  function EmbeddingResults(chunks: seq<string>, hits: seq<EmbeddingHit>): seq<SearchResult>
    requires forall h :: h in hits ==> h.chunkId < |chunks|
  {
    seq(|hits|, k requires 0 <= k < |hits| => SearchResult(chunks[hits[k].chunkId], hits[k].similarity, hits[k].chunkId))
  }

  predicate HitsInRange(chunks: seq<string>, hits: Option<seq<EmbeddingHit>>)
  {
    hits.Some? ==> forall h :: h in hits.value ==> h.chunkId < |chunks|
  }

  /** The condition under which search_knowledge skips the embeddings. */
  predicate UsesFallback(chunks: seq<string>, hasModel: bool, hasEmbeddings: bool)
  {
    chunks == [] || !hasModel || !hasEmbeddings
  }

  /** What search_knowledge returns; hits is the embedding search's outcome,
      None when it raised. */
  function Search(chunks: seq<string>, hasModel: bool, hasEmbeddings: bool, query: string,
                  hits: Option<seq<EmbeddingHit>>): seq<SearchResult>
    requires HitsInRange(chunks, hits)
  {
    if UsesFallback(chunks, hasModel, hasEmbeddings) || hits.None? then FallbackResults(chunks, query)
    else EmbeddingResults(chunks, hits.value)
  }

  /** The texts of the hits, in order. */
  function Contents(rs: seq<SearchResult>): seq<string>
  {
    seq(|rs|, k requires 0 <= k < |rs| => rs[k].content)
  }

  /** The texts of the hits, in order, collected one by one. */
  method CollectContents(rs: seq<SearchResult>) returns (parts: seq<string>)
    ensures parts == Contents(rs)
  {
    parts := [];
    for k := 0 to |rs|
      invariant parts == Contents(rs[..k])
    {
      parts := parts + [rs[k].content];
    }
    assert rs[..|rs|] == rs;
  }

  /** The context: the hits' texts separated by blank lines. */
  function ContextText(rs: seq<SearchResult>): string
  {
    Join(ContextSeparator, Contents(rs))
  }

  /** The context holds the text of every hit. */
  lemma ContextHoldsHits(rs: seq<SearchResult>, k: nat)
    requires k < |rs|
    ensures Contains(ContextText(rs), rs[k].content)
  {
    JoinContainsPart(ContextSeparator, Contents(rs), k);
  }

  /** When every hit has a non-whitespace character, the context does exactly
      when there is a hit. */
  lemma ContextBlankIff(rs: seq<SearchResult>)
    requires forall k :: 0 <= k < |rs| ==> HasNonSpace(rs[k].content)
    ensures HasNonSpace(ContextText(rs)) <==> rs != []
  {
    assert IsSpace(ContextSeparator[0]) && IsSpace(ContextSeparator[1]);
    JoinHasNonSpace(ContextSeparator, Contents(rs));
    if rs != [] {
      assert HasNonSpace(Contents(rs)[0]);
    }
  }

  /** Every fallback hit has a non-whitespace character. */
  lemma FallbackHitsNonBlank(chunks: seq<string>, query: string)
    ensures forall k :: 0 <= k < |FallbackResults(chunks, query)| ==> HasNonSpace(FallbackResults(chunks, query)[k].content)
  {
    var words := Split(Lower(query));
    var r := FallbackResults(chunks, query);
    forall k | 0 <= k < |r| ensures HasNonSpace(r[k].content) {
      FallbackHitScore(chunks, query, k);
      var c := r[k].content;
      assert CountIn(Lower(c), words) > 0;
      var w :| w in words && Contains(Lower(c), w);
      MatchedChunkNonBlank(c, w);
    }
  }

  /** What answer_question_with_context returns for a question. */
  function AnswerFor(chunks: seq<string>, hasModel: bool, hasEmbeddings: bool, question: string,
                     hits: Option<seq<EmbeddingHit>>): Answer
    requires HitsInRange(chunks, hits)
  {
    var relevant := Search(chunks, hasModel, hasEmbeddings, question, hits);
    var context := ContextText(relevant);
    Answer(question, context, relevant, HasNonSpace(context))
  }

  // ---------------------------------------------------------------------
  // The system
  // ---------------------------------------------------------------------

  /** RAGSystem. hasModel says whether the embedding model loaded,
      hasEmbeddings whether chunk_embeddings is set. */
  class RagSystem {
    var knowledgeChunks: seq<string>
    var hasModel: bool
    var hasEmbeddings: bool

    /** Every chunk holds a non-whitespace character. */
    predicate Valid()
      reads this
    {
      forall k :: 0 <= k < |knowledgeChunks| ==> HasNonSpace(knowledgeChunks[k])
    }

    /** __init__ followed by load_knowledge_base; modelLoaded says whether the
        model loaded, knowledgeText is the file's text and encodeOk whether
        encoding the chunks succeeds. */
    constructor(modelLoaded: bool, knowledgeText: string, encodeOk: bool)
      ensures Valid()
      ensures hasModel == modelLoaded
      ensures knowledgeChunks == (if knowledgeText == "" then [] else Chunks(knowledgeText, ChunkSize, ChunkOverlap))
      ensures hasEmbeddings == (knowledgeChunks != [] && modelLoaded && encodeOk)
    {
      knowledgeChunks := [];
      hasModel := modelLoaded;
      hasEmbeddings := false;
      new;
      LoadKnowledgeBase(knowledgeText, encodeOk);
    }

    /** load_knowledge_base: an empty text changes nothing; otherwise the
        chunks are replaced, and when there are chunks and a model the
        embeddings are set exactly when encoding succeeds. */
    method LoadKnowledgeBase(knowledgeText: string, encodeOk: bool)
      modifies this
      ensures hasModel == old(hasModel)
      ensures knowledgeText == "" ==>
        knowledgeChunks == old(knowledgeChunks) && hasEmbeddings == old(hasEmbeddings)
      ensures knowledgeText != "" ==> knowledgeChunks == Chunks(knowledgeText, ChunkSize, ChunkOverlap)
      ensures knowledgeText != "" ==>
        hasEmbeddings == (if knowledgeChunks == [] || !hasModel then old(hasEmbeddings) else encodeOk)
      ensures old(Valid()) ==> Valid()
    {
      if knowledgeText == "" {
        return;
      }
      knowledgeChunks := ChunkText(knowledgeText, ChunkSize, ChunkOverlap);
      ChunksNonBlank(knowledgeText, ChunkSize, ChunkOverlap);
      if knowledgeChunks == [] {
        return;
      }
      if hasModel {
        hasEmbeddings := encodeOk;
      }
    }

    /** _fallback_search: score every chunk by the query words occurring in
        it, keep the chunks with a match, rank them, keep the first few. */
    method FallbackSearch(query: string) returns (results: seq<SearchResult>)
      ensures results == FallbackResults(knowledgeChunks, query)
    {
      var queryLower := Lower(query);
      results := [];
      for i := 0 to |knowledgeChunks|
        invariant results == Candidates(knowledgeChunks[..i], Split(queryLower))
      {
        var chunk := knowledgeChunks[i];
        var chunkLower := Lower(chunk);
        var queryWords := Split(queryLower);
        var matches := CountIn(chunkLower, queryWords);
        assert knowledgeChunks[..i + 1][..i] == knowledgeChunks[..i];
        if matches > 0 {
          results := results + [SearchResult(chunk, Ratio(matches, |queryWords|), i)];
        }
      }
      assert knowledgeChunks[..|knowledgeChunks|] == knowledgeChunks;
      results := SortByScore(results);
      results := results[..Min(MaxChunks, |results|)];
    }

    /** search_knowledge: the fallback search without chunks, model or
        embeddings, or when the embedding search raises; the embedding hits
        otherwise. */
    method SearchKnowledge(query: string, hits: Option<seq<EmbeddingHit>>) returns (results: seq<SearchResult>)
      requires HitsInRange(knowledgeChunks, hits)
      ensures results == Search(knowledgeChunks, hasModel, hasEmbeddings, query, hits)
    {
      if knowledgeChunks == [] || !hasModel || !hasEmbeddings {
        results := FallbackSearch(query);
        return;
      }
      match hits {
        case None =>
          results := FallbackSearch(query);
        case Some(hs) =>
          results := [];
          for k := 0 to |hs|
            invariant results == EmbeddingResults(knowledgeChunks, hs[..k])
          {
            assert hs[..k + 1][..k] == hs[..k];
            var idx := hs[k].chunkId;
            assert hs[k] in hs;
            results := results + [SearchResult(knowledgeChunks[idx], hs[k].similarity, idx)];
          }
          assert hs[..|hs|] == hs;
      }
    }

    /** get_context_for_query: "" without hits, else the hits' texts
        separated by blank lines. */
    method GetContextForQuery(query: string, hits: Option<seq<EmbeddingHit>>) returns (context: string)
      requires HitsInRange(knowledgeChunks, hits)
      ensures context == ContextText(Search(knowledgeChunks, hasModel, hasEmbeddings, query, hits))
    {
      var relevant := SearchKnowledge(query, hits);
      if relevant == [] {
        return "";
      }
      var parts := CollectContents(relevant);
      context := Join(ContextSeparator, parts);
    }

    /** answer_question_with_context: the context and the hits for the
        question, and whether the context has any non-whitespace character;
        over chunks from load_knowledge_base that is exactly whether there
        was a hit. Both searches see the same embedding outcome. */
    method AnswerQuestionWithContext(question: string, hits: Option<seq<EmbeddingHit>>) returns (a: Answer)
      requires HitsInRange(knowledgeChunks, hits)
      ensures a == AnswerFor(knowledgeChunks, hasModel, hasEmbeddings, question, hits)
      ensures a.question == question
      ensures a.relevantChunks == Search(knowledgeChunks, hasModel, hasEmbeddings, question, hits)
      ensures a.context == ContextText(a.relevantChunks)
      ensures a.hasContext <==> HasNonSpace(a.context)
      ensures Valid() ==> (a.hasContext <==> a.relevantChunks != [])
    {
      var context := GetContextForQuery(question, hits);
      var relevant := SearchKnowledge(question, hits);
      StripShape(context);
      a := Answer(question, context, relevant, |Strip(context)| > 0);
      if Valid() {
        if UsesFallback(knowledgeChunks, hasModel, hasEmbeddings) || hits.None? {
          FallbackHitsNonBlank(knowledgeChunks, question);
        } else {
          forall k | 0 <= k < |relevant| ensures HasNonSpace(relevant[k].content) {
            assert hits.value[k] in hits.value;
          }
        }
        ContextBlankIff(relevant);
      }
    }
  }
}
