/**
 * The text utilities of utils/helpers.py: the overlapping word-window chunker
 * that feeds the knowledge base, keyword counting, and text normalisation.
 */
module Helpers {
  import opened Common
  import opened Text

  // ---------------------------------------------------------------------
  // chunk_text
  // ---------------------------------------------------------------------

  /** The start of window k: k steps of step words. */
  function Start(k: nat, step: nat): nat
  {
    if k == 0 then 0 else Start(k - 1, step) + step
  }

  /** Window k starts at word k * step, as the range(0, len(words), step) loop has it. */
  lemma {:induction false} StartIsProduct(k: nat, step: nat)
    ensures Start(k, step) == k * step
  {
    if k > 0 {
      StartIsProduct(k - 1, step);
    }
  }

  lemma {:induction false} StartMono(a: nat, b: nat, step: nat)
    requires a <= b
    ensures Start(a, step) <= Start(b, step)
  {
    if a < b {
      StartMono(a, b - 1, step);
    }
  }

  /** Window k of a word list, words[k*step .. k*step+size), clamped to the list. */
  function Window(words: seq<string>, size: nat, step: nat, k: nat): seq<string>
  {
    words[Min(Start(k, step), |words|)..Min(Start(k, step) + size, |words|)]
  }

  /** Number of windows chunk_text produces for n words: none for no words,
      one when they fit in a single window, otherwise one more than for the
      n - step words after the first step (1 + ceil((n - size) / step) in all). */
  function ChunkCount(n: nat, size: nat, step: nat): nat
    requires 1 <= step <= size
  {
    if n == 0 then 0
    else if n <= size then 1
    else 1 + ChunkCount(n - step, size, step)
  }

  /** Every window chunk_text visits, in order. */
  function Windows(words: seq<string>, size: nat, step: nat): seq<seq<string>>
    requires 1 <= step <= size
  {
    seq(ChunkCount(|words|, size, step), k requires 0 <= k => Window(words, size, step, k))
  }

  /** Each window joined by single spaces. */
  function JoinWindows(words: seq<string>, size: nat, overlap: nat): seq<string>
    requires overlap < size
  {
    var ws := Windows(words, size, size - overlap);
    seq(|ws|, k requires 0 <= k < |ws| => Join(" ", ws[k]))
  }

  /** The chunks of text: the windows of text.split(), joined. */
  function Chunks(text: string, size: nat, overlap: nat): seq<string>
    requires overlap < size
  {
    JoinWindows(Split(text), size, overlap)
  }

  /** chunk_text(text, chunk_size, overlap). */
  method ChunkText(text: string, chunkSize: int, overlap: int) returns (chunks: seq<string>)
    requires 0 <= overlap < chunkSize
    ensures chunks == Chunks(text, chunkSize, overlap)
  {
    if text == "" {
      return [];
    }
    var words := Split(text);
    chunks := ChunkWordList(words, chunkSize, overlap);
  }

  /** The loop of chunk_text over the words: window starts 0, step, 2*step, ...,
      stopping after the first window that reaches the last word. */
  method ChunkWordList(words: seq<string>, chunkSize: int, overlap: int) returns (chunks: seq<string>)
    requires 0 <= overlap < chunkSize
    ensures chunks == JoinWindows(words, chunkSize, overlap)
  {
    var step := chunkSize - overlap;
    chunks := [];
    var i := 0;
    while i < |words|
      invariant i == Start(|chunks|, step)
      invariant chunks != [] ==> |words| >= 1
      invariant forall k :: 0 <= k < |chunks| ==> Start(k, step) + chunkSize < |words|
      invariant forall k :: 0 <= k < |chunks| ==> chunks[k] == Join(" ", Window(words, chunkSize, step, k))
      decreases |words| - i
    {
      assert Window(words, chunkSize, step, |chunks|) == words[i..Min(i + chunkSize, |words|)];
      chunks := chunks + [Join(" ", words[i..Min(i + chunkSize, |words|)])];
      if i + chunkSize >= |words| {
        break;
      }
      i := i + step;
    }
    ChunkCountUnique(|words|, chunkSize, step, |chunks|);
  }

  /** The chunk count past one window is 1 + ceil((n - size) / step): the number
      c of further windows is the least one whose c steps cover the n - size
      words beyond the first window. */
  lemma ChunkCountClosedForm(n: nat, size: nat, step: nat)
    requires 1 <= step <= size && n > size
    ensures var c := ChunkCount(n, size, step) - 1;
      c >= 1 && c * step >= n - size && (c - 1) * step < n - size
  {
    ChunkCountBounds(n, size, step);
    var c := ChunkCount(n, size, step) - 1;
    StartIsProduct(c, step);
    if c >= 1 {
      StartIsProduct(c - 1, step);
    }
  }

  /** The last window index K = ChunkCount - 1 is the first start whose window
      reaches the end, and every earlier window stops short of it. */
  lemma {:induction false} ChunkCountBounds(n: nat, size: nat, step: nat)
    requires 1 <= step <= size && n >= 1
    ensures ChunkCount(n, size, step) >= 1
    ensures var last := ChunkCount(n, size, step) - 1;
      Start(last, step) < n && Start(last, step) + size >= n &&
      (last >= 1 ==> Start(last - 1, step) + size < n)
    decreases n
  {
    if n > size {
      ChunkCountBounds(n - step, size, step);
      var last' := ChunkCount(n - step, size, step) - 1;
      assert Start(last' + 1, step) == Start(last', step) + step;
      if last' >= 1 {
        assert Start(last', step) == Start(last' - 1, step) + step;
      }
    }
  }

  /** The number of windows is the one the loop stops at. */
  lemma ChunkCountUnique(n: nat, size: nat, step: nat, m: nat)
    requires 1 <= step <= size
    requires m == 0 <==> n == 0
    requires m >= 1 ==> Start(m - 1, step) + size >= n && (m >= 2 ==> Start(m - 2, step) + size < n)
    ensures ChunkCount(n, size, step) == m
  {
    if n >= 1 {
      ChunkCountBounds(n, size, step);
      var last := ChunkCount(n, size, step) - 1;
      if m - 1 < last {
        StartMono(m - 1, last - 1, step);
      } else if m - 1 > last {
        StartMono(last, m - 2, step);
      }
    }
  }

  /** Window k for k below the count starts inside the word list; every window
      but the last is full, and the last one ends at the final word. */
  lemma WindowFacts(words: seq<string>, size: nat, step: nat, k: nat)
    requires 1 <= step <= size
    requires k < ChunkCount(|words|, size, step)
    ensures Start(k, step) < |words|
    ensures Window(words, size, step, k) == words[Start(k, step)..Min(Start(k, step) + size, |words|)]
    ensures k + 1 < ChunkCount(|words|, size, step) ==> Start(k, step) + size < |words|
    ensures k + 1 == ChunkCount(|words|, size, step) ==> Start(k, step) + size >= |words|
  {
    ChunkCountBounds(|words|, size, step);
    var last := ChunkCount(|words|, size, step) - 1;
    StartMono(k, last, step);
    if k < last {
      StartMono(k, last - 1, step);
    }
  }

  /** Text has no chunks exactly when it has no non-whitespace character
      (the empty string included). */
  lemma NoChunksIffBlank(text: string, size: nat, overlap: nat)
    requires overlap < size
    ensures Chunks(text, size, overlap) == [] <==> !HasNonSpace(text)
  {
    SplitEmptyIff(text);
    var n := |Split(text)|;
    if n > 0 {
      ChunkCountBounds(n, size, size - overlap);
    }
    assert |Chunks(text, size, overlap)| == ChunkCount(n, size, size - overlap);
  }

  /** Every chunk holds at least one non-whitespace character. */
  lemma ChunksNonBlank(text: string, size: nat, overlap: nat)
    requires overlap < size
    ensures forall k :: 0 <= k < |Chunks(text, size, overlap)| ==> HasNonSpace(Chunks(text, size, overlap)[k])
  {
    var cs := Chunks(text, size, overlap);
    forall k | 0 <= k < |cs| ensures HasNonSpace(cs[k]) {
      ChunkWords(Split(text), size, overlap, k);
      SplitEmptyIff(cs[k]);
    }
  }

  /** Splitting chunk k gives back window k: between 1 and size words. */
  lemma ChunkWords(words: seq<string>, size: nat, overlap: nat, k: nat)
    requires overlap < size
    requires forall w :: w in words ==> IsWord(w)
    requires k < |JoinWindows(words, size, overlap)|
    ensures var w := Window(words, size, size - overlap, k);
      Split(JoinWindows(words, size, overlap)[k]) == w && 1 <= |w| <= size
  {
    var step := size - overlap;
    WindowFacts(words, size, step, k);
    var w := Window(words, size, step, k);
    assert JoinWindows(words, size, overlap)[k] == Join(" ", w);
    forall x | x in w ensures IsWord(x) {
      assert x in words;
    }
    SplitJoin(w);
  }

  /** Words fitting in one window form a single window. */
  lemma WindowsOfShort(words: seq<string>, size: nat, step: nat)
    requires 1 <= step <= size
    requires 1 <= |words| <= size
    ensures Windows(words, size, step) == [words]
  {
    var ws := Windows(words, size, step);
    assert |ws| == 1;
    assert ws[0] == words[0..|words|];
    assert words[0..|words|] == words;
  }

  /** Words fitting in one window give exactly one chunk: all of them joined. */
  lemma SingleChunk(words: seq<string>, size: nat, overlap: nat)
    requires overlap < size
    requires 1 <= |words| <= size
    ensures JoinWindows(words, size, overlap) == [Join(" ", words)]
  {
    WindowsOfShort(words, size, size - overlap);
    var c := JoinWindows(words, size, overlap);
    assert |c| == 1 && c[0] == Join(" ", words);
  }

  /** Every chunk but the last holds exactly size words; the last ends at the final word. */
  lemma OnlyLastChunkShort(words: seq<string>, size: nat, overlap: nat, k: nat)
    requires overlap < size
    requires k < ChunkCount(|words|, size, size - overlap)
    ensures var step := size - overlap; var count := ChunkCount(|words|, size, step);
      (k + 1 < count ==> |Window(words, size, step, k)| == size) &&
      (k + 1 == count ==> Start(k, step) + |Window(words, size, step, k)| == |words|)
  {
    WindowFacts(words, size, size - overlap, k);
  }

  /** Consecutive chunks share exactly overlap words: the first overlap words
      of window k are the last overlap words of window k-1. */
  lemma ConsecutiveChunksOverlap(words: seq<string>, size: nat, overlap: nat, k: nat)
    requires overlap < size
    requires 1 <= k < ChunkCount(|words|, size, size - overlap)
    ensures var step := size - overlap;
      var prev := Window(words, size, step, k - 1);
      var cur := Window(words, size, step, k);
      overlap <= |cur| && overlap <= |prev| && cur[..overlap] == prev[|prev| - overlap..]
  {
    var step := size - overlap;
    WindowFacts(words, size, step, k - 1);
    WindowFacts(words, size, step, k);
    var s := Start(k - 1, step);
    assert Start(k, step) == s + step;
    var prev := Window(words, size, step, k - 1);
    var cur := Window(words, size, step, k);
    assert prev == words[s..s + size];
    assert cur[..overlap] == words[s + step..s + size];
    assert prev[|prev| - overlap..] == words[s + step..s + size];
  }

  /** Window k of words is window k-1 of words[step..]. */
  lemma WindowShift(words: seq<string>, size: nat, step: nat, k: nat)
    requires 1 <= step <= |words| && k >= 1
    ensures Window(words, size, step, k) == Window(words[step..], size, step, k - 1)
  {
    var s := Start(k - 1, step);
    assert Start(k, step) == step + s;
    var lo, hi := Min(s, |words| - step), Min(s + size, |words| - step);
    assert words[step..][lo..hi] == words[step + lo..step + hi];
  }

  /** Past the first window, the windows of words are those of words[step..]. */
  lemma WindowsShift(words: seq<string>, size: nat, overlap: nat)
    requires overlap < size && |words| > size
    ensures var step := size - overlap;
      Windows(words, size, step) == [words[..size]] + Windows(words[step..], size, step)
  {
    var step := size - overlap;
    var ws := Windows(words, size, step);
    var rest := Windows(words[step..], size, step);
    assert |ws| == 1 + |rest|;
    forall k | 1 <= k < |ws| ensures ws[k] == rest[k - 1] {
      WindowShift(words, size, step, k);
    }
    assert ws[0] == words[..size];
    assert ws == [ws[0]] + ws[1..];
  }

  /** Drops the first n elements (all of them when there are fewer). */
  function Drop(s: seq<string>, n: nat): seq<string>
  {
    if n <= |s| then s[n..] else []
  }

  /** Every piece without its first overlap words, concatenated. */
  function DropConcat(pieces: seq<seq<string>>, overlap: nat): seq<string>
  {
    if |pieces| == 0 then [] else Drop(pieces[0], overlap) + DropConcat(pieces[1..], overlap)
  }

  /** The words of a chunk list put back together: the first chunk, then every
      later chunk without the overlap it shares with its predecessor. */
  function Reassemble(pieces: seq<seq<string>>, overlap: nat): seq<string>
  {
    if |pieces| == 0 then [] else pieces[0] + DropConcat(pieces[1..], overlap)
  }

  /** The windows after the first one contribute exactly the words past the first window. */
  lemma {:induction false} DropConcatWindows(words: seq<string>, size: nat, overlap: nat)
    requires overlap < size && |words| > size
    ensures DropConcat(Windows(words[size - overlap..], size, size - overlap), overlap) == words[size..]
    decreases |words|
  {
    var step := size - overlap;
    var w' := words[step..];
    var ws' := Windows(w', size, step);
    if |w'| <= size {
      WindowsOfShort(w', size, step);
      assert Drop(ws'[0], overlap) == words[size..];
      assert ws'[1..] == [];
    } else {
      WindowsShift(w', size, overlap);
      DropConcatWindows(w', size, overlap);
      assert ws'[1..] == Windows(w'[step..], size, step);
      assert Drop(ws'[0], overlap) == words[size..step + size];
      assert w'[size..] == words[step + size..];
      assert words[size..] == words[size..step + size] + words[step + size..];
    }
  }

  /** Reassembling all the windows of a word list gives the list back. */
  lemma ReassembleWindows(words: seq<string>, size: nat, overlap: nat)
    requires overlap < size
    ensures Reassemble(Windows(words, size, size - overlap), overlap) == words
  {
    if 1 <= |words| <= size {
      WindowsOfShort(words, size, size - overlap);
    } else if |words| > size {
      ReassembleLong(words, size, overlap);
    }
  }

  /** Past one window: the first window, then the rest without overlaps. */
  lemma ReassembleLong(words: seq<string>, size: nat, overlap: nat)
    requires overlap < size && |words| > size
    ensures Reassemble(Windows(words, size, size - overlap), overlap) == words
  {
    var step := size - overlap;
    var ws := Windows(words, size, step);
    WindowsShift(words, size, overlap);
    DropConcatWindows(words, size, overlap);
    assert ws[1..] == Windows(words[step..], size, step);
    assert words == words[..size] + words[size..];
  }

  /** Splitting each chunk again. */
  function Pieces(chunks: seq<string>): seq<seq<string>>
  {
    seq(|chunks|, k requires 0 <= k < |chunks| => Split(chunks[k]))
  }

  /** Splitting the joined windows gives the windows back. */
  lemma PiecesOfJoinedWindows(words: seq<string>, size: nat, overlap: nat)
    requires overlap < size
    requires forall w :: w in words ==> IsWord(w)
    ensures Pieces(JoinWindows(words, size, overlap)) == Windows(words, size, size - overlap)
  {
    var chunks := JoinWindows(words, size, overlap);
    var ws := Windows(words, size, size - overlap);
    forall k | 0 <= k < |chunks| ensures Pieces(chunks)[k] == ws[k] {
      ChunkWords(words, size, overlap, k);
    }
  }

  /** Round trip: dropping the overlap from every chunk after the first and
      concatenating the words gives back text.split(). */
  lemma ChunkRoundTrip(text: string, size: nat, overlap: nat)
    requires overlap < size
    ensures Reassemble(Pieces(Chunks(text, size, overlap)), overlap) == Split(text)
  {
    PiecesOfJoinedWindows(Split(text), size, overlap);
    ReassembleWindows(Split(text), size, overlap);
  }

  // ---------------------------------------------------------------------
  // find_keywords_in_text and clean_text
  // ---------------------------------------------------------------------

  /** find_keywords_in_text: how many entries of keywords, lowercased, occur in
      the lowercased text. */
  method FindKeywordsInText(text: string, keywords: seq<string>) returns (matches: nat)
    ensures matches == CountIn(Lower(text), LowerAll(keywords))
    ensures matches <= |keywords|
  {
    var textLower := Lower(text);
    ghost var lowered := LowerAll(keywords);
    matches := 0;
    for i := 0 to |keywords|
      invariant matches == CountIn(textLower, lowered[..i])
    {
      CountInPrefixStep(textLower, lowered, i);
      if Contains(textLower, Lower(keywords[i])) {
        matches := matches + 1;
      }
    }
    assert lowered[..|keywords|] == lowered;
  }

  /** An empty keyword is a substring of every text, so it always counts. */
  lemma EmptyKeywordCounts(text: string, keywords: seq<string>)
    requires "" in keywords
    ensures CountIn(Lower(text), LowerAll(keywords)) >= 1
  {
    var i :| 0 <= i < |keywords| && keywords[i] == "";
    assert LowerAll(keywords)[i] == "";
    ContainsEmpty(Lower(text));
  }

  /** clean_text: strip, then lowercase. */
  function CleanText(text: string): (r: string)
    ensures r == "" <==> !HasNonSpace(text)
  {
    StripShape(text);
    Lower(Strip(text))
  }

  /** Cleaning cleaned text changes nothing. */
  lemma CleanTextIdempotent(text: string)
    ensures CleanText(CleanText(text)) == CleanText(text)
  {
    var t := Strip(text);
    StripShape(text);
    var l := Lower(t);
    if l != [] {
      LowerCharKeepsSpace(t[0]);
      LowerCharKeepsSpace(t[|t| - 1]);
    }
    StripTrimmed(l);
    LowerIdempotent(t);
  }
}
