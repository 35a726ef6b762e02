/** `retrieveTopChunks` of src/services/retriever.ts: every chunk is scored
    lexically against the query, the scored chunks are sorted by score,
    highest first, and the first `limit` are kept. Scores are kept doubled
    (see Types.RetrievedChunk): every weight the scorer adds is a multiple
    of 0.5. */
module Retriever {
  import opened Wrappers
  import opened Text
  import opened Seqs
  import opened Sorting
  import opened Types

  /** The optional settings of a retrieval; an absent field takes the
      source's default. */
  datatype RetrieveOptions = RetrieveOptions(
    limit: Option<int>,
    activeSetting: Option<string>,
    focusTerms: Option<seq<string>>)

  const DefaultLimit: int := 8

  /** The terms scored when the query yields none of its own. */
  const FallbackTerms: seq<string> := ["regel", "rule", "lore", "story"]

  /** `[a-zA-Z0-9À-ſ]`. */
  predicate TokenChar(c: char) {
    IsAsciiLetter(c) || IsDigit(c) || ('\U{C0}' <= c <= '\U{17F}')
  }

  function LongerThanOne(t: string): bool {
    |t| > 1
  }

  /** The terms of the lower-cased query: the pieces between runs of
      characters outside `TokenChar`, longer than one character. The
      source also trims each piece, which changes nothing since no
      `TokenChar` is whitespace. */
  function QueryTerms(query: string): seq<string> {
    Filter(Runs(Lower(query), TokenChar), LongerThanOne)
  }

  /** Every query term is longer than one character, is made of token
      characters only and occurs in the lower-cased query. */
  lemma QueryTermsFromQuery(query: string, k: nat)
    requires k < |QueryTerms(query)|
    ensures var t := QueryTerms(query)[k];
            |t| > 1 && Contains(Lower(query), t) && forall i :: 0 <= i < |t| ==> TokenChar(t[i])
  {
    var runs := Runs(Lower(query), TokenChar);
    var t := QueryTerms(query)[k];
    FilterMultiset(runs, LongerThanOne, t);
    assert t in multiset(QueryTerms(query));
    assert t in runs;
    var j :| 0 <= j < |runs| && runs[j] == t;
    RunsOccur(Lower(query), TokenChar, j);
  }

  /** The terms scored: the query's own, or the fallback terms when it
      has none. */
  function Tokens(query: string): (r: seq<string>)
    ensures |r| > 0
    ensures |QueryTerms(query)| == 0 ==> r == FallbackTerms
    ensures |QueryTerms(query)| > 0 ==> r == QueryTerms(query)
  {
    var terms := QueryTerms(query);
    if |terms| > 0 then terms else FallbackTerms
  }

  /** `focusTerms.map(t => t.toLowerCase())`. */
  function LowerAll(terms: seq<string>): (r: seq<string>)
    ensures |r| == |terms| && forall k :: 0 <= k < |r| ==> r[k] == Lower(terms[k])
  {
    seq(|terms|, k requires 0 <= k < |terms| => Lower(terms[k]))
  }

  /** What one query term adds (doubled): one per occurrence in the text,
      as `split` counts them, 2 for the heading and 1 for the file name.
      An empty term adds nothing. */
  function TermScore(text: string, heading: string, fileName: string, term: string): nat {
    if |term| == 0 then 0
    else 2 * CountOccurrences(text, term) + (if Contains(heading, term) then 4 else 0)
         + (if Contains(fileName, term) then 2 else 0)
  }

  /** What one focus term adds (doubled): 1.5 if it occurs in the text at
      all, 2 for the heading and 1 for the file name. */
  function FocusScore(text: string, heading: string, fileName: string, term: string): nat {
    if |term| == 0 then 0
    else (if Contains(text, term) then 3 else 0) + (if Contains(heading, term) then 4 else 0)
         + (if Contains(fileName, term) then 2 else 0)
  }

  /** The sum of `TermScore` over `terms`. */
  function TermsScore(text: string, heading: string, fileName: string, terms: seq<string>): nat
    decreases |terms|
  {
    if |terms| == 0 then 0
    else TermsScore(text, heading, fileName, terms[..|terms| - 1]) + TermScore(text, heading, fileName, terms[|terms| - 1])
  }

  /** The sum of `FocusScore` over `terms`. */
  function FocusTermsScore(text: string, heading: string, fileName: string, terms: seq<string>): nat
    decreases |terms|
  {
    if |terms| == 0 then 0
    else FocusTermsScore(text, heading, fileName, terms[..|terms| - 1]) + FocusScore(text, heading, fileName, terms[|terms| - 1])
  }

  /** 1.5 (doubled) when the active setting is a non-empty string that the
      lower-cased file name contains. The setting itself is not lower-cased. */
  function SettingScore(fileName: string, activeSetting: Option<string>): nat {
    if activeSetting.Some? && |activeSetting.value| > 0 && Contains(fileName, activeSetting.value) then 3 else 0
  }

  /** The (doubled) score of one chunk. */
  function ChunkScore(chunk: TextChunk, tokens: seq<string>, focusTokens: seq<string>, activeSetting: Option<string>): nat {
    var text, heading, fileName := Lower(chunk.text), Lower(chunk.heading.GetOr([])), Lower(chunk.fileName);
    TermsScore(text, heading, fileName, tokens) + FocusTermsScore(text, heading, fileName, focusTokens)
    + SettingScore(fileName, activeSetting)
  }

  /** The body of the `chunks.map` callback: the scores of the two
      `forEach` loops and the active setting. */
  method ScoreChunk(chunk: TextChunk, tokens: seq<string>, focusTokens: seq<string>, activeSetting: Option<string>)
    returns (score: int)
    ensures score == ChunkScore(chunk, tokens, focusTokens, activeSetting)
  {
    var text, heading, fileName := Lower(chunk.text), Lower(chunk.heading.GetOr([])), Lower(chunk.fileName);
    score := 0;
    var i := 0;
    while i < |tokens|
      invariant 0 <= i <= |tokens|
      invariant score == TermsScore(text, heading, fileName, tokens[..i])
    {
      var term := tokens[i];
      assert tokens[..i + 1][..i] == tokens[..i];
      if |term| > 0 {
        score := score + 2 * CountOccurrences(text, term);
        if Contains(heading, term) {
          score := score + 4;
        }
        if Contains(fileName, term) {
          score := score + 2;
        }
      }
      i := i + 1;
    }
    assert tokens[..i] == tokens;
    i := 0;
    while i < |focusTokens|
      invariant 0 <= i <= |focusTokens|
      invariant score == TermsScore(text, heading, fileName, tokens) + FocusTermsScore(text, heading, fileName, focusTokens[..i])
    {
      var term := focusTokens[i];
      assert focusTokens[..i + 1][..i] == focusTokens[..i];
      if |term| > 0 {
        if Contains(text, term) {
          score := score + 3;
        }
        if Contains(heading, term) {
          score := score + 4;
        }
        if Contains(fileName, term) {
          score := score + 2;
        }
      }
      i := i + 1;
    }
    assert focusTokens[..i] == focusTokens;
    if activeSetting.Some? && |activeSetting.value| > 0 && Contains(fileName, activeSetting.value) {
      score := score + 3;
    }
  }

  /** The chunks paired with their scores, in input order. */
  function Scored(query: string, chunks: seq<TextChunk>, options: RetrieveOptions): (r: seq<RetrievedChunk>)
    ensures |r| == |chunks|
  {
    var tokens, focusTokens := Tokens(query), LowerAll(options.focusTerms.GetOr([]));
    seq(|chunks|, k requires 0 <= k < |chunks| =>
      RetrievedChunk(chunks[k], ChunkScore(chunks[k], tokens, focusTokens, options.activeSetting)))
  }

  /** The comparator `(a, b) => b.score - a.score`: `a` goes strictly
      first when its score is higher. */
  function HigherScore(a: RetrievedChunk, b: RetrievedChunk): bool {
    a.score > b.score
  }

  /** The result of `retrieveTopChunks`. */
  function TopChunks(query: string, chunks: seq<TextChunk>, options: RetrieveOptions): seq<RetrievedChunk> {
    SliceTo(SortWith(Scored(query, chunks, options), HigherScore), options.limit.GetOr(DefaultLimit))
  }

  /** `retrieveTopChunks`. */
  method RetrieveTopChunks(query: string, chunks: seq<TextChunk>, options: RetrieveOptions)
    returns (r: seq<RetrievedChunk>)
    ensures r == TopChunks(query, chunks, options)
  {
    var limit := options.limit.GetOr(DefaultLimit);
    var tokens := Tokens(query);
    var focusTokens := LowerAll(options.focusTerms.GetOr([]));
    var scored: seq<RetrievedChunk> := [];
    var i := 0;
    while i < |chunks|
      invariant 0 <= i <= |chunks| && |scored| == i
      invariant forall k :: 0 <= k < i ==>
                  scored[k] == RetrievedChunk(chunks[k], ChunkScore(chunks[k], tokens, focusTokens, options.activeSetting))
    {
      var score := ScoreChunk(chunks[i], tokens, focusTokens, options.activeSetting);
      scored := scored + [RetrievedChunk(chunks[i], score)];
      i := i + 1;
    }
    assert scored == Scored(query, chunks, options);
    r := SliceTo(SortWith(scored, HigherScore), limit);
  }

  lemma HigherScoreOrder()
    ensures StrictWeakOrder(HigherScore)
  {
  }

  /** The result holds `min(limit, |chunks|)` chunks for a non-negative
      limit, 8 by default; chunks scoring zero are kept. */
  lemma TopChunksLength(query: string, chunks: seq<TextChunk>, options: RetrieveOptions)
    requires options.limit.GetOr(DefaultLimit) >= 0
    ensures |TopChunks(query, chunks, options)| == Min(options.limit.GetOr(DefaultLimit), |chunks|)
  {
  }

  /** Each result pairs an input chunk with that chunk's own score. */
  lemma TopChunksScored(query: string, chunks: seq<TextChunk>, options: RetrieveOptions, k: nat)
    requires k < |TopChunks(query, chunks, options)|
    ensures var c := TopChunks(query, chunks, options)[k];
            exists i :: 0 <= i < |chunks| && c.chunk == chunks[i]
              && c.score == ChunkScore(chunks[i], Tokens(query), LowerAll(options.focusTerms.GetOr([])), options.activeSetting)
  {
    var scored := Scored(query, chunks, options);
    var sorted := SortWith(scored, HigherScore);
    var c := TopChunks(query, chunks, options)[k];
    assert c == sorted[k];
    assert c in multiset(sorted);
    assert c in scored;
  }

  /** The scores of the result never increase. */
  lemma TopChunksDescending(query: string, chunks: seq<TextChunk>, options: RetrieveOptions, i: nat, j: nat)
    requires i <= j < |TopChunks(query, chunks, options)|
    ensures TopChunks(query, chunks, options)[i].score >= TopChunks(query, chunks, options)[j].score
  {
    var sorted := SortWith(Scored(query, chunks, options), HigherScore);
    HigherScoreOrder();
    SortWithSorted(Scored(query, chunks, options), HigherScore);
    assert TopChunks(query, chunks, options)[i] == sorted[i];
    assert TopChunks(query, chunks, options)[j] == sorted[j];
  }

  /** Chunks of equal score keep their input order: the result's chunks
      of one score are the first of the input's chunks of that score. */
  lemma TopChunksStable(query: string, chunks: seq<TextChunk>, options: RetrieveOptions, x: RetrievedChunk)
    ensures var same := EquivTo(HigherScore, x);
            var ties := Filter(TopChunks(query, chunks, options), same);
            var inputTies := Filter(Scored(query, chunks, options), same);
            |ties| <= |inputTies| && ties == inputTies[..|ties|]
  {
    var scored := Scored(query, chunks, options);
    var sorted := SortWith(scored, HigherScore);
    var same := EquivTo(HigherScore, x);
    HigherScoreOrder();
    SortWithStable(scored, HigherScore, x);
    var top := TopChunks(query, chunks, options);
    assert top == sorted[..|top|];
    FilterPrefix(sorted, |top|, same);
  }

  lemma {:induction false} TermsScoreAppend(text: string, extra: string, heading: string, fileName: string, terms: seq<string>)
    ensures TermsScore(text + extra, heading, fileName, terms) >= TermsScore(text, heading, fileName, terms)
    decreases |terms|
  {
    if |terms| > 0 {
      TermsScoreAppend(text, extra, heading, fileName, terms[..|terms| - 1]);
      var t := terms[|terms| - 1];
      if |t| > 0 {
        CountOccurrencesAppend(text, extra, t);
      }
    }
  }

  lemma {:induction false} FocusTermsScoreAppend(text: string, extra: string, heading: string, fileName: string, terms: seq<string>)
    ensures FocusTermsScore(text + extra, heading, fileName, terms) >= FocusTermsScore(text, heading, fileName, terms)
    decreases |terms|
  {
    if |terms| > 0 {
      FocusTermsScoreAppend(text, extra, heading, fileName, terms[..|terms| - 1]);
      var t := terms[|terms| - 1];
      if |t| > 0 && Contains(text, t) {
        ContainsAppend(text, extra, t);
      }
    }
  }

  /** Appending text to a chunk never lowers its score. */
  lemma ChunkScoreAppend(chunk: TextChunk, extra: string, tokens: seq<string>, focusTokens: seq<string>,
                         activeSetting: Option<string>)
    ensures ChunkScore(chunk.(text := chunk.text + extra), tokens, focusTokens, activeSetting)
            >= ChunkScore(chunk, tokens, focusTokens, activeSetting)
  {
    LowerAppend(chunk.text, extra);
    var heading, fileName := Lower(chunk.heading.GetOr([])), Lower(chunk.fileName);
    TermsScoreAppend(Lower(chunk.text), Lower(extra), heading, fileName, tokens);
    FocusTermsScoreAppend(Lower(chunk.text), Lower(extra), heading, fileName, focusTokens);
  }

  /** A chunk's score depends on that chunk alone: changing one chunk
      changes no other chunk's score, and appending text to it does not
      lower its own. */
  lemma ScoredAppend(query: string, chunks: seq<TextChunk>, options: RetrieveOptions, i: nat, extra: string)
    requires i < |chunks|
    ensures var chunks' := chunks[i := chunks[i].(text := chunks[i].text + extra)];
            && Scored(query, chunks', options)[i].score >= Scored(query, chunks, options)[i].score
            && forall j :: 0 <= j < |chunks| && j != i ==> Scored(query, chunks', options)[j] == Scored(query, chunks, options)[j]
  {
    ChunkScoreAppend(chunks[i], extra, Tokens(query), LowerAll(options.focusTerms.GetOr([])), options.activeSetting);
  }
}
