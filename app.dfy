/** The prompt assembly of src/App.tsx: the system messages, the context
    block made of the retrieved chunks under a character budget, the
    conversation history under a character budget, the answer built from
    the books alone in rules mode, and the retrieval limit and the choice
    whether to call the language model in `handleSend`. */
module App {
  import opened Wrappers
  import opened Text
  import opened Seqs
  import opened Types

  const MaxContextChars: int := 12000
  const MaxChunkText: int := 2000
  const RuleLookupSnippet: int := 1200
  const HistoryBudgetRules: int := 2000
  const HistoryBudgetStory: int := 6000

  /** A message of the request to the language model (the
      `ChatCompletionMessageParam` of src/services/openaiClient.ts). */
  datatype PromptMessage = PromptMessage(role: Role, content: string)

  /** The en dash the source puts between the parts of a source label. */
  const Dash: string := " \U{2013} "

  const TruncationMarker: string := "\n... [ingekort om tokens te beperken]"

  /** `truncateText`: the text itself when it is short enough, else its
      first `maxLength` characters and the marker. */
  function TruncateText(text: string, maxLength: int): (r: string)
    ensures |text| <= maxLength ==> r == text
    ensures |text| > maxLength >= 0 ==> r == text[..maxLength] + TruncationMarker
    ensures |text| > maxLength ==> r == SliceTo(text, maxLength) + TruncationMarker
    ensures maxLength >= 0 ==> |r| <= maxLength + |TruncationMarker|
  {
    if |text| <= maxLength then text else SliceTo(text, maxLength) + TruncationMarker
  }

  // ---------------------------------------------------------------------
  // System messages

  const BaseInstructions: string :=
    "You are DMDesk, a Dungeon Master assistant.\n"
    + "You must answer strictly according to the contents of the provided D&D markdown excerpts.\n"
    + "These excerpts come from rulebooks, setting books, and memos owned by the user.\n"
    + "\n"
    + "Rules:\n"
    + "- Only use information that is explicitly present in the provided excerpts.\n"
    + "- Do not use outside knowledge.\n"
    + "- If the answer is not clearly supported by the excerpts, say:\n"
    + "  \"Dit staat niet gespecificeerd in de aangeleverde boeken.\" (in Flemish Dutch)\n"
    + "  or\n"
    + "  \"This is not specified in the provided books.\" (in English)\n"
    + "- Prefer concise, table-friendly and play-ready answers.\n"
    + "- If multiple excerpts conflict, summarize the conflict clearly.\n"
    + "- Current mode: "

  const DutchInstructions: string :=
    "Taal: Antwoord altijd in informeel Vlaams Nederlands, tenzij de gebruiker expliciet vraagt om Engels.\n"
    + "Gebruik een vlotte, duidelijke toon die bruikbaar is aan de speeltafel."

  const EnglishInstructions: string :=
    "Language: Answer in clear, concise English unless the user explicitly requests another language."

  function ModeLabel(mode: Mode): string {
    match mode
    case Rules => "Rules / RAW questions"
    case Story => "Story / improv assistance"
  }

  /** `buildSystemMessages`: two system messages, the instructions naming
      the mode, then the language instruction. */
  function BuildSystemMessages(language: LanguageCode, mode: Mode): (r: seq<PromptMessage>)
    ensures |r| == 2 && r[0].role == System && r[1].role == System
    ensures r[0].content == BaseInstructions + ModeLabel(mode) + "."
    ensures r[1].content == if language == NlBE then DutchInstructions else EnglishInstructions
  {
    [PromptMessage(System, BaseInstructions + ModeLabel(mode) + "."),
     PromptMessage(System, if language == NlBE then DutchInstructions else EnglishInstructions)]
  }

  // ---------------------------------------------------------------------
  // Context block

  const NoSourcesFound: string :=
    "Geen bronfragmenten gevonden voor deze vraag. Antwoord dat dit niet gespecificeerd is in de aangeleverde boeken."

  const ContextPreamble: string :=
    "De volgende tekstfragmenten zijn uittreksels uit de D&D-bronnen van de gebruiker.\n"
    + "Gebruik enkel deze tekst als bron:\n\n"

  const ContextClosing: string := "\n\nEinde van de bronfragmenten."

  /** The label suffix for a heading: empty when the chunk has no heading
      or an empty one. */
  function HeadingSuffix(heading: Option<string>): string {
    if heading.Some? && |heading.value| > 0 then Dash + heading.value else ""
  }

  /** The chunk text of the block for chunk `i`. */
  function BlockText(item: RetrievedChunk, budget: int): string {
    TruncateText(Trim(item.chunk.text), Min(MaxChunkText, budget))
  }

  /** The block for the `i`-th chunk (counted from 0) while `budget`
      characters remain: its label numbered from 1, then its text. */
  function Block(i: nat, item: RetrievedChunk, budget: int): string {
    "[BRON " + NatToString(i + 1) + Dash + item.chunk.fileName + HeadingSuffix(item.chunk.heading) + "]\n"
    + BlockText(item, budget)
  }

  /** The blocks kept from chunk `i` on while `budget` characters remain,
      `block` giving the block of a chunk: the budget is charged for each
      block before it is kept, and the first block that drives it to zero
      or below ends the selection. */
  function SelectBlocks(chunks: seq<RetrievedChunk>, i: nat, budget: int, block: (nat, RetrievedChunk, int) -> string)
    : (r: seq<string>)
    ensures |r| == 0 || i + |r| <= |chunks|
    decreases |chunks| - i
  {
    if i >= |chunks| then []
    else
      var b := block(i, chunks[i], budget);
      if budget - |b| <= 0 then [] else [b] + SelectBlocks(chunks, i + 1, budget - |b|, block)
  }

  /** The blocks of `buildContextBlock` from chunk `i` on. */
  function ContextBlocks(chunks: seq<RetrievedChunk>, i: nat, budget: int): seq<string> {
    SelectBlocks(chunks, i, budget, Block)
  }

  /** The total number of characters of `s`. */
  function SumLengths(s: seq<string>): nat {
    if |s| == 0 then 0 else |s[0]| + SumLengths(s[1..])
  }

  lemma {:induction false} SumLengthsAppend(a: seq<string>, b: seq<string>)
    ensures SumLengths(a + b) == SumLengths(a) + SumLengths(b)
    decreases |a|
  {
    if |a| > 0 {
      assert (a + b)[1..] == a[1..] + b;
      SumLengthsAppend(a[1..], b);
    } else {
      assert a + b == b;
    }
  }

  /** The kept blocks stay strictly below the budget together. */
  lemma {:induction false} SelectBlocksFit(chunks: seq<RetrievedChunk>, i: nat, budget: int,
                                           block: (nat, RetrievedChunk, int) -> string)
    requires budget > 0
    ensures SumLengths(SelectBlocks(chunks, i, budget, block)) < budget
    decreases |chunks| - i
  {
    var r := SelectBlocks(chunks, i, budget, block);
    if i < |chunks| {
      var b := block(i, chunks[i], budget);
      if budget - |b| > 0 {
        SelectBlocksFit(chunks, i + 1, budget - |b|, block);
        assert r[1..] == SelectBlocks(chunks, i + 1, budget - |b|, block);
      }
    }
  }

  /** The kept blocks are those of the first chunks, in order, each built
      with the budget its predecessors left. */
  lemma {:induction false} SelectBlocksInOrder(chunks: seq<RetrievedChunk>, i: nat, budget: int,
                                               block: (nat, RetrievedChunk, int) -> string, k: nat)
    requires k < |SelectBlocks(chunks, i, budget, block)|
    ensures var r := SelectBlocks(chunks, i, budget, block);
            i + k < |chunks| && r[k] == block(i + k, chunks[i + k], budget - SumLengths(r[..k]))
    decreases k
  {
    var r := SelectBlocks(chunks, i, budget, block);
    var b := block(i, chunks[i], budget);
    var rest := SelectBlocks(chunks, i + 1, budget - |b|, block);
    assert r == [b] + rest;
    if k > 0 {
      SelectBlocksInOrder(chunks, i + 1, budget - |b|, block, k - 1);
      assert r[..k] == [b] + rest[..k - 1];
      SumLengthsAppend([b], rest[..k - 1]);
      assert SumLengths([b]) == |b| by {
        assert [b][1..] == [];
      }
    }
  }

  /** When a chunk is left over, its block would have driven the budget to
      zero or below: the selection stops at the first block that does not
      fit. */
  lemma {:induction false} SelectBlocksStop(chunks: seq<RetrievedChunk>, i: nat, budget: int,
                                            block: (nat, RetrievedChunk, int) -> string)
    ensures var r := SelectBlocks(chunks, i, budget, block);
            i + |r| < |chunks| ==> |block(i + |r|, chunks[i + |r|], budget - SumLengths(r))| >= budget - SumLengths(r)
    decreases |chunks| - i
  {
    var r := SelectBlocks(chunks, i, budget, block);
    if i < |chunks| {
      var b := block(i, chunks[i], budget);
      if budget - |b| > 0 {
        var rest := SelectBlocks(chunks, i + 1, budget - |b|, block);
        SelectBlocksStop(chunks, i + 1, budget - |b|, block);
        assert r[1..] == rest;
      } else {
        assert |r| == 0;
      }
    }
  }

  /** The blocks of `buildContextBlock` hold strictly fewer than 12000
      characters together. Which chunk each block shows and with which
      budget is `SelectBlocksInOrder`, and why the selection stops is
      `SelectBlocksStop`, both for any block format and so for `Block`. */
  lemma ContextBlocksBudget(chunks: seq<RetrievedChunk>)
    ensures SumLengths(ContextBlocks(chunks, 0, MaxContextChars)) < MaxContextChars
  {
    SelectBlocksFit(chunks, 0, MaxContextChars, Block);
  }

  /** One chunk of the selection: it stops at a block that uses up the
      budget, and otherwise keeps it and goes on. */
  lemma SelectBlocksStep(chunks: seq<RetrievedChunk>, i: nat, budget: int,
                         block: (nat, RetrievedChunk, int) -> string, b: string)
    requires i < |chunks| && b == block(i, chunks[i], budget)
    ensures budget - |b| <= 0 ==> SelectBlocks(chunks, i, budget, block) == []
    ensures budget - |b| > 0 ==>
              SelectBlocks(chunks, i, budget, block) == [b] + SelectBlocks(chunks, i + 1, budget - |b|, block)
  {
  }

  /** `buildContextBlock`. */
  method BuildContextBlock(chunks: seq<RetrievedChunk>) returns (r: string)
    ensures |chunks| == 0 ==> r == NoSourcesFound
    ensures |chunks| > 0 ==> r == ContextPreamble + Join(ContextBlocks(chunks, 0, MaxContextChars), "\n\n") + ContextClosing
  {
    if |chunks| == 0 {
      return NoSourcesFound;
    }
    var lines := CollectBlocks(chunks, MaxContextChars, Block);
    r := ContextPreamble + Join(lines, "\n\n") + ContextClosing;
  }

  /** The loop of `buildContextBlock` over the chunks, for any block
      format. */
  method CollectBlocks(chunks: seq<RetrievedChunk>, start: int, block: (nat, RetrievedChunk, int) -> string)
    returns (lines: seq<string>)
    ensures lines == SelectBlocks(chunks, 0, start, block)
  {
    var budget := start;
    lines := [];
    var i := 0;
    while i < |chunks|
      invariant 0 <= i <= |chunks|
      invariant lines + SelectBlocks(chunks, i, budget, block) == SelectBlocks(chunks, 0, start, block)
    {
      var b := block(i, chunks[i], budget);
      SelectBlocksStep(chunks, i, budget, block, b);
      budget := budget - |b|;
      if budget <= 0 {
        assert lines + [] == lines;
        break;
      }
      assert lines + ([b] + SelectBlocks(chunks, i + 1, budget, block))
        == (lines + [b]) + SelectBlocks(chunks, i + 1, budget, block);
      lines := lines + [b];
      i := i + 1;
    }
    assert lines + [] == lines;
  }

  // ---------------------------------------------------------------------
  // History

  function HistoryBudget(mode: Mode): int {
    if mode == Story then HistoryBudgetStory else HistoryBudgetRules
  }

  /** The total content length of `s`. */
  function ContentLength(s: seq<PromptMessage>): nat {
    if |s| == 0 then 0 else |s[0].content| + ContentLength(s[1..])
  }

  /** Where the kept turns start when the walk back from index `i` has
      kept `past[i..]`: the walk stops at the first turn that does not fit. */
  function HistoryStartFrom(past: seq<PromptMessage>, i: nat, budget: int): (s: nat)
    requires i <= |past| && ContentLength(past[i..]) <= budget
    ensures s <= i && ContentLength(past[s..]) <= budget
    ensures s > 0 ==> ContentLength(past[s..]) + |past[s - 1].content| > budget
    decreases i
  {
    if i == 0 then 0
    else if ContentLength(past[i..]) + |past[i - 1].content| > budget then i
    else
      assert past[i - 1..][1..] == past[i..];
      HistoryStartFrom(past, i - 1, budget)
  }

  /** The first kept turn of `buildHistoryMessages`. */
  function HistoryStart(past: seq<PromptMessage>, budget: int): (s: nat)
    requires budget >= 0
    ensures s <= |past|
  {
    assert past[|past|..] == [];
    HistoryStartFrom(past, |past|, budget)
  }

  /** `buildHistoryMessages`: the most recent turns that fit the budget of
      the mode, in their original order. */
  method BuildHistoryMessages(past: seq<PromptMessage>, mode: Mode) returns (r: seq<PromptMessage>)
    ensures r == past[HistoryStart(past, HistoryBudget(mode))..]
  {
    var budget := HistoryBudget(mode);
    var selected: seq<PromptMessage> := [];
    var used := 0;
    var i := |past|;
    assert past[i..] == [];
    ghost var start := HistoryStart(past, budget);
    while i > 0
      invariant 0 <= i <= |past|
      invariant used == ContentLength(past[i..]) && used <= budget
      invariant start == HistoryStartFrom(past, i, budget)
      invariant selected == Reverse(past[i..])
    {
      var msg := past[i - 1];
      var len := |msg.content|;
      if used + len > budget {
        break;
      }
      HistoryStep(past, i, budget);
      ReverseStep(past, i);
      selected := selected + [PromptMessage(msg.role, msg.content)];
      used := used + len;
      i := i - 1;
    }
    ReverseReverse(past[i..]);
    r := Reverse(selected);
  }

  /** Reversing the suffix that starts one turn earlier appends that turn. */
  lemma ReverseStep<T>(s: seq<T>, i: nat)
    requires 0 < i <= |s|
    ensures Reverse(s[i - 1..]) == Reverse(s[i..]) + [s[i - 1]]
  {
  }

  lemma ReverseReverse<T>(s: seq<T>)
    ensures Reverse(Reverse(s)) == s
  {
  }

  /** Keeping the turn before `past[i..]` when it fits. */
  lemma HistoryStep(past: seq<PromptMessage>, i: nat, budget: int)
    requires 0 < i <= |past| && ContentLength(past[i..]) + |past[i - 1].content| <= budget
    ensures ContentLength(past[i - 1..]) == ContentLength(past[i..]) + |past[i - 1].content|
    ensures HistoryStartFrom(past, i, budget) == HistoryStartFrom(past, i - 1, budget)
  {
    assert past[i - 1..][1..] == past[i..];
  }

  function Reverse<T>(s: seq<T>): (r: seq<T>)
    ensures |r| == |s| && forall k :: 0 <= k < |s| ==> r[k] == s[|s| - 1 - k]
  {
    seq(|s|, k requires 0 <= k < |s| => s[|s| - 1 - k])
  }

  /** The kept turns are a suffix of `past` that fits the budget, and the
      turn before it, if any, would not have fitted. */
  lemma HistoryFits(past: seq<PromptMessage>, mode: Mode)
    ensures var s := HistoryStart(past, HistoryBudget(mode));
            && ContentLength(past[s..]) <= HistoryBudget(mode)
            && (s > 0 ==> ContentLength(past[s - 1..]) > HistoryBudget(mode))
  {
    var s := HistoryStart(past, HistoryBudget(mode));
    if s > 0 {
      assert past[s - 1..][1..] == past[s..];
    }
  }

  /** The conversation passed to `buildHistoryMessages` (line 217 of
      src/App.tsx): the user and assistant messages of `messages`, with its
      last entry dropped. */
  function PriorMessages(messages: seq<ChatMessage>): seq<PromptMessage> {
    UserAndAssistant(SliceTo(messages, -1))
  }

  function IsTurn(m: ChatMessage): bool {
    m.role == User || m.role == Assistant
  }

  function AsPrompt(m: ChatMessage): PromptMessage {
    PromptMessage(m.role, m.content)
  }

  /** `messages.filter(m => m.role === 'user' || m.role === 'assistant')
      .map(m => ({ role: m.role, content: m.content }))`: the user and
      assistant messages, in order, as role and content. */
  function UserAndAssistant(messages: seq<ChatMessage>): (r: seq<PromptMessage>)
    ensures |r| <= |messages|
    ensures forall k :: 0 <= k < |r| ==> r[k].role != System
  {
    var turns := Filter(messages, IsTurn);
    seq(|turns|, k requires 0 <= k < |turns| => AsPrompt(turns[k]))
  }

  /** The messages are taken one by one, in order: a user or assistant
      message adds its role and content at the end, a system message adds
      nothing. */
  lemma UserAndAssistantSnoc(messages: seq<ChatMessage>, m: ChatMessage)
    ensures UserAndAssistant(messages + [m])
      == UserAndAssistant(messages) + (if IsTurn(m) then [AsPrompt(m)] else [])
  {
    FilterAppend(messages, [m], IsTurn);
    var a, b := Filter(messages, IsTurn), Filter([m], IsTurn);
    assert b == (if IsTurn(m) then [m] else []) by {
      assert [m][1..] == [];
    }
  }

  /** `handleSend` reads `messages` from the render that created it, before
      `addMessage` has added the prompt, so dropping the last entry drops
      the most recent earlier turn, not the prompt: a conversation of one
      question and one answer loses the answer. */
  lemma PriorMessagesDropsLastTurn()
    ensures var snapshot := [ChatMessage("1", User, "q", None, 0), ChatMessage("2", Assistant, "a", None, 1)];
            var prompt := ChatMessage("3", User, "p", None, 2);
            PriorMessages(snapshot) != UserAndAssistant((snapshot + [prompt])[..|snapshot|])
  {
    var snapshot := [ChatMessage("1", User, "q", None, 0), ChatMessage("2", Assistant, "a", None, 1)];
    var prompt := ChatMessage("3", User, "p", None, 2);
    assert SliceTo(snapshot, -1) == [snapshot[0]];
    assert (snapshot + [prompt])[..|snapshot|] == snapshot;
    assert Filter([snapshot[0]], IsTurn) == [snapshot[0]];
    assert Filter(snapshot, IsTurn) == [snapshot[0]] + Filter(snapshot[1..], IsTurn);
    assert |PriorMessages(snapshot)| == 1;
  }

  /** The history the comment at line 216 of src/App.tsx describes: every
      turn of the log before the prompt. */
  function PriorTurns(snapshot: seq<ChatMessage>): seq<PromptMessage> {
    UserAndAssistant(snapshot)
  }

  /** `PriorTurns` is the log after the prompt is added, with that last
      entry excluded. */
  lemma PriorTurnsExcludePrompt(snapshot: seq<ChatMessage>, prompt: ChatMessage)
    ensures PriorTurns(snapshot) == UserAndAssistant(SliceTo(snapshot + [prompt], -1))
  {
    assert SliceTo(snapshot + [prompt], -1) == snapshot;
  }

  // ---------------------------------------------------------------------
  // Answer without the language model

  const NoMatchDutch: string := "Geen matchende secties gevonden in je boeken voor deze vraag."
  const NoMatchEnglish: string := "No matching sections found in your books for this question."
  const LookupIntroDutch: string := "Op basis van je boeken (geen LLM gebruikt):\n\n"
  const LookupIntroEnglish: string := "Based on your books (no LLM used):\n\n"

  datatype LookupAnswer = LookupAnswer(content: string, sources: seq<SourceRef>)

  /** The part of the answer for the `idx`-th (from 0) retrieved chunk. */
  function LookupPart(idx: nat, item: RetrievedChunk): string {
    "Bron " + NatToString(idx + 1) + ": " + item.chunk.fileName + HeadingSuffix(item.chunk.heading) + "\n"
    + TruncateText(Trim(item.chunk.text), RuleLookupSnippet)
  }

  /** The source reference for a retrieved chunk: its file, its heading and
      its first 140 characters. */
  function SourceOf(item: RetrievedChunk): SourceRef {
    SourceRef(item.chunk.fileName, item.chunk.heading, Some(SliceTo(item.chunk.text, 140)))
  }

  /** `buildRuleLookupAnswer`: at most the first three chunks, each as one
      part of the text and one source, in order. */
  function BuildRuleLookupAnswer(retrieved: seq<RetrievedChunk>, language: LanguageCode): (a: LookupAnswer)
    ensures |retrieved| == 0 ==> a == LookupAnswer(if language == NlBE then NoMatchDutch else NoMatchEnglish, [])
    ensures |retrieved| > 0 ==> |a.sources| == Min(3, |retrieved|)
    ensures forall k :: 0 <= k < |a.sources| ==> a.sources[k] == SourceOf(retrieved[k])
    ensures |retrieved| > 0 ==>
              var intro := if language == NlBE then LookupIntroDutch else LookupIntroEnglish;
              var top := retrieved[..Min(3, |retrieved|)];
              a.content == intro + Join(seq(|top|, k requires 0 <= k < |top| => LookupPart(k, top[k])), "\n\n")
  {
    if |retrieved| == 0 then
      LookupAnswer(if language == NlBE then NoMatchDutch else NoMatchEnglish, [])
    else
      var top := SliceTo(retrieved, 3);
      var parts := seq(|top|, k requires 0 <= k < |top| => LookupPart(k, top[k]));
      var intro := if language == NlBE then LookupIntroDutch else LookupIntroEnglish;
      LookupAnswer(intro + Join(parts, "\n\n"), seq(|top|, k requires 0 <= k < |top| => SourceOf(top[k])))
  }

  // ---------------------------------------------------------------------
  // Decisions in handleSend

  /** The `limit` `handleSend` gives the retriever (line 224). */
  function RetrievalLimit(chunkStrategy: Option<ChunkStrategy>, mode: Mode): (n: int)
    ensures chunkStrategy == Some(WholeFile) ==> n == 3
    ensures chunkStrategy != Some(WholeFile) ==> n == if mode == Rules then 8 else 6
    ensures 3 <= n <= 8
  {
    if chunkStrategy == Some(WholeFile) then 3 else if mode == Rules then 8 else 6
  }

  /** Whether `handleSend` needs the language model (line 201): always in
      story mode, and in rules mode unless it is switched off explicitly. */
  function NeedsLlm(mode: Mode, useLlmForRules: Option<bool>): (b: bool)
    ensures b <==> mode == Story || useLlmForRules != Some(false)
  {
    mode == Story || (mode == Rules && useLlmForRules != Some(false))
  }
}
