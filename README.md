# DMDesk core, modelled in Dafny

DMDesk is a browser assistant for tabletop Dungeon Masters. The user imports
rulebooks written in markdown. The application then does four things:

- it cuts each book into heading-tagged chunks;
- for each question it scores those chunks lexically and builds a budgeted
  prompt (system messages, a context block of sources, recent history);
- it can answer a rules question locally from the best three chunks;
- it keeps a party, an initiative order, a monster list, an encounter and
  a chat log. It can also parse monster statblocks from the bundled monster
  books, and lets the user search, filter and sort them.

This project models that deterministic core and proves what its code
promises. The model follows the source file by file:

- `markup.dfy`: `stripHtml` and `normalizeHeadings`
  (`src/services/libraryLoader.ts`);
- `chunker.dfy`: `chunkMarkdown` and `sliceIntoChunks`;
- `book_scan.dfy`: `extractBookMonsters` and `extractClassRaceNames`;
- `retriever.dfy`: `retrieveTopChunks`;
- `app.dfy`: the pure helpers of `src/App.tsx` and the two decisions inside
  `handleSend`;
- `monster_parser.dfy`: `parseCR`, `parseAbilityScores` and
  `parseMonstersFromMarkdown`;
- `monster_search.dfy`: `filterAndSortMonsters`;
- `party.dfy`, `monster_store.dfy`, `chat.dfy`: the three stores, each as a
  class whose fields the actions replace;
- `monster_manager.dfy`, `monster_filters.dfy`, `monster_browser.dfy`: the
  logic of the three monster components.

Shared modules hold JavaScript's string operations over `seq<char>`
(`text.dfy`), list helpers (`seqs.dfy`), a stable insertion sort with its
proofs (`sorting.dfy`), `Option` (`wrappers.dfy`) and the records of
`src/types.ts` and `src/types/monsters.ts` (`types.dfy`, `bestiary.dfy`).

Loops in the source are Dafny methods with loop invariants. Each method is
proved equal to a specification function, for example
`SliceIntoChunks`, `ScoreChunk`, `BuildContextBlock`,
`BuildHistoryMessages`, `ParseMonstersFromMarkdown`, `EncounterSummary` and
`ExtractClassRaceNames`. The properties are proved about those functions.
Scores are kept doubled, as integers, because every weight in the scorer is
a multiple of 0.5. Challenge ratings and initiative are `real`.

## Model

| member | source | states |
|---|---|---|
| Markup.ReplaceBreaks | src/services/libraryLoader.ts:67 | replacing `<br>`, `<br/>` and `<br />` (any case) by a newline never lengthens the text |
| Markup.BreakTagLength | src/services/libraryLoader.ts:67 | a matched break tag starts with `<` and is at least four characters long |
| Markup.ReplaceTags | src/services/libraryLoader.ts:68 | replacing each `<...>` tag by one space never lengthens the text |
| Markup.TagLength | src/services/libraryLoader.ts:68 | a matched tag starts with `<` and is at least three characters long |
| Markup.ReplaceNbsp | src/services/libraryLoader.ts:69 | replacing `&nbsp;` (any case) by a space never lengthens the text |
| Markup.CollapseSpaces | src/services/libraryLoader.ts:70 | every whitespace run becomes one space: the result has no other whitespace and no two spaces in a row, is no longer than the input, and starts with whitespace exactly when the input does |
| Markup.StripHtml | src/services/libraryLoader.ts:65-72 | the result is trimmed, its only whitespace is single spaces, and it is no longer than its input |
| Markup.ReplaceBreaksOfPlain | src/services/libraryLoader.ts:67 | text without `<` is left unchanged |
| Markup.ReplaceTagsOfPlain | src/services/libraryLoader.ts:68 | text without `<` is left unchanged |
| Markup.ReplaceNbspOfPlain | src/services/libraryLoader.ts:69 | text without `&` is left unchanged |
| Markup.CollapseSpacesOfCollapsed | src/services/libraryLoader.ts:70 | text whose whitespace is already single spaces is left unchanged |
| Markup.StripHtmlOfClean | src/services/libraryLoader.ts:65-72 | stripping clean text without `<` or `&` gives it back unchanged |
| Markup.TrimOfStripHtml | src/services/libraryLoader.ts:242 | the extra `.trim()` after `stripHtml` changes nothing |
| Markup.ReplaceCrLf | src/services/libraryLoader.ts:75 | replacing CRLF by LF never lengthens the text |
| Markup.ReplaceCrLfOfPlain | src/services/libraryLoader.ts:75 | text without `\r` is left unchanged |
| Markup.CloseIndex | src/services/libraryLoader.ts:77 | finds the first `</hN>` with the opening digit, on the same line: the lazy `(.*?)` stops at the first closing tag and never crosses a line end |
| Markup.CloseIndexOfPlain | src/services/libraryLoader.ts:77 | when only plain characters of the line come before a closing tag, that tag is the one found |
| Markup.HeadingTagAt | src/services/libraryLoader.ts:77 | a matched `<hN ...>...</hN>` has a level from 1 to 6 and is at least nine characters long |
| Markup.Repeat | src/services/libraryLoader.ts:78 | `'#'.repeat(n)` has length n and holds only that character |
| Markup.HeadingTagRewritten | src/services/libraryLoader.ts:77-81 | `<hN>inner</hN>` becomes a newline, N hashes, a space, the stripped inner text and a newline |
| Markup.ReplaceHeadingTagsOfPlain | src/services/libraryLoader.ts:77-81 | text without `<` has no heading tag to rewrite |
| Markup.NormalizeHeadingsOfPlain | src/services/libraryLoader.ts:74-83 | text without `<` or `\r` is already normalised |
| Chunker.HeadingAt | src/services/libraryLoader.ts:180 | a match of `^#{1,6}\s+.*$` starts at a line start with `#`, and its end is the end of the text or a line terminator. `\s+` may run across newlines |
| Chunker.HeadingsFrom | src/services/libraryLoader.ts:180 | the matches `matchAll` finds from a position are in order, do not overlap, and each is the match at its own index |
| Chunker.HeadingsFromComplete | src/services/libraryLoader.ts:180 | no heading is missed: every position where the pattern matches lies inside one of the matches found |
| Chunker.HeadingSections | src/services/libraryLoader.ts:201-212 | one section per heading match, starting at the match's index; the sections tile the text up to its end |
| Chunker.HeadingSectionAt | src/services/libraryLoader.ts:201-211 | section k has the match's text without the hashes, trimmed, as its heading, and runs from the match's index to the next match's index or to the end |
| Chunker.Sections | src/services/libraryLoader.ts:183-213 | one section per match, plus an Intro section when there is no match or the first match is not at 0; sections tile the text from 0 |
| Chunker.SectionsCover | src/services/libraryLoader.ts:183-213 | the last section ends at the end of the text |
| Chunker.SectionsIntro | src/services/libraryLoader.ts:183-199 | with no match the only section is "Intro" over the whole text; the first section is "Intro" up to the first match exactly when that match is past 0, and otherwise there is no Intro |
| Chunker.SectionsOfHeadings | src/services/libraryLoader.ts:201-212 | after the optional Intro, the sections are the heading sections in order |
| Chunker.CutIndex | src/services/libraryLoader.ts:226-239 | for `maxChunkSize > 0` every cut lies strictly after the local start and at most at the window end, so the loop advances and terminates |
| Chunker.CutPolicy | src/services/libraryLoader.ts:231-239 | the cut is just after the last `"\n\n"` when it lies past half of `maxChunkSize` (not of the window), else just after the last `". "` past that threshold, else at the window end |
| Chunker.CutWindow | src/services/libraryLoader.ts:227-239 | the loop body's cut computation equals the cut specification |
| Chunker.PushChunk | src/services/libraryLoader.ts:241-255 | appends a chunk whose text is the stripped raw slice, with absolute offsets, and only when that text is non-empty |
| Chunker.SliceIntoChunks | src/services/libraryLoader.ts:217-260 | the `while` loop returns exactly the chunks of the recursive slicing specification |
| Chunker.ChunkOfWellFormed | src/services/libraryLoader.ts:241-257 | the chunk of one slice, if any, carries the section heading and absolute offsets, spans at most `maxChunkSize`, and has the non-empty stripped text of exactly that span |
| Chunker.SliceChunksWellFormed | src/services/libraryLoader.ts:226-259 | every chunk of a section is well formed, and the chunks are in order, do not overlap, and stay inside the section |
| Chunker.SectionsChunksWellFormed | src/services/libraryLoader.ts:262-264 | the chunks of all sections together are well formed and in order without overlap, each carrying a section heading (a title or "Intro") |
| Chunker.ChunkMarkdown | src/services/libraryLoader.ts:159-267 | the `'file'` strategy gives exactly one "Full file" chunk over the whole normalised text, unstripped. The heading strategy gives well-formed chunks in non-overlapping offset order; each lies in a section and carries that section's heading, and every position outside all chunks lies in a cut whose slice strips to nothing |
| Chunker.SliceCutsTile | src/services/libraryLoader.ts:226-239 | the cuts of one section's loop tile the section from the local start to its end, each at most `maxChunkSize` long and carrying the section heading |
| Chunker.SectionsCutsTile | src/services/libraryLoader.ts:262-264 | the cuts of all sections tile the normalised text from the first section's start to the end, and each lies in its section |
| Chunker.TilesBounds | src/services/libraryLoader.ts:226-239 | cuts that tile a range lie inside it, and every position of the range lies in one of them |
| Chunker.SliceChunksArePieces | src/services/libraryLoader.ts:241-257 | the chunks of one section are, in order, the chunks of its cuts: one per cut whose slice strips to something |
| Chunker.SectionsChunksArePieces | src/services/libraryLoader.ts:262-264 | the same for all sections together |
| Chunker.PieceInPieces | src/services/libraryLoader.ts:241-255 | a cut whose slice strips to something yields one of the chunks |
| Chunker.PiecesFromCuts | src/services/libraryLoader.ts:241-255 | every chunk is the chunk of one of the cuts |
| Chunker.ChunkedAreCuts | src/services/libraryLoader.ts:159-267 | the scan's cuts tile the whole normalised text, the chunks are the chunks of those cuts in order, and every cut lies in a section with its heading |
| Chunker.ChunksCover | src/services/libraryLoader.ts:217-264 | coverage: each position of the normalised text lies in a chunk or in a cut whose slice strips to nothing |
| Chunker.PiecesCover | src/services/libraryLoader.ts:241-257 | a position inside one of the cuts lies in a chunk of the cuts, or in a cut whose slice strips to nothing |
| Chunker.ChunksInSections | src/services/libraryLoader.ts:183-264 | each chunk lies inside a section and carries that section's heading: its title, or "Intro" |
| Chunker.ChunkedCoverage | src/services/libraryLoader.ts:159-267 | for the heading strategy, the chunks of one file are well formed and in order, every position of the text is in a chunk or in a cut that strips to nothing, and every chunk lies in its section with its heading |
| Chunker.ChunkedFromFile | src/services/libraryLoader.ts:159-267 | every chunk of a file carries that file's id and name |
| Chunker.LibraryChunks | src/store/library.ts:39 | the library's chunk list is the `flatMap` of `chunkMarkdown` over the files; every chunk names one of the files |
| Chunker.LibraryChunksAppend | src/store/library.ts:39 | the chunks of two runs of files are those of the first run followed by those of the second, so the chunks come in file order |
| BookScan.MonsterHeading | src/services/libraryLoader.ts:100-103 | a line starting `##` and whitespace yields its trimmed name, which is non-empty when a non-blank character follows |
| BookScan.NextHeadingLine | src/services/libraryLoader.ts:99-105 | the index of the next heading line, with no heading line in between |
| BookScan.NamedHeads | src/services/libraryLoader.ts:93-103 | the heading lines that open a section: those whose name is non-empty |
| BookScan.BookSections | src/services/libraryLoader.ts:88-110 | one section per heading line with a non-empty name |
| BookScan.BookSectionsFromHeadings | src/services/libraryLoader.ts:99-110 | every section comes from a named heading line at or after the first heading line, so text before the first heading is dropped |
| BookScan.BookSectionsWithoutHeadings | src/services/libraryLoader.ts:106-110 | a text without heading lines gives no section |
| BookScan.Flush | src/services/libraryLoader.ts:92-97 | `flush` adds the buffered lines, joined and trimmed, under the current name, and only when a name is set |
| BookScan.ScanLine | src/services/libraryLoader.ts:99-109 | one loop step keeps the scan invariant: the sections so far are those of the named headings already closed, and the buffer holds the lines since the last heading |
| BookScan.ScanSections | src/services/libraryLoader.ts:86-110 | the line loop with its final `flush` returns exactly the section specification |
| BookScan.StatAt | src/services/libraryLoader.ts:118-119 | a stat match is the label (case-insensitive) followed by whitespace and digits |
| BookScan.FirstStatIndex | src/services/libraryLoader.ts:118-119 | the first position with a stat match, or none |
| BookScan.Stat | src/services/libraryLoader.ts:118-132 | `ac` and `hp` are the digit run of the leftmost match, and missing exactly when nothing matches |
| BookScan.SectionMonster | src/services/libraryLoader.ts:124-133 | the monster has the given fresh id, the file and section names, the first `min(n, 4000)` characters of the stripped section text as `sourceText`, the first Armor Class and Hit Points stats as `ac` and `hp`, and the image link found in the section |
| BookScan.MonstersOf | src/services/libraryLoader.ts:113-135 | at most one monster per section; monster k has the fresh id k, comes from the file and has a `sourceText` of at most 4000 characters |
| BookScan.MonstersOfSections | src/services/libraryLoader.ts:115-126 | monster k is the monster, with fresh id k, of a section that holds a stat marker |
| BookScan.MonstersOfCount | src/services/libraryLoader.ts:115-116 | there are exactly as many monsters as sections with a stat marker |
| BookScan.CollectMonsters | src/services/libraryLoader.ts:112-135 | the `forEach` loop returns exactly the monster specification |
| BookScan.ExtractBookMonsters | src/services/libraryLoader.ts:85-138 | the monsters of the file's named sections that hold stat markers; monster k has the fresh id k, comes from the file and has a `sourceText` of at most 4000 characters |
| BookScan.ClassRaceName | src/services/libraryLoader.ts:146-152 | a kept name starts with an ASCII capital, holds only letters, apostrophes, spaces and hyphens, is 3 to 39 characters long and does not contain "chapter" in any case |
| BookScan.KeptName | src/services/libraryLoader.ts:148-152 | the trimmed group is kept only when it does not contain "chapter" and its length is between 3 and 39 |
| BookScan.LineNames | src/services/libraryLoader.ts:145-154 | one optional name per line |
| BookScan.AddClassRaceNames | src/services/libraryLoader.ts:145-154 | adding a file's names to the set keeps it duplicate-free and adds exactly the names its lines yield |
| BookScan.ExtractClassRaceNames | src/services/libraryLoader.ts:140-157 | the result is sorted and duplicate-free, and holds a name exactly when a rulebook-named file has a heading line yielding it |
| Retriever.QueryTermsFromQuery | src/services/retriever.ts:17-21 | every term is longer than one character, consists of letters, digits and U+00C0 to U+017F, and occurs in the lower-cased query |
| Retriever.Tokens | src/services/retriever.ts:23 | the query terms, or exactly `regel, rule, lore, story` when none survive |
| Retriever.LowerAll | src/services/retriever.ts:24 | focus terms are lower-cased one by one |
| Retriever.ScoreChunk | src/services/retriever.ts:26-55 | the two `forEach` loops and the setting bonus compute the chunk score: occurrences, +2 for the heading, +1 for the file name for each token; +1.5, +2 and +1 by presence for each focus term; +1.5 for the un-lowered active setting |
| Retriever.Scored | src/services/retriever.ts:26-55 | one scored entry per chunk |
| Retriever.ScoredAppend | src/services/retriever.ts:26-55 | appending text to one chunk never lowers its score and leaves every other chunk's entry unchanged |
| Retriever.ChunkScoreAppend | src/services/retriever.ts:26-49 | appending text to a chunk never lowers its score |
| Retriever.TermsScoreAppend | src/services/retriever.ts:32-38 | appending text never lowers the query-token part of the score |
| Retriever.FocusTermsScoreAppend | src/services/retriever.ts:40-45 | appending text never lowers the focus-term part of the score |
| Retriever.RetrieveTopChunks | src/services/retriever.ts:11-60 | the result is the stable descending sort of the scored chunks cut to the limit (default 8) |
| Retriever.HigherScoreOrder | src/services/retriever.ts:58 | the comparator `b.score - a.score` is a strict weak order |
| Retriever.TopChunksLength | src/services/retriever.ts:57-59 | the output length is `min(limit, number of chunks)`, the limit defaulting to 8; zero-score chunks are kept |
| Retriever.TopChunksScored | src/services/retriever.ts:51-59 | every output entry pairs an input chunk with that chunk's own score |
| Retriever.TopChunksDescending | src/services/retriever.ts:57-58 | output scores are non-increasing |
| Retriever.TopChunksStable | src/services/retriever.ts:57-58 | chunks with equal scores keep their input order |
| App.TruncateText | src/App.tsx:24-27 | text no longer than the limit is returned unchanged; longer text becomes its first `maxLength` characters plus the fixed marker |
| App.BuildSystemMessages | src/App.tsx:29-53 | two system messages: the instructions naming the mode, then the Dutch or English language instruction |
| App.SelectBlocks | src/App.tsx:63-72 | no more blocks are kept than chunks remain |
| App.SelectBlocksInOrder | src/App.tsx:63-72 | block k is the block of chunk k (numbered `BRON k+1`, its text trimmed and truncated to `min(2000, budget)`), made with the budget left after the blocks before it, so the kept blocks are a prefix of the ranked chunks |
| App.SelectBlocksFit | src/App.tsx:60-71 | the kept blocks are together strictly shorter than the starting budget |
| App.SelectBlocksStop | src/App.tsx:69-70 | selection stops at the first block that brings the budget to 0 or below, and that block is dropped |
| App.ContextBlocksBudget | src/App.tsx:60-71 | the blocks of a context are together shorter than 12000 characters |
| App.CollectBlocks | src/App.tsx:60-72 | the budget loop returns exactly the blocks of the selection specification |
| App.BuildContextBlock | src/App.tsx:55-80 | no chunks gives the fixed "Geen bronfragmenten gevonden" sentence without preamble; otherwise the preamble, the selected blocks joined by blank lines, and the closing line |
| App.HistoryStartFrom | src/App.tsx:91-97 | walking back from a position keeps a suffix within the budget, and stops where the next older message would exceed it |
| App.HistoryStart | src/App.tsx:86-97 | the kept history starts within the past turns |
| App.BuildHistoryMessages | src/App.tsx:82-100 | the backward loop followed by `reverse` returns the contiguous suffix of the past turns from the history start, in original order |
| App.Reverse | src/App.tsx:99 | element k of the reversal is element `n-1-k` of the input |
| App.HistoryFits | src/App.tsx:86-97 | the kept history totals at most 6000 characters in story mode and 2000 otherwise; when it is not the whole past, adding the next older turn would exceed the budget |
| App.UserAndAssistant | src/App.tsx:217-219 | the filtered list is never longer than the input and holds no system message |
| App.UserAndAssistantSnoc | src/App.tsx:217-219 | appending a message appends its prompt form exactly when it is a user or assistant turn, and appends nothing for a system message |
| App.PriorMessagesDropsLastTurn | src/App.tsx:212-217 | as written: on the render-time snapshot, `slice(0, -1)` drops the last earlier turn, not the prompt just added |
| App.PriorTurnsExcludePrompt | src/App.tsx:216-217 | corrected: the prior turns are all user and assistant messages before the prompt |
| App.BuildRuleLookupAnswer | src/App.tsx:170-197 | no chunks gives the no-match text in the chosen language with no sources; otherwise the intro and up to three parts from the front, with one source per part and a 140-character snippet |
| App.RetrievalLimit | src/App.tsx:224 | the limit is 3 for the `'file'` strategy, else 8 in rules mode and 6 in story mode |
| App.NeedsLlm | src/App.tsx:201 | the model is needed in story mode, or in rules mode unless `useLlmForRules` is explicitly false |
| MonsterParser.ParseFloat | src/services/monsterParser.ts:30-31 | a number is read only when the text holds a digit after its leading whitespace |
| MonsterParser.ParseFloatOfNat | src/services/monsterParser.ts:30 | a decimal numeral is read back as its value |
| MonsterParser.ParseCr | src/services/monsterParser.ts:26-33 | no text or empty text gives neither raw nor value; otherwise raw is the trimmed text, the four `CR_MAP` keys give 0, 0.125, 0.25 and 0.5, and any other raw gives the value of its numeric prefix or none |
| MonsterParser.ParseCrOfBlank | src/services/monsterParser.ts:27-32 | non-empty blank text is kept as an empty raw with no value |
| MonsterParser.ParseCrOfNat | src/services/monsterParser.ts:28-31 | every decimal numeral is parsed as its value |
| MonsterParser.ScoreAt | src/services/monsterParser.ts:39-42 | a score found starts with a digit and has no whitespace |
| MonsterParser.ScoreFromLeftmost | src/services/monsterParser.ts:39-40 | no score exactly when the pattern matches from no position on; otherwise the score at the leftmost match |
| MonsterParser.ScoreOfLeftmost | src/services/monsterParser.ts:39-40 | `block.match(re)` finds the leftmost `ABBR\s+\d+\S*`, case-insensitively, or nothing |
| MonsterParser.ScoresIn | src/services/monsterParser.ts:37-44 | one optional score per ability, in STR, DEX, CON, INT, WIS, CHA order |
| MonsterParser.AbilityScoresFound | src/services/monsterParser.ts:35-46 | undefined exactly when no ability's pattern matches; otherwise each ability's score is what its pattern found |
| MonsterParser.ParseAbilityScores | src/services/monsterParser.ts:35-47 | the `forEach` filling the scores equals the specification |
| MonsterParser.MonsterHeadingAt | src/services/monsterParser.ts:15 | a match of `^##+\s+(.+)$` starts at a line start with two hashes and ends at the end of the text or a line terminator |
| MonsterParser.MonsterHeadingsFrom | src/services/monsterParser.ts:72 | the heading matches are in document order, do not overlap, and each is the match at its own index |
| MonsterParser.MonsterHeadingsComplete | src/services/monsterParser.ts:72 | no heading is missed: every matching position lies inside a match found |
| MonsterParser.SizeWordLength | src/services/monsterParser.ts:89 | a size word (case-insensitive) is an ASCII word followed by at least one character of the same line |
| MonsterParser.FirstTypeLine | src/services/monsterParser.ts:89 | the first line start where a size word begins, or none |
| MonsterParser.TypeLineIn | src/services/monsterParser.ts:89 | a type line is found only where the pattern matches |
| MonsterParser.TypeLineNeverFound | src/services/monsterParser.ts:81-89 | as written: on clean text starting with `#` the type-line pattern never matches |
| MonsterParser.ParsedTypeLineAsWritten | src/services/monsterParser.ts:80-92 | as written: the monster of every heading has no size, type or alignment |
| MonsterParser.ParsedKindsAsWritten | src/services/monsterParser.ts:66-146 | as written: no monster that `parseMonstersFromMarkdown` returns has a size, type or alignment |
| MonsterParser.CorrectedMonsterKind | src/services/monsterParser.ts:81-92 | corrected: the monster differs from the as-written one only in its kind, and it has a size and a type exactly when some line of the block starts with a size word |
| MonsterParser.FirstSizeLine | src/services/monsterParser.ts:89 | corrected: the first stripped line that starts with a size word, or none when there is none |
| MonsterParser.TypeLineOfLinesFinds | src/services/monsterParser.ts:89 | corrected: a type line is found exactly when some stripped line starts with a size word; it is the first such line, and the pattern matches it as a whole |
| MonsterParser.TypeLineOfOneLine | src/services/monsterParser.ts:89 | on a clean line starting with a size word the pattern matches the whole line |
| MonsterParser.LineSizeOf | src/services/monsterParser.ts:91 | the size is the first space-separated word |
| MonsterParser.LineTypeOf | src/services/monsterParser.ts:90 | the type is the words after the size, up to the first comma |
| MonsterParser.LineAlignmentOf | src/services/monsterParser.ts:92 | the alignment is the trimmed text after the first comma |
| MonsterParser.LineAlignment | src/services/monsterParser.ts:92 | there is an alignment exactly when the line contains a comma |
| MonsterParser.KindOf | src/services/monsterParser.ts:89-92 | no type line gives no size, type or alignment; a type line gives a size and a type, and an alignment exactly when it has a comma |
| MonsterParser.KindOfTypeLine | src/services/monsterParser.ts:89-92 | `Size kind, alignment` splits into those three parts |
| MonsterParser.ChallengeWord | src/services/monsterParser.ts:101-102 | the first space-separated word of a non-empty challenge text, or none |
| MonsterParser.MonsterFrom | src/services/monsterParser.ts:111-142 | the monster has the id `name_sourceId_i`, the trimmed block as `rawBlock`, the given source id and file, and `extraFluff = []` |
| MonsterParser.ParseBlock | src/services/monsterParser.ts:76-142 | one loop body: the block runs from the heading to the next heading or the end, trimmed, and gives the monster of that heading, its kind read from `stripTags(block)` as the source does |
| MonsterParser.ParsedMonsterAt | src/services/monsterParser.ts:75-142 | monster k is the monster of heading k |
| MonsterParser.ParseMonstersFromMarkdown | src/services/monsterParser.ts:66-146 | after CRLF normalisation, exactly one monster per heading match, in document order |
| MonsterParser.MonsterIdsDistinct | src/services/monsterParser.ts:112 | ids with different trailing indexes differ, whatever the names |
| MonsterParser.ParsedIdsDistinct | src/services/monsterParser.ts:112 | the ids of one call are pairwise distinct |
| MonsterParser.BlockStartsWithHeading | src/services/monsterParser.ts:78-80 | every block starts with its heading's `##` |
| MonsterSearch.QueryTokensAre | src/services/monsterSearch.ts:14-19 | each token is non-empty, has no whitespace, and occurs in the lower-cased query |
| MonsterSearch.QueryTokensOfBlank | src/services/monsterSearch.ts:14-19 | a blank query gives no token |
| MonsterSearch.QueryTokensOfWord | src/services/monsterSearch.ts:14-19 | a query of one word is one lower-cased token |
| MonsterSearch.NameMatches | src/services/monsterSearch.ts:3-6 | a monster always matches a search for its own name |
| MonsterSearch.TypeMatchesIgnoringCase | src/services/monsterSearch.ts:23 | the type filter accepts a monster whose lower-cased type contains a selected type, lower-cased |
| MonsterSearch.MissingKindExcluded | src/services/monsterSearch.ts:23-25 | a monster with no type, or no size, is excluded when that filter is active |
| MonsterSearch.MissingCrExcluded | src/services/monsterSearch.ts:26-27 | a monster without a rating is excluded whenever `minCR` or `maxCR` is set |
| MonsterSearch.CrBoundsAre | src/services/monsterSearch.ts:26-27 | a rated monster passes the rating filters exactly when it lies within the bounds that are set |
| MonsterSearch.FilterAndSortContents | src/services/monsterSearch.ts:21-30 | the output holds exactly the input monsters that pass every active filter, each as often as in the input |
| MonsterSearch.NoFiltersKeepsAll | src/services/monsterSearch.ts:14-30 | with no filter set the output is a permutation of the input |
| MonsterSearch.CrCmp | src/services/monsterSearch.ts:37-41 | the rating comparison is -1, 0 or 1, and 0 exactly for equal ratings (a missing rating counts as lowest) |
| MonsterSearch.CrCmpConsistent | src/services/monsterSearch.ts:37-41 | the rating comparison is a consistent comparator |
| MonsterSearch.ComparatorConsistent | src/services/monsterSearch.ts:32-44 | each of the four comparators, with its name tie-break, is consistent |
| MonsterSearch.KeyThenNameConsistent | src/services/monsterSearch.ts:35-40 | a consistent key comparison with a name tie-break is consistent |
| MonsterSearch.BeforeOrder | src/services/monsterSearch.ts:32-44 | in either direction the comparator gives a strict weak order |
| MonsterSearch.FilterAndSortSorted | src/services/monsterSearch.ts:32-44 | the output is sorted by the chosen comparator |
| MonsterSearch.FilterAndSortOrdered | src/services/monsterSearch.ts:32-44 | for any two output positions the comparator is `<= 0` ascending and `>= 0` descending |
| MonsterSearch.SortedByCr | src/services/monsterSearch.ts:37-42 | ascending by rating: unrated monsters come first, ratings do not decrease, and equal ratings are in name order |
| MonsterSearch.CrComparatorOrder | src/services/monsterSearch.ts:37-41 | what a non-positive rating comparison says about the two monsters |
| MonsterSearch.DescReverses | src/services/monsterSearch.ts:33 | `'desc'` negates the whole comparison, including the name tie-break |
| MonsterSearch.ByNameOrder | src/services/monsterSearch.ts:34 | sorting by name ascending is the default string order of the names |
| MonsterSearch.FilterAndSortStable | src/services/monsterSearch.ts:21-32 | monsters the comparator ties keep the order of the filtered list; the sort works on the fresh filtered array |
| Party.MergePlayer | src/store/party.ts:30 | an empty patch changes nothing, a patched name is taken, and without an id in the patch the id is kept |
| Party.MergeInitiative | src/store/party.ts:43 | an empty patch changes nothing, a patched initiative is taken, and without an id in the patch the id is kept |
| Party.MergePlayerIdempotent | src/store/party.ts:30 | merging the same patch twice is merging once |
| Party.UpdatePlayersIdempotent | src/store/party.ts:28-31 | updating twice with the same patch is updating once; an unknown id changes nothing |
| Party.UpdateEntriesIdempotent | src/store/party.ts:41-44 | the same for initiative entries |
| Seqs.RemoveKeyExactly | src/store/party.ts:32-35 | removing by id, as every remove action of the stores does, deletes each element with that id and keeps every other element as often as before |
| Party.RollsBeforeOrder | src/store/party.ts:51 | the initiative comparator gives a strict weak order |
| Party.SortedInitiativeDescending | src/store/party.ts:49-52 | the sorted order is a permutation with non-increasing initiative |
| Party.SortedInitiativeStable | src/store/party.ts:49-52 | entries with equal initiative keep their relative order |
| Party.SortedInitiativeIdempotent | src/store/party.ts:49-52 | sorting twice gives the same order as sorting once |
| Party.PartyStore.constructor | src/store/party.ts:22-23 | both lists start empty |
| Party.PartyStore.AddPlayer | src/store/party.ts:24-27 | one player with the fresh id is appended; initiative is unchanged |
| Party.PartyStore.UpdatePlayer | src/store/party.ts:28-31 | the patch is merged into the players with that id; initiative is unchanged |
| Party.PartyStore.RemovePlayer | src/store/party.ts:32-35 | the players with that id are removed, the rest kept in order; initiative is unchanged |
| Party.PartyStore.ClearPlayers | src/store/party.ts:36 | players become empty; initiative is unchanged |
| Party.PartyStore.AddInitiative | src/store/party.ts:37-40 | one entry with the fresh id is appended; players are unchanged |
| Party.PartyStore.UpdateInitiative | src/store/party.ts:41-44 | the patch is merged into the entries with that id; players are unchanged |
| Party.PartyStore.RemoveInitiative | src/store/party.ts:45-48 | the entries with that id are removed, the rest kept in order; players are unchanged |
| Party.PartyStore.SortInitiative | src/store/party.ts:49-52 | initiative becomes its stable sort, highest first; players are unchanged |
| Party.PartyStore.ClearInitiative | src/store/party.ts:53 | initiative becomes empty; players are unchanged |
| Monsters.MergeMonster | src/store/monsters.ts:29 | an empty patch changes nothing, and without an id in the patch the id is kept |
| Monsters.UpdateMonstersIdempotent | src/store/monsters.ts:27-30 | updating twice with the same patch is updating once |
| Monsters.RemoveMonsterCascade | src/store/monsters.ts:31-35 | `removeMonster` deletes exactly the monsters with that id and exactly the encounter entries that refer to it, keeping every other one as often as before |
| Monsters.ExistingNames | src/store/monsters.ts:49 | the set holds exactly the lower-cased names of the existing monsters |
| Monsters.WithFreshIds | src/store/monsters.ts:52 | one copy per monster, each with its fresh id |
| Monsters.SeededShape | src/store/monsters.ts:47-53 | existing monsters stay as a prefix, followed by the new ones in input order, each with its fresh id |
| Monsters.ToAddExactly | src/store/monsters.ts:50 | the monsters added are exactly the incoming ones whose lower-cased name is not taken, each as often as it comes in |
| Monsters.ToAddNamesAreNew | src/store/monsters.ts:49-50 | no added monster has an existing monster's name, ignoring case |
| Monsters.SeededNothingNew | src/store/monsters.ts:51 | when every incoming name is taken the list is unchanged |
| Monsters.SeededIntoEmpty | src/store/monsters.ts:47-53 | seeding an empty list adds every incoming monster |
| Monsters.SeededKeepsBatchDuplicates | src/store/monsters.ts:49-50 | a new name repeated within the batch is added each time |
| Monsters.MonsterStore.constructor | src/store/monsters.ts:21-22 | both lists start empty |
| Monsters.MonsterStore.AddMonster | src/store/monsters.ts:23-26 | one monster with the fresh id is appended; the encounter is unchanged |
| Monsters.MonsterStore.UpdateMonster | src/store/monsters.ts:27-30 | the patch is merged into the monsters with that id; the encounter is unchanged |
| Monsters.MonsterStore.RemoveMonster | src/store/monsters.ts:31-35 | the monster and every encounter entry that refers to it are removed, the rest kept in order |
| Monsters.MonsterStore.ClearMonsters | src/store/monsters.ts:36 | monsters become empty and the encounter is kept, dangling references included |
| Monsters.MonsterStore.AddEncounterEntry | src/store/monsters.ts:37-40 | one entry with the fresh id is appended, whatever its `monsterId`; monsters are unchanged |
| Monsters.MonsterStore.RemoveEncounterEntry | src/store/monsters.ts:41-44 | the entries with that id are removed; monsters are unchanged |
| Monsters.MonsterStore.ClearEncounter | src/store/monsters.ts:45 | the encounter becomes empty; monsters are unchanged |
| Monsters.MonsterStore.SeedFromBookMonsters | src/store/monsters.ts:47-53 | monsters become the seeded list; the encounter is unchanged |
| Chat.Stamped | src/store/chat.ts:22-34 | a supplied id and timestamp are kept, a missing one is the fresh id or the clock; role, content and sources are copied |
| Chat.StampedIgnoresFreshWhenGiven | src/store/chat.ts:27-28 | a message that brings its own id and timestamp does not depend on the fresh id or the clock |
| Chat.AssistantIsStamped | src/store/chat.ts:35-47 | `addAssistantMessage` appends what `addMessage` would for an assistant message without id and timestamp |
| Chat.ChatStore.constructor | src/store/chat.ts:18-21 | no messages, rules mode, not loading, general focus |
| Chat.ChatStore.AddMessage | src/store/chat.ts:22-34 | exactly one stamped message is appended; mode, flag and focus are unchanged |
| Chat.ChatStore.AddAssistantMessage | src/store/chat.ts:35-47 | one assistant message with the content and sources is appended; nothing else changes |
| Chat.ChatStore.SetMode | src/store/chat.ts:48 | only the mode changes |
| Chat.ChatStore.SetLoading | src/store/chat.ts:49 | only the loading flag changes |
| Chat.ChatStore.SetFocus | src/store/chat.ts:50 | only the focus changes |
| Chat.ChatStore.ClearChat | src/store/chat.ts:51 | messages become empty; mode, flag and focus are unchanged |
| MonsterManager.FormatCr | src/components/MonsterManager.tsx:8-14 | no rating gives `''`; 0.125, 0.25 and 0.5 give labels that `CR_MAP` maps back to them; a whole rating gives its decimal digits |
| MonsterManager.FormatCrRoundTrip | src/components/MonsterManager.tsx:8-14 | for 0, 1/8, 1/4 and 1/2, `parseCR(formatCr(c))` gives back c |
| MonsterManager.FormatCrWholeRoundTrip | src/components/MonsterManager.tsx:13 | so it does for every whole rating from 0 up to 10^21 |
| MonsterManager.FindMonster | src/components/MonsterManager.tsx:41 | none exactly when no monster has the id; otherwise the first monster in the list with that id |
| MonsterManager.SummaryOfOne | src/components/MonsterManager.tsx:41-46 | one entry adds nothing when its monster is gone, and otherwise hp times quantity, rating times quantity and the quantity, with quantity 0 as 1 and missing values as 0 |
| MonsterManager.SummaryAppend | src/components/MonsterManager.tsx:40-47 | the totals of two parts of an encounter add up |
| MonsterManager.SummaryIgnoresDangling | src/components/MonsterManager.tsx:41-42 | an entry whose monster is gone changes no total |
| MonsterManager.EncounterSummary | src/components/MonsterManager.tsx:36-49 | the `forEach` accumulation equals the totals specification |
| MonsterManager.FilteredMonstersBlank | src/components/MonsterManager.tsx:100-102 | a blank search shows every monster |
| MonsterManager.FilteredMonstersExactly | src/components/MonsterManager.tsx:101-103 | any other search keeps exactly the monsters whose lower-cased name contains the trimmed, lower-cased term, with multiplicity |
| MonsterManager.FilteredMonstersInOrder | src/components/MonsterManager.tsx:103 | the kept monsters stay in list order |
| MonsterManager.OnSubmit | src/components/MonsterManager.tsx:51-54 | a blank name adds nothing; any other form is appended with a fresh id; the encounter is unchanged |
| MonsterManager.OnEncounterSubmit | src/components/MonsterManager.tsx:58-61 | an empty monster id adds nothing; any other entry is appended with a fresh id; monsters are unchanged |
| FilterPanel.Toggle | src/components/MonsterFilters.tsx:21-22 | after a toggle the value is in the list exactly when it was not before |
| FilterPanel.ToggleAbsent | src/components/MonsterFilters.tsx:22 | toggling an absent value appends it at the end |
| FilterPanel.TogglePresent | src/components/MonsterFilters.tsx:22 | toggling a present value removes every occurrence and keeps the other values, in order and as often as before |
| FilterPanel.ToggleTwice | src/components/MonsterFilters.tsx:21-22 | toggling an absent value twice restores the list |
| FilterPanel.ToggleSource | src/components/MonsterFilters.tsx:20-23 | only `sources` changes, and the id is in it exactly when it was not |
| FilterPanel.ToggleType | src/components/MonsterFilters.tsx:25-28 | only `types` changes, and the type is in it exactly when it was not |
| FilterPanel.ToggleSize | src/components/MonsterFilters.tsx:30-33 | only `sizes` changes, and the size is in it exactly when it was not |
| Browser.AvailableTypes | src/components/MonsterBrowser.tsx:28-32 | the type list is sorted, duplicate-free, and holds exactly the non-empty types of the monsters |
| Browser.Selected | src/components/MonsterBrowser.tsx:39 | the first filtered monster with the selected id when there is one; otherwise the first filtered monster, or none |
| Browser.InitialListsAll | src/components/MonsterBrowser.tsx:15-37 | with the initial filters the list is a sorted permutation of all monsters |
| Browser.ToggleDirection | src/components/MonsterBrowser.tsx:69 | the toggle always changes the direction |
| Browser.ToggleDirectionTwice | src/components/MonsterBrowser.tsx:69 | toggling twice restores it |

## Left out

- File and network I/O are not modelled: reading library files, fetching the books (`loadMonsterBooks`) and the OpenAI call. The asynchronous flow of `handleSend`, the mount effects, IndexedDB caching and zustand persistence are left out as well.
- `crypto.randomUUID` and `Date.now` become arguments of the actions that read them (`freshId`, `newId`, `now`). Chunk ids are dropped from `TextChunk`, since nothing in the core reads them.
- React rendering, the form state reset after a submit, `handleLookup`, `handleSuggestFromLibrary` and the `focusMap` table of `App.tsx` are not modelled; they are display glue.
- `toLowerCase` folds only ASCII and Latin-1 capitals (`Text.Lower`). Full Unicode case mapping is not modelled.
- `localeCompare` and the default `sort()` order are modelled as code-point order (`Text.StrCmp`, `Text.StrLess`), a total order. Locale collation is not modelled.
- Lengths count Unicode scalar values, not UTF-16 code units, so astral characters have length 1 here and 2 in the source.
- `Array.prototype.sort` is a stable insertion sort (`Sorting.SortWith`). The comparators return a sign, not the numeric difference, which sorts identically.
- Chunker.ChunkMarkdown: requires `maxChunkSize > 0` for the heading strategy. In the source a size of 0, -1 or -2 never advances and loops forever.
- MonsterParser.ParseFloat: reads decimal and exponent forms only. `Infinity` and the IEEE rounding of `parseFloat` are not modelled; the value is an exact `real`.
- MonsterParser.ParseCr: looks up only the four own keys of `CR_MAP`. Inherited `Object.prototype` names such as `"constructor"` are not modelled.
- MonsterParser.ParseMonstersFromMarkdown: the statblock field regexes (Armor Class, Hit Points, Speed, the fluff and action sections, image links, `extractBetween`) are the `read` parameter, an opaque function of the block.
- MonsterManager.FormatCr: `Number.prototype.toString` for non-whole ratings, and for ratings of 10^21 or more, is the `show` parameter. The `toFixed` display is not modelled.
- Party.MergeInitiative: `initiative` is a required field held as a `real`, so the `?? 0` fallback of the sort never applies, and a patch cannot set a required field to `undefined`.
- Party.MergePlayer: likewise a patch cannot set `name`, `id` or another required field to `undefined`, which a spread of `Partial<Player>` allows in the source.
- MonsterManager.EncounterSummary: `Player.level`, `Player.ac`, `Player.hp`, `InitiativeEntry.hp`, `InitiativeEntry.ac`, `Monster.hp`, `Monster.ac` and `EncounterEntry.quantity` are integers. The forms fill them with `Number(...)`, which also accepts fractions; fractional values, and the totals they would give, are not modelled.
- BookScan.SectionMonster: the image regexes are the `image` parameter, and the `crypto.randomUUID()` id of the k-th monster is `newId(k)`.
- Retriever.TopChunksLength: stated for a limit of 0 or more. A negative limit is modelled by `slice` semantics in `TopChunks` but has no length lemma.
- App.ContextBlocksBudget: the selection lemmas are proved for any block function, not only the one the source uses.
- `src/store/library.ts` is not part of this model beyond its chunk list (`Chunker.LibraryChunks`): the import flow, caching and the store's other fields are left out.

## Findings

| source | as written | input that shows it | evidently intended | confidence | as-written member | corrected member |
|---|---|---|---|---|---|---|
| src/App.tsx:212-217 | `messages.slice(0, -1)` runs on the render-time snapshot, which does not yet hold the prompt just added, so it drops the last earlier turn | snapshot `[user "q", assistant "a"]`, prompt `"p"`: the history sent lacks the answer `"a"` | all earlier user and assistant turns, without the new prompt | not executed | App.PriorMessagesDropsLastTurn | App.PriorTurnsExcludePrompt |
| src/services/monsterParser.ts:81-89 | the type-line pattern `^(Tiny\|Small\|...)` runs on `stripTags(block)`, which collapses every newline and starts with the `##` heading, so it never matches | `"## Goblin\nSmall humanoid, neutral evil"`: size, type and alignment stay undefined | the first line of the block that starts with a size word | not executed | MonsterParser.ParsedKindsAsWritten | MonsterParser.CorrectedMonsterKind |

The parser is modelled as written, because the monsters it returns are the
ones the rest of the application shows. `MonsterParser.CorrectedMonsterAt`
is the monster the evidently intended type-line search would give.
