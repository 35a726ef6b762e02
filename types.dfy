/** The records of src/types.ts. Chunk, message and monster identifiers that
    the source draws from `crypto.randomUUID` are strings supplied by the
    caller (see the stores); chunk identifiers are not kept at all. */
module Types {
  import opened Wrappers

  datatype LibraryFile = LibraryFile(id: string, name: string, path: Option<string>, content: string)

  /** A retrievable unit of a library file. `startOffset`/`endOffset` index
      the file's normalised text. */
  datatype TextChunk = TextChunk(
    fileId: string,
    fileName: string,
    heading: Option<string>,
    startOffset: int,
    endOffset: int,
    text: string)

  /** A chunk with its relevance score, kept DOUBLED: every weight in the
      scorer is a multiple of 0.5, so `score` is twice the source's value. */
  datatype RetrievedChunk = RetrievedChunk(chunk: TextChunk, score: int)

  datatype LanguageCode = NlBE | En

  datatype ChunkStrategy = ByHeading | WholeFile

  datatype SourceRef = SourceRef(fileName: string, heading: Option<string>, snippet: Option<string>)

  datatype Role = User | Assistant | System

  datatype ChatMessage = ChatMessage(
    id: string,
    role: Role,
    content: string,
    sources: Option<seq<SourceRef>>,
    timestamp: int)

  datatype Mode = Rules | Story

  datatype FocusType = General | Class | Rule | MonsterFocus | Background | Feat | Race | Spell | Item

  datatype Player = Player(
    id: string,
    name: string,
    className: Option<string>,
    level: Option<int>,
    ac: Option<int>,
    hp: Option<int>,
    notes: Option<string>)

  /** `initiative` is a JavaScript number read with `Number(...)`, so it may
      be fractional. */
  datatype InitiativeEntry = InitiativeEntry(
    id: string,
    name: string,
    initiative: real,
    hp: Option<int>,
    ac: Option<int>,
    notes: Option<string>)

  /** A monster of the user's own list (the monster store). */
  datatype Monster = Monster(
    id: string,
    name: string,
    creatureType: Option<string>,
    cr: Option<real>,
    hp: Option<int>,
    ac: Option<int>,
    notes: Option<string>,
    imageUrl: Option<string>)

  datatype EncounterEntry = EncounterEntry(id: string, monsterId: string, quantity: int)

  /** A monster section found in a library file. */
  datatype BookMonster = BookMonster(
    id: string,
    fileName: string,
    name: string,
    sourceText: string,
    ac: Option<nat>,
    hp: Option<nat>,
    imageUrl: Option<string>)
}
