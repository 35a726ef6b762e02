/** The records of src/types/monsters.ts: a monster parsed from a monster
    book, and the filters of the monster browser. Each optional (`?:`)
    field is an `Option`. */
module Bestiary {
  import opened Wrappers

  /** The six ability scores as written in a stat block (the source's
      `str`, `dex`, `con`, `int`, `wis`, `cha`). The parser fills only the
      scores it finds, so each one is optional. */
  datatype AbilityScores = AbilityScores(
    strength: Option<string>,
    dexterity: Option<string>,
    constitution: Option<string>,
    intelligence: Option<string>,
    wisdom: Option<string>,
    charisma: Option<string>)

  /** The stat-block lines the parser reads with one regular expression
      each; the model treats their text as given. */
  datatype StatLines = StatLines(
    armorClass: Option<string>,
    hitPoints: Option<string>,
    hitDice: Option<string>,
    speed: Option<string>,
    savingThrows: Option<string>,
    skills: Option<string>,
    damageResistances: Option<string>,
    damageImmunities: Option<string>,
    damageVulnerabilities: Option<string>,
    conditionImmunities: Option<string>,
    senses: Option<string>,
    languages: Option<string>,
    traitsRaw: Option<string>,
    actionsRaw: Option<string>,
    reactionsRaw: Option<string>,
    legendaryRaw: Option<string>,
    lairActionsRaw: Option<string>,
    regionalEffectsRaw: Option<string>)

  /** A monster of a monster book. `creatureType` is the source's `type`. */
  datatype Monster = Monster(
    id: string,
    name: string,
    sourceId: string,
    sourceFile: string,
    section: Option<string>,
    size: Option<string>,
    creatureType: Option<string>,
    subtype: Option<string>,
    alignment: Option<string>,
    stats: StatLines,
    abilityScores: Option<AbilityScores>,
    challengeRating: Option<string>,
    challengeRatingValue: Option<real>,
    fluffRaw: Option<string>,
    extraFluff: Option<seq<string>>,
    imageUrls: seq<string>,
    rawBlock: string)

  /** The monster browser's filters. A CR bound is `None` when unset. */
  datatype MonsterFilters = MonsterFilters(
    text: string,
    sources: seq<string>,
    minCR: Option<real>,
    maxCR: Option<real>,
    types: seq<string>,
    sizes: seq<string>)
}
