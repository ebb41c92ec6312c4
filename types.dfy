/** Vocabulary shared by the race-session engine: the enumerations and the
    per-player record of App.tsx, and an Option type for absent values. */
module Types {

  datatype Option<+T> = None | Some(value: T)

  /** The difficulty tiers (used for passages and for bot pace). */
  datatype Difficulty = Easy | Medium | Hard | Pro | Insane

  /** The four race modes offered by the mode selector; TimeAttack is the
      60-second "Blitz" mode that rotates passages. */
  datatype GameMode = Solo | TimeAttack | Competitive | Daily

  /** The three power-up kinds. */
  datatype PowerUpType = SkipWord | TimeFreeze | SlowOpponents

  /** One lane of the race: the human ('me'), a bot or the ghost. */
  datatype PlayerState = PlayerState(
    id: string,
    name: string,
    avatar: string,
    index: nat,     // characters of the passage matched so far
    errors: nat,
    isBot: bool,
    isGhost: bool)
  {
    /** The source treats a player as human exactly when it is neither a
        bot nor a ghost. */
    predicate IsHuman() { !isBot && !isGhost }
  }
}
