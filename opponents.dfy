/** The opponent simulator: the per-player body of the 100 ms interval
    (App.tsx:255-272). Each bot or ghost draws one uniform sample in [0, 1)
    per tick and advances by one character when the sample falls under its
    move chance, clamped to the passage length. The samples are supplied by
    the caller instead of `Math.random`. */
module Opponents {
  import opened Types
  import opened Sequences
  import opened Passage

  /** Base chance per tick of a bot, by the configured bot difficulty. */
  function BaseSpeed(d: Difficulty): (r: real)
    ensures 0.12 <= r <= 1.10
  {
    match d
    case Easy => 0.12
    case Medium => 0.32
    case Hard => 0.65
    case Pro => 0.85
    case Insane => 1.10
  }

  /** The factor applied while SlowOpponents is active. */
  const SlowFactor: real := 0.35

  /** `p.id.includes('bot') ? 1 + parseInt(p.id.slice(-1)) * 0.03 : 1`;
      None stands for the NaN that `parseInt` yields for a non-digit. */
  function Variance(id: string): Option<real>
  {
    if Contains(id, "bot") then
      match LastDigit(id)
      case Some(d) => Some(1.0 + d as real * 0.03)
      case None => None
    else Some(1.0)
  }

  /** Move chance of a bot; None (NaN) never compares below a sample. */
  function BotChance(id: string, d: Difficulty, slowed: bool): Option<real>
  {
    match Variance(id)
    case Some(v) => Some(BaseSpeed(d) * (if slowed then SlowFactor else 1.0) * v)
    case None => None
  }

  /** Move chance of the ghost: its personal-best pace converted to
      characters per tick, `(pbWpm / 60) * 0.1 * 4.8`; SlowOpponents does
      not touch it. */
  function GhostChance(pbWpm: nat): real
  {
    (pbWpm as real / 60.0) * 0.1 * 4.8
  }

  function MoveChance(p: PlayerState, pbWpm: nat, d: Difficulty, slowed: bool): Option<real>
  {
    if p.isGhost then Some(GhostChance(pbWpm)) else BotChance(p.id, d, slowed)
  }

  /** `Math.random() < moveChance`. */
  predicate Moves(sample: real, chance: Option<real>)
  {
    chance.Some? && sample < chance.value
  }

  predicate IsSample(x: real) { 0.0 <= x < 1.0 }

  /** One player's update in one tick. */
  function Step(p: PlayerState, sample: real, pbWpm: nat, d: Difficulty, slowed: bool, len: nat): (r: PlayerState)
    // Only the index can change, and only for bots and the ghost ...
    ensures r == p.(index := r.index)
    ensures p.IsHuman() ==> r == p
    // ... which never ends up past the passage, and otherwise grows by
    // exactly one character when the sample falls under the chance.
    ensures !p.IsHuman() ==> r.index <= len
    ensures !p.IsHuman() && p.index <= len ==>
      r.index == if p.index < len && Moves(sample, MoveChance(p, pbWpm, d, slowed)) then p.index + 1 else p.index
    ensures !p.IsHuman() && p.index > len ==> r.index == len
  {
    if p.IsHuman() then p
    else
      var step := if Moves(sample, MoveChance(p, pbWpm, d, slowed)) then 1 else 0;
      p.(index := Min(p.index + step, len))
  }

  /** `players.map(...)`: every player stepped with its own sample. */
  function StepAll(ps: seq<PlayerState>, samples: seq<real>, pbWpm: nat, d: Difficulty, slowed: bool, len: nat): (r: seq<PlayerState>)
    requires |samples| == |ps|
    ensures |r| == |ps|
    ensures forall i :: 0 <= i < |ps| ==> r[i] == Step(ps[i], samples[i], pbWpm, d, slowed, len)
  {
    seq(|ps|, i requires 0 <= i < |ps| => Step(ps[i], samples[i], pbWpm, d, slowed, len))
  }

  /** Roster-level reading of a tick: ids, names, kinds and the human lane
      are kept, and every opponent lane moves by 0 or 1 within the
      passage. */
  lemma StepAllBounds(ps: seq<PlayerState>, samples: seq<real>, pbWpm: nat, d: Difficulty, slowed: bool, len: nat)
    requires |samples| == |ps|
    requires forall i :: 0 <= i < |ps| ==> ps[i].index <= len
    ensures var r := StepAll(ps, samples, pbWpm, d, slowed, len);
      forall i :: 0 <= i < |ps| ==>
        && r[i].id == ps[i].id && r[i].isBot == ps[i].isBot && r[i].isGhost == ps[i].isGhost
        && (ps[i].IsHuman() ==> r[i] == ps[i])
        && ps[i].index <= r[i].index <= ps[i].index + 1
        && r[i].index <= len
  {
  }

  // ---------------------------------------------------------------------
  // What the chances mean for a generated bot id `"bot" + n`.

  /** The variance of bot number n follows only its last decimal digit:
      1 + (n mod 10) * 0.03, so "bot1" and "bot11" share a pace. */
  lemma BotVariance(n: nat)
    ensures Variance("bot" + DecimalString(n)) == Some(1.0 + (n % 10) as real * 0.03)
  {
    BotIdShape(n);
  }

  /** The bot chance lies between the base speed (times the slow factor when
      slowed) and 1.27 times it. */
  lemma BotChanceRange(n: nat, d: Difficulty, slowed: bool)
    ensures var m := if slowed then SlowFactor else 1.0;
      var c := BotChance("bot" + DecimalString(n), d, slowed);
      c.Some? && BaseSpeed(d) * m <= c.value <= BaseSpeed(d) * m * 1.27
  {
    BotVariance(n);
    var m := if slowed then SlowFactor else 1.0;
    var v := 1.0 + (n % 10) as real * 0.03;
    assert 1.0 <= v <= 1.27;
    var b := BaseSpeed(d) * m;
    assert b > 0.0;
    assert b * 1.0 <= b * v <= b * 1.27;
  }

  /** Slowing never makes a bot move where it would not have moved. */
  lemma SlowNeverHelps(n: nat, d: Difficulty, sample: real)
    requires Moves(sample, BotChance("bot" + DecimalString(n), d, true))
    ensures Moves(sample, BotChance("bot" + DecimalString(n), d, false))
  {
    BotVariance(n);
    var v := 1.0 + (n % 10) as real * 0.03;
    var b := BaseSpeed(d);
    assert b * SlowFactor * v <= b * 1.0 * v;
  }

  /** An unslowed Insane bot moves on every tick, whatever the sample. */
  lemma InsaneBotAlwaysMoves(n: nat, sample: real)
    requires IsSample(sample)
    ensures Moves(sample, BotChance("bot" + DecimalString(n), Insane, false))
  {
    BotChanceRange(n, Insane, false);
  }

  /** A Hard bot under SlowOpponents moves with chance 0.65 * 0.35 = 0.2275,
      scaled by its variance. */
  lemma HardSlowedChance(n: nat)
    ensures BotChance("bot" + DecimalString(n), Hard, true) == Some(0.2275 * (1.0 + (n % 10) as real * 0.03))
  {
    BotVariance(n);
  }

  /** The ghost ignores SlowOpponents, stands still with no personal best
      to replay, and moves on every tick from 125 WPM up. */
  lemma GhostPace(p: PlayerState, pbWpm: nat, d: Difficulty, sample: real)
    requires p.isGhost && IsSample(sample)
    ensures MoveChance(p, pbWpm, d, true) == MoveChance(p, pbWpm, d, false)
    ensures pbWpm == 0 ==> !Moves(sample, MoveChance(p, pbWpm, d, false))
    ensures pbWpm >= 125 ==> Moves(sample, MoveChance(p, pbWpm, d, false))
  {
    assert GhostChance(pbWpm) == pbWpm as real * 0.008;
  }
}
