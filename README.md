# TypingMaster race-session engine in Dafny

This project models the race engine of the TypingMaster typing game (`App.tsx`).
A player transcribes a passage. Bots and a "ghost" of the player's personal
best advance beside them on a 100 ms clock. Power-ups skip a word, freeze the
clock or slow the bots. Speed and accuracy are scored from keystroke counters.

The model is split by concern:

- `types.dfy` (`Types`): difficulty, mode, power-up kind and the player lane record.
- `sequences.dfy` (`Sequences`): the JavaScript array primitives the engine uses (`findIndex`, positional `filter`, `slice(-n)`, `Math.min`).
- `passage.dfy` (`Passage`):
  - `normalizeText` as a pure function, with its algebra.
  - `trim` and the `substring` forms.
  - The SkipWord target.
  - The string helpers behind bot ids and the miss map.
- `scoring.dfy` (`Scoring`): the live WPM, accuracy and overdrive metrics over integer ticks of 100 ms.
- `powerups.dfy` (`PowerUps`): the power-up inventory, as written and as corrected (see Findings).
- `opponents.dfy` (`Opponents`): one tick of one bot or ghost. The uniform draw is supplied by the caller.
- `keystrokes.dfy` (`Keystrokes`):
  - The keystroke classification of `handleInputChange`.
  - The miss-map histogram.
  - The global keydown listener with its remapped keys.
- `session.dfy` (`Session`):
  - The roster and the completion bookkeeping.
  - The class `RaceSession`. It holds the component's mutable race state as fields, and its handlers are methods.
  - Timers and asynchronous loads become explicit events: `Tick`, `BeginLoad`/`ResolveLoad`, `EndReveal`, `ExpireFreeze`, `ExpireSlow`.

Times are whole ticks of 100 ms. The 60-second countdown is 600 ticks.
`Math.random` draws are parameters: one sample in [0, 1) per lane per tick, and the power-up type an award would draw.
The load outcome is a parameter too: a fetched passage, or `None` for a failure.
The sign-in / anonymous-use gate is a boolean `allowed`.

Where the design description and the code disagree, the model follows the code:

- An award at a full inventory drops the oldest power-up. It is not refused.
- The on-screen power-up buttons (App.tsx:609) call `usePowerUp` with no check that a race is active. Only the hot keys are gated (App.tsx:198).
- A backspace accepts any shorter candidate as the new input, whether or not it is a prefix of the passage.
- The design bounds every lane's progress by the passage length. The code does not keep that bound:
  - The TIME_ATTACK rotation (App.tsx:367-368) resets only the human lane. A bot further along than the next passage is long stands past its end until the next tick clamps it, and no tick runs during the load and the reveal.
  - `completeRace` clears the passage while every lane keeps its index.

`RaceSession` runs the corrected behaviour of both Findings: it stores typed power-ups and records the result of a race finished by its last keystroke with that keystroke counted. The behaviour as written is modelled only by `PowerUps.AwardAsWritten`, `PowerUps.ActivateAsWritten` and `Session.FinishResultAsWritten`.

## Model

| member | source | states |
|---|---|---|
| `Sequences.FirstIndex` | App.tsx:406 | `findIndex`/`indexOf`: -1 exactly when absent, otherwise the first position holding the element |
| `Sequences.RemoveAt` | App.tsx:407 | filtering out position k removes exactly that element, keeps the others in order, and is the identity for a non-position |
| `Sequences.LastN` | App.tsx:402 | `slice(-n)` keeps the last min(n, len) elements in order |
| `Passage.Normalize` | App.tsx:46 | `normalizeText` replaces every typographic variant, character by character; what that means is stated by the four lemmas below |
| `Passage.NormalizeChar` | App.tsx:46 | a character is left alone iff it is not one of the six typographic variants, and no replacement contains a variant |
| `Passage.NormalizeAppend` | App.tsx:46 | normalisation distributes over concatenation |
| `Passage.NormalizeIsPlain` | App.tsx:46 | no typographic variant survives normalisation |
| `Passage.NormalizeFixesPlain` | App.tsx:46 | normalisation leaves a string unchanged iff it is already plain |
| `Passage.NormalizeIdempotent` | App.tsx:46 | normalising twice equals normalising once |
| `Passage.RawPrefixStaysPrefix` | App.tsx:296-297 | any raw prefix of the fetched text normalises to a prefix of the normalised passage, so typing curly punctuation verbatim is accepted |
| `Passage.Head` | App.tsx:361 | `substring(0, n)` is a prefix of length min(n, len) |
| `Passage.Tail` | App.tsx:409 | `substring(n)` is what remains after `substring(0, n)` |
| `Passage.HeadTestIsPrefix` | App.tsx:361 | the test `v === text.substring(0, v.length)` holds iff v is a prefix of the text |
| `Passage.SkipTarget` | App.tsx:409-410 | the SkipWord target, from `substring` and `indexOf(' ')`; stated by `SkipTargetSpec` |
| `Passage.SkipTargetSpec` | App.tsx:409-410 | the SkipWord result is a prefix of the passage and never shorter than the input. It ends just past the next space, or is the whole passage when no space remains. An input already past the end is cut back to the passage |
| `Passage.TrimStart` | App.tsx:296 | the leading half of `trim`; stated by `TrimStartSpec` |
| `Passage.TrimEnd` | App.tsx:296 | the trailing half of `trim`; stated by `TrimEndSpec` |
| `Passage.Trim` | App.tsx:296 | `trim` applied to the fetched text; stated by `TrimSpec` |
| `Passage.TrimStartSpec` | App.tsx:296 | only leading white space is removed, and the result does not start with white space |
| `Passage.TrimEndSpec` | App.tsx:296 | only trailing white space is removed, and the result does not end with white space |
| `Passage.TrimSpec` | App.tsx:296 | `trim` yields the contiguous middle of the text with white space removed from both ends and none left at either end |
| `Passage.LowerAscii` | App.tsx:371 | upper-case ASCII letters are lowered, everything else is kept |
| `Passage.LowerAsciiString` | App.tsx:203 | lowering a key name character by character |
| `Passage.DecimalString` | App.tsx:322 | `${i+1}` renders a non-empty numeral ending in the number's last digit |
| `Passage.LastDigit` | App.tsx:269 | `parseInt(id.slice(-1))` is a number iff the id ends in a digit, and is that digit |
| `Passage.BotIdShape` | App.tsx:269 | a generated id `bot<n>` contains "bot" and parses to n's last decimal digit |
| `Scoring.Wpm` | App.tsx:218-222 | the live WPM in integer arithmetic over ticks; stated by `WpmRounds` and `WpmMonotone` |
| `Scoring.Accuracy` | App.tsx:224 | the live accuracy in integer arithmetic; stated by `AccuracyRounds`, `AccuracyAntitone` and `AccuracyRisesWithCorrectKey` |
| `Scoring.IsOverdrive` | App.tsx:225 | the overdrive test on streak and speed; stated in characters per tick by `OverdriveThreshold` |
| `Scoring.WpmRounds` | App.tsx:218-222 | 0 when no time has elapsed; otherwise the round-half-up of (typed/5)/(seconds/60), with seconds = ticks/10 |
| `Scoring.AccuracyRounds` | App.tsx:224 | 100 before any keystroke; otherwise the round-half-up of (total-errors)/total*100; always within 0..100 when errors do not exceed keystrokes |
| `Scoring.AccuracyAntitone` | App.tsx:224 | more errors over the same keystrokes never raise accuracy |
| `Scoring.AccuracyRisesWithCorrectKey` | App.tsx:224 | one more error-free keystroke never lowers accuracy |
| `Scoring.WpmMonotone` | App.tsx:221 | more characters in the same time never lower the speed |
| `Scoring.OverdriveThreshold` | App.tsx:225 | overdrive holds iff the streak is at least 20 or at least 179 characters are typed per 240 ticks (90 WPM) |
| `PowerUps.Award` | App.tsx:399-403 | an award keeps at most two old entries and adds one, so the inventory never holds more than 3 |
| `PowerUps.AwardSpec` | App.tsx:399-403 | the drawn type comes last after the newest old entries in their order, so the oldest are dropped on overflow; below the cap it is a plain append |
| `PowerUps.Use` | App.tsx:405-407 | spending a type never grows the inventory; the exact effect is stated by `UseSpec` |
| `PowerUps.UseSpec` | App.tsx:405-407 | a type not held leaves the inventory alone; otherwise exactly its first entry is removed, the rest keep their order |
| `PowerUps.UseKeepsCap` | App.tsx:405-407 | using never grows the inventory |
| `PowerUps.ReplayKeepsCap` | App.tsx:399-407 | any sequence of awards and uses keeps the inventory within the cap of 3 |
| `PowerUps.AwardAsWritten` | App.tsx:402 | as written, an award stores an entry without a type |
| `PowerUps.ActivateAsWritten` | App.tsx:405-407 | as written, a slot's entry is looked up by its (missing) type; stated by `AsWrittenActivationIsInert` |
| `PowerUps.AsWrittenActivationIsInert` | App.tsx:399-407 | as written, activating any slot has no effect and discards the oldest entry |
| `PowerUps.SkipWordAwardedIsLostAsWritten` | App.tsx:402-410 | as written, an awarded SkipWord is removed on use without skipping |
| `PowerUps.Activate` | App.tsx:405-407 | corrected: activating a slot applies that slot's type and removes the first entry of that type |
| `PowerUps.SkipWordAwardedIsUsable` | App.tsx:402-410 | corrected: an awarded SkipWord is spent on a skip |
| `Opponents.BaseSpeed` | App.tsx:261-268 | the bot base chance per tick lies between 0.12 (Easy) and 1.10 (Insane) |
| `Opponents.Variance` | App.tsx:269 | the per-bot factor `1 + parseInt(id.slice(-1)) * 0.03`, absent when the id does not end in a digit; stated by `BotVariance` |
| `Opponents.BotChance` | App.tsx:260-269 | a bot's chance per tick; stated by `BotChanceRange`, `SlowNeverHelps`, `InsaneBotAlwaysMoves` and `HardSlowedChance` |
| `Opponents.GhostChance` | App.tsx:258 | the ghost's chance per tick from the personal best; stated by `GhostPace` |
| `Opponents.MoveChance` | App.tsx:257-269 | the ghost's chance for the ghost lane, the bot chance otherwise; stated through `Step` |
| `Opponents.Step` | App.tsx:255-271 | a human lane is untouched; an opponent lane changes only its index, which grows by one exactly when the sample falls under its chance, clamped to the passage |
| `Opponents.StepAll` | App.tsx:255-272 | every lane is stepped with its own sample |
| `Opponents.StepAllBounds` | App.tsx:255-272 | a tick keeps ids and kinds, leaves the human alone and moves each opponent by 0 or 1 within the passage |
| `Opponents.BotVariance` | App.tsx:269 | bot n's variance is 1 + (n mod 10) * 0.03 |
| `Opponents.BotChanceRange` | App.tsx:260-269 | a bot's chance is its base (times 0.35 when slowed) scaled by a factor between 1 and 1.27 |
| `Opponents.SlowNeverHelps` | App.tsx:260-271 | a bot that moves while slowed would also have moved unslowed |
| `Opponents.InsaneBotAlwaysMoves` | App.tsx:267-271 | an unslowed Insane bot moves on every tick |
| `Opponents.HardSlowedChance` | App.tsx:260-269 | a slowed Hard bot moves with chance 0.2275 times its variance |
| `Opponents.GhostPace` | App.tsx:258 | the ghost ignores Slow, stands still with no personal best, and moves every tick from 125 WPM up |
| `Keystrokes.Classify` | App.tsx:354-361 | a shorter candidate is a backspace, an equal one a duplicate, a longer-or-equal prefix of the passage a match (advancing iff longer), anything else a mismatch with a last character |
| `Keystrokes.EndsWord` | App.tsx:364 | an advancing prefix that ends in a space completes a word; used by `CountCorrect` |
| `Keystrokes.MissKey` | App.tsx:371 | the miss-map key is the lower-cased last character; its counting is stated by `HistogramTotal` |
| `Keystrokes.BumpMiss` | App.tsx:372 | the missed character's count grows by one, every other entry is kept |
| `Keystrokes.BumpMissTotal` | App.tsx:372 | each recorded miss adds exactly one to the miss map's total |
| `Keystrokes.HistogramTotal` | App.tsx:370-372 | a miss map built from n misses sums to n and holds exactly the missed characters |
| `Keystrokes.RemappedCandidate` | App.tsx:207-211 | a remapped 'backspace' yields the input less its last character, a one-character mapping a one-longer extension of the input ending in that character, any other mapping nothing |
| `Keystrokes.RemappedKeyClass` | App.tsx:205-211 | after normalisation the validator sees a remapped 'backspace' as a backspace (a repeat on an empty input), and a one-character mapping as an advancing match exactly when it extends a prefix of the passage, a mismatch otherwise |
| `Keystrokes.RemappedBackspaceUndoes` | App.tsx:207-211 | a remapped 'backspace' undoes a one-character mapping |
| `Keystrokes.KeyDown` | App.tsx:197-212 | keys 1-3 spend exactly their slot's power-up iff input is accepted and the slot is held; otherwise a key with a non-empty mapping is handled iff the race is active and the input focused, feeding exactly its remapped candidate or being swallowed; nothing happens outside a race |
| `Session.CompetitiveBots` | App.tsx:313-323 | the competitive loop yields exactly `aiOpponentCount` bots, the i-th being `bot<i+1>` |
| `Session.Roster` | App.tsx:307-326 | exactly one human lane, the profile's 'me', first; only bots and the ghost after it |
| `Session.RosterSpec` | App.tsx:307-326 | a ghost right after 'me' iff a personal best exists, then 0, 1 or `aiOpponentCount` bots by mode; no ghost otherwise; every lane at index 0 without errors |
| `Session.BuildRoster` | App.tsx:309-327 | the roster built step by step, loop included, equals `Roster` |
| `Session.SetMe` | App.tsx:367 | the roster keeps its length and shape, and the human lane takes the new index |
| `Session.SetMeKeepsOthers` | App.tsx:367 | every lane but the human one is left as it was |
| `Session.SetMeTwice` | App.tsx:367-368 | setting the human index twice keeps the last setting |
| `Session.RotationLeavesBotPastEnd` | App.tsx:367-368 | the TIME_ATTACK rotation leaves a bot that is further along than the next passage past its end |
| `Session.RotationOutrunsShortPassage` | App.tsx:367-368 | a TIME_ATTACK roster within a 12-character passage is no longer within a 5-character successor after the rotation |
| `Session.RecordBest` | App.tsx:381-383 | a personal best is written only when the new speed beats the stored one, and no other entry changes |
| `Session.PrependCapped` | App.tsx:387 | the new result comes first, followed by the newest older entries, at most 50 in all |
| `Session.FinishResultAsWritten` | App.tsx:376-385 | as written, the result stored on the last keystroke measures the input committed before it and the accuracy before it, with the passage's length |
| `Session.FinishResult` | App.tsx:376-385 | corrected: the speed is measured over the whole passage, and the accuracy counts the final keystroke |
| `Session.FinishResultCountsFinalKey` | App.tsx:368-379 | whatever number of characters the final event commits, the corrected record differs only in speed and accuracy, and is never lower on either |
| `Session.StaleFinishUndercounts` | App.tsx:379 | "the cat sat" finished in 6.0 s is recorded at 20 WPM as written and 22 WPM corrected; a final ellipsis still records the full length |
| `Session.RaceSession.constructor` | App.tsx:89-116 | the initial state followed by the mount-time reset, with the session invariant established |
| `Session.RaceSession.CurrentAccuracy` | App.tsx:224 | the live accuracy always lies within 0..100 |
| `Session.RaceSession.ResetCounters` | App.tsx:306-308 | the clock, the keystroke counters and the miss map start from zero |
| `Session.RaceSession.ClearPowerUps` | App.tsx:308 | no power-up is held and neither effect is on |
| `Session.RaceSession.ZeroCounters` | App.tsx:306-308 | everything the reset zeroes besides the input and the roster |
| `Session.RaceSession.ResetGameStats` | App.tsx:305-328 | every race counter is zeroed and the roster is rebuilt for the current mode |
| `Session.RaceSession.SelectMode` | App.tsx:584-585 | a locked mode changes nothing; otherwise the mode switches and the reset rebuilds the roster of the previously selected mode |
| `Session.RaceSession.BeginLoad` | App.tsx:288-289 | loading starts under a fresh generation one above the last |
| `Session.RaceSession.ResolveLoad` | App.tsx:295-302 | a superseded load changes nothing visible; the latest installs the trimmed, normalised passage (or the failure text) and ends loading |
| `Session.RaceSession.EndReveal` | App.tsx:284 | the end of the reveal re-enables input |
| `Session.RaceSession.StartGame` | App.tsx:332-347 | a refused start changes nothing; otherwise the race is reset, activated and a load begins |
| `Session.RaceSession.CancelRace` | App.tsx:652 | the reset button ends the race |
| `Session.RaceSession.CompleteRace` | App.tsx:376-397 | the race ends and the passage and input are cleared. For a signed-in player, the personal best and the capped history are updated |
| `Session.RaceSession.SaveResult` | App.tsx:380-389 | for a signed-in player the personal best and the capped history take the current result; otherwise nothing changes |
| `Session.RaceSession.EraseTo` | App.tsx:354-357 | a backspace counts one keystroke and the input and human lane follow the candidate |
| `Session.RaceSession.Miss` | App.tsx:369-372 | an error counts a keystroke and an error, breaks the streak and records the lower-cased last character, keeping the counter invariant |
| `Session.RaceSession.CountCorrect` | App.tsx:360-365 | a prefix counts a keystroke, a correct key iff it advances, a streak step iff it ends a word, and an award on every eighth word |
| `Session.RaceSession.CommitPrefix` | App.tsx:366-368 | the input and human lane follow the prefix; at the passage end TIME_ATTACK restarts on a new load with the counters kept, other modes complete |
| `Session.RaceSession.FinishPassage` | App.tsx:366-397 | a completed passage outside TIME_ATTACK ends the race and records it measured over the whole passage |
| `Session.RaceSession.ApplyMatch` | App.tsx:359-368 | a prefix candidate is counted and committed, with the invariant kept and the lane never past the passage |
| `Session.RaceSession.ApplyCandidate` | App.tsx:354-373 | the full effect of each keystroke class on counters, input, lanes, inventory and race state |
| `Session.RaceSession.HandleInput` | App.tsx:350-374 | nothing happens unless input is accepted; otherwise the clock starts and the normalised candidate is classified and applied, with every other lane and the counter invariant kept |
| `Session.RaceSession.Tick` | App.tsx:250-274 | a frozen or stopped clock changes nothing. Otherwise elapsed time grows by one tick, each opponent moves 0 or 1 within the passage and the human is untouched. TIME_ATTACK counts down and completes on its last tick |
| `Session.RaceSession.UsePowerUp` | App.tsx:405-413 | a type not held changes nothing; otherwise its first entry is spent and SkipWord jumps past the next space, Freeze or Slow sets its flag |
| `Session.RaceSession.ExpireFreeze` | App.tsx:411 | the 3 s timeout clears the freeze |
| `Session.RaceSession.ExpireSlow` | App.tsx:412 | the 5 s timeout clears the slow |

The session invariant `Valid()` is kept by every method:

- `errors + correctKeys <= totalKeys`.
- The miss map is the histogram of the missed characters, one per error.
- The roster has exactly one human lane, first. During a race its index is the input's length.
- A load is pending iff loading, and generations never exceed the counter.
- At most three power-ups are held.
- The countdown never exceeds 600 ticks.

## Left out

- Rendering, styling, the typewriter animation and `formattedTime` (App.tsx:279-286, 449-708) are presentation only. The reveal's end is the `EndReveal` event.
- `playSound` and the `AudioContext` (App.tsx:227-242) are an audio side effect.
- Supabase auth, preference sync and history fetch and insert (App.tsx:131-194, 244-247, 386) are network I/O. The history is kept as a local field.
- The coaching note (App.tsx:384) and the anonymous solo-run record (App.tsx:388-394) are network I/O.
- `services/supabaseService.ts` and `services/geminiService.ts` are network wrappers. The fetched text or failure is the parameter of `ResolveLoad`. The provider choice and the DAILY date seed are not modelled.
- The IP-based gate of `startGame` and the mode lock are the boolean `allowed`.
- The localStorage persistence of profile, pomodoro and provider settings (App.tsx:58-129) is storage I/O. The `pb_<difficulty>_<mode>` entries are the map `personalBests`.
- Export and import of the `.ztx` container (App.tsx:415-447) rely on floating-point averaging and a storage service that is not part of this model.
- `components/KeyboardTester.tsx` and `components/TypingGuide.tsx` are UI.
- Settings changed through the settings view (bot count, bot difficulty, profile) are constants of a `RaceSession`. The passage difficulty is the constant Easy, because nothing in App.tsx ever changes it.
- Timer scheduling, React batching and the interval's stale closure are not modelled. `Tick` completes a TIME_ATTACK race with the session's current state, not with the state captured when the interval was set up.
- `completeRace` clears the passage and input only after its network awaits. The model clears them at once.
- The floating-point accumulation of `elapsedTime` and `timeLeft` in 0.1 s steps is replaced by whole ticks.
- Power-up ids (`Math.random().toString()`) are not modelled. The inventory is a sequence of kinds.
- `Passage.LowerAscii`: the miss-map key and the remapped key name are lower-cased for ASCII letters only, whereas `toLowerCase` also lowers other Unicode letters.
- `Scoring.Wpm`: the exact quotient (typed/5)/(seconds/60) is rounded, not its IEEE double. Near a half the two can differ: 3 characters after 16 ticks, with the elapsed time summed in steps of 0.1, give 22.499999999999996 in doubles, which rounds to 22, while `Wpm(3, 16)` is 23.
- `Scoring.Accuracy`: the exact quotient is rounded, not its IEEE double. 40 keystrokes with 17 errors give 57.49999999999999 in doubles, which rounds to 57, while `Accuracy(40, 17)` is 58.
- Strings are sequences of Unicode scalar values, whereas JavaScript's `length`, `substring`, `val[val.length - 1]` and `slice(-1)` (App.tsx:203, 353-372) count UTF-16 code units. With a character outside the Basic Multilingual Plane (an emoji, say), the source's indices, typed count and lane index count it twice, and its miss-map key is a lone surrogate. The model counts it once.
- `Opponents.BotChance`, `Opponents.GhostChance`: the chances are exact reals rather than IEEE doubles, so a comparison with a sample at a double-rounding boundary is not modelled.

## Findings

| source | as written | input that shows it | evidently intended | confidence | as-written member | corrected member |
|---|---|---|---|---|---|---|
| App.tsx:402 | `awardPowerUp` stores `{id, ...POWER_UP_REFS[type]}`, and those entries have no `type` field. Every held entry's type is therefore undefined, and activating it removes the oldest entry with no effect | award a SkipWord into an empty inventory, then press its button or key 1: the entry is removed and no word is skipped | each stored entry keeps its drawn type, and activating it applies that type | high, not executed | `PowerUps.AsWrittenActivationIsInert` | `PowerUps.Activate` |
| App.tsx:379 | `completeRace`, called from the keystroke handler, reads `currentWpm`/`currentAccuracy` as rendered before the final keystroke. The recorded speed and accuracy omit that keystroke | "the cat sat" typed cleanly and finished at 6.0 s: recorded as 20 WPM | 22 WPM, the speed over the whole passage including the final keystroke | medium, not executed | `Session.StaleFinishUndercounts` | `Session.FinishResult` |
