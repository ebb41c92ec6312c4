/** The race session of App.tsx: the mutable state the component keeps in
    hooks (App.tsx:89-116) as the fields of one object, and the handlers that
    update it as methods. Timers, the network and `Math.random` are replaced
    by explicit calls: `Tick` for one 100 ms interval step, `BeginLoad` and
    `ResolveLoad` for the two halves of an asynchronous passage load,
    `EndReveal` for the end of the typewriter reveal, and `ExpireFreeze` /
    `ExpireSlow` for the 3 s and 5 s power-up timeouts. */
module Session {
  import opened Types
  import opened Sequences
  import opened Passage
  import opened Scoring
  import PowerUps
  import Opponents
  import opened Keystrokes

  /** The TIME_ATTACK countdown: 60 seconds, in ticks. */
  const BlitzTicks: nat := 60 * TicksPerSecond

  /** At most this many results are kept in the history. */
  const HistoryCap: nat := 50

  /** The passage shown when a load fails. */
  const FailurePassage: string := "Failed to load AI text. Please check your connection."

  /** The record completeRace builds (id, date and coaching note left
      out); `time` is in ticks. */
  datatype RaceResult = RaceResult(
    wpm: nat,
    accuracy: int,
    time: nat,
    errors: nat,
    difficulty: Difficulty,
    mode: GameMode,
    textLength: nat,
    errorMap: map<char, nat>)

  // ---------------------------------------------------------------------
  // The roster built by resetGameStats (App.tsx:309-327)

  const BotNames: seq<string> := ["Alex", "Jordan", "Riley", "Sam", "Casey"]
  const BotAvatars: seq<string> := ["\U{1F916}", "\U{1F60E}", "\U{1F98A}", "\U{1F916}", "\U{1F916}"]

  function Me(name: string, avatar: string): PlayerState
  {
    PlayerState("me", name, avatar, 0, 0, false, false)
  }

  const GhostLane: PlayerState := PlayerState("ghost", "Personal Best", "\U{1F47B}", 0, 0, false, true)

  /** The i-th competitive bot (from 0): id `bot${i+1}`, the name and avatar
      taken round-robin from the five stock bots. */
  function CompetitiveBot(i: nat): PlayerState
  {
    PlayerState("bot" + DecimalString(i + 1), BotNames[i % 5], BotAvatars[i % 5], 0, 0, true, false)
  }

  /** The single bot of DAILY and TIME_ATTACK races. */
  const LoneBot: PlayerState := PlayerState("bot1", "Bot One", "\U{1F916}", 0, 0, true, false)

  function CompetitiveBots(n: nat): (r: seq<PlayerState>)
    ensures |r| == n && forall i :: 0 <= i < n ==> r[i] == CompetitiveBot(i)
  {
    seq(n, i requires 0 <= i < n => CompetitiveBot(i))
  }

  /** How many bots a mode races against. */
  function BotCount(mode: GameMode, count: nat): nat
  {
    match mode
    case Competitive => count
    case Solo => 0
    case _ => 1
  }

  /** The roster shape every session keeps: the human lane 'me' first, and
      only bots and the ghost after it. */
  ghost predicate RosterShape(ps: seq<PlayerState>)
  {
    && |ps| >= 1 && ps[0].id == "me" && ps[0].IsHuman()
    && forall i :: 1 <= i < |ps| ==> !ps[i].IsHuman() && ps[i].id != "me"
  }

  /** resetGameStats's roster (App.tsx:307-326). */
  function Roster(name: string, avatar: string, hasPb: bool, mode: GameMode, count: nat): (r: seq<PlayerState>)
    ensures RosterShape(r) && r[0] == Me(name, avatar)
  {
    var bots := if mode == Competitive then CompetitiveBots(count)
                else if mode == Solo then [] else [LoneBot];
    var r := [Me(name, avatar)] + (if hasPb then [GhostLane] else []) + bots;
    assert forall i :: 0 <= i < |bots| ==> !bots[i].IsHuman() && bots[i].id != "me" by {
      forall i | 0 <= i < |bots| ensures !bots[i].IsHuman() && bots[i].id != "me" {
        if mode == Competitive {
          assert |bots[i].id| >= 4;
        }
      }
    }
    r
  }

  /** The roster holds a ghost exactly when a personal best is stored,
      right after 'me', then the bots, as many as the mode calls for, and
      every lane starts at the beginning without errors. */
  lemma RosterSpec(name: string, avatar: string, hasPb: bool, mode: GameMode, count: nat)
    ensures var r := Roster(name, avatar, hasPb, mode, count);
      var g := if hasPb then 1 else 0;
      && |r| == 1 + g + BotCount(mode, count)
      && (hasPb ==> r[1] == GhostLane)
      && (forall i :: 1 + g <= i < |r| ==> r[i].isBot && !r[i].isGhost)
      && (!hasPb ==> forall i :: 0 <= i < |r| ==> !r[i].isGhost)
      && (forall i :: 0 <= i < |r| ==> r[i].index == 0 && r[i].errors == 0)
  {
    var r := Roster(name, avatar, hasPb, mode, count);
    var bots := if mode == Competitive then CompetitiveBots(count)
                else if mode == Solo then [] else [LoneBot];
    assert r == [Me(name, avatar)] + (if hasPb then [GhostLane] else []) + bots;
  }

  /** resetGameStats's roster, built as the source builds it: 'me', the
      ghost when a personal best exists, then a loop adding the bots. */
  method BuildRoster(name: string, avatar: string, hasPb: bool, mode: GameMode, count: nat) returns (r: seq<PlayerState>)
    ensures r == Roster(name, avatar, hasPb, mode, count)
  {
    r := [Me(name, avatar)];
    if hasPb {
      r := r + [GhostLane];
    }
    if mode == Competitive {
      var base := r;
      for i := 0 to count
        invariant r == base + CompetitiveBots(i)
      {
        assert CompetitiveBots(i + 1) == CompetitiveBots(i) + [CompetitiveBot(i)];
        r := r + [CompetitiveBot(i)];
      }
    } else if mode != Solo {
      r := r + [LoneBot];
    }
  }

  /** `players.map(p => p.id === 'me' ? { ...p, index: k } : p)`. */
  function SetMe(ps: seq<PlayerState>, k: nat): (r: seq<PlayerState>)
    ensures |r| == |ps|
    ensures RosterShape(ps) ==> RosterShape(r) && r[0] == ps[0].(index := k)
  {
    seq(|ps|, i requires 0 <= i < |ps| => if ps[i].id == "me" then ps[i].(index := k) else ps[i])
  }

  /** On a well-shaped roster only the human lane moves. */
  lemma SetMeKeepsOthers(ps: seq<PlayerState>, k: nat)
    requires RosterShape(ps)
    ensures forall i :: 1 <= i < |ps| ==> SetMe(ps, k)[i] == ps[i]
  {
  }

  /** Setting the human lane twice leaves only the second value: the
      TIME_ATTACK rotation (App.tsx:367-368) sets it to the new input's
      length and then to 0, and the roster ends as if only the reset had
      run. */
  lemma SetMeTwice(ps: seq<PlayerState>, j: nat, k: nat)
    ensures SetMe(SetMe(ps, j), k) == SetMe(ps, k)
  {
  }

  /** Every lane stands within a passage of `n` characters. */
  ghost predicate LanesWithin(ps: seq<PlayerState>, n: nat)
  {
    forall i :: 0 <= i < |ps| ==> ps[i].index <= n
  }

  /** The TIME_ATTACK rotation (App.tsx:367-368) resets the human lane only:
      a bot lane that is further along than the next passage is long is
      left past that passage's end, so the roster is no longer within it,
      until a tick clamps the bot (`Opponents.Step`). */
  lemma RotationLeavesBotPastEnd(ps: seq<PlayerState>, n: nat)
    requires RosterShape(ps) && |ps| >= 2 && ps[1].index > n
    ensures var r := SetMe(ps, 0);
      && r[0].index == 0 && r[1] == ps[1] && !LanesWithin(r, n)
  {
  }

  /** For instance the lone TIME_ATTACK bot, 10 characters into a
      12-character passage when 'me' completes it, stands past the end of
      a 5-character successor. */
  lemma RotationOutrunsShortPassage()
    ensures var before := Roster("Ana", "a", false, TimeAttack, 1);
      var raced := [before[0].(index := 12), before[1].(index := 10)];
      && LanesWithin(raced, 12)
      && !LanesWithin(SetMe(raced, 0), 5)
  {
    var before := Roster("Ana", "a", false, TimeAttack, 1);
    RosterSpec("Ana", "a", false, TimeAttack, 1);
    var raced := [before[0].(index := 12), before[1].(index := 10)];
    assert RosterShape(raced);
    RotationLeavesBotPastEnd(raced, 5);
  }

  // ---------------------------------------------------------------------
  // Completion bookkeeping (App.tsx:381-387)

  /** The personal best is written only when the new speed beats the stored
      one (a missing entry reads as 0). */
  function RecordBest(bests: map<(Difficulty, GameMode), nat>, key: (Difficulty, GameMode), wpm: nat): (r: map<(Difficulty, GameMode), nat>)
    ensures forall k :: k in bests ==> k in r && r[k] >= bests[k]
    ensures forall k :: k in r && k != key ==> k in bests && r[k] == bests[k]
    ensures wpm > 0 ==> key in r && r[key] >= wpm
    ensures key in r ==> r[key] == if key in bests && bests[key] >= wpm then bests[key] else wpm
  {
    var current := if key in bests then bests[key] else 0;
    if wpm > current then bests[key := wpm] else bests
  }

  /** `[result, ...prev].slice(0, 50)`. */
  function PrependCapped(h: seq<RaceResult>, x: RaceResult): (r: seq<RaceResult>)
    ensures |r| == Min(|h| + 1, HistoryCap)
    ensures r[0] == x && r[1..] == h[..|r| - 1]
  {
    ([x] + h)[..Min(|h| + 1, HistoryCap)]
  }

  // ---------------------------------------------------------------------

  // ---------------------------------------------------------------------
  // The race state in groups: the keystroke counters (the hooks errors,
  // errorMap, totalKeys, correctKeys and streak, App.tsx:102-110) and the
  // clock (startTime, elapsedTime and timeLeft, App.tsx:99-101).

  datatype Tally = Tally(totalKeys: nat, correctKeys: nat, errors: nat, streak: nat)

  const FreshTally: Tally := Tally(0, 0, 0, 0)

  /** `started` is `startTime !== null`; both times are in ticks. */
  datatype Clock = Clock(started: bool, elapsed: nat, timeLeft: nat)

  const FreshClock: Clock := Clock(false, 0, BlitzTicks)

  /** The record of a race its last keystroke completes, in a mode other
      than TIME_ATTACK: measured over the `typed` characters of the whole
      passage in `ticks`, with the counters `t` that include that final
      keystroke. */
  function FinishResult(t: Tally, missed: map<char, nat>, typed: nat, ticks: nat, d: Difficulty, mode: GameMode): (r: RaceResult)
    ensures r.wpm == Wpm(typed, ticks) && r.textLength == typed && r.time == ticks
    ensures r.accuracy == Accuracy(t.totalKeys, t.errors)
    ensures r.errors == t.errors && r.errorMap == missed
  {
    RaceResult(Wpm(typed, ticks), Accuracy(t.totalKeys, t.errors), ticks, t.errors, d, mode, typed, missed)
  }

  /** The record the source actually stores when the last keystroke
      completes a race (App.tsx:368, 379): completeRace runs inside the
      keystroke handler and reads `currentWpm` and `currentAccuracy` as they
      were rendered BEFORE that keystroke, so the speed is measured on the
      `committed` characters without the final ones and the accuracy on the
      keystrokes `before` it, while the length recorded is that of the
      passage, `passageLen`. */
  function FinishResultAsWritten(before: Tally, missed: map<char, nat>, committed: nat, passageLen: nat,
                                 ticks: nat, d: Difficulty, mode: GameMode): (r: RaceResult)
    ensures r.wpm == Wpm(committed, ticks) && r.textLength == passageLen && r.time == ticks
    ensures r.accuracy == Accuracy(before.totalKeys, before.errors)
  {
    RaceResult(Wpm(committed, ticks), Accuracy(before.totalKeys, before.errors), ticks,
               before.errors, d, mode, passageLen, missed)
  }

  /** The final input event commits the last `passageLen - committed`
      characters at once (one keystroke, several when a pasted text or a
      normalised ellipsis lands) and counts as one correct key. As written
      it is left out of the recorded speed and accuracy; the corrected
      record counts it and is never lower on either. */
  lemma FinishResultCountsFinalKey(before: Tally, missed: map<char, nat>, committed: nat, passageLen: nat,
                                   ticks: nat, d: Difficulty, mode: GameMode)
    requires before.errors <= before.totalKeys
    requires committed < passageLen
    ensures var after := before.(totalKeys := before.totalKeys + 1, correctKeys := before.correctKeys + 1);
      var stale := FinishResultAsWritten(before, missed, committed, passageLen, ticks, d, mode);
      var fixed := FinishResult(after, missed, passageLen, ticks, d, mode);
      && stale.wpm <= fixed.wpm && stale.accuracy <= fixed.accuracy
      && stale.(wpm := fixed.wpm, accuracy := fixed.accuracy) == fixed
  {
    WpmMonotone(committed, passageLen, ticks);
    AccuracyRisesWithCorrectKey(before.totalKeys, before.errors);
  }

  /** Concretely: the eleven characters of "the cat sat" typed cleanly in
      6.0 s (60 ticks) are recorded at 20 WPM as written, not the 22 WPM the
      race actually ran at; and a passage "ab..." whose ellipsis arrives as
      one typographic character is recorded with its full length of five
      characters although only two were committed before. */
  lemma StaleFinishUndercounts()
    ensures FinishResultAsWritten(Tally(10, 10, 0, 2), map[], |"the cat sa"|, |"the cat sat"|, 60, Easy, Solo).wpm == 20
    ensures FinishResult(Tally(11, 11, 0, 2), map[], |"the cat sat"|, 60, Easy, Solo).wpm == 22
    ensures Normalize("ab" + ['\U{2026}']) == "ab..."
    ensures FinishResultAsWritten(Tally(2, 2, 0, 0), map[], |"ab"|, |Normalize("ab" + ['\U{2026}'])|, 60, Easy, Solo).textLength == 5
  {
    NormalizeAppend("ab", ['\U{2026}']);
    NormalizeFixesPlain("ab");
    assert Normalize(['\U{2026}']) == NormalizeChar('\U{2026}') + Normalize([]);
  }

  // ---------------------------------------------------------------------
  // The pieces of the session invariant, stated on values.

  /** Every correct key and every error is also a keystroke, and one
      character is recorded as missed per error. */
  ghost predicate TallyAgrees(t: Tally, misses: seq<char>)
  {
    && t.errors + t.correctKeys <= t.totalKeys
    && |misses| == t.errors
  }

  /** The roster keeps its shape, and during a race the human lane shows
      the committed input. */
  ghost predicate LanesAgree(players: seq<PlayerState>, isActive: bool, userInput: string)
  {
    && RosterShape(players)
    && (isActive ==> players[0].index == |userInput|)
  }

  /** Exactly the latest load is awaited while loading, and every awaited
      load is of a generation already handed out. */
  ghost predicate LoadsAgree(loading: bool, requestCounter: nat, pendingLoads: set<nat>)
  {
    && (loading <==> requestCounter in pendingLoads)
    && (forall r :: r in pendingLoads ==> 1 <= r <= requestCounter)
  }

  class RaceSession {
    // Settings, fixed for the life of the object.
    const signedIn: bool
    const profileName: string
    const profileAvatar: string
    /** The passage difficulty: the source never changes it from Easy. */
    const difficulty: Difficulty
    const aiOpponentCount: nat
    const aiOpponentDifficulty: Difficulty

    var gameMode: GameMode
    var currentText: string
    var userInput: string
    var isActive: bool
    var loading: bool
    var isTypingOut: bool
    var clock: Clock
    var tally: Tally
    /** The miss map `errorMap`: lower-cased missed character to count. */
    var errorMap: map<char, nat>
    /** The missed characters, lower-cased, in order. */
    ghost var misses: seq<char>
    var powerUps: seq<PowerUpType>
    var isFrozen: bool
    var isSlowed: bool
    var players: seq<PlayerState>
    /** The load generation counter `requestCounter.current`. */
    var requestCounter: nat
    /** The generations whose load has begun and not yet resolved. */
    ghost var pendingLoads: set<nat>
    /** The stored `pb_<difficulty>_<mode>` entries. */
    var personalBests: map<(Difficulty, GameMode), nat>
    var history: seq<RaceResult>

    /** The session invariant: the counters agree with the misses
        recorded, the miss map is their histogram, the lanes and the loads
        are consistent, the inventory is within its cap and the countdown
        within its budget. */
    ghost predicate Valid()
      reads this`tally, this`misses, this`errorMap, this`players, this`isActive, this`userInput,
        this`loading, this`requestCounter, this`pendingLoads, this`powerUps, this`clock
    {
      && TallyAgrees(tally, misses) && errorMap == Histogram(misses)
      && LanesAgree(players, isActive, userInput)
      && LoadsAgree(loading, requestCounter, pendingLoads)
      && |powerUps| <= PowerUps.Capacity
      && clock.timeLeft <= BlitzTicks
    }

    /** Input is only accepted during a race, once the passage is there and
        revealed (App.tsx:351). */
    predicate Accepting()
      reads this`isActive, this`loading, this`isTypingOut
    {
      isActive && !loading && !isTypingOut
    }

    /** The interval only runs under these conditions (App.tsx:250). */
    predicate ClockRunning()
      reads this`isActive, this`clock, this`loading, this`isTypingOut
    {
      isActive && clock.started && !loading && !isTypingOut
    }

    function PbKey(): (Difficulty, GameMode)
      reads this`gameMode
    {
      (difficulty, gameMode)
    }

    /** `parseInt(localStorage.getItem(pbKey) || '0')`. */
    function PersonalBest(): nat
      reads this`gameMode, this`personalBests
    {
      if PbKey() in personalBests then personalBests[PbKey()] else 0
    }

    /** The characters the speed is measured on: correct keys in TIME_ATTACK
        (which spans passages), the committed input otherwise. */
    function TypedLength(): nat
      reads this`gameMode, this`tally, this`userInput
    {
      if gameMode == TimeAttack then tally.correctKeys else |userInput|
    }

    function CurrentWpm(): nat
      reads this`gameMode, this`tally, this`userInput, this`clock
    {
      Wpm(TypedLength(), clock.elapsed)
    }

    function CurrentAccuracy(): (r: int)
      reads this`tally, this`misses
      requires TallyAgrees(tally, misses)
      ensures 0 <= r <= 100
    {
      AccuracyRounds(tally.totalKeys, tally.errors);
      Accuracy(tally.totalKeys, tally.errors)
    }

    predicate Overdrive()
      reads this`gameMode, this`tally, this`userInput, this`clock
    {
      IsOverdrive(tally.streak, CurrentWpm())
    }

    /** The result completeRace records from the current state. */
    function ResultNow(): RaceResult
      reads this`gameMode, this`tally, this`userInput, this`clock, this`currentText, this`errorMap
    {
      RaceResult(CurrentWpm(), Accuracy(tally.totalKeys, tally.errors),
                 if gameMode == TimeAttack then BlitzTicks else clock.elapsed,
                 tally.errors, difficulty, gameMode, |currentText|, errorMap)
    }

    /** The component's initial state, followed by the mount-time
        resetGameStats. `bests` holds the stored personal bests and
        `fetched` the history loaded for a signed-in user. */
    constructor (signedIn: bool, name: string, avatar: string, opponents: nat,
                 opponentDifficulty: Difficulty,
                 bests: map<(Difficulty, GameMode), nat>, fetched: seq<RaceResult>)
      ensures Valid()
      ensures this.signedIn == signedIn && profileName == name && profileAvatar == avatar
      ensures aiOpponentCount == opponents && aiOpponentDifficulty == opponentDifficulty
      ensures difficulty == Easy && gameMode == Solo
      ensures currentText == "" && userInput == "" && !isActive && !loading && !isTypingOut
      ensures clock == FreshClock && tally == FreshTally && errorMap == map[]
      ensures powerUps == [] && !isFrozen && !isSlowed
      ensures players == Roster(name, avatar, (Easy, Solo) in bests, Solo, opponents)
      ensures requestCounter == 0 && pendingLoads == {}
      ensures personalBests == bests && history == fetched
    {
      var roster := BuildRoster(name, avatar, (Easy, Solo) in bests, Solo, opponents);
      this.signedIn := signedIn;
      profileName, profileAvatar := name, avatar;
      aiOpponentCount, aiOpponentDifficulty := opponents, opponentDifficulty;
      difficulty, gameMode := Easy, Solo;
      currentText, userInput := "", "";
      isActive, loading, isTypingOut := false, false, false;
      clock, tally, errorMap, misses := FreshClock, FreshTally, map[], [];
      powerUps, isFrozen, isSlowed := [], false, false;
      players := roster;
      requestCounter, pendingLoads := 0, {};
      personalBests, history := bests, fetched;
    }

    /** The race counters resetGameStats zeroes (App.tsx:306-308). */
    method ResetCounters()
      requires Valid()
      modifies this`clock, this`tally, this`errorMap, this`misses
      ensures Valid()
      ensures clock == FreshClock && tally == FreshTally && errorMap == map[]
    {
      assert Histogram([]) == map[];
      clock, tally, errorMap, misses := FreshClock, FreshTally, map[], [];
    }

    /** The inventory and the effects resetGameStats clears (App.tsx:308). */
    method ClearPowerUps()
      requires Valid()
      modifies this`powerUps, this`isFrozen, this`isSlowed
      ensures Valid()
      ensures powerUps == [] && !isFrozen && !isSlowed
    {
      powerUps, isFrozen, isSlowed := [], false, false;
    }

    /** Everything resetGameStats zeroes besides the input and the roster
        (App.tsx:306-308). */
    method ZeroCounters()
      requires Valid()
      modifies this`clock, this`tally, this`errorMap, this`misses, this`powerUps,
        this`isFrozen, this`isSlowed
      ensures Valid()
      ensures clock == FreshClock && tally == FreshTally && errorMap == map[]
      ensures powerUps == [] && !isFrozen && !isSlowed
    {
      ResetCounters();
      ClearPowerUps();
    }

    /** resetGameStats (App.tsx:305-328): zero the race counters and rebuild
        the roster for the current mode. */
    method ResetGameStats()
      requires Valid()
      modifies this`userInput, this`clock, this`tally, this`errorMap, this`misses, this`powerUps,
        this`isFrozen, this`isSlowed, this`players
      ensures Valid()
      ensures userInput == "" && clock == FreshClock && tally == FreshTally && errorMap == map[]
      ensures powerUps == [] && !isFrozen && !isSlowed
      ensures players == Roster(profileName, profileAvatar, PbKey() in personalBests, gameMode, aiOpponentCount)
    {
      var roster := BuildRoster(profileName, profileAvatar, PbKey() in personalBests, gameMode, aiOpponentCount);
      userInput, players := "", roster;
      ZeroCounters();
    }

    /** A mode button (App.tsx:584-585): switch mode and reset. `allowed` is
        the outcome of the sign-in / anonymous-use gate. The reset runs in
        the same handler as the mode change and so still sees the mode that
        was selected before: the roster it builds is that mode's, and the new
        mode's roster only appears with the next reset (startGame). */
    method SelectMode(m: GameMode, allowed: bool)
      requires Valid()
      modifies this`gameMode, this`userInput, this`clock, this`tally, this`errorMap, this`misses,
        this`powerUps, this`isFrozen, this`isSlowed, this`players
      ensures Valid()
      ensures !allowed ==> unchanged(this)
      ensures allowed ==>
        && gameMode == m && userInput == "" && clock == FreshClock && tally == FreshTally && errorMap == map[]
        && powerUps == [] && !isFrozen && !isSlowed
        && players == Roster(profileName, profileAvatar, old(PbKey()) in personalBests,
                             old(gameMode), aiOpponentCount)
    {
      if allowed {
        ResetGameStats();
        gameMode := m;
      }
    }

    /** The first half of loadNewText (App.tsx:289): mark loading and take a
        fresh generation. */
    method BeginLoad() returns (rid: nat)
      requires Valid()
      modifies this`loading, this`requestCounter, this`pendingLoads
      ensures Valid()
      ensures rid == requestCounter == old(requestCounter) + 1
      ensures loading && pendingLoads == old(pendingLoads) + {rid}
    {
      rid := requestCounter + 1;
      requestCounter, loading, pendingLoads := rid, true, pendingLoads + {rid};
    }

    /** The second half of loadNewText (App.tsx:295-302): the load of
        generation `rid` settles with a passage or with a failure (None). Its
        outcome is applied only when no later load has begun. */
    method ResolveLoad(rid: nat, fetched: Option<string>)
      requires Valid() && rid in pendingLoads
      modifies this`pendingLoads, this`currentText, this`loading, this`isTypingOut
      ensures Valid()
      ensures pendingLoads == old(pendingLoads) - {rid}
      // A superseded load changes nothing visible.
      ensures rid != requestCounter ==> unchanged(`currentText, `loading, `isTypingOut)
      // The latest one installs its passage, normalised, or the failure
      // text, and ends loading.
      ensures rid == requestCounter ==> !loading
      ensures rid == requestCounter && fetched.Some? ==>
        currentText == Normalize(Trim(fetched.value)) && isTypingOut
      ensures rid == requestCounter && fetched.None? ==>
        currentText == FailurePassage && isTypingOut == old(isTypingOut)
    {
      pendingLoads := pendingLoads - {rid};
      if rid == requestCounter {
        match fetched
        case Some(text) =>
          var cleaned := Normalize(Trim(text));
          currentText, loading, isTypingOut := cleaned, false, true;
        case None =>
          currentText, loading := FailurePassage, false;
      }
    }

    /** The typewriter reveal has shown the whole passage (App.tsx:284). */
    method EndReveal()
      modifies this`isTypingOut
      ensures !isTypingOut
    {
      isTypingOut := false;
    }

    /** startGame (App.tsx:332-347): when the gate allows it, reset, go
        active and begin loading a passage. */
    method StartGame(allowed: bool) returns (load: Option<nat>)
      requires Valid()
      modifies this`userInput, this`clock, this`tally, this`errorMap, this`misses, this`powerUps,
        this`isFrozen, this`isSlowed, this`players, this`isActive,
        this`loading, this`requestCounter, this`pendingLoads
      ensures Valid()
      ensures !allowed ==> unchanged(this) && load == None
      ensures allowed ==>
        && isActive && loading
        && load == Some(requestCounter) && requestCounter == old(requestCounter) + 1
        && pendingLoads == old(pendingLoads) + {requestCounter}
      ensures allowed ==>
        && userInput == "" && clock == FreshClock && tally == FreshTally && errorMap == map[]
        && powerUps == [] && !isFrozen && !isSlowed
        && players == Roster(profileName, profileAvatar, PbKey() in personalBests, gameMode, aiOpponentCount)
    {
      load := None;
      if allowed {
        ResetGameStats();
        isActive := true;
        var rid := BeginLoad();
        load := Some(rid);
      }
    }

    /** The "Reset Race" button during a race (App.tsx:652). */
    method CancelRace()
      modifies this`isActive
      ensures !isActive
    {
      isActive := false;
    }

    /** completeRace (App.tsx:376-397): stop the race, record the personal
        best and the history entry for a signed-in player, clear the passage
        and the input. */
    method CompleteRace()
      requires Valid()
      modifies this`isActive, this`currentText, this`userInput, this`personalBests, this`history
      ensures Valid()
      ensures !isActive && currentText == "" && userInput == ""
      ensures personalBests == if signedIn then RecordBest(old(personalBests), PbKey(), old(CurrentWpm())) else old(personalBests)
      ensures history == if signedIn then PrependCapped(old(history), old(ResultNow())) else old(history)
    {
      SaveResult();
      isActive, currentText, userInput := false, "", "";
    }

    /** The signed-in branch of completeRace (App.tsx:380-389): the
        personal best and the history entry. */
    method SaveResult()
      requires Valid()
      modifies this`personalBests, this`history
      ensures Valid()
      ensures personalBests == if signedIn then RecordBest(old(personalBests), PbKey(), CurrentWpm()) else old(personalBests)
      ensures history == if signedIn then PrependCapped(old(history), ResultNow()) else old(history)
    {
      if signedIn {
        var result := ResultNow();
        personalBests, history := RecordBest(personalBests, PbKey(), result.wpm), PrependCapped(history, result);
      }
    }

    /** A shorter candidate (App.tsx:354-357): one keystroke, and the input
        and the human lane follow the candidate. */
    method EraseTo(val: string)
      requires Valid() && |val| < |userInput|
      modifies this`tally, this`userInput, this`players
      ensures Valid()
      ensures tally == old(tally).(totalKeys := old(tally).totalKeys + 1)
      ensures userInput == val && players == SetMe(old(players), |val|)
    {
      tally, userInput, players := tally.(totalKeys := tally.totalKeys + 1), val, SetMe(players, |val|);
    }

    /** A candidate that is not a prefix of the passage (App.tsx:369-372):
        an error, the streak broken, its last character recorded. */
    method Miss(val: string)
      requires Valid() && |val| > 0
      modifies this`tally, this`errorMap, this`misses
      ensures Valid()
      ensures var t := old(tally);
        tally == t.(totalKeys := t.totalKeys + 1, errors := t.errors + 1, streak := 0)
      ensures errorMap == BumpMiss(old(errorMap), MissKey(val))
    {
      var c := MissKey(val);
      HistogramSnoc(misses, c);
      var t := tally;
      tally := t.(totalKeys := t.totalKeys + 1, errors := t.errors + 1, streak := 0);
      errorMap, misses := BumpMiss(errorMap, c), misses + [c];
    }

    /** The counters for a prefix candidate (App.tsx:360-365): a keystroke,
        a correct one when it advances, a longer streak when it completes a
        word, and a power-up on every eighth word. */
    method CountCorrect(val: string, drawn: PowerUpType)
      requires Valid()
      modifies this`tally, this`powerUps
      ensures Valid()
      ensures var t := old(tally);
        var word := EndsWord(old(userInput), val);
        var streak := t.streak + (if word then 1 else 0);
        && tally == t.(totalKeys := t.totalKeys + 1,
                       correctKeys := t.correctKeys + (if |val| > |old(userInput)| then 1 else 0),
                       streak := streak)
        && powerUps == (if word && streak % 8 == 0 then PowerUps.Award(old(powerUps), drawn)
                        else old(powerUps))
    {
      var t := tally;
      var word := EndsWord(userInput, val);
      var streak := t.streak + (if word then 1 else 0);
      var inv := if word && streak % 8 == 0 then PowerUps.Award(powerUps, drawn) else powerUps;
      tally, powerUps := Tally(t.totalKeys + 1, t.correctKeys + (if |val| > |userInput| then 1 else 0),
                               t.errors, streak), inv;
    }

    /** Committing a prefix candidate (App.tsx:366-368): the input and the
        human lane follow it; at the end of the passage TIME_ATTACK starts
        over on a new passage, any other mode completes the race. */
    method CommitPrefix(val: string) returns (load: Option<nat>)
      requires Valid() && isActive && IsPrefix(val, currentText)
      modifies this`userInput, this`players, this`isActive, this`currentText,
        this`personalBests, this`history, this`loading, this`requestCounter, this`pendingLoads
      ensures Valid()
      ensures players[0].index <= |old(currentText)|
      ensures |val| < |old(currentText)| ==>
        && userInput == val && players == SetMe(old(players), |val|)
        && unchanged(`isActive, `currentText, `personalBests, `history, `loading, `requestCounter)
        && load == None
      ensures |val| == |old(currentText)| && gameMode == TimeAttack ==>
        && userInput == "" && players == SetMe(old(players), 0)
        && loading && requestCounter == old(requestCounter) + 1
        && pendingLoads == old(pendingLoads) + {requestCounter}
        && load == Some(requestCounter)
        && unchanged(`isActive, `currentText, `personalBests, `history)
      ensures |val| == |old(currentText)| && gameMode != TimeAttack ==>
        var result := FinishResult(tally, errorMap, |val|, clock.elapsed, difficulty, gameMode);
        && !isActive && currentText == "" && userInput == ""
        && players == SetMe(old(players), |val|)
        && personalBests == (if signedIn then RecordBest(old(personalBests), PbKey(), result.wpm) else old(personalBests))
        && history == (if signedIn then PrependCapped(old(history), result) else old(history))
        && unchanged(`loading, `requestCounter)
        && load == None
    {
      load := None;
      if |val| < |currentText| {
        userInput, players := val, SetMe(players, |val|);
      } else if gameMode == TimeAttack {
        userInput, players := "", SetMe(players, 0);
        var rid := BeginLoad();
        load := Some(rid);
      } else {
        FinishPassage(val);
      }
    }

    /** The end of the passage outside TIME_ATTACK (App.tsx:366-368): the
        full passage is committed and the race completes, measured on it. */
    method FinishPassage(val: string)
      requires Valid() && isActive && IsPrefix(val, currentText) && |val| == |currentText|
      requires gameMode != TimeAttack
      modifies this`userInput, this`players, this`isActive, this`currentText,
        this`personalBests, this`history
      ensures Valid()
      ensures var result := FinishResult(tally, errorMap, |val|, clock.elapsed, difficulty, gameMode);
        && !isActive && currentText == "" && userInput == ""
        && players == SetMe(old(players), |val|)
        && personalBests == (if signedIn then RecordBest(old(personalBests), PbKey(), result.wpm) else old(personalBests))
        && history == (if signedIn then PrependCapped(old(history), result) else old(history))
    {
      userInput, players := val, SetMe(players, |val|);
      assert ResultNow() == FinishResult(tally, errorMap, |val|, clock.elapsed, difficulty, gameMode);
      CompleteRace();
    }

    /** A candidate that is a prefix of the passage (App.tsx:359-368): counted
        as correct when it advances, a completed word extends the streak,
        every eighth one earning a power-up, and the candidate is
        committed. */
    method ApplyMatch(val: string, drawn: PowerUpType) returns (load: Option<nat>)
      requires Valid() && isActive && IsPrefix(val, currentText)
      modifies this`userInput, this`tally, this`powerUps,
        this`players, this`isActive, this`currentText, this`personalBests, this`history,
        this`loading, this`requestCounter, this`pendingLoads
      ensures Valid()
      ensures var t := old(tally);
        var word := EndsWord(old(userInput), val);
        var streak := t.streak + (if word then 1 else 0);
        && tally == t.(totalKeys := t.totalKeys + 1,
                       correctKeys := t.correctKeys + (if |val| > |old(userInput)| then 1 else 0),
                       streak := streak)
        && powerUps == (if word && streak % 8 == 0 then PowerUps.Award(old(powerUps), drawn)
                        else old(powerUps))
        && players[0].index <= |old(currentText)|
      ensures |val| < |old(currentText)| ==>
        && userInput == val && players == SetMe(old(players), |val|)
        && unchanged(`isActive, `currentText, `personalBests, `history, `loading, `requestCounter)
        && load == None
      ensures |val| == |old(currentText)| && gameMode == TimeAttack ==>
        && userInput == "" && players == SetMe(old(players), 0)
        && loading && requestCounter == old(requestCounter) + 1
        && pendingLoads == old(pendingLoads) + {requestCounter}
        && load == Some(requestCounter)
        && unchanged(`isActive, `currentText, `personalBests, `history)
      ensures |val| == |old(currentText)| && gameMode != TimeAttack ==>
        var result := FinishResult(tally, errorMap, |val|, clock.elapsed, difficulty, gameMode);
        && !isActive && currentText == "" && userInput == ""
        && players == SetMe(old(players), |val|)
        && personalBests == (if signedIn then RecordBest(old(personalBests), PbKey(), result.wpm) else old(personalBests))
        && history == (if signedIn then PrependCapped(old(history), result) else old(history))
        && unchanged(`loading, `requestCounter)
        && load == None
    {
      CountCorrect(val, drawn);
      load := CommitPrefix(val);
    }

    /** An accepted keystroke of handleInputChange (App.tsx:352-373) for an
        already normalised candidate `val`: the clock starts, and the
        candidate is classified and applied; `drawn`
        is the type a power-up award would draw. When a TIME_ATTACK passage
        is finished, the load it begins is returned. */
    method ApplyCandidate(val: string, drawn: PowerUpType) returns (load: Option<nat>)
      requires Valid() && Accepting()
      modifies this`clock, this`userInput, this`tally, this`errorMap, this`misses, this`powerUps,
        this`players, this`isActive, this`currentText, this`personalBests, this`history,
        this`loading, this`requestCounter, this`pendingLoads
      ensures Valid()
      ensures clock == old(clock).(started := true)
      // Backspace: one keystroke, the input and the lane follow the
      // candidate, nothing else moves.
      ensures Classify(old(userInput), val, old(currentText)) == Backspace ==>
        && tally == old(tally).(totalKeys := old(tally).totalKeys + 1)
        && userInput == val && players == SetMe(old(players), |val|)
        && unchanged(`errorMap, `powerUps, `isActive, `currentText, `personalBests, `history, `loading, `requestCounter)
        && load == None
      // A repeated event only starts the clock.
      ensures Classify(old(userInput), val, old(currentText)) == Duplicate ==>
        && unchanged(`userInput, `tally, `errorMap, `powerUps, `players, `isActive,
                     `currentText, `personalBests, `history, `loading, `requestCounter)
        && load == None
      // A prefix of the passage: counted as correct when it advances, and a
      // completed word extends the streak, every eighth one earning a
      // power-up; the lane never passes the passage's end.
      ensures Classify(old(userInput), val, old(currentText)).Match? ==>
        var t := old(tally);
        var word := EndsWord(old(userInput), val);
        var streak := t.streak + (if word then 1 else 0);
        && tally == t.(totalKeys := t.totalKeys + 1,
                       correctKeys := t.correctKeys + (if |val| > |old(userInput)| then 1 else 0),
                       streak := streak)
        && powerUps == (if word && streak % 8 == 0 then PowerUps.Award(old(powerUps), drawn)
                        else old(powerUps))
        && unchanged(`errorMap)
        && players[0].index <= |old(currentText)|
      ensures Classify(old(userInput), val, old(currentText)).Match?
              && |val| < |old(currentText)| ==>
        && userInput == val && players == SetMe(old(players), |val|)
        && unchanged(`isActive, `currentText, `personalBests, `history, `loading, `requestCounter)
        && load == None
      // The end of a TIME_ATTACK passage: back to the start of a new one,
      // the counters kept.
      ensures Classify(old(userInput), val, old(currentText)).Match?
              && |val| == |old(currentText)| && gameMode == TimeAttack ==>
        && userInput == "" && players == SetMe(old(players), 0)
        && loading && requestCounter == old(requestCounter) + 1
        && pendingLoads == old(pendingLoads) + {requestCounter}
        && load == Some(requestCounter)
        && unchanged(`isActive, `currentText, `personalBests, `history)
      // The end of the passage in any other mode: the race completes,
      // measured with the final keystroke included.
      ensures Classify(old(userInput), val, old(currentText)).Match?
              && |val| == |old(currentText)| && gameMode != TimeAttack ==>
        var result := FinishResult(tally, errorMap, |val|, old(clock).elapsed, difficulty, gameMode);
        && !isActive && currentText == "" && userInput == ""
        && players == SetMe(old(players), |val|)
        && personalBests == (if signedIn then RecordBest(old(personalBests), PbKey(), result.wpm) else old(personalBests))
        && history == (if signedIn then PrependCapped(old(history), result) else old(history))
        && unchanged(`loading, `requestCounter)
        && load == None
      // Anything else is an error: counted and recorded, the streak broken,
      // the input and every lane kept.
      ensures Classify(old(userInput), val, old(currentText)) == Mismatch ==>
        var t := old(tally);
        && tally == t.(totalKeys := t.totalKeys + 1, errors := t.errors + 1, streak := 0)
        && errorMap == BumpMiss(old(errorMap), MissKey(val))
        && unchanged(`userInput, `powerUps, `players, `isActive, `currentText,
                     `personalBests, `history, `loading, `requestCounter)
        && load == None
    {
      load := None;
      match Classify(userInput, val, currentText) {
        case Backspace =>
          EraseTo(val);
        case Duplicate =>
        case Match(_) =>
          load := ApplyMatch(val, drawn);
        case Mismatch =>
          Miss(val);
      }
      // The source starts the clock first; nothing above reads `started`,
      // so starting it last changes nothing.
      clock := clock.(started := true);
    }

    /** handleInputChange (App.tsx:350-374) for the new raw value `raw` of the
        input element; `drawn` is the type a power-up award would draw. The
        first accepted event starts the clock, and the candidate is
        classified after normalisation. When a TIME_ATTACK passage is
        finished, the load it begins is returned. */
    method HandleInput(raw: string, drawn: PowerUpType) returns (load: Option<nat>)
      requires Valid()
      modifies this`clock, this`userInput, this`tally, this`errorMap, this`misses, this`powerUps,
        this`players, this`isActive, this`currentText, this`personalBests, this`history,
        this`loading, this`requestCounter, this`pendingLoads
      ensures Valid()
      ensures !old(Accepting()) ==> unchanged(this) && load == None
      ensures old(Accepting()) ==> clock == old(clock).(started := true)
      // Backspace: one keystroke, the input and the lane follow the
      // candidate, nothing else moves.
      ensures old(Accepting()) && Classify(old(userInput), Normalize(raw), old(currentText)) == Backspace ==>
        var val := Normalize(raw);
        && tally == old(tally).(totalKeys := old(tally).totalKeys + 1)
        && userInput == val && players == SetMe(old(players), |val|)
        && unchanged(`errorMap, `powerUps, `isActive, `currentText, `personalBests, `history, `loading, `requestCounter)
        && load == None
      // A repeated event only starts the clock.
      ensures old(Accepting()) && Classify(old(userInput), Normalize(raw), old(currentText)) == Duplicate ==>
        && unchanged(`userInput, `tally, `errorMap, `powerUps, `players, `isActive,
                     `currentText, `personalBests, `history, `loading, `requestCounter)
        && load == None
      // A prefix of the passage: counted as correct when it advances, and a
      // completed word extends the streak, every eighth one earning a
      // power-up; the lane never passes the passage's end.
      ensures old(Accepting()) && Classify(old(userInput), Normalize(raw), old(currentText)).Match? ==>
        var val := Normalize(raw);
        var t := old(tally);
        var word := EndsWord(old(userInput), val);
        var streak := t.streak + (if word then 1 else 0);
        && tally == t.(totalKeys := t.totalKeys + 1,
                       correctKeys := t.correctKeys + (if |val| > |old(userInput)| then 1 else 0),
                       streak := streak)
        && powerUps == (if word && streak % 8 == 0 then PowerUps.Award(old(powerUps), drawn)
                        else old(powerUps))
        && unchanged(`errorMap)
        && players[0].index <= |old(currentText)|
      ensures old(Accepting()) && Classify(old(userInput), Normalize(raw), old(currentText)).Match?
              && |Normalize(raw)| < |old(currentText)| ==>
        var val := Normalize(raw);
        && userInput == val && players == SetMe(old(players), |val|)
        && unchanged(`isActive, `currentText, `personalBests, `history, `loading, `requestCounter)
        && load == None
      // The end of a TIME_ATTACK passage: back to the start of a new one,
      // the counters kept.
      ensures old(Accepting()) && Classify(old(userInput), Normalize(raw), old(currentText)).Match?
              && |Normalize(raw)| == |old(currentText)| && gameMode == TimeAttack ==>
        && userInput == "" && players == SetMe(old(players), 0)
        && loading && requestCounter == old(requestCounter) + 1
        && pendingLoads == old(pendingLoads) + {requestCounter}
        && load == Some(requestCounter)
        && unchanged(`isActive, `currentText, `personalBests, `history)
      // The end of the passage in any other mode: the race completes,
      // measured with the final keystroke included.
      ensures old(Accepting()) && Classify(old(userInput), Normalize(raw), old(currentText)).Match?
              && |Normalize(raw)| == |old(currentText)| && gameMode != TimeAttack ==>
        var val := Normalize(raw);
        var result := FinishResult(tally, errorMap, |val|, old(clock).elapsed, difficulty, gameMode);
        && !isActive && currentText == "" && userInput == ""
        && players == SetMe(old(players), |val|)
        && personalBests == (if signedIn then RecordBest(old(personalBests), PbKey(), result.wpm) else old(personalBests))
        && history == (if signedIn then PrependCapped(old(history), result) else old(history))
        && unchanged(`loading, `requestCounter)
        && load == None
      // Anything else is an error: counted and recorded, the streak broken,
      // the input and every lane kept.
      ensures old(Accepting()) && Classify(old(userInput), Normalize(raw), old(currentText)) == Mismatch ==>
        var t := old(tally);
        && tally == t.(totalKeys := t.totalKeys + 1, errors := t.errors + 1, streak := 0)
        && errorMap == BumpMiss(old(errorMap), MissKey(Normalize(raw)))
        && unchanged(`userInput, `powerUps, `players, `isActive, `currentText,
                     `personalBests, `history, `loading, `requestCounter)
        && load == None
    {
      load := None;
      if !Accepting() {
        return;
      }
      load := ApplyCandidate(Normalize(raw), drawn);
    }

    /** One 100 ms step of the race interval (App.tsx:251-273). `samples`
        holds one uniform draw per roster lane (the human's is unused). */
    method Tick(samples: seq<real>)
      requires Valid() && |samples| == |players|
      requires forall i :: 0 <= i < |samples| ==> Opponents.IsSample(samples[i])
      modifies this`clock, this`players,
        this`isActive, this`currentText, this`userInput, this`personalBests, this`history
      ensures Valid()
      // No interval runs outside an active, started race; a frozen clock
      // skips the whole step.
      ensures !old(ClockRunning()) || old(isFrozen) ==> unchanged(this)
      ensures old(ClockRunning()) && !old(isFrozen) ==>
        && clock.elapsed == old(clock).elapsed + 1 && clock.started
        && players == Opponents.StepAll(old(players), samples, old(PersonalBest()),
                                        aiOpponentDifficulty, old(isSlowed), |old(currentText)|)
        && players[0] == old(players[0])
        && (gameMode != TimeAttack ==>
              && clock.timeLeft == old(clock).timeLeft
              && unchanged(`isActive, `currentText, `userInput, `personalBests, `history))
        && (gameMode == TimeAttack && old(clock).timeLeft > 1 ==>
              && clock.timeLeft == old(clock).timeLeft - 1
              && unchanged(`isActive, `currentText, `userInput, `personalBests, `history))
        // The countdown's last tick completes the race.
        && (gameMode == TimeAttack && old(clock).timeLeft <= 1 ==>
              && clock.timeLeft == 0 && !isActive && currentText == "" && userInput == ""
              && personalBests == (if signedIn then RecordBest(old(personalBests), PbKey(), old(CurrentWpm()))
                                   else old(personalBests))
              && history == (if signedIn then PrependCapped(old(history), old(ResultNow()))
                             else old(history)))
    {
      if !ClockRunning() || isFrozen {
        return;
      }
      var c := clock;
      var moved := Opponents.StepAll(players, samples, PersonalBest(), aiOpponentDifficulty, isSlowed, |currentText|);
      if gameMode == TimeAttack && c.timeLeft <= 1 {
        CompleteRace();
        clock := c.(elapsed := c.elapsed + 1, timeLeft := 0);
      } else if gameMode == TimeAttack {
        clock := c.(elapsed := c.elapsed + 1, timeLeft := c.timeLeft - 1);
      } else {
        clock := c.(elapsed := c.elapsed + 1);
      }
      players := moved;
    }

    /** usePowerUp (App.tsx:405-413): spend the first held entry of type `t`
        and apply its effect; nothing happens when none is held. */
    method UsePowerUp(t: PowerUpType)
      requires Valid()
      modifies this`powerUps, this`userInput, this`players, this`isFrozen, this`isSlowed
      ensures Valid()
      ensures t !in old(powerUps) ==> unchanged(this)
      ensures t in old(powerUps) ==> powerUps == PowerUps.Use(old(powerUps), t)
      ensures t in old(powerUps) && t == SkipWord ==>
        && userInput == SkipTarget(currentText, old(userInput))
        && players == SetMe(old(players), |userInput|)
        && unchanged(`isFrozen, `isSlowed)
      ensures t in old(powerUps) && t == TimeFreeze ==>
        isFrozen && unchanged(`userInput, `players, `isSlowed)
      ensures t in old(powerUps) && t == SlowOpponents ==>
        isSlowed && unchanged(`userInput, `players, `isFrozen)
    {
      if t !in powerUps {
        return;
      }
      var rest := PowerUps.Use(powerUps, t);
      match t
      case SkipWord =>
        var nt := SkipTarget(currentText, userInput);
        powerUps, userInput, players := rest, nt, SetMe(players, |nt|);
      case TimeFreeze =>
        powerUps, isFrozen := rest, true;
      case SlowOpponents =>
        powerUps, isSlowed := rest, true;
    }

    /** The 3 s timeout of TimeFreeze. */
    method ExpireFreeze()
      modifies this`isFrozen
      ensures !isFrozen
    {
      isFrozen := false;
    }

    /** The 5 s timeout of SlowOpponents. */
    method ExpireSlow()
      modifies this`isSlowed
      ensures !isSlowed
    {
      isSlowed := false;
    }
  }
}
