/** The decisions of the keystroke validator (App.tsx:350-374) and of the
    global keydown listener (App.tsx:197-213), as functions of their inputs.
    The session class applies their outcome to its state. */
module Keystrokes {
  import opened Types
  import opened Passage

  /** How a new (normalised) candidate input relates to the committed input
      and the passage. `Match(advanced)` is a candidate that is a prefix of
      the passage; `advanced` says whether it is longer than the committed
      input. */
  datatype Keystroke = Backspace | Duplicate | Match(advanced: bool) | Mismatch

  /** The branch order of `handleInputChange`: shorter first, then equal,
      then the test `candidate === passage.substring(0, candidate.length)`. */
  function Classify(committed: string, candidate: string, passage: string): (k: Keystroke)
    ensures k == Backspace <==> |candidate| < |committed|
    ensures k == Duplicate <==> candidate == committed
    ensures k.Match? <==> |candidate| >= |committed| && candidate != committed && IsPrefix(candidate, passage)
    ensures k.Match? ==> (k.advanced <==> |candidate| > |committed|)
    // A mismatch always has a last character to record, and a match is
    // never empty, so the end-of-passage test never fires on an empty
    // passage.
    ensures k == Mismatch ==> |candidate| > 0 && !IsPrefix(candidate, passage)
    ensures k.Match? ==> |candidate| > 0
  {
    if |candidate| < |committed| then Backspace
    else if candidate == committed then Duplicate
    else if candidate == Head(passage, |candidate|) then Match(|candidate| > |committed|)
    else Mismatch
  }

  /** A correct keystroke counts towards the word streak when it advances and
      its last character is a space. */
  predicate EndsWord(committed: string, candidate: string)
  {
    |candidate| > |committed| && candidate[|candidate| - 1] == ' '
  }

  /** The miss map entry for a mismatched candidate: its last character,
      lower-cased. */
  function MissKey(candidate: string): char
    requires |candidate| > 0
  {
    LowerAscii(candidate[|candidate| - 1])
  }

  /** `{ ...prev, [c]: (prev[c] || 0) + 1 }`. */
  function BumpMiss(m: map<char, nat>, c: char): (r: map<char, nat>)
    ensures r.Keys == m.Keys + {c}
    ensures r[c] == (if c in m then m[c] else 0) + 1
    ensures forall k :: k in m && k != c ==> r[k] == m[k]
  {
    m[c := (if c in m then m[c] else 0) + 1]
  }

  /** Over any run of mismatches, the miss map's total equals the number of
      misses recorded. */
  ghost function MissTotal(m: map<char, nat>): nat
    decreases |m.Keys|
  {
    if m.Keys == {} then 0
    else
      var c :| c in m.Keys;
      m[c] + MissTotal(m - {c})
  }

  lemma {:induction false} MissTotalRemove(m: map<char, nat>, c: char)
    requires c in m
    ensures MissTotal(m) == m[c] + MissTotal(m - {c})
    decreases |m.Keys|
  {
    var d :| d in m.Keys && MissTotal(m) == m[d] + MissTotal(m - {d});
    if d != c {
      var m' := m - {d};
      MissTotalRemove(m', c);
      MissTotalRemove(m - {c}, d);
      assert m' - {c} == (m - {c}) - {d};
    }
  }

  /** Each mismatch adds exactly one to the miss map's total. */
  lemma BumpMissTotal(m: map<char, nat>, c: char)
    ensures MissTotal(BumpMiss(m, c)) == MissTotal(m) + 1
  {
    var r := BumpMiss(m, c);
    MissTotalRemove(r, c);
    assert r - {c} == m - {c};
    if c in m {
      MissTotalRemove(m, c);
    } else {
      assert m - {c} == m;
    }
  }

  /** The miss map a run of mismatches builds, from the characters recorded
      in order. */
  ghost function Histogram(misses: seq<char>): map<char, nat>
  {
    if misses == [] then map[]
    else
      var m, c := Histogram(misses[..|misses| - 1]), misses[|misses| - 1];
      m[c := (if c in m then m[c] else 0) + 1]
  }

  /** The totals agree: a miss map built from n misses sums to n, and it
      records exactly the characters missed. */
  lemma {:induction false} HistogramTotal(misses: seq<char>)
    ensures MissTotal(Histogram(misses)) == |misses|
    ensures forall c :: c in Histogram(misses) <==> c in misses
  {
    if misses != [] {
      var front := misses[..|misses| - 1];
      HistogramTotal(front);
      BumpMissTotal(Histogram(front), misses[|misses| - 1]);
      assert misses == front + [misses[|misses| - 1]];
    }
  }

  /** Recording one more miss bumps the histogram in place. */
  lemma HistogramSnoc(misses: seq<char>, c: char)
    ensures Histogram(misses + [c]) == BumpMiss(Histogram(misses), c)
  {
    assert (misses + [c])[..|misses|] == misses;
  }

  // ---------------------------------------------------------------------
  // The global keydown listener

  /** What one keydown event does: use a held power-up by its number key,
      feed a candidate built from a remapped key to the validator, swallow
      a remapped key that builds no candidate (its default action is
      prevented, App.tsx:206), or nothing (the browser then handles the key
      itself). */
  datatype KeyAction = UsePowerUp(kind: PowerUpType) | Feed(candidate: string) | Suppress | Pass

  /** A remapped logical key as a candidate input (App.tsx:207-211):
      'backspace' drops the last committed character (`slice(0, -1)`), a
      one-character mapping is appended, anything else is ignored. */
  function RemappedCandidate(committed: string, logical: string): (r: Option<string>)
    // 'backspace' yields the committed input less its last character.
    ensures logical == "backspace" ==>
      && r.Some? && IsPrefix(r.value, committed)
      && |r.value| == (if committed == [] then 0 else |committed| - 1)
    // A one-character mapping extends the committed input by that character.
    ensures logical != "backspace" && |logical| == 1 ==>
      && r.Some? && IsPrefix(committed, r.value)
      && |r.value| == |committed| + 1 && r.value[|committed|] == logical[0]
    ensures logical != "backspace" && |logical| != 1 ==> r == None
  {
    if logical == "backspace" then Some(if committed == [] then [] else committed[..|committed| - 1])
    else if |logical| == 1 then Some(committed + logical)
    else None
  }

  /** What the validator makes of a remapped key's candidate, once
      normalised as handleInputChange normalises it (App.tsx:353). The
      committed input is always plain, being itself a normalised value.
      A remapped 'backspace' is a backspace on a non-empty input and a
      repeated event on an empty one; a one-character mapping always
      advances, so it is an advancing match exactly when it extends a
      prefix of the passage, and a mismatch otherwise. */
  lemma RemappedKeyClass(committed: string, logical: string, passage: string)
    requires IsPlain(committed)
    ensures var r := RemappedCandidate(committed, logical);
      logical == "backspace" ==>
        var k := Classify(committed, Normalize(r.value), passage);
        && (committed != [] ==> k == Backspace)
        && (committed == [] ==> k == Duplicate)
    ensures var r := RemappedCandidate(committed, logical);
      logical != "backspace" && |logical| == 1 ==>
        var v := Normalize(r.value);
        var k := Classify(committed, v, passage);
        && |v| > |committed|
        && (k == Match(true) || k == Mismatch)
        && (k.Match? <==> IsPrefix(v, passage))
  {
    NormalizeFixesPlain(committed);
    var r := RemappedCandidate(committed, logical);
    if logical == "backspace" {
      if committed != [] {
        var v := committed[..|committed| - 1];
        assert r.value == v;
        assert IsPlain(v) by {
          forall i | 0 <= i < |v| ensures !IsTypographic(v[i]) {
            assert v[i] == committed[i];
          }
        }
        NormalizeFixesPlain(v);
      }
    } else if |logical| == 1 {
      assert r.value == committed + logical;
      NormalizeAppend(committed, logical);
      assert logical == [logical[0]] + [];
      assert Normalize(logical) == NormalizeChar(logical[0]) + Normalize([]);
      assert |NormalizeChar(logical[0])| >= 1;
    }
  }

  /** A remapped 'backspace' undoes a one-character mapping. */
  lemma RemappedBackspaceUndoes(committed: string, logical: string)
    requires logical != "backspace" && |logical| == 1
    ensures RemappedCandidate(RemappedCandidate(committed, logical).value, "backspace") == Some(committed)
  {
  }

  /** The number key that reaches a held power-up while input is accepted
      (App.tsx:198-201), if any. */
  predicate NumberKeyTaken(key: string, accepting: bool, held: seq<PowerUpType>)
  {
    accepting && ((key == "1" && |held| > 0) || (key == "2" && |held| > 1) || (key == "3" && |held| > 2))
  }

  /** The listener of App.tsx:197-212. `accepting` is
      `isActive && !loading && !isTypingOut`, `focused` says whether the
      race input has focus, and `mappings` is the user's key remapping. */
  function KeyDown(key: string, accepting: bool, active: bool, focused: bool,
                   held: seq<PowerUpType>, mappings: map<string, string>,
                   committed: string): (a: KeyAction)
    requires accepting ==> active
    // The number keys reach the held power-ups only while input is
    // accepted, and then each reaches its own slot.
    ensures a.UsePowerUp? <==> NumberKeyTaken(key, accepting, held)
    ensures accepting && key == "1" && |held| > 0 ==> a == UsePowerUp(held[0])
    ensures accepting && key == "2" && |held| > 1 ==> a == UsePowerUp(held[1])
    ensures accepting && key == "3" && |held| > 2 ==> a == UsePowerUp(held[2])
    // Otherwise a key with a non-empty mapping is handled by the listener
    // exactly during a race with focus: it feeds the candidate it builds,
    // or is swallowed when it builds none.
    ensures !NumberKeyTaken(key, accepting, held) ==>
      var physical := LowerAsciiString(key);
      var mapped := physical in mappings && mappings[physical] != "" && active && focused;
      && (a.Feed? || a == Suppress <==> mapped)
      && (mapped ==> match RemappedCandidate(committed, mappings[physical])
                      case Some(c) => a == Feed(c)
                      case None => a == Suppress)
    ensures !active ==> a == Pass
  {
    if accepting && key == "1" && |held| > 0 then UsePowerUp(held[0])
    else if accepting && key == "2" && |held| > 1 then UsePowerUp(held[1])
    else if accepting && key == "3" && |held| > 2 then UsePowerUp(held[2])
    else
      var physical := LowerAsciiString(key);
      if physical in mappings && mappings[physical] != "" && active && focused then
        match RemappedCandidate(committed, mappings[physical])
        case Some(c) => Feed(c)
        case None => Suppress
      else Pass
  }
}
