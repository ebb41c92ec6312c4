/** The power-up inventory (App.tsx:399-413): awarding keeps the two most
    recent entries and appends the new one, so at most three are held;
    using a type removes the first held entry of that type. */
module PowerUps {
  import opened Types
  import opened Sequences

  const Capacity: nat := 3

  /** `awardPowerUp`: `[...prev.slice(-2), fresh]`, with the randomly drawn
      type supplied by the caller. */
  function Award(inv: seq<PowerUpType>, drawn: PowerUpType): (r: seq<PowerUpType>)
    ensures |r| == Min(|inv|, Capacity - 1) + 1 && |r| <= Capacity
  {
    LastN(inv, Capacity - 1) + [drawn]
  }

  /** The award comes last; the entries kept are the newest ones, in their
      order, so on overflow the oldest are the ones dropped. */
  lemma AwardSpec(inv: seq<PowerUpType>, drawn: PowerUpType)
    ensures var r := Award(inv, drawn);
      && r[|r| - 1] == drawn
      && r[..|r| - 1] == inv[|inv| - (|r| - 1)..]
      && (|inv| < Capacity ==> r == inv + [drawn])
  {
    var r := Award(inv, drawn);
    assert r[..|r| - 1] == LastN(inv, Capacity - 1);
  }

  /** The inventory after asking for a type: unchanged when none is held,
      otherwise without its first entry of that type. */
  function Use(inv: seq<PowerUpType>, t: PowerUpType): (r: seq<PowerUpType>)
    ensures |r| <= |inv|
  {
    RemoveAt(inv, FirstIndex(inv, t))
  }

  /** Using a held type removes exactly its first entry and keeps the rest
      in order; using one not held changes nothing. */
  lemma UseSpec(inv: seq<PowerUpType>, t: PowerUpType)
    ensures t !in inv ==> Use(inv, t) == inv
    ensures t in inv ==>
      var k := FirstIndex(inv, t);
      var r := Use(inv, t);
      && r == inv[..k] + inv[k + 1..]
      && t !in inv[..k]
      && multiset(r) + multiset{t} == multiset(inv)
  {
  }

  /** Using is never a way to gain entries, so the cap survives. */
  lemma UseKeepsCap(inv: seq<PowerUpType>, t: PowerUpType)
    requires |inv| <= Capacity
    ensures |Use(inv, t)| <= |inv| <= Capacity
  {
  }

  /** Any sequence of awards and uses from an empty inventory stays within
      the cap. `events[i]` is `Some(t)` for an award of `t` and `None` for a
      use of `uses[i]`. */
  function Replay(inv: seq<PowerUpType>, events: seq<Option<PowerUpType>>, uses: seq<PowerUpType>): seq<PowerUpType>
    requires |uses| == |events|
    decreases |events|
  {
    if events == [] then inv
    else
      var next := match events[0]
        case Some(t) => Award(inv, t)
        case None => Use(inv, uses[0]);
      Replay(next, events[1..], uses[1..])
  }

  lemma {:induction false} ReplayKeepsCap(inv: seq<PowerUpType>, events: seq<Option<PowerUpType>>, uses: seq<PowerUpType>)
    requires |uses| == |events| && |inv| <= Capacity
    ensures |Replay(inv, events, uses)| <= Capacity
    decreases |events|
  {
    if events != [] {
      var next := match events[0]
        case Some(t) => Award(inv, t)
        case None => Use(inv, uses[0]);
      ReplayKeepsCap(next, events[1..], uses[1..]);
    }
  }

  // ---------------------------------------------------------------------
  // The inventory as the source builds it.
  //
  // `awardPowerUp` stores `{ id, ...POWER_UP_REFS[type] }`, and the entries
  // of POWER_UP_REFS (App.tsx:40-44) carry a label, an icon and a
  // description but no `type`. Reading `.type` back from a stored entry
  // therefore yields `undefined`, written `None` here, and the activation
  // paths (the hot keys of App.tsx:199-201 and the buttons of App.tsx:609)
  // pass that `undefined` to `usePowerUp`.

  /** The effect `usePowerUp(requested)` applies once an entry is removed;
      `undefined` matches none of its three branches. */
  datatype Activation = Activation(remaining: seq<Option<PowerUpType>>, effect: Option<PowerUpType>)

  /** `awardPowerUp` as written: the drawn type picks the label and icon
      only. */
  function AwardAsWritten(inv: seq<Option<PowerUpType>>, drawn: PowerUpType): (r: seq<Option<PowerUpType>>)
    ensures |r| == Min(|inv|, Capacity - 1) + 1 && r[|r| - 1] == None
  {
    LastN(inv, Capacity - 1) + [None]
  }

  /** Activating the power-up shown in `slot` as written: the requested
      type is the stored entry's `type`, `findIndex` looks it up by `===`,
      and the branch taken is that of the requested value. */
  function ActivateAsWritten(inv: seq<Option<PowerUpType>>, slot: nat): Activation
    requires slot < |inv|
  {
    var requested := inv[slot];
    var k := FirstIndex(inv, requested);
    Activation(RemoveAt(inv, k), requested)
  }

  /** Every inventory built by `AwardAsWritten` holds only untyped
      entries. */
  predicate Untyped(inv: seq<Option<PowerUpType>>)
  {
    forall i :: 0 <= i < |inv| ==> inv[i] == None
  }

  /** As written, an activation never has an effect, whichever slot is
      pressed and whichever types were drawn: it just discards the OLDEST
      held power-up. */
  lemma {:induction false} AsWrittenActivationIsInert(inv: seq<Option<PowerUpType>>, drawn: PowerUpType, slot: nat)
    requires Untyped(inv) && slot <= |LastN(inv, Capacity - 1)|
    ensures var held := AwardAsWritten(inv, drawn);
      && Untyped(held)
      && ActivateAsWritten(held, slot).effect == None
      && ActivateAsWritten(held, slot).remaining == held[1..]
  {
    var held := AwardAsWritten(inv, drawn);
    assert held[0] == None;
    assert FirstIndex(held, held[slot]) == 0;
  }

  /** Concretely: a SkipWord is awarded into an empty inventory, and its
      button or hot key then removes it without skipping anything. */
  lemma SkipWordAwardedIsLostAsWritten()
    ensures AwardAsWritten([], SkipWord) == [None]
    ensures ActivateAsWritten(AwardAsWritten([], SkipWord), 0) == Activation([], None)
  {
    AsWrittenActivationIsInert([], SkipWord, 0);
  }

  /** The corrected activation: entries remember their type, so the slot's
      own type is requested and applied, and the first entry of that type
      is the one removed. */
  function Activate(inv: seq<PowerUpType>, slot: nat): (r: (seq<PowerUpType>, PowerUpType))
    requires slot < |inv|
    ensures r.1 == inv[slot]
    ensures r.0 == Use(inv, inv[slot]) && |r.0| == |inv| - 1
  {
    (Use(inv, inv[slot]), inv[slot])
  }

  /** With the type stored, a SkipWord award can be spent on a skip. */
  lemma SkipWordAwardedIsUsable()
    ensures Activate(Award([], SkipWord), 0) == ([], SkipWord)
  {
  }
}
