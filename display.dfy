/** Values the passport writes to the page after each change: the badge of
    each world (icon, status text, unlocked style), the medal counter, and
    the message of the keyword dialog.  All are functions of the state. */
module Display {
  import opened Wrappers
  import opened Text
  import opened Catalog
  import opened Progress

  const MedalIcon: string := "\U{1F3C5}"
  const LockIcon: string := "\U{1F512}"
  const UnlockedStatus: string := "Desbloqueado"
  const LockedStatus: string := "Bloqueado"

  datatype Badge = Badge(icon: string, status: string, unlocked: bool)

  /** The badge, status text and medal shown for world `id`. */
  function BadgeFor(p: Progress, id: WorldId): (b: Badge)
    ensures b.unlocked == IsUnlocked(p, id)
  {
    if id in p && p[id] then Badge(MedalIcon, UnlockedStatus, true)
    else Badge(LockIcon, LockedStatus, false)
  }

  /** One badge per catalog world, in catalog order. */
  function Badges(p: Progress): (bs: seq<Badge>)
    ensures |bs| == |Worlds|
    ensures forall i :: 0 <= i < |Worlds| ==> bs[i].unlocked == IsUnlocked(p, Worlds[i].id)
  {
    seq(|Worlds|, i requires 0 <= i < |Worlds| => BadgeFor(p, Worlds[i].id))
  }

  /** The icon and the status text each tell a locked badge from an
      unlocked one. */
  lemma BadgeTextShowsState(p: Progress, id: WorldId)
    ensures BadgeFor(p, id).icon == MedalIcon <==> IsUnlocked(p, id)
    ensures BadgeFor(p, id).status == UnlockedStatus <==> IsUnlocked(p, id)
  {
    assert MedalIcon != LockIcon;
    assert UnlockedStatus[0] != LockedStatus[0];
  }

  /** The `i`-th badge shows whether the `i`-th world is unlocked. */
  lemma BadgeShowsWorld(p: Progress, i: nat)
    requires i < |Worlds|
    ensures Badges(p)[i].unlocked <==> IsUnlocked(p, Worlds[i].id)
  {
  }

  datatype Counter = Counter(obtained: nat, total: nat)

  /** The "obtained / total" medal counter. */
  function MedalCounter(p: Progress): (c: Counter)
    ensures c.total == |Worlds|
    ensures WellFormed(p) ==> c.obtained <= c.total
    ensures c.obtained == |UnlockedIds(p)|
  {
    assert WellFormed(p) ==> MedalCount(p) <= TotalMedals() by {
      if WellFormed(p) {
        CountAtMostTotal(p);
      }
    }
    Counter(MedalCount(p), TotalMedals())
  }

  /** A successful keyword check turns exactly the unlocked world's badge
      from locked to unlocked; a failed one changes no badge. */
  lemma BadgesAfterAttempt(p: Progress, input: string, id: WorldId)
    ensures var r := Attempt(p, input);
            r.found == Some(id) ==> !BadgeFor(p, id).unlocked && BadgeFor(r.progress, id).unlocked
    ensures var r := Attempt(p, input);
            r.found != Some(id) ==> BadgeFor(r.progress, id) == BadgeFor(p, id)
  {
    var v := Normalize(input);
    var r := Attempt(p, input);
    Distinct();
    ScanClosedForm(Scan(p, None), v, Worlds);
    if exists j :: 0 <= j < |Worlds| && Unlocks(p, v, Worlds[j]) {
      var j :| 0 <= j < |Worlds| && Unlocks(p, v, Worlds[j]);
      assert r == Scan(p[Worlds[j].id := true], Some(Worlds[j].id));
    } else {
      assert r == Scan(p, None);
    }
  }

  /** A successful keyword check adds one to the medal counter; a failed
      one leaves it. */
  lemma CounterAfterAttempt(p: Progress, input: string)
    ensures var r := Attempt(p, input);
            MedalCounter(r.progress) ==
              Counter(MedalCounter(p).obtained + (if r.found.Some? then 1 else 0), MedalCounter(p).total)
  {
    AttemptCount(p, input);
  }

  /** After a confirmed restart every badge is locked and the count is 0. */
  lemma BadgesAfterRestart()
    ensures forall b :: b in Badges(InitialProgress()) ==> b == Badge(LockIcon, LockedStatus, false)
    ensures MedalCounter(InitialProgress()) == Counter(0, 4)
  {
    CountInitial();
  }

  // ----- keyword dialog message -----

  const UnlockPrefix: string := "\U{00A1}Insignia de "
  const UnlockSuffix: string := " desbloqueada!"
  const WrongWordMessage: string := "Palabra incorrecta o ya ingresada."

  /** The message for unlocking world `id`, naming it with a capital. */
  function UnlockMessage(id: WorldId): (m: string)
    ensures |m| == |UnlockPrefix| + |id| + |UnlockSuffix|
  {
    UnlockPrefix + Capitalize(id) + UnlockSuffix
  }

  /** No unlock message reads like the refusal. */
  lemma UnlockMessageNotRefusal(id: WorldId)
    ensures UnlockMessage(id) != WrongWordMessage
  {
    assert UnlockMessage(id)[0] != WrongWordMessage[0];
  }

  /** The message left in the dialog after a keyword check: the last world
      unlocked, or the single "wrong or already entered" text. */
  function Message(found: Option<WorldId>): (m: string)
    ensures m == WrongWordMessage <==> found.None?
  {
    match found
    case Some(id) => UnlockMessageNotRefusal(id); UnlockMessage(id)
    case None => WrongWordMessage
  }

  /** The unlocked world can be read back from its message. */
  lemma UnlockMessageNamesWorld(id: WorldId)
    requires id != [] && IsLowerLetter(id[0])
    ensures var m := UnlockMessage(id);
            var name := m[|UnlockPrefix|..|m| - |UnlockSuffix|];
            name != [] && IsUpperLetter(name[0]) && [LowerChar(name[0])] + name[1..] == id
  {
    var m := UnlockMessage(id);
    assert m[|UnlockPrefix|..|m| - |UnlockSuffix|] == Capitalize(id);
    CapitalizeRoundTrip(id);
  }

  /** A first visit: any input that normalises to world `j`'s keyword
      unlocks that world, the counter reads 1 and the message names it. */
  lemma FirstVisitScenario(input: string, j: nat)
    requires j < |Worlds| && Normalize(input) == Worlds[j].keyword
    ensures var r := Attempt(InitialProgress(), input);
            r.found == Some(Worlds[j].id) && MedalCounter(r.progress).obtained == 1 &&
            Message(r.found) == UnlockMessage(Worlds[j].id)
  {
    var p0 := InitialProgress();
    var id := Worlds[j].id;
    AttemptUnlocks(p0, input, j);
    assert Attempt(p0, input) == Scan(p0[id := true], Some(id));
    assert MedalCount(p0[id := true]) == 1 by {
      CountInitial();
      CountAfterUnlock(p0, id);
    }
  }

  /** Entering world `j`'s keyword itself after any input that normalised
      to it is refused with the "wrong or already entered" message and
      changes nothing. */
  lemma RepeatVisitRefused(p: Progress, input: string, j: nat)
    requires j < |Worlds| && Normalize(input) == Worlds[j].keyword
    ensures var q := Attempt(p, input).progress;
            var r := Attempt(q, Worlds[j].keyword);
            r.found.None? && r.progress == q && Message(r.found) == WrongWordMessage
  {
    KeywordsAreNormal(j);
    AttemptTwice(p, input);
  }
}
