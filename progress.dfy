/** The per-world progress map and what the keyword check does to it.

    `progreso` maps a world id to a flag; a world whose id is missing reads
    as locked, as an absent property is falsy.  The keyword check visits the
    catalog worlds in order and, for each one whose keyword equals the
    normalised input and which is still locked at that moment, sets its flag;
    it does not stop at the first match.  ScanFrom is that pass. */
module Progress {
  import opened Wrappers
  import opened Text
  import opened Catalog

  type Progress = map<WorldId, bool>

  /** `progreso[mundo]` read as a condition: a missing key is `undefined`,
      which reads as locked. */
  function IsUnlocked(p: Progress, id: WorldId): (b: bool)
    ensures id !in p ==> !b
    ensures id in p ==> b == p[id]
  {
    id in p && p[id]
  }

  /** The progress keys are exactly the catalog ids. */
  predicate WellFormed(p: Progress) {
    p.Keys == Ids()
  }

  /** The map written on first run and by a confirmed restart. */
  function InitialProgress(): (p: Progress)
    ensures WellFormed(p)
    ensures forall id :: !IsUnlocked(p, id)
  {
    var p := map["ejecutivo" := false, "social" := false, "oficios" := false, "emprendimiento" := false];
    assert p.Keys == Ids() by {
      assert Worlds[0].id in p && Worlds[1].id in p && Worlds[2].id in p && Worlds[3].id in p;
    }
    p
  }

  /** Start-up load: the stored snapshot when there is one, otherwise every
      world locked. */
  function Load(stored: Option<Progress>): (p: Progress)
    ensures stored.Some? ==> p == stored.value
    ensures stored.None? ==> WellFormed(p) && forall id :: !IsUnlocked(p, id)
  {
    match stored
    case Some(saved) => saved
    case None => InitialProgress()
  }

  // ----- medal counter -----

  function UnlockedIds(p: Progress): (ids: set<WorldId>)
    ensures ids <= p.Keys
    ensures forall id :: id in ids <==> IsUnlocked(p, id)
  {
    set id | id in p && p[id]
  }

  /** The number of true flags in the map, whatever its keys. */
  function MedalCount(p: Progress): (n: nat)
    ensures n <= |p|
  {
    SubsetCard(UnlockedIds(p), p.Keys);
    |UnlockedIds(p)|
  }

  lemma {:induction false} SubsetCard<T>(a: set<T>, b: set<T>)
    requires a <= b
    ensures |a| <= |b|
  {
    if a != {} {
      var x :| x in a;
      SubsetCard(a - {x}, b - {x});
    }
  }

  /** With the keys exactly the catalog ids, the count never exceeds the
      number of medals. */
  lemma CountAtMostTotal(p: Progress)
    requires WellFormed(p)
    ensures MedalCount(p) <= TotalMedals()
  {
  }

  /** Unlocking one locked world raises the count by exactly one. */
  lemma CountAfterUnlock(p: Progress, id: WorldId)
    requires !IsUnlocked(p, id)
    ensures MedalCount(p[id := true]) == MedalCount(p) + 1
  {
    assert UnlockedIds(p[id := true]) == UnlockedIds(p) + {id};
  }

  lemma CountInitial()
    ensures MedalCount(InitialProgress()) == 0
  {
    assert UnlockedIds(InitialProgress()) == {};
  }

  // ----- keyword check -----

  datatype Scan = Scan(progress: Progress, found: Option<WorldId>)

  /** Whether world `w` would be unlocked by the normalised input `v` in
      state `p`: its keyword matches and it is still locked. */
  predicate Unlocks(p: Progress, v: string, w: World) {
    w.keyword == v && !IsUnlocked(p, w.id)
  }

  /** One call of the check's per-world callback: unlock `w` if `v` is its
      keyword and it is still locked. */
  function Visit(s: Scan, v: string, w: World): (r: Scan)
    ensures s.progress.Keys <= r.progress.Keys <= s.progress.Keys + {w.id}
    ensures r.found == s.found || r.found == Some(w.id)
  {
    if Unlocks(s.progress, v, w) then Scan(s.progress[w.id := true], Some(w.id)) else s
  }

  /** The keyword check's pass over the worlds `ws` in order, carrying the
      state `s` along; `found` ends as the last world unlocked. */
  function ScanFrom(s: Scan, v: string, ws: seq<World>): (r: Scan)
    ensures s.progress.Keys <= r.progress.Keys
    ensures forall id :: IsUnlocked(s.progress, id) ==> IsUnlocked(r.progress, id)
    ensures r.found.None? ==> r == s
    ensures r.found != s.found ==> r.found.Some? && IsUnlocked(r.progress, r.found.value)
    decreases |ws|
  {
    if ws == [] then s else ScanFrom(Visit(s, v, ws[0]), v, ws[1..])
  }

  /** `verificarPalabra` on progress `p` and raw input `input`. */
  function Attempt(p: Progress, input: string): (r: Scan)
    ensures forall id :: IsUnlocked(p, id) ==> IsUnlocked(r.progress, id)
    ensures r.found.None? ==> r.progress == p
    ensures r.found.Some? ==> r.found.value in Ids() && IsUnlocked(r.progress, r.found.value)
  {
    ScanStaysInWorlds(Scan(p, None), Normalize(input), Worlds);
    ScanFrom(Scan(p, None), Normalize(input), Worlds)
  }

  /** The pass does not stop at the first match: every world of `ws` whose
      keyword is `v` and that is locked at the start ends unlocked, whether
      or not keywords repeat. */
  lemma {:induction false} ScanUnlocksEveryMatch(s: Scan, v: string, ws: seq<World>, j: nat)
    requires j < |ws| && Unlocks(s.progress, v, ws[j])
    ensures IsUnlocked(ScanFrom(s, v, ws).progress, ws[j].id)
    decreases |ws|
  {
    var next := Visit(s, v, ws[0]);
    if j > 0 && Unlocks(next.progress, v, ws[j]) {
      assert ws[1..][j - 1] == ws[j];
      ScanUnlocksEveryMatch(next, v, ws[1..], j - 1);
    } else {
      assert IsUnlocked(next.progress, ws[j].id);
    }
  }

  /** Two locked worlds sharing a keyword both unlock, and the one visited
      last is the one reported. */
  lemma SharedKeywordUnlocksBoth(p: Progress, a: WorldId, b: WorldId, k: string)
    requires a != b && !IsUnlocked(p, a) && !IsUnlocked(p, b)
    ensures ScanFrom(Scan(p, None), k, [World(a, k), World(b, k)]) ==
            Scan(p[a := true][b := true], Some(b))
  {
    var ws := [World(a, k), World(b, k)];
    var s1 := Visit(Scan(p, None), k, ws[0]);
    assert s1 == Scan(p[a := true], Some(a));
    var s2 := Visit(s1, k, ws[1]);
    assert s2 == Scan(p[a := true][b := true], Some(b));
    assert ws[1..] == [World(b, k)] && ws[1..][1..] == [];
    assert ScanFrom(s1, k, ws[1..]) == ScanFrom(s2, k, []);
  }

  /** When keywords are distinct, the pass unlocks at most one world: the
      one whose keyword matches, if it is still locked. */
  lemma {:induction false} ScanClosedForm(s: Scan, v: string, ws: seq<World>)
    requires DistinctKeywords(ws)
    ensures (forall j :: 0 <= j < |ws| ==> !Unlocks(s.progress, v, ws[j])) ==> ScanFrom(s, v, ws) == s
    ensures forall j :: 0 <= j < |ws| && Unlocks(s.progress, v, ws[j]) ==>
              ScanFrom(s, v, ws) == Scan(s.progress[ws[j].id := true], Some(ws[j].id))
    decreases |ws|
  {
    if ws != [] {
      var rest := ws[1..];
      assert forall j :: 1 <= j < |ws| ==> rest[j - 1] == ws[j];
      assert DistinctKeywords(rest);
      var next := Visit(s, v, ws[0]);
      ScanClosedForm(next, v, rest);
      if Unlocks(s.progress, v, ws[0]) {
        assert forall j :: 0 <= j < |rest| ==> rest[j].keyword != v;
      }
    }
  }

  /** Entering a locked world's keyword unlocks exactly that world. */
  lemma AttemptUnlocks(p: Progress, input: string, j: nat)
    requires j < |Worlds|
    requires Normalize(input) == Worlds[j].keyword
    requires !IsUnlocked(p, Worlds[j].id)
    ensures Attempt(p, input) == Scan(p[Worlds[j].id := true], Some(Worlds[j].id))
  {
    Distinct();
    ScanClosedForm(Scan(p, None), Normalize(input), Worlds);
  }

  /** The "wrong or already entered" outcome happens exactly when no locked
      world has the input as its keyword, and then nothing changes. */
  lemma AttemptNoMatch(p: Progress, input: string)
    ensures Attempt(p, input).found.None? <==>
              forall j :: 0 <= j < |Worlds| ==> !Unlocks(p, Normalize(input), Worlds[j])
    ensures Attempt(p, input).found.None? <==> Attempt(p, input).progress == p
  {
    var v := Normalize(input);
    Distinct();
    ScanClosedForm(Scan(p, None), v, Worlds);
    if exists j :: 0 <= j < |Worlds| && Unlocks(p, v, Worlds[j]) {
      var j :| 0 <= j < |Worlds| && Unlocks(p, v, Worlds[j]);
      assert IsUnlocked(Attempt(p, input).progress, Worlds[j].id);
    }
  }

  /** Entering the same input twice: the second time is a no-match. */
  lemma AttemptTwice(p: Progress, input: string)
    ensures Attempt(Attempt(p, input).progress, input) == Scan(Attempt(p, input).progress, None)
  {
    var v := Normalize(input);
    var q := Attempt(p, input).progress;
    Distinct();
    ScanClosedForm(Scan(p, None), v, Worlds);
    ScanClosedForm(Scan(q, None), v, Worlds);
    if exists j :: 0 <= j < |Worlds| && Unlocks(p, v, Worlds[j]) {
      var j :| 0 <= j < |Worlds| && Unlocks(p, v, Worlds[j]);
      assert q == p[Worlds[j].id := true];
      forall k | 0 <= k < |Worlds|
        ensures !Unlocks(q, v, Worlds[k])
      {
        if k != j {
          assert Worlds[k].keyword != Worlds[j].keyword;
        }
      }
    }
  }

  /** The pass over `ws` adds only keys of `ws`'s worlds and reports only
      one of them. */
  lemma {:induction false} ScanStaysInWorlds(s: Scan, v: string, ws: seq<World>)
    ensures ScanFrom(s, v, ws).progress.Keys <= s.progress.Keys + IdsOf(ws)
    ensures ScanFrom(s, v, ws).found == s.found || ScanFrom(s, v, ws).found.value in IdsOf(ws)
    decreases |ws|
  {
    if ws != [] {
      var rest := ws[1..];
      assert IdsOf(ws) == {ws[0].id} + IdsOf(rest) by {
        assert forall w :: w in ws <==> w == ws[0] || w in rest;
      }
      ScanStaysInWorlds(Visit(s, v, ws[0]), v, rest);
    }
  }

  /** The check adds no key: a map whose keys are exactly the catalog ids
      keeps them. */
  lemma AttemptWellFormed(p: Progress, input: string)
    ensures WellFormed(p) ==> WellFormed(Attempt(p, input).progress)
  {
    ScanStaysInWorlds(Scan(p, None), Normalize(input), Worlds);
  }

  /** The medal count goes up by one on an unlock and stays put otherwise. */
  lemma AttemptCount(p: Progress, input: string)
    ensures var r := Attempt(p, input);
            MedalCount(r.progress) == MedalCount(p) + (if r.found.Some? then 1 else 0)
  {
    var v := Normalize(input);
    Distinct();
    ScanClosedForm(Scan(p, None), v, Worlds);
    if exists j :: 0 <= j < |Worlds| && Unlocks(p, v, Worlds[j]) {
      var j :| 0 <= j < |Worlds| && Unlocks(p, v, Worlds[j]);
      CountAfterUnlock(p, Worlds[j].id);
    }
  }

  /** Letter case does not matter to the keyword check. */
  lemma AttemptIgnoresCase(p: Progress, a: string, b: string)
    requires Lower(a) == Lower(b)
    ensures Attempt(p, a) == Attempt(p, b)
  {
    NormalizeIgnoresCase(a, b);
  }

  /** Surrounding white space does not matter to the keyword check. */
  lemma AttemptIgnoresSurroundingSpace(p: Progress, w1: string, s: string, w2: string)
    requires AllSpace(w1) && AllSpace(w2)
    ensures Attempt(p, w1 + s + w2) == Attempt(p, s)
  {
    NormalizeIgnoresSurroundingSpace(w1, s, w2);
  }
}
