/** The fixed catalog of passport worlds: each world id with the lower-case
    keyword that unlocks it, in the order the keyword check visits them. */
module Catalog {
  import opened Text

  type WorldId = string

  datatype World = World(id: WorldId, keyword: string)

  const Worlds: seq<World> := [
    World("ejecutivo", "liderazgo"),
    World("social", "servicio"),
    World("oficios", "pr\U{00E1}ctica"),
    World("emprendimiento", "creatividad")
  ]

  /** The ids of the worlds `ws`. */
  function IdsOf(ws: seq<World>): (ids: set<WorldId>)
    ensures forall i :: 0 <= i < |ws| ==> ws[i].id in ids
  {
    set w | w in ws :: w.id
  }

  /** The ids of the catalog, the keys the progress map is meant to have. */
  function Ids(): set<WorldId> {
    IdsOf(Worlds)
  }

  predicate DistinctKeywords(ws: seq<World>) {
    forall i, j :: 0 <= i < j < |ws| ==> ws[i].keyword != ws[j].keyword
  }

  /** `Object.keys(claves).length`, the number of medals to collect. */
  function TotalMedals(): (n: nat)
    ensures n == |Ids()| == |Worlds|
  {
    IdsCount();
    |Worlds|
  }

  lemma IdsCount()
    ensures |Ids()| == |Worlds|
  {
    var listed: set<WorldId> := {"ejecutivo", "social", "oficios", "emprendimiento"};
    assert Ids() == listed by {
      assert Worlds[0].id in Ids() && Worlds[1].id in Ids();
      assert Worlds[2].id in Ids() && Worlds[3].id in Ids();
    }
    assert |listed| == 4 by {
      assert "ejecutivo" != "social" && "ejecutivo" != "oficios" && "ejecutivo" != "emprendimiento";
      assert "social" != "oficios" && "social" != "emprendimiento" && "oficios" != "emprendimiento";
    }
  }

  /** No two worlds share an id or a keyword, so at most one world can match
      an input. */
  lemma Distinct()
    ensures forall i, j :: 0 <= i < j < |Worlds| ==> Worlds[i].id != Worlds[j].id
    ensures DistinctKeywords(Worlds)
  {
  }

  /** Every keyword is already in normal form, so each one can be typed. */
  lemma KeywordsAreNormal(i: nat)
    requires i < |Worlds|
    ensures Normalize(Worlds[i].keyword) == Worlds[i].keyword
  {
    var k := Worlds[i].keyword;
    assert forall j :: 0 <= j < |k| ==> !IsUpperLetter(k[j]);
    assert !IsSpace(k[0]) && !IsSpace(k[|k| - 1]);
    TrimKeepsUnpadded(k);
    LowerKeepsLowerCase(k);
  }
}
