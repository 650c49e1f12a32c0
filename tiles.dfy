/**
 * The tile catalogue (TileType.java): seven kinds, each with a `solid` and a
 * `mineable` flag. The colour of each kind belongs to rendering and is not modelled.
 */
module TileCatalog {

  import opened Wrappers

  datatype TileType = Air | Grass | Dirt | Stone | Water | Log | Planks
  {
    /** Blocks movement. */
    predicate Solid() {
      match this
      case Air => false
      case Grass => true
      case Dirt => true
      case Stone => true
      case Water => false
      case Log => true
      case Planks => true
    }

    /** Can be removed by mining. */
    predicate Mineable() {
      match this
      case Air => false
      case Grass => true
      case Dirt => true
      case Stone => true
      case Water => false
      case Log => true
      case Planks => true
    }

    /** The enum constant's name, as `name()` and `valueOf` spell it. */
    function Name(): (s: string)
      ensures |s| >= 3 && forall i :: 0 <= i < |s| ==> 'A' <= s[i] <= 'Z'
    {
      match this
      case Air => "AIR"
      case Grass => "GRASS"
      case Dirt => "DIRT"
      case Stone => "STONE"
      case Water => "WATER"
      case Log => "LOG"
      case Planks => "PLANKS"
    }

    /** Declaration order, which is the iteration order of an EnumMap. */
    function Ordinal(): (n: nat)
      ensures n < 7
    {
      match this
      case Air => 0
      case Grass => 1
      case Dirt => 2
      case Stone => 3
      case Water => 4
      case Log => 5
      case Planks => 6
    }
  }

  /** All kinds, in declaration order. */
  const AllKinds: seq<TileType> := [Air, Grass, Dirt, Stone, Water, Log, Planks]

  /** `TileType.valueOf`: the kind with exactly this name, if any. */
  function ValueOf(s: string): (r: Option<TileType>)
    ensures r.Some? ==> r.value.Name() == s
    ensures (exists t: TileType :: t.Name() == s) ==> r.Some?
  {
    if s == "AIR" then Some(Air)
    else if s == "GRASS" then Some(Grass)
    else if s == "DIRT" then Some(Dirt)
    else if s == "STONE" then Some(Stone)
    else if s == "WATER" then Some(Water)
    else if s == "LOG" then Some(Log)
    else if s == "PLANKS" then Some(Planks)
    else None
  }

  /** There are exactly seven kinds and the catalogue lists each once, in ordinal order. */
  lemma CatalogueIsComplete(t: TileType)
    ensures |AllKinds| == 7
    ensures t in AllKinds && AllKinds[t.Ordinal()] == t
    ensures forall i, j :: 0 <= i < j < |AllKinds| ==> AllKinds[i] != AllKinds[j]
  {
  }

  /** AIR and WATER are the only kinds that neither block nor can be mined; every other kind does both. */
  lemma SolidIffMineable(t: TileType)
    ensures t.Solid() <==> t.Mineable()
    ensures !t.Solid() <==> (t == Air || t == Water)
  {
  }

  /** Names identify kinds: `valueOf(t.name()) == t`. */
  lemma ValueOfName(t: TileType)
    ensures ValueOf(t.Name()) == Some(t)
  {
  }
}
