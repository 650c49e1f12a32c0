/**
 * The gameplay handlers of BlockCraftGame.java: mining and placing at a tile already known
 * to be within the player's reach, and the selection handlers behind the number keys and
 * the mouse wheel.
 */
module Interaction {

  import opened Wrappers
  import opened TileCatalog
  import opened Grid
  import opened Inventories
  import opened Players
  import opened Session

  /** `Input.Keys.NUM_1` and `Input.Keys.NUM_6`, the key codes of the hotbar keys. */
  const Num1: int := 8
  const Num6: int := 13

  /**
   * The counts after `mineAtMouse` on a tile reading t, or None when the handler returns
   * early: nothing happens to AIR or to a kind that cannot be mined.
   */
  function Mined(t: TileType, m: map<TileType, int>): (r: Option<map<TileType, int>>)
    ensures r.Some? <==> t != Air && t.Mineable()
    ensures r.Some? ==> forall k :: Count(r.value, k) == Count(m, k) + (if k == t then 1 else 0)
    ensures r.Some? && Positive(m) ==> Positive(r.value)
  {
    if t == Air then None
    else if !t.Mineable() then None
    else Some(Added(m, t, 1))
  }

  /**
   * The counts after `placeAtMouse` of kind sel on a tile reading cur, or None when the
   * handler returns early: the target is not AIR, or `take(sel, 1)` fails.
   */
  function Placed(cur: TileType, sel: TileType, m: map<TileType, int>): (r: Option<map<TileType, int>>)
    ensures r.Some? <==> cur == Air && sel != Air && Count(m, sel) >= 1
    ensures r.Some? ==> forall k :: Count(r.value, k) == Count(m, k) - (if k == sel then 1 else 0)
    ensures r.Some? && Positive(m) ==> Positive(r.value)
  {
    if cur != Air then None
    else if sel == Air then None
    else
      var (ok, m') := Taken(m, sel, 1);
      if !ok then None else Some(m')
  }

  /** `mineAtMouse()` on the in-reach tile (tx, ty). */
  method MineAt(s: GameState, tx: int, ty: int)
    requires s.Valid() && s.player.CanReach(tx, ty)
    modifies s.world.tiles, s.player.inventory
    ensures s.Valid()
    ensures var r := Mined(old(s.world.Get(tx, ty)), old(s.player.inventory.counts));
      && (r.None? ==> s.player.inventory.counts == old(s.player.inventory.counts))
      && (r.Some? ==> s.player.inventory.counts == r.value)
      && forall x, y :: s.world.Get(x, y) ==
           if r.Some? && x == tx && y == ty && s.world.InBounds(x, y) then Air else old(s.world.Get(x, y))
  {
    var t := s.world.Get(tx, ty);
    if t == Air {
      return;
    }
    if !t.Mineable() {
      return;
    }
    s.world.Set(tx, ty, Air);
    s.player.inventory.Add(t, 1);
  }

  /** `placeAtMouse()` on the in-reach tile (tx, ty), with the selected hotbar kind. */
  method PlaceAt(s: GameState, tx: int, ty: int)
    requires s.Valid() && s.player.CanReach(tx, ty)
    modifies s.world.tiles, s.player.inventory
    ensures s.Valid()
    ensures var r := Placed(old(s.world.Get(tx, ty)), s.SelectedTile(), old(s.player.inventory.counts));
      && (r.None? ==> s.player.inventory.counts == old(s.player.inventory.counts))
      && (r.Some? ==> s.player.inventory.counts == r.value && s.world.InBounds(tx, ty))
      && forall x, y :: s.world.Get(x, y) ==
           if r.Some? && x == tx && y == ty then s.SelectedTile() else old(s.world.Get(x, y))
  {
    var cur := s.world.Get(tx, ty);
    if cur != Air {
      return;
    }
    var place := s.SelectedTile();
    if place == Air {
      return;
    }
    var ok := s.player.inventory.Take(place, 1);
    if !ok {
      return;
    }
    s.world.Set(tx, ty, place);
  }

  /** Mining a mineable kind and placing that kind back leaves the counts as they were. */
  lemma MineThenPlaceCounts(t: TileType, m: map<TileType, int>)
    requires t != Air && t.Mineable() && Positive(m)
    ensures Mined(t, m).Some?
    ensures Placed(Air, t, Mined(t, m).value) == Some(m)
  {
    AddThenTakeRestores(m, t, 1);
  }

  /**
   * Mining an in-bounds mineable tile and then placing the same kind (the selected one)
   * on it restores both the grid and the inventory.
   */
  method MineThenPlace(s: GameState, tx: int, ty: int)
    requires s.Valid() && s.player.CanReach(tx, ty) && s.world.InBounds(tx, ty)
    requires s.world.Get(tx, ty).Mineable() && s.world.Get(tx, ty) == s.SelectedTile()
    modifies s.world.tiles, s.player.inventory
    ensures s.Valid()
    ensures s.player.inventory.counts == old(s.player.inventory.counts)
    ensures forall x, y :: s.world.Get(x, y) == old(s.world.Get(x, y))
  {
    ghost var t := s.world.Get(tx, ty);
    MineThenPlaceCounts(t, s.player.inventory.counts);
    MineAt(s, tx, ty);
    assert s.world.Get(tx, ty) == Air;
    PlaceAt(s, tx, ty);
  }

  /** An in-reach coordinate outside the grid reads STONE, so mining it gains a STONE. */
  lemma MineOutsideGrid(w: World, tx: int, ty: int, m: map<TileType, int>)
    requires w.Valid() && !w.InBounds(tx, ty)
    ensures Mined(w.Get(tx, ty), m).Some?
    ensures forall k :: Count(Mined(w.Get(tx, ty), m).value, k) == Count(m, k) + (if k == Stone then 1 else 0)
  {
    assert Stone.Mineable();
  }

  /** Placing outside the grid never happens: the target reads STONE, not AIR. */
  lemma PlaceOutsideGrid(w: World, tx: int, ty: int, sel: TileType, m: map<TileType, int>)
    requires w.Valid() && !w.InBounds(tx, ty)
    ensures Placed(w.Get(tx, ty), sel, m).None?
  {
  }

  /**
   * Mining as evidently intended: a block is gained only by taking it out of the grid, so
   * a coordinate past the edge, which reads as wall, yields nothing. Inside the grid it
   * agrees with `Mined`.
   */
  function MinedCell(w: World, tx: int, ty: int, m: map<TileType, int>): (r: Option<map<TileType, int>>)
    requires w.Valid()
    reads w.tiles
    ensures !w.InBounds(tx, ty) ==> r.None?
    ensures w.InBounds(tx, ty) ==> r == Mined(w.Get(tx, ty), m)
    ensures r.Some? ==> w.InBounds(tx, ty) && w.Get(tx, ty) != Air
    ensures r.Some? ==> forall k :: Count(r.value, k) == Count(m, k) + (if k == w.Get(tx, ty) then 1 else 0)
  {
    if w.InBounds(tx, ty) then Mined(w.Get(tx, ty), m) else None
  }

  /** The selection after `keyDown(keycode)`: keys 1 to 6 pick slots 0 to 5, other keys keep it. */
  function KeySelection(keycode: int, current: int): (r: int)
    ensures Num1 <= keycode <= Num6 ==> r == keycode - Num1 && 0 <= r < |Hotbar|
    ensures !(Num1 <= keycode <= Num6) ==> r == current
  {
    if Num1 <= keycode <= Num6 then SelectionIndex(keycode - Num1, |Hotbar|) else current
  }

  /** The selection after `scrolled(amountX, amountY)`: one slot on, or one back, wrapping around. */
  function ScrollSelection(current: int, amountY: real): (r: int)
    requires 0 <= current < |Hotbar|
    ensures 0 <= r < |Hotbar|
    ensures amountY > 0.0 ==> r == if current == |Hotbar| - 1 then 0 else current + 1
    ensures amountY <= 0.0 ==> r == if current == 0 then |Hotbar| - 1 else current - 1
  {
    SelectionIndex(current + (if amountY > 0.0 then 1 else -1), |Hotbar|)
  }

  /** Scrolling one way and then the other returns to the same slot. */
  lemma ScrollBackAndForth(current: int, up: real, down: real)
    requires 0 <= current < |Hotbar| && up > 0.0 && down <= 0.0
    ensures ScrollSelection(ScrollSelection(current, up), down) == current
    ensures ScrollSelection(ScrollSelection(current, down), up) == current
  {
  }

  /** The selection part of `keyDown(keycode)`. */
  method KeyDown(s: GameState, keycode: int)
    requires s.Valid()
    modifies s`selectedIndex, s.player`selectedIndex
    ensures s.Valid()
    ensures s.selectedIndex == KeySelection(keycode, old(s.selectedIndex))
  {
    if Num1 <= keycode <= Num6 {
      s.SetSelectedIndex(keycode - Num1);
    }
  }

  /** `scrolled(amountX, amountY)`. */
  method Scrolled(s: GameState, amountY: real)
    requires s.Valid()
    modifies s`selectedIndex, s.player`selectedIndex
    ensures s.Valid()
    ensures s.selectedIndex == ScrollSelection(old(s.selectedIndex), amountY)
  {
    var next := s.selectedIndex + (if amountY > 0.0 then 1 else -1);
    s.SetSelectedIndex(next);
  }
}
