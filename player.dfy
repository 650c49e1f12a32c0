/**
 * The player (Player.java): a free position in tile units, an inventory, a hotbar
 * selection, per-axis movement against the grid with a square collider, and a
 * reach test for mining and placing.
 */
module Players {

  import opened TileCatalog
  import opened Grid
  import opened Inventories

  /** Half-width of the square collider, in tiles. */
  const ColliderRadius: real := 0.28

  /** Reach for mining and placing, in tiles. */
  const Reach: real := 4.0

  /** First and last tile the collider centred at p covers along one axis. */
  function Low(p: real): int { (p - ColliderRadius).Floor }

  function High(p: real): int { (p + ColliderRadius).Floor }

  /**
   * Some tile in [Low(px), High(px)] x [Low(py), High(py)] is solid; cells outside the
   * grid read as STONE and so count as solid.
   */
  ghost predicate Blocked(w: World, px: real, py: real)
    requires w.Valid()
    reads w.tiles
  {
    exists tx, ty :: Low(px) <= tx <= High(px) && Low(py) <= ty <= High(py) && w.Get(tx, ty).Solid()
  }

  /** The index `setSelectedIndex(idx, hotbarLen)` stores: 0 for an empty hotbar, else `floorMod(idx, hotbarLen)`. */
  function SelectionIndex(idx: int, hotbarLen: int): (r: int)
    ensures hotbarLen <= 0 ==> r == 0
    ensures hotbarLen > 0 ==> 0 <= r < hotbarLen
    ensures 0 <= idx < hotbarLen ==> r == idx
    ensures -hotbarLen <= idx < 0 ==> r == idx + hotbarLen
    ensures 0 < hotbarLen <= idx < 2 * hotbarLen ==> r == idx - hotbarLen
  {
    if hotbarLen <= 0 then 0 else idx % hotbarLen
  }

  lemma SquareBound(d: real, b: real)
    requires 0.0 <= b && d * d <= b * b
    ensures -b <= d <= b
  {
    if d > b {
      SquareGrows(b, d);
      assert false;
    } else if d < -b {
      SquareGrows(b, -d);
      assert false;
    }
  }

  lemma SquareGrows(b: real, d: real)
    requires 0.0 <= b < d
    ensures b * b < d * d
  {
    MulMono(b, d, d);
    if b > 0.0 {
      MulMono(b, d, b);
      assert b * d == d * b;
    } else {
      assert b == 0.0;
      calc {
        b * b;
        == 0.0 * 0.0;
        == 0.0;
        < { MulMono(0.0, d, d); } d * d;
      }
    }
  }

  lemma MulMono(a: real, b: real, c: real)
    requires a < b && 0.0 < c
    ensures a * c < b * c
  {
  }

  class Player {
    var x: real
    var y: real
    const inventory: Inventory
    var selectedIndex: int

    /** `new Player(startX, startY)`: a fresh starting inventory and selection 0. */
    constructor (startX: real, startY: real)
      ensures x == startX && y == startY && selectedIndex == 0
      ensures fresh(inventory) && inventory.Valid() && inventory.counts == Start
    {
      x := startX;
      y := startY;
      inventory := new Inventory();
      selectedIndex := 0;
    }

    /** `setPos(x, y)`. */
    method SetPos(x: real, y: real)
      modifies this`x, this`y
      ensures this.x == x && this.y == y
    {
      this.x := x;
      this.y := y;
    }

    /** `setSelectedIndex(idx, hotbarLen)`. */
    method SetSelectedIndex(idx: int, hotbarLen: int)
      modifies this`selectedIndex
      ensures selectedIndex == SelectionIndex(idx, hotbarLen)
    {
      if hotbarLen <= 0 {
        selectedIndex := 0;
        return;
      }
      selectedIndex := idx % hotbarLen;
    }

    /** `canReach(tx, ty)`: the tile's centre is within Reach of the player's centre. */
    function CanReach(tx: int, ty: int): (b: bool)
      reads this
      ensures b ==> x - Reach - 0.5 <= tx as real <= x + Reach - 0.5
      ensures b ==> y - Reach - 0.5 <= ty as real <= y + Reach - 0.5
    {
      var dx := x - (tx as real + 0.5);
      var dy := y - (ty as real + 0.5);
      if dx * dx + dy * dy <= Reach * Reach then
        assert dx * dx >= 0.0 && dy * dy >= 0.0;
        SquareBound(dx, Reach);
        SquareBound(dy, Reach);
        true
      else false
    }

    /** `collides(world, px, py)`: the row-by-row scan of the tiles under the collider. */
    method Collides(w: World, px: real, py: real) returns (hit: bool)
      requires w.Valid()
      ensures hit <==> Blocked(w, px, py)
    {
      var minX := Low(px);
      var maxX := High(px);
      var minY := Low(py);
      var maxY := High(py);
      var ty := minY;
      while ty <= maxY
        invariant minY <= ty <= maxY + 1
        invariant forall ty', tx' :: minY <= ty' < ty && minX <= tx' <= maxX ==> !w.Get(tx', ty').Solid()
      {
        var tx := minX;
        while tx <= maxX
          invariant minX <= tx <= maxX + 1
          invariant forall tx' :: minX <= tx' < tx ==> !w.Get(tx', ty).Solid()
        {
          if w.Get(tx, ty).Solid() {
            return true;
          }
          tx := tx + 1;
        }
        ty := ty + 1;
      }
      return false;
    }

    /**
     * `move` after the direction has been normalised and scaled: (dx, dy) is the
     * displacement. The x step is tried first and kept only if the collider is clear
     * there; then the y step is tried from the (possibly updated) x.
     */
    method Move(w: World, dx: real, dy: real)
      requires w.Valid()
      modifies this`x, this`y
      ensures dx == 0.0 && dy == 0.0 ==> x == old(x) && y == old(y)
      ensures dx != 0.0 || dy != 0.0 ==>
                x == (if Blocked(w, old(x) + dx, old(y)) then old(x) else old(x) + dx) &&
                y == (if Blocked(w, x, old(y) + dy) then old(y) else old(y) + dy)
      ensures !Blocked(w, old(x), old(y)) ==> !Blocked(w, x, y)
    {
      if dx == 0.0 && dy == 0.0 {
        return;
      }
      var nx := x + dx;
      var ny := y;
      var hit := Collides(w, nx, ny);
      if !hit {
        x := nx;
      }
      nx := x;
      ny := y + dy;
      hit := Collides(w, nx, ny);
      if !hit {
        y := ny;
      }
    }
  }

  /** A reachable tile lies at most Reach tiles away from the player along each axis. */
  lemma ReachIsBounded(p: Player, tx: int, ty: int)
    requires p.CanReach(tx, ty)
    ensures p.x - Reach - 0.5 <= tx as real <= p.x + Reach - 0.5
    ensures p.y - Reach - 0.5 <= ty as real <= p.y + Reach - 0.5
  {
    var dx := p.x - (tx as real + 0.5);
    var dy := p.y - (ty as real + 0.5);
    assert dx * dx >= 0.0 && dy * dy >= 0.0;
    SquareBound(dx, Reach);
    SquareBound(dy, Reach);
  }

  /** The tile the player stands on is always within reach. */
  lemma ReachesOwnTile(p: Player)
    ensures p.CanReach(p.x.Floor, p.y.Floor)
  {
    var dx := p.x - (p.x.Floor as real + 0.5);
    var dy := p.y - (p.y.Floor as real + 0.5);
    assert -0.5 <= dx < 0.5 && -0.5 <= dy < 0.5;
    assert dx * dx <= 0.25 by { SquareAtMost(dx); }
    assert dy * dy <= 0.25 by { SquareAtMost(dy); }
  }

  lemma SquareAtMost(d: real)
    requires -0.5 <= d <= 0.5
    ensures d * d <= 0.25
  {
    if d >= 0.0 {
      assert d * d <= 0.5 * d;
    } else {
      assert d * d <= -0.5 * d;
    }
  }
}
