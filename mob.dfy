/**
 * The wandering creature (Mob.java): a cooldown timer, and on expiry one random
 * cardinal step onto a free tile of the grid.
 */
module Mobs {

  import opened TileCatalog
  import opened Grid
  import opened Draws
  import opened Players

  /** `Math.round(v)`: the integer nearest v, halves rounding up. */
  function Round(v: real): (n: int)
    ensures v - 0.5 < n as real <= v + 0.5
  {
    (v + 0.5).Floor
  }

  function Abs(v: real): real { if v < 0.0 then -v else v }

  function Dist(a: int, b: int): nat { if a < b then b - a else a - b }

  /** The unit step of a direction draw: 0 is +x, 1 is -x, 2 is +y, 3 is -y. */
  function Direction(dir: int): (d: (int, int))
    requires 0 <= dir < 4
    ensures (d.0 == 0) != (d.1 == 0)
    ensures -1 <= d.0 <= 1 && -1 <= d.1 <= 1
    ensures dir < 2 <==> d.1 == 0
    ensures dir % 2 == 0 <==> d.0 + d.1 == 1
  {
    match dir
    case 0 => (1, 0)
    case 1 => (-1, 0)
    case 2 => (0, 1)
    case 3 => (0, -1)
  }

  /**
   * Whether the step to (nx, ny) is taken: the target is inside the grid, not solid, and
   * not within half a tile of the player on both axes.
   */
  ghost predicate StepAllowed(w: World, nx: int, ny: int, px: real, py: real): (b: bool)
    requires w.Valid()
    reads w.tiles
    ensures b ==> w.InBounds(nx, ny) && (w.Get(nx, ny) == Air || w.Get(nx, ny) == Water)
  {
    w.InBounds(nx, ny) && !w.Get(nx, ny).Solid() &&
    !(Abs(px - nx as real) < 0.5 && Abs(py - ny as real) < 0.5)
  }

  class Mob {
    var x: real
    var y: real
    var moveCooldown: real

    /** `new Mob(x, y)`: the cooldown starts at 0. */
    constructor (x: real, y: real)
      ensures this.x == x && this.y == y && moveCooldown == 0.0
    {
      this.x := x;
      this.y := y;
      moveCooldown := 0.0;
    }

    /** `setPos(x, y)`. */
    method SetPos(x: real, y: real)
      modifies this`x, this`y
      ensures this.x == x && this.y == y
    {
      this.x := x;
      this.y := y;
    }

    /**
     * `update(world, dt, rng, player)`. While the cooldown (less dt) is still positive
     * nothing else happens and no draw is taken. Otherwise exactly two draws are taken,
     * the cooldown is reset into [0.25, 0.5), and the step in the drawn direction is
     * taken only if it is allowed.
     */
    method Update(w: World, dt: real, rng: Rng, player: Player)
      requires w.Valid()
      modifies this, rng
      ensures old(moveCooldown) - dt > 0.0 ==>
                moveCooldown == old(moveCooldown) - dt && x == old(x) && y == old(y) &&
                rng.drawn == old(rng.drawn)
      ensures old(moveCooldown) - dt <= 0.0 ==>
                rng.drawn == old(rng.drawn) + 2 &&
                moveCooldown == 0.25 + Fraction(rng.src(old(rng.drawn))) * 0.25 &&
                0.25 <= moveCooldown < 0.5 &&
                var d := Direction(rng.src(old(rng.drawn) + 1) % 4);
                var nx := Round(old(x) + d.0 as real);
                var ny := Round(old(y) + d.1 as real);
                if StepAllowed(w, nx, ny, player.x, player.y) then x == nx as real && y == ny as real
                else x == old(x) && y == old(y)
    {
      moveCooldown := moveCooldown - dt;
      if moveCooldown > 0.0 {
        return;
      }
      var f := rng.NextFloat();
      moveCooldown := 0.25 + f * 0.25;
      var dir := rng.NextInt(4);
      var dx, dy := 0, 0;
      match dir {
        case 0 => dx := 1;
        case 1 => dx := -1;
        case 2 => dy := 1;
        case 3 => dy := -1;
      }
      var nx := Round(x + dx as real);
      var ny := Round(y + dy as real);
      if !w.InBounds(nx, ny) {
        return;
      }
      if w.Get(nx, ny).Solid() {
        return;
      }
      if Abs(player.x - nx as real) < 0.5 && Abs(player.y - ny as real) < 0.5 {
        return;
      }
      x := nx as real;
      y := ny as real;
    }
  }

  /** The step target is one cardinal step away from the tile the mob rounds to. */
  lemma StepIsCardinal(x: real, y: real, dir: int)
    requires 0 <= dir < 4
    ensures var d := Direction(dir);
            var nx := Round(x + d.0 as real);
            var ny := Round(y + d.1 as real);
            (nx - Round(x), ny - Round(y)) == d &&
            Dist(nx, Round(x)) + Dist(ny, Round(y)) == 1
  {
    var d := Direction(dir);
    RoundShift(x, d.0);
    RoundShift(y, d.1);
  }

  /** Rounding commutes with integer shifts. */
  lemma RoundShift(v: real, k: int)
    ensures Round(v + k as real) == Round(v) + k
  {
    var n := Round(v);
    assert n as real <= v + 0.5 < n as real + 1.0;
    assert (n + k) as real <= v + k as real + 0.5 < (n + k) as real + 1.0;
  }
}
