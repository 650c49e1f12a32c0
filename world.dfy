/**
 * The tile grid (World.java): a row-major array of tiles with bounds-checked
 * access, and the seeded terrain generator. Reads outside the grid see STONE,
 * writes outside it do nothing.
 */
module Grid {

  import opened TileCatalog
  import opened Draws

  /** `Math.max(lo, Math.min(hi, v))`. */
  function Clamp(v: int, lo: int, hi: int): (r: int)
    ensures r >= lo
    ensures lo <= hi ==> r <= hi
    ensures lo <= v <= hi ==> r == v
    ensures v < lo ==> r == lo
    ensures lo <= hi < v ==> r == hi
  {
    Max(lo, Min(hi, v))
  }

  function Max(a: int, b: int): int { if a < b then b else a }

  function Min(a: int, b: int): int { if a < b then a else b }

  /** `(int) (height * 0.62f)`, the nominal ground row, in exact arithmetic. */
  function Base(height: int): int
    requires height >= 0
  {
    height * 62 / 100
  }

  /** The float constants 0.05f, 0.07f and 0.65f, written out exactly. */
  const PoolChance: real := 13421773.0 / 268435456.0
  const TreeChance: real := 9395241.0 / 134217728.0
  const BoulderChance: real := 10905190.0 / 16777216.0

  /**
   * What the terrain pass writes at row y of a column whose surface is gy: GRASS on
   * the surface, DIRT on the two rows below it, STONE under that. The source writes
   * GOLD where its 1-in-50 draw equals 1, but GOLD is not one of the seven kinds,
   * so that branch writes STONE here too.
   */
  function TerrainTile(y: int, gy: int): (t: TileType)
    requires gy <= y
    ensures t.Solid() && t.Mineable()
  {
    if y == gy then Grass else if y < gy + 3 then Dirt else Stone
  }

  /**
   * What may lie above a column's surface gy once the generator is done: AIR, WATER,
   * a LOG on one of the two rows over the surface, or STONE above row `base`.
   */
  predicate AboveGround(t: TileType, y: int, gy: int, base: int) {
    t == Air || t == Water || (t == Log && gy - 2 <= y) || (t == Stone && y < base)
  }

  /** Row-major cell index `y * width + x` of an in-bounds cell lies inside the array. */
  lemma IndexInRange(w: int, h: int, x: int, y: int)
    requires 0 <= x < w && 0 <= y < h
    ensures 0 <= y * w + x < w * h
  {
    assert (y + 1) * w <= h * w by {
      MulLeft(y + 1, h, w);
    }
  }

  /** Two in-bounds cells with the same row-major index are the same cell. */
  lemma IndexInjective(w: int, x1: int, y1: int, x2: int, y2: int)
    requires 0 <= x1 < w && 0 <= x2 < w && 0 <= y1 && 0 <= y2
    requires y1 * w + x1 == y2 * w + x2
    ensures x1 == x2 && y1 == y2
  {
    if y1 < y2 {
      MulLeft(y1 + 1, y2, w);
      assert false;
    } else if y2 < y1 {
      MulLeft(y2 + 1, y1, w);
      assert false;
    }
  }

  /**
   * The draw index of the cell in row `row` and column `col` of a rectangle `cols` cells
   * wide whose cells draw one each in row order, starting at draw `start`.
   */
  function CellDraw(start: nat, cols: nat, row: nat, col: nat): nat {
    start + row * cols + col
  }

  lemma MulLeft(a: int, b: int, w: int)
    requires a <= b && 0 <= w
    ensures a * w <= b * w
  {
  }

  class World {
    const width: int
    const height: int
    const tiles: array<TileType>

    ghost predicate Valid() {
      0 <= width && 0 <= height && tiles.Length == width * height
    }

    /**
     * The shape every generated grid has, given each column's surface row: a surface
     * within two rows of the nominal ground (clamped into [4, height - 4]), terrain on
     * and below it, and above it only what AboveGround allows.
     */
    ghost predicate Shaped(surface: seq<int>)
      reads tiles
    {
      && Valid() && height >= 5
      && |surface| == width
      && (forall x :: 0 <= x < width ==>
            4 <= surface[x] < height &&
            Clamp(Base(height) - 2, 4, height - 4) <= surface[x] <= Clamp(Base(height) + 2, 4, height - 4))
      && (forall x, y :: 0 <= x < width && surface[x] <= y < height ==> Get(x, y) == TerrainTile(y, surface[x]))
      && (forall x, y :: 0 <= x < width && 0 <= y < surface[x] ==> AboveGround(Get(x, y), y, surface[x], Base(height)))
    }

    /** `inBounds(x, y)`. */
    predicate InBounds(x: int, y: int): (b: bool)
      ensures b ==> 0 <= y * width + x < width * height
    {
      if 0 <= x < width && 0 <= y < height then IndexInRange(width, height, x, y); true
      else false
    }

    /** `get(x, y)`: the tile at (x, y), or STONE outside the grid. */
    function Get(x: int, y: int): (t: TileType)
      requires Valid()
      reads tiles
      ensures !InBounds(x, y) ==> t == Stone
    {
      if !InBounds(x, y) then Stone
      else IndexInRange(width, height, x, y); tiles[y * width + x]
    }

    /** `new World(width, height)`: every cell is AIR. */
    constructor (width: int, height: int)
      requires 0 <= width && 0 <= height
      ensures Valid() && fresh(tiles)
      ensures this.width == width && this.height == height
      ensures forall x, y :: InBounds(x, y) ==> Get(x, y) == Air
    {
      this.width := width;
      this.height := height;
      tiles := new TileType[width * height];
      new;
      Fill(Air);
    }

    /** `fill(t)`: every cell becomes t. */
    method Fill(t: TileType)
      requires Valid()
      modifies tiles
      ensures forall x, y :: InBounds(x, y) ==> Get(x, y) == t
    {
      var i := 0;
      while i < tiles.Length
        invariant 0 <= i <= tiles.Length
        invariant forall j :: 0 <= j < i ==> tiles[j] == t
      {
        tiles[i] := t;
        i := i + 1;
      }
      forall x, y | InBounds(x, y)
        ensures Get(x, y) == t
      {
        IndexInRange(width, height, x, y);
      }
    }

    /** `set(x, y, t)`: only cell (x, y) changes, and only when it is inside the grid. */
    method Set(x: int, y: int, t: TileType)
      requires Valid()
      modifies tiles
      ensures forall x', y' ::
                Get(x', y') == if x' == x && y' == y && InBounds(x, y) then t else old(Get(x', y'))
    {
      if !InBounds(x, y) {
        return;
      }
      IndexInRange(width, height, x, y);
      var i := y * width + x;
      tiles[i] := t;
      forall x', y'
        ensures Get(x', y') == (if x' == x && y' == y then t else old(Get(x', y')))
      {
        if InBounds(x', y') {
          IndexInRange(width, height, x', y');
          var j := y' * width + x';
          if j == i {
            IndexInjective(width, x', y', x, y);
          }
        }
      }
    }

    /**
     * The terrain loop of one column: one 1-in-50 draw for EVERY row from gy to the
     * bottom (grass and dirt rows included), then that row's terrain tile.
     */
    method Terrain(rng: Rng, x: int, gy: int)
      requires Valid() && 0 <= x < width && 0 <= gy < height
      modifies tiles, rng
      ensures rng.drawn == old(rng.drawn) + (height - gy)
      ensures forall x', y' ::
                Get(x', y') == if x' == x && gy <= y' < height then TerrainTile(y', gy) else old(Get(x', y'))
    {
      var y := gy;
      while y < height
        invariant gy <= y <= height
        invariant rng.drawn == old(rng.drawn) + (y - gy)
        invariant forall x', y' ::
                    Get(x', y') == if x' == x && gy <= y' < y then TerrainTile(y', gy) else old(Get(x', y'))
      {
        var goldChance := rng.NextInt(50);
        if y == gy {
          Set(x, y, Grass);
        } else if y < gy + 3 {
          Set(x, y, Dirt);
        } else if goldChance != 1 {
          Set(x, y, Stone);
        } else {
          Set(x, y, Stone);  // the source's GOLD, which is not a kind
        }
        y := y + 1;
      }
    }

    /** A water pool: row poolY, columns x up to min(width, x + poolW) - 1, AIR cells only. */
    method Pool(x: int, poolY: int, poolW: int)
      requires Valid() && 0 <= x
      modifies tiles
      ensures forall x', y' ::
                Get(x', y') ==
                  if y' == poolY && x <= x' < Min(width, x + poolW) && old(Get(x', y')) == Air then Water
                  else old(Get(x', y'))
    {
      var px := x;
      while px < Min(width, x + poolW)
        invariant x <= px <= Max(x, Min(width, x + poolW))
        invariant forall x', y' ::
                    Get(x', y') ==
                      if y' == poolY && x <= x' < px && old(Get(x', y')) == Air then Water
                      else old(Get(x', y'))
      {
        if poolY >= 0 && Get(px, poolY) == Air {
          Set(px, poolY, Water);
        }
        px := px + 1;
      }
    }

    /**
     * A tree: a LOG trunk at (x, ty) when ty >= 2, that cell is AIR and the tile below
     * it is solid, plus a second LOG above it when that cell is AIR too.
     */
    method Tree(x: int, ty: int)
      requires Valid()
      modifies tiles
      ensures var grows := ty >= 2 && old(Get(x, ty)) == Air && old(Get(x, ty + 1)).Solid();
              forall x', y' ::
                Get(x', y') ==
                  if grows && x' == x && (y' == ty || (y' == ty - 1 && old(Get(x, ty - 1)) == Air)) then Log
                  else old(Get(x', y'))
    {
      if ty >= 2 && Get(x, ty) == Air && Get(x, ty + 1).Solid() {
        Set(x, ty, Log);
        if Get(x, ty - 1) == Air {
          Set(x, ty - 1, Log);
        }
      }
    }

    /**
     * One iteration of the column loop of `generate`. Draws, in order: the bump, one
     * draw per terrain row, the pool chance, the pool width (only when a pool starts),
     * the tree chance.
     */
    method Column(rng: Rng, x: int) returns (gy: int)
      requires Valid() && 0 <= x < width && 5 <= height
      modifies tiles, rng
      ensures gy == Clamp(Base(height) + rng.src(old(rng.drawn)) % 5 - 2, 4, height - 4)
      ensures 4 <= gy < height
      ensures var p := old(rng.drawn) + 1 + (height - gy);
              var pool := Fraction(rng.src(p)) < PoolChance;
              var poolW := 4 + rng.src(p + 1) % 8;
              var q := if pool then p + 2 else p + 1;
              var above := if pool && old(Get(x, gy - 1)) == Air then Water else old(Get(x, gy - 1));
              var grows := Fraction(rng.src(q)) < TreeChance && above == Air;
              && rng.drawn == q + 1
              && (forall x', y' :: x' != x ==>
                    Get(x', y') ==
                      if pool && y' == gy - 1 && x < x' < Min(width, x + poolW) && old(Get(x', y')) == Air then Water
                      else old(Get(x', y')))
              && (forall y' :: gy <= y' < height ==> Get(x, y') == TerrainTile(y', gy))
              && Get(x, gy - 1) == (if grows then Log else above)
              && Get(x, gy - 2) == (if grows && old(Get(x, gy - 2)) == Air then Log else old(Get(x, gy - 2)))
              && (forall y' :: y' < gy - 2 ==> Get(x, y') == old(Get(x, y')))
    {
      var b := rng.NextInt(5);
      var bump := b - 2;
      gy := Clamp(Base(height) + bump, 4, height - 4);
      Terrain(rng, x, gy);
      Decorate(rng, x, gy);
    }

    /**
     * The rest of a column once its terrain is down: the pool chance, the pool width (only
     * when a pool starts) and the tree chance, with what each writes above the surface.
     */
    method Decorate(rng: Rng, x: int, gy: int)
      requires Valid() && 0 <= x < width && 4 <= gy < height && Get(x, gy).Solid()
      modifies tiles, rng
      ensures var p := old(rng.drawn);
              var pool := Fraction(rng.src(p)) < PoolChance;
              var poolW := 4 + rng.src(p + 1) % 8;
              var q := if pool then p + 2 else p + 1;
              var above := if pool && old(Get(x, gy - 1)) == Air then Water else old(Get(x, gy - 1));
              var grows := Fraction(rng.src(q)) < TreeChance && above == Air;
              && rng.drawn == q + 1
              && (forall x', y' :: x' != x ==>
                    Get(x', y') ==
                      if pool && y' == gy - 1 && x < x' < Min(width, x + poolW) && old(Get(x', y')) == Air then Water
                      else old(Get(x', y')))
              && (forall y' :: gy <= y' ==> Get(x, y') == old(Get(x, y')))
              && Get(x, gy - 1) == (if grows then Log else above)
              && Get(x, gy - 2) == (if grows && old(Get(x, gy - 2)) == Air then Log else old(Get(x, gy - 2)))
              && (forall y' :: y' < gy - 2 ==> Get(x, y') == old(Get(x, y')))
    {
      var poolDraw := rng.NextFloat();
      if poolDraw < PoolChance {
        var poolY := gy - 1;
        var w := rng.NextInt(8);
        var poolW := 4 + w;
        Pool(x, poolY, poolW);
      }
      var treeDraw := rng.NextFloat();
      if treeDraw < TreeChance {
        var ty := gy - 1;
        Tree(x, ty);
      }
    }

    /**
     * One row y of a boulder square around column cx with half-side r: every in-bounds
     * cell, from left to right, takes one draw and becomes STONE when the draw is under
     * 0.65f and the cell is AIR. Out-of-bounds cells take no draw.
     */
    method BoulderRow(rng: Rng, cx: int, r: int, y: int)
      requires Valid() && 0 <= cx < width && 0 <= r
      modifies tiles, rng
      ensures var x0 := Max(cx - r, 0);
              var x1 := Min(cx + r + 1, width);
              && rng.drawn == old(rng.drawn) + (if 0 <= y < height then x1 - x0 else 0)
              && forall x', y' ::
                   Get(x', y') ==
                     if y' == y && InBounds(x', y') && x0 <= x' < x1 && old(Get(x', y')) == Air &&
                        Fraction(rng.src(old(rng.drawn) + (x' - x0))) < BoulderChance
                     then Stone else old(Get(x', y'))
    {
      ghost var x0 := Max(cx - r, 0);
      ghost var x1 := Min(cx + r + 1, width);
      var x := cx - r;
      while x <= cx + r
        invariant cx - r <= x <= cx + r + 1
        invariant rng.drawn == old(rng.drawn) + (if 0 <= y < height then Clamp(x, x0, x1) - x0 else 0)
        invariant forall x', y' ::
                    Get(x', y') ==
                      if y' == y && InBounds(x', y') && x0 <= x' < x && old(Get(x', y')) == Air &&
                         Fraction(rng.src(old(rng.drawn) + (x' - x0))) < BoulderChance
                      then Stone else old(Get(x', y'))
      {
        if InBounds(x, y) {
          var chance := rng.NextFloat();
          if chance < BoulderChance && Get(x, y) == Air {
            Set(x, y, Stone);
          }
        }
        x := x + 1;
      }
    }

    /**
     * One boulder cluster: a centre (cx, cy) with cy < Base(height) - 2 and a radius r
     * of 1 or 2. The in-bounds part of the square of half-side r around the centre is
     * columns x0 to x1 - 1 and rows y0 to y1 - 1; its cells take one draw each in row
     * order, and a cell becomes STONE when its draw is under 0.65f and it is AIR.
     */
    method Boulder(rng: Rng)
      requires Valid() && 0 < width && 5 <= height
      modifies tiles, rng
      ensures var d := old(rng.drawn);
              var cx := rng.src(d) % width;
              var cy := rng.src(d + 1) % (Base(height) - 2);
              var r := 1 + rng.src(d + 2) % 2;
              var x0 := Max(cx - r, 0);
              var x1 := Min(cx + r + 1, width);
              var y0 := Max(cy - r, 0);
              var y1 := Min(cy + r + 1, height);
              && rng.drawn == d + 3 + (y1 - y0) * (x1 - x0)
              && forall x', y' ::
                   Get(x', y') ==
                     if x0 <= x' < x1 && y0 <= y' < y1 && old(Get(x', y')) == Air &&
                        Fraction(rng.src(CellDraw(d + 3, x1 - x0, y' - y0, x' - x0))) < BoulderChance
                     then Stone else old(Get(x', y'))
      ensures forall x', y' ::
                Get(x', y') == old(Get(x', y')) ||
                (old(Get(x', y')) == Air && Get(x', y') == Stone && InBounds(x', y') && y' < Base(height))
    {
      var cx := rng.NextInt(width);
      var cy := rng.NextInt(Base(height) - 2);
      var r0 := rng.NextInt(2);
      var r := 1 + r0;
      BoulderSquare(rng, cx, cy, r);
    }

    /**
     * The two loops of one boulder cluster around (cx, cy) with half-side r: the in-bounds
     * cells draw one each in row order, starting with the next draw of the stream.
     */
    method BoulderSquare(rng: Rng, cx: int, cy: int, r: int)
      requires Valid() && 0 <= cx < width && 0 <= cy < height && 0 <= r
      modifies tiles, rng
      ensures var d := old(rng.drawn);
              var x0 := Max(cx - r, 0);
              var x1 := Min(cx + r + 1, width);
              var y0 := Max(cy - r, 0);
              var y1 := Min(cy + r + 1, height);
              && rng.drawn == d + (y1 - y0) * (x1 - x0)
              && forall x', y' ::
                   Get(x', y') ==
                     if x0 <= x' < x1 && y0 <= y' < y1 && old(Get(x', y')) == Air &&
                        Fraction(rng.src(CellDraw(d, x1 - x0, y' - y0, x' - x0))) < BoulderChance
                     then Stone else old(Get(x', y'))
    {
      ghost var d := rng.drawn;
      ghost var x0 := Max(cx - r, 0);
      ghost var x1 := Min(cx + r + 1, width);
      ghost var y0 := Max(cy - r, 0);
      ghost var y1 := Min(cy + r + 1, height);
      var y := cy - r;
      while y <= cy + r
        invariant cy - r <= y <= cy + r + 1
        invariant rng.drawn == d + (Clamp(y, y0, y1) - y0) * (x1 - x0)
        invariant forall x', y' ::
                    Get(x', y') ==
                      if x0 <= x' < x1 && y0 <= y' < y1 && y' < y && old(Get(x', y')) == Air &&
                         Fraction(rng.src(CellDraw(d, x1 - x0, y' - y0, x' - x0))) < BoulderChance
                      then Stone else old(Get(x', y'))
      {
        BoulderRow(rng, cx, r, y);
        if 0 <= y < height {
          assert (y + 1 - y0) * (x1 - x0) == (y - y0) * (x1 - x0) + (x1 - x0);
        }
        y := y + 1;
      }
    }

    /**
     * `generate(seed)`, with the seeded stream given as its raw draws `src`. The ghost
     * result lists each column's surface row gy. Below and on the surface lies the
     * terrain; above it only AIR, WATER, tree LOGs on the two rows over the surface,
     * and boulder STONE above the nominal ground row.
     */
    method Generate(src: nat -> int) returns (ghost surface: seq<int>)
      requires Valid() && 0 < width && 5 <= height
      modifies tiles
      ensures Shaped(surface)
      ensures surface[0] == Clamp(Base(height) + src(0) % 5 - 2, 4, height - 4)
    {
      Fill(Air);
      var rng := new Rng(src);
      surface := Columns(rng);
      Boulders(rng, surface);
    }

    /** One column as the column loop sees it: terrain from gy down, and above it what may lie over the ground. */
    method ShapeColumn(rng: Rng, x: int) returns (gy: int)
      requires Valid() && 0 <= x < width && 5 <= height
      requires forall y :: 0 <= y < height ==> Get(x, y) == Air || Get(x, y) == Water
      modifies tiles, rng
      ensures gy == Clamp(Base(height) + rng.src(old(rng.drawn)) % 5 - 2, 4, height - 4)
      ensures 4 <= gy < height && rng.drawn > old(rng.drawn)
      ensures Clamp(Base(height) - 2, 4, height - 4) <= gy <= Clamp(Base(height) + 2, 4, height - 4)
      ensures forall x', y' :: 0 <= x' < x && 0 <= y' < height ==> Get(x', y') == old(Get(x', y'))
      ensures forall x', y' :: x < x' < width && 0 <= y' < height && (old(Get(x', y')) == Air || old(Get(x', y')) == Water) ==>
                Get(x', y') == Air || Get(x', y') == Water
      ensures forall y :: gy <= y < height ==> Get(x, y) == TerrainTile(y, gy)
      ensures forall y :: 0 <= y < gy ==> AboveGround(Get(x, y), y, gy, 0)
    {
      gy := Column(rng, x);
    }

    /** The column loop of `generate` over an all-AIR grid: each column's surface and what lies above it. */
    method Columns(rng: Rng) returns (ghost surface: seq<int>)
      requires Valid() && 0 < width && 5 <= height && rng.drawn == 0
      requires forall x, y :: InBounds(x, y) ==> Get(x, y) == Air
      modifies tiles, rng
      ensures |surface| == width
      ensures surface[0] == Clamp(Base(height) + rng.src(0) % 5 - 2, 4, height - 4)
      ensures forall i :: 0 <= i < width ==>
                4 <= surface[i] < height &&
                Clamp(Base(height) - 2, 4, height - 4) <= surface[i] <= Clamp(Base(height) + 2, 4, height - 4)
      ensures forall i, y :: 0 <= i < width && surface[i] <= y < height ==> Get(i, y) == TerrainTile(y, surface[i])
      ensures forall i, y :: 0 <= i < width && 0 <= y < surface[i] ==> AboveGround(Get(i, y), y, surface[i], 0)
    {
      surface := [];
      var x := 0;
      while x < width
        invariant 0 <= x <= width && |surface| == x
        invariant x > 0 ==> surface[0] == Clamp(Base(height) + rng.src(0) % 5 - 2, 4, height - 4)
        invariant x == 0 ==> rng.drawn == 0
        invariant forall i :: 0 <= i < x ==>
                    4 <= surface[i] < height &&
                    Clamp(Base(height) - 2, 4, height - 4) <= surface[i] <= Clamp(Base(height) + 2, 4, height - 4)
        invariant forall i, y :: 0 <= i < x && surface[i] <= y < height ==> Get(i, y) == TerrainTile(y, surface[i])
        invariant forall i, y :: 0 <= i < x && 0 <= y < surface[i] ==> AboveGround(Get(i, y), y, surface[i], 0)
        invariant forall i, y :: x <= i < width && 0 <= y < height ==> Get(i, y) == Air || Get(i, y) == Water
      {
        var gy := ShapeColumn(rng, x);
        surface := surface + [gy];
        x := x + 1;
      }
    }

    /**
     * The 60 boulder clusters: they keep the terrain, and every cell either keeps its
     * tile or was AIR and became STONE above the nominal ground row.
     */
    method Boulders(rng: Rng, ghost surface: seq<int>)
      requires Valid() && 0 < width && 5 <= height && |surface| == width
      requires forall x, y :: 0 <= x < width && surface[x] <= y < height ==> Get(x, y) == TerrainTile(y, surface[x])
      requires forall x, y :: 0 <= x < width && 0 <= y < surface[x] ==> AboveGround(Get(x, y), y, surface[x], 0)
      modifies tiles, rng
      ensures forall x, y :: 0 <= x < width && surface[x] <= y < height ==> Get(x, y) == TerrainTile(y, surface[x])
      ensures forall x, y :: 0 <= x < width && 0 <= y < surface[x] ==> AboveGround(Get(x, y), y, surface[x], Base(height))
      ensures forall x, y ::
                Get(x, y) == old(Get(x, y)) ||
                (old(Get(x, y)) == Air && Get(x, y) == Stone && InBounds(x, y) && y < Base(height))
    {
      var i := 0;
      while i < 60
        invariant forall x, y :: 0 <= x < width && surface[x] <= y < height ==> Get(x, y) == TerrainTile(y, surface[x])
        invariant forall x, y :: 0 <= x < width && 0 <= y < surface[x] ==> AboveGround(Get(x, y), y, surface[x], Base(height))
        invariant forall x, y ::
                    Get(x, y) == old(Get(x, y)) ||
                    (old(Get(x, y)) == Air && Get(x, y) == Stone && InBounds(x, y) && y < Base(height))
      {
        Boulder(rng);
        i := i + 1;
      }
    }
  }
}
