/**
 * The session (GameState.java): the generated world, the player placed by a ring
 * search around the centre, the creature beside it, the AI stream, and the hotbar
 * selection that the player mirrors.
 */
module Session {

  import opened TileCatalog
  import opened Grid
  import opened Draws
  import opened Inventories
  import opened Players
  import opened Mobs
  import opened JavaText

  /** The placeable palette, in slot order. */
  const Hotbar: seq<TileType> := [Dirt, Grass, Stone, Log, Planks, Water]

  /** 2^64, the number of 64-bit patterns. */
  const Two64: int := 0x1_0000_0000_0000_0000

  /** The constant `0x9E3779B97F4A7C15L` as an unsigned 64-bit pattern. */
  const MixConstant: nat := 0x9E37_79B9_7F4A_7C15

  function Pow2(n: nat): nat {
    if n == 0 then 1 else 2 * Pow2(n - 1)
  }

  /** A long's 64-bit two's-complement pattern, as an unsigned number. */
  function Unsigned(n: int): nat
    requires MinLong <= n <= MaxLong
  {
    if n < 0 then n + Two64 else n
  }

  /** An unsigned 64-bit pattern read as a two's-complement long. */
  function Long(u: int): int {
    if u > MaxLong then u - Two64 else u
  }

  /** The bitwise exclusive or of the low n bits of a and b. */
  function Xor(a: nat, b: nat, n: nat): nat {
    if n == 0 then 0 else (a % 2 + b % 2) % 2 + 2 * Xor(a / 2, b / 2, n - 1)
  }

  /** `seed ^ 0x9E3779B97F4A7C15L` on 64-bit two's-complement longs: the AI stream's seed. */
  function MixSeed(seed: int): int
    requires MinLong <= seed <= MaxLong
  {
    Long(Xor(Unsigned(seed), MixConstant, 64))
  }

  /** The mixed seed is again a long, and mixing twice gives back the seed. */
  lemma MixSeedInvolutive(seed: int)
    requires MinLong <= seed <= MaxLong
    ensures MinLong <= MixSeed(seed) <= MaxLong
    ensures MixSeed(MixSeed(seed)) == seed
  {
    var u := Unsigned(seed);
    Pow2Is64();
    XorBound(u, MixConstant, 64);
    XorTwice(u, MixConstant, 64);
  }

  /** Seed 0 mixes to the constant itself, which as a Java long is negative. */
  lemma MixSeedZero()
    ensures MixSeed(0) == -7046029254386353131
  {
    Pow2Is64();
    XorZero(MixConstant, 64);
  }

  lemma {:induction false} Pow2Add(a: nat, b: nat)
    ensures Pow2(a + b) == Pow2(a) * Pow2(b)
    decreases a
  {
    if a > 0 {
      Pow2Add(a - 1, b);
    }
  }

  lemma Pow2Is64()
    ensures Pow2(64) == Two64
  {
    assert Pow2(1) == 2;
    Pow2Add(1, 1);
    Pow2Add(2, 2);
    Pow2Add(4, 4);
    Pow2Add(8, 8);
    Pow2Add(16, 16);
    Pow2Add(32, 32);
  }

  lemma {:induction false} XorBound(a: nat, b: nat, n: nat)
    ensures Xor(a, b, n) < Pow2(n)
  {
    if n > 0 {
      XorBound(a / 2, b / 2, n - 1);
    }
  }

  lemma {:induction false} XorZero(b: nat, n: nat)
    requires b < Pow2(n)
    ensures Xor(0, b, n) == b
  {
    if n > 0 {
      XorZero(b / 2, n - 1);
    }
  }

  /** A bit followed by higher bits: the low bit and the rest come back out. */
  lemma Digit(t: nat, hi: nat)
    requires t < 2
    ensures (t + 2 * hi) % 2 == t && (t + 2 * hi) / 2 == hi
  {
  }

  /** One step of Xor: its low bit and its remaining bits. */
  lemma XorStep(a: nat, b: nat, n: nat)
    requires n > 0
    ensures Xor(a, b, n) % 2 == (a % 2 + b % 2) % 2
    ensures Xor(a, b, n) / 2 == Xor(a / 2, b / 2, n - 1)
  {
    Digit((a % 2 + b % 2) % 2, Xor(a / 2, b / 2, n - 1));
  }

  /** Adding the same bit twice, modulo 2, gives back the first bit. */
  lemma BitTwice(p: nat, q: nat)
    requires p < 2 && q < 2
    ensures ((p + q) % 2 + q) % 2 == p
  {
  }

  lemma {:induction false} XorTwice(a: nat, b: nat, n: nat)
    requires a < Pow2(n)
    ensures Xor(Xor(a, b, n), b, n) == a
  {
    if n > 0 {
      var x := Xor(a, b, n);
      var p, q, hi := a % 2, b % 2, a / 2;
      XorStep(a, b, n);
      XorStep(x, b, n);
      assert hi < Pow2(n - 1);
      XorTwice(hi, b / 2, n - 1);
      BitTwice(p, q);
      Digit(p, hi);
      Digit(Xor(x, b, n) % 2, Xor(x, b, n) / 2);
    }
  }

  /** A tile the spawn search accepts: inside the grid, not solid and not WATER. */
  ghost predicate Open(w: World, x: int, y: int)
    requires w.Valid()
    reads w.tiles
  {
    w.InBounds(x, y) && !w.Get(x, y).Solid() && w.Get(x, y) != Water
  }

  /**
   * (x, y) is where the search stops, in ring r: the square of half-side r around the
   * centre holds it, the smaller squares hold no open tile, and no open tile of square
   * r comes before it row by row (dy ascending, then dx ascending).
   */
  ghost predicate FirstOpen(w: World, r: int, x: int, y: int)
    requires w.Valid()
    reads w.tiles
  {
    var sx, sy := w.width / 2, w.height / 2;
    && 0 <= r < 40
    && Open(w, x, y) && Dist(x, sx) <= r && Dist(y, sy) <= r
    && (forall x', y' :: Dist(x', sx) < r && Dist(y', sy) < r ==> !Open(w, x', y'))
    && (forall x', y' :: Dist(x', sx) <= r && Dist(y', sy) <= r && (y' < y || (y' == y && x' < x)) ==>
          !Open(w, x', y'))
  }

  /** No open tile lies within 39 tiles of the centre on both axes. */
  ghost predicate NoneOpen(w: World)
    requires w.Valid()
    reads w.tiles
  {
    forall x, y :: Dist(x, w.width / 2) < 40 && Dist(y, w.height / 2) < 40 ==> !Open(w, x, y)
  }

  /**
   * The spawn search of the constructor: rings r = 0..39 around (width/2, height/2), each
   * scanned over its whole square, dy ascending, then dx ascending; the first open tile
   * wins and the player goes to its centre. With none, the player stays at
   * (width/2 + 0.5, height/2 + 0.5) in real division.
   */
  method FindSpawn(w: World) returns (px: real, py: real, ghost found: bool, ghost tx: int, ghost ty: int, ghost ring: int)
    requires w.Valid()
    ensures found ==> FirstOpen(w, ring, tx, ty) && px == tx as real + 0.5 && py == ty as real + 0.5
    ensures !found ==> NoneOpen(w) && px == w.width as real / 2.0 + 0.5 && py == w.height as real / 2.0 + 0.5
  {
    px := w.width as real / 2.0 + 0.5;
    py := w.height as real / 2.0 + 0.5;
    var sx := w.width / 2;
    var sy := w.height / 2;
    found, tx, ty, ring := false, 0, 0, 0;
    var r := 0;
    while r < 40
      invariant 0 <= r <= 40
      invariant forall x, y :: Dist(x, sx) < r && Dist(y, sy) < r ==> !Open(w, x, y)
    {
      var dy := -r;
      while dy <= r
        invariant -r <= dy <= r + 1
        invariant forall x, y :: Dist(x, sx) <= r && Dist(y, sy) <= r && y < sy + dy ==> !Open(w, x, y)
      {
        var dx := -r;
        while dx <= r
          invariant -r <= dx <= r + 1
          invariant forall x :: Dist(x, sx) <= r && x < sx + dx ==> !Open(w, x, sy + dy)
        {
          var x := sx + dx;
          var y := sy + dy;
          if w.InBounds(x, y) && !w.Get(x, y).Solid() && w.Get(x, y) != Water {
            px := x as real + 0.5;
            py := y as real + 0.5;
            found, tx, ty, ring := true, x, y, r;
            return;
          }
          dx := dx + 1;
        }
        dy := dy + 1;
      }
      r := r + 1;
    }
  }

  /** The real coordinate of the middle of tile t. */
  function Centre(t: int): real {
    t as real + 0.5
  }

  /**
   * Where the spawn search leaves the player on w: the centre of the first open tile, or
   * the grid centre (in real division) when no tile within 39 of it is open.
   */
  ghost predicate SpawnedAt(w: World, px: real, py: real)
    requires w.Valid()
    reads w.tiles
  {
    || (exists r: int, tx: int, ty: int :: FirstOpen(w, r, tx, ty) && px == Centre(tx) && py == Centre(ty))
    || (NoneOpen(w) && px == w.width as real / 2.0 + 0.5 && py == w.height as real / 2.0 + 0.5)
  }

  /** The search's answer is unique: one ring, one tile. */
  lemma FirstOpenUnique(w: World, r1: int, x1: int, y1: int, r2: int, x2: int, y2: int)
    requires w.Valid() && FirstOpen(w, r1, x1, y1) && FirstOpen(w, r2, x2, y2)
    ensures r1 == r2 && x1 == x2 && y1 == y2
  {
  }

  /** The AI's generator: `new Random(seed ^ 0x9E3779B97F4A7C15L)`. */
  method AiRng(seed: int, stream: int -> (nat -> int)) returns (g: Rng)
    requires MinLong <= seed <= MaxLong
    ensures fresh(g) && g.src == stream(MixSeed(seed)) && g.drawn == 0
  {
    g := new Rng(stream(MixSeed(seed)));
  }

  /**
   * The world part of the constructor: a w×h grid generated from the seed's draws, and
   * the spawn the ring search picks on it.
   */
  method Generated(w: int, h: int, src: nat -> int) returns (wd: World, px: real, py: real, ghost surface: seq<int>)
    requires 0 < w && 5 <= h
    ensures fresh(wd) && fresh(wd.tiles) && wd.Valid() && wd.width == w && wd.height == h
    ensures wd.Shaped(surface)
    ensures SpawnedAt(wd, px, py)
  {
    wd := new World(w, h);
    surface := wd.Generate(src);
    ghost var found, tx, ty, ring;
    px, py, found, tx, ty, ring := FindSpawn(wd);
    if found {
      assert FirstOpen(wd, ring, tx, ty) && px == Centre(tx) && py == Centre(ty);
    }
  }

  /** The objects the constructor creates: the generated world, the player on its spawn, the mob six tiles to the right, and the AI's generator. */
  method Parts(w: int, h: int, seed: int, stream: int -> (nat -> int))
      returns (wd: World, p: Player, m: Mob, g: Rng, ghost surface: seq<int>)
    requires 0 < w && 5 <= h && MinLong <= seed <= MaxLong
    ensures fresh(wd) && fresh(wd.tiles) && fresh(p) && fresh(p.inventory) && fresh(m) && fresh(g)
    ensures wd.Valid() && wd.width == w && wd.height == h && wd.Shaped(surface)
    ensures SpawnedAt(wd, p.x, p.y) && p.selectedIndex == 0
    ensures p.inventory.Valid() && p.inventory.counts == Start
    ensures m.x == p.x + 6.0 && m.y == p.y && m.moveCooldown == 0.0
    ensures g.src == stream(MixSeed(seed)) && g.drawn == 0
  {
    var px, py;
    wd, px, py, surface := Generated(w, h, stream(seed));
    g := AiRng(seed, stream);
    p := new Player(px, py);
    m := new Mob(p.x + 6.0, p.y);
  }

  class GameState {
    const seed: int
    const world: World
    const player: Player
    var selectedIndex: int
    const mob: Mob
    const rng: Rng

    ghost predicate Valid()
      reads this, player, player.inventory
    {
      && MinLong <= seed <= MaxLong
      && world.Valid() && 0 < world.width && 5 <= world.height && player.inventory.Valid()
      && 0 <= selectedIndex < |Hotbar| && player.selectedIndex == selectedIndex
    }

    /**
     * `new GameState(w, h, seed)`. `stream(s)` stands for the draws of `new Random(s)`:
     * the world is generated from the seed's stream and the AI uses the stream of the
     * mixed seed. Java throws for w <= 0 or h < 5 (a bound of 0 given to `nextInt`).
     */
    constructor (w: int, h: int, seed: int, stream: int -> (nat -> int))
      requires 0 < w && 5 <= h && MinLong <= seed <= MaxLong
      ensures Valid() && this.seed == seed && selectedIndex == 0
      ensures fresh(world) && fresh(world.tiles) && fresh(player) && fresh(player.inventory)
      ensures fresh(mob) && fresh(rng)
      ensures world.width == w && world.height == h
      ensures exists surface :: world.Shaped(surface)
      ensures rng.src == stream(MixSeed(seed)) && rng.drawn == 0
      ensures player.inventory.counts == Start
      ensures SpawnedAt(world, player.x, player.y)
      ensures mob.x == player.x + 6.0 && mob.y == player.y && mob.moveCooldown == 0.0
    {
      this.seed := seed;
      var wd, p, m, g, surface := Parts(w, h, seed, stream);
      world, player, mob, rng := wd, p, m, g;
      selectedIndex := 0;
      new;
      SyncSelectionToPlayer();
      assert world.Shaped(surface);
    }

    /** `selectedTile()`: the hotbar slot at the selection clamped into [0, 5]; never AIR. */
    function SelectedTile(): (t: TileType)
      reads this
      ensures t != Air && t in Hotbar
      ensures 0 <= selectedIndex < |Hotbar| ==> t == Hotbar[selectedIndex]
      ensures selectedIndex < 0 ==> t == Dirt
      ensures selectedIndex >= |Hotbar| ==> t == Water
    {
      Hotbar[Max(0, Min(|Hotbar| - 1, selectedIndex))]
    }

    /** `setSelectedIndex(idx)`: `floorMod(idx, 6)`, mirrored into the player. */
    method SetSelectedIndex(idx: int)
      requires Valid()
      modifies this`selectedIndex, player`selectedIndex
      ensures Valid()
      ensures selectedIndex == SelectionIndex(idx, |Hotbar|) && player.selectedIndex == selectedIndex
    {
      selectedIndex := idx % |Hotbar|;
      SyncSelectionToPlayer();
    }

    /** `syncSelectionToPlayer()`. */
    method SyncSelectionToPlayer()
      modifies player`selectedIndex
      ensures player.selectedIndex == SelectionIndex(selectedIndex, |Hotbar|)
    {
      player.SetSelectedIndex(selectedIndex, |Hotbar|);
    }
  }
}
