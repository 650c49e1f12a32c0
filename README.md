# block-craft engine model

A Dafny model of the simulation engine of block-craft, a small libGDX tile game. Rendering, input polling and file access are left out. The model covers eight parts:

- **Grid** (`world.dfy`, module `Grid`). The row-major tile array is a class over an `array<TileType>`, with bounds-checked `get`/`set`, `fill` and the constructor. A read outside the grid returns STONE and a write outside it does nothing.
  - The seeded generator is written as the same nested loops as `generate`. It draws from an abstract random stream.
  - Its contracts state each column's terrain (GRASS, then two DIRT, then STONE), the water pools and trees written only into AIR, and the boulder clusters turning only AIR into STONE.
  - They also state the shape every generated grid has (`Shaped`).
- **Tile catalogue** (`tiles.dfy`, module `TileCatalog`). The seven kinds with their `solid`/`mineable` flags, their enum names and `valueOf`.
- **Inventory** (`inventory.dfy`, module `Inventories`). A class whose `counts` map `add` and `take` update in place. A stored count is always positive. The starting stock is 25 DIRT and 12 PLANKS. `snapshot` yields the entries in ordinal order.
- **Player** (`player.dfy`, module `Players`):
  - the wrap-around hotbar index;
  - `setPos`;
  - `move`, with per-axis collision against a square collider of half-width 0.28;
  - `collides`, whose nested loop is kept;
  - the reach test.
- **Session** (`game_state.dfy`, module `Session`):
  - the fixed hotbar, `selectedTile`, `setSelectedIndex` and `syncSelectionToPlayer`;
  - the constructor, with world generation, the AI stream seeded by `seed ^ 0x9E3779B97F4A7C15L`, and the ring search for a spawn tile;
  - the mob placed six tiles to the right of the player.
- **Creature** (`mob.dfy`, module `Mobs`). `update` gates on a cooldown, draws a new cooldown and a direction, and takes one cardinal step. The step is rejected when the target is out of bounds, solid, or the player's tile.
- **Mine and place** (`interaction.dfy`, module `Interaction`). `mineAtMouse` and `placeAtMouse` act on a tile already known to be within reach. The selection parts of `keyDown` (keys 1 to 6) and `scrolled` are modelled too.
- **Save format** (`save_system.dfy`, module `SaveFormat`, with Java string helpers in `java_text.dfy`, module `JavaText`):
  - `save` produces the file as a sequence of lines, built by the same loops.
  - `load` consumes such a sequence and rebuilds a fresh session. It fails with `NotASave` where Java returns `null` and with `Malformed` where Java throws.
  - A decoding function `Decode` specifies `load`. `DecodeEncode` proves that decoding what `save` wrote returns the saved data.

Random draws come from the class `Rng` (module `Draws`): a stream `src: nat -> int` and a count of the values drawn so far.
- `nextInt(b)` is the next value modulo b.
- `nextFloat()` is the low 24 bits of the next value over 2^24.
- Which stream `new Random(seed)` yields is a parameter `stream: int -> (nat -> int)`.

Java's float-to-text and text-to-float conversions for the player's position are parameters `fmt` and `parseReal`. `FloatText` states the round trip the proofs assume of them.

Where the documented design and the code disagree, the model follows the code:
- The boulder clusters fill a square of radius r, not a disc.
- The documented save/load round trip does not hold for the inventory; see Findings.
- `World.java:55` names a `TileType.GOLD` that the enum does not declare. The model keeps the seven kinds, and that branch writes STONE, with its random draw still consumed.

## Model

| member | source | states |
|---|---|---|
| TileCatalog.ValueOf | src/main/java/blockcraft/TileType.java:5-12 | `valueOf(s)` yields a kind exactly when s is that kind's enum name |
| TileCatalog.CatalogueIsComplete | src/main/java/blockcraft/TileType.java:5-12 | there are exactly seven kinds, each listed once in ordinal order |
| TileCatalog.SolidIffMineable | src/main/java/blockcraft/TileType.java:6-12 | every kind is solid exactly when it is mineable; the non-solid kinds are exactly AIR and WATER |
| TileCatalog.ValueOfName | src/main/java/blockcraft/TileType.java:5-12 | `valueOf(t.name())` is t for every kind |
| Inventories.Added | src/main/java/blockcraft/Inventory.java:19-22 | `add(t, a)` raises t's count by a when a > 0, changes nothing when a <= 0, leaves other kinds alone and keeps every stored count positive |
| Inventories.Taken | src/main/java/blockcraft/Inventory.java:24-31 | `take` succeeds exactly when enough is held; on failure nothing changes; on success t's count drops by the amount, the entry is removed at zero, and positivity is kept |
| Inventories.Inventory.constructor | src/main/java/blockcraft/Inventory.java:10-13 | a new inventory holds exactly the starting stock |
| Inventories.Inventory.Get | src/main/java/blockcraft/Inventory.java:15-17 | a kind with no entry reads 0; a stored kind reads its stored count, which is positive |
| Inventories.Inventory.Add | src/main/java/blockcraft/Inventory.java:19-22 | the counts become `Added` of the old counts and stay positive |
| Inventories.Inventory.Take | src/main/java/blockcraft/Inventory.java:24-31 | the result and the new counts are `Taken` of the old counts, and stay positive |
| Inventories.Inventory.Snapshot | src/main/java/blockcraft/Inventory.java:33-35 | every listed entry is a stored kind with its stored count, and every stored kind is listed with its count |
| Inventories.StartStock | src/main/java/blockcraft/Inventory.java:10-13 | the starting stock is 25 DIRT, 12 PLANKS and nothing else, all positive |
| Inventories.TakeThenAddRestores | src/main/java/blockcraft/Inventory.java:19-31 | `take(t, a)` then `add(t, a)` with 0 < a <= held restores the counts exactly |
| Inventories.AddThenTakeRestores | src/main/java/blockcraft/Inventory.java:19-31 | `add(t, a)` then `take(t, a)` with a > 0 succeeds and restores the counts exactly |
| Inventories.TakeMoreThanHeldFails | src/main/java/blockcraft/Inventory.java:24-26 | taking one more than is held fails and changes nothing |
| Inventories.ListFromEntries | src/main/java/blockcraft/Inventory.java:33-35 | the snapshot's entries are exactly the stored kinds with their counts |
| Inventories.AddAllListing | src/main/java/blockcraft/Inventory.java:33-35 | adding every snapshot entry of c to m gives, for each kind, m's count plus c's count |
| Inventories.AddAllPositive | src/main/java/blockcraft/Inventory.java:19-22 | any sequence of `add` calls keeps every stored count positive |
| Inventories.AddAllListingRestores | src/main/java/blockcraft/Inventory.java:19-35 | adding a snapshot's entries to an empty inventory rebuilds exactly the inventory it was taken from |
| Draws.Fraction | src/main/java/blockcraft/World.java:59 | a float draw lies in [0, 1) |
| Draws.Rng.NextInt | src/main/java/blockcraft/World.java:47 | `nextInt(b)` consumes one draw and returns it modulo b, within [0, b) |
| Draws.Rng.NextFloat | src/main/java/blockcraft/World.java:59 | `nextFloat()` consumes one draw and returns its fraction, within [0, 1) |
| Players.SelectionIndex | src/main/java/blockcraft/Player.java:57-63 | 0 for a non-positive length, else an index within [0, len) that wraps one length either way |
| Players.Player.constructor | src/main/java/blockcraft/Player.java:19-29 | a new player stands at the start position with selection 0 and a fresh inventory holding the starting stock |
| Players.Player.SetPos | src/main/java/blockcraft/Player.java:38-41 | the position becomes the given one and nothing else changes |
| Players.Player.SetSelectedIndex | src/main/java/blockcraft/Player.java:57-63 | the stored index is `SelectionIndex(idx, len)` |
| Players.Player.Collides | src/main/java/blockcraft/Player.java:98-110 | true exactly when a tile under the 0.28 collider is solid, out-of-grid cells counting as STONE |
| Players.Player.Move | src/main/java/blockcraft/Player.java:69-88 | zero displacement changes nothing; otherwise each axis moves all-or-nothing, y tested at the new x; a collision-free position stays collision-free; only x and y change |
| Players.Player.CanReach | src/main/java/blockcraft/Player.java:90-96 | a tile passes the distance test only when its centre lies within the reach of 4 tiles on each axis |
| Players.ReachIsBounded | src/main/java/blockcraft/Player.java:90-96 | a reachable tile lies within four tiles of the player on each axis |
| Players.ReachesOwnTile | src/main/java/blockcraft/Player.java:90-96 | the player can always reach the tile it stands on |
| Mobs.Round | src/main/java/blockcraft/Mob.java:51-52 | `Math.round` is the integer within half a tile, halves rounding up |
| Mobs.RoundShift | src/main/java/blockcraft/Mob.java:51-52 | rounding commutes with an integer shift |
| Mobs.Direction | src/main/java/blockcraft/Mob.java:42-49 | each direction draw is a unit step along exactly one axis: 0 and 1 along x, 2 and 3 along y, the even ones the positive way |
| Mobs.StepIsCardinal | src/main/java/blockcraft/Mob.java:42-52 | the target tile is exactly one cardinal step from the mob's rounded tile |
| Mobs.StepAllowed | src/main/java/blockcraft/Mob.java:54-58 | an allowed step targets an in-bounds tile that is AIR or WATER |
| Mobs.Mob.constructor | src/main/java/blockcraft/Mob.java:9-12 | a new mob stands at the given position with zero cooldown |
| Mobs.Mob.SetPos | src/main/java/blockcraft/Mob.java:21-24 | the position becomes the given one |
| Mobs.Mob.Update | src/main/java/blockcraft/Mob.java:36-62 | while the cooldown stays positive nothing is drawn and nothing moves; on expiry exactly two draws are taken, the cooldown lands in [0.25, 0.5), and the mob moves to the target exactly when it is in bounds, not solid and not the player's tile |
| Grid.Clamp | src/main/java/blockcraft/World.java:92-94 | the value pulled into [lo, hi], unchanged inside it |
| Grid.TerrainTile | src/main/java/blockcraft/World.java:52-55 | the tile for a row at or below the surface is solid and mineable |
| Grid.IndexInRange | src/main/java/blockcraft/World.java:30-38 | the row-major index of an in-bounds cell lies inside the array |
| Grid.IndexInjective | src/main/java/blockcraft/World.java:30-38 | distinct in-bounds cells have distinct row-major indices |
| Grid.World.InBounds | src/main/java/blockcraft/World.java:26-28 | an in-bounds coordinate has its row-major index inside the tile array |
| Grid.World.constructor | src/main/java/blockcraft/World.java:15-20 | a new grid has the given size and is all AIR |
| Grid.World.Get | src/main/java/blockcraft/World.java:30-33 | any coordinate outside the grid reads STONE |
| Grid.World.Fill | src/main/java/blockcraft/World.java:22-24 | every cell becomes t |
| Grid.World.Set | src/main/java/blockcraft/World.java:35-38 | an in-bounds write changes that cell to t and no other; an out-of-bounds write changes nothing |
| Grid.World.Terrain | src/main/java/blockcraft/World.java:50-56 | one draw per row from the surface down; GRASS, then two DIRT, then STONE; other columns unchanged |
| Grid.World.Pool | src/main/java/blockcraft/World.java:62-64 | only AIR cells of row poolY from x up to min(width, x + poolW) become WATER |
| Grid.World.Tree | src/main/java/blockcraft/World.java:69-73 | a trunk needs ty >= 2, AIR at ty and a solid tile below; it writes LOG only into AIR |
| Grid.World.Column | src/main/java/blockcraft/World.java:47-74 | one column step: the surface is the clamped bump, the terrain lies below it, a pool goes to the right only into AIR, a tree only onto AIR, and the draws used are counted |
| Grid.World.Decorate | src/main/java/blockcraft/World.java:58-74 | the pool and tree part of a column, writing only into AIR above the surface |
| Grid.World.ShapeColumn | src/main/java/blockcraft/World.java:46-75 | after one column step, the column has terrain from the surface down and only AIR, WATER or a two-row LOG trunk above; earlier columns are unchanged |
| Grid.World.Columns | src/main/java/blockcraft/World.java:46-75 | every surface lies within two rows of the nominal ground, clamped to [4, height-4], with terrain on and below it and only AIR, WATER or LOG above |
| Grid.World.BoulderRow | src/main/java/blockcraft/World.java:83-87 | one row of a square: each in-bounds cell takes the next draw, left to right, and becomes STONE exactly when it was AIR and the draw is under 0.65f; out-of-bounds cells take none |
| Grid.World.BoulderSquare | src/main/java/blockcraft/World.java:82-88 | the whole square: its in-bounds rectangle draws once per cell in row order, so the draw count is the rectangle's area, and each cell becomes STONE exactly when it was AIR and its own draw is under 0.65f |
| Grid.World.Boulder | src/main/java/blockcraft/World.java:79-88 | the centre and radius come from the first three draws; then the square rule of `BoulderSquare`, so exactly 3 + area draws are taken; every cell keeps its tile or goes from AIR to STONE above the nominal ground row |
| Grid.World.Boulders | src/main/java/blockcraft/World.java:78-89 | the 60 clusters keep the terrain, and every cell keeps its tile or goes from AIR to STONE above the nominal ground row |
| Grid.World.Generate | src/main/java/blockcraft/World.java:40-90 | the generated grid has the shape of `Shaped`, and the first surface row is fixed by the first draw |
| Session.FindSpawn | src/main/java/blockcraft/GameState.java:28-47 | either the first open tile in ring, dy, dx order with the player at its centre, or no open tile in 40 rings and the grid centre |
| Session.FirstOpenUnique | src/main/java/blockcraft/GameState.java:33-47 | the search order picks at most one tile |
| Session.MixSeedInvolutive | src/main/java/blockcraft/GameState.java:25 | `seed ^ 0x9E3779B97F4A7C15L` on 64-bit longs is again a long, and mixing twice gives the seed back |
| Session.MixSeedZero | src/main/java/blockcraft/GameState.java:25 | seed 0 mixes to the constant read as a signed long, -7046029254386353131 |
| Session.AiRng | src/main/java/blockcraft/GameState.java:25 | a fresh generator on the stream of the mixed seed, nothing drawn yet |
| Session.Generated | src/main/java/blockcraft/GameState.java:22-47 | a fresh valid grid of the given size with the generated shape, and the spawn the ring search picks on it |
| Session.Parts | src/main/java/blockcraft/GameState.java:22-52 | the fresh grid, player, mob and generator of a new session: the player on the spawn with the starting stock, the mob six tiles to its right with zero cooldown, the generator on the mixed seed |
| Session.GameState.constructor | src/main/java/blockcraft/GameState.java:20-54 | fresh objects throughout: a generated grid of the given size, the AI stream seeded from the mixed seed, the starting stock, the player where the ring search stops (`SpawnedAt`), the mob six tiles to the right with zero cooldown, and selection 0 for state and player |
| Session.GameState.SelectedTile | src/main/java/blockcraft/GameState.java:56-58 | the hotbar slot at the clamped index; never AIR |
| Session.GameState.SetSelectedIndex | src/main/java/blockcraft/GameState.java:60-63 | the state's index is `floorMod(idx, 6)` and the player's mirrors it |
| Session.GameState.SyncSelectionToPlayer | src/main/java/blockcraft/GameState.java:65-67 | the player's index becomes the state's index wrapped to the hotbar |
| Interaction.Mined | src/main/java/blockcraft/BlockCraftGame.java:131-136 | mining succeeds exactly on a tile that is not AIR and is mineable, adds exactly one of that kind and keeps counts positive |
| Interaction.Placed | src/main/java/blockcraft/BlockCraftGame.java:143-150 | placing succeeds exactly on AIR with a held, non-AIR selection, and removes exactly one of the selected kind |
| Interaction.MineAt | src/main/java/blockcraft/BlockCraftGame.java:127-137 | the counts become `Mined` of the old tile, and the tile becomes AIR only on success and only inside the grid |
| Interaction.PlaceAt | src/main/java/blockcraft/BlockCraftGame.java:139-151 | the counts become `Placed` of the old tile, and only on success does the in-grid tile become the selected kind |
| Interaction.MineThenPlaceCounts | src/main/java/blockcraft/BlockCraftGame.java:127-151 | mining a kind and placing it back leaves the counts unchanged |
| Interaction.MineThenPlace | src/main/java/blockcraft/BlockCraftGame.java:127-151 | mining an in-grid tile and placing the same selected kind back restores both grid and inventory |
| Interaction.MineOutsideGrid | src/main/java/blockcraft/BlockCraftGame.java:131-136 | mining an in-reach coordinate outside the grid gains exactly one STONE |
| Interaction.PlaceOutsideGrid | src/main/java/blockcraft/BlockCraftGame.java:143-144 | placing outside the grid never happens |
| Interaction.MinedCell | src/main/java/blockcraft/BlockCraftGame.java:131-136 | corrected mining: nothing outside the grid; inside it agrees with `Mined`; every gained block comes from an in-grid tile of that kind |
| Interaction.KeySelection | src/main/java/blockcraft/BlockCraftGame.java:56-58 | key `NUM_n` selects slot n-1; other keys keep the selection |
| Interaction.ScrollSelection | src/main/java/blockcraft/BlockCraftGame.java:63-67 | a positive scroll moves one slot on and any other one slot back, wrapping at both ends |
| Interaction.ScrollBackAndForth | src/main/java/blockcraft/BlockCraftGame.java:63-67 | scrolling one way and back returns to the same slot |
| Interaction.KeyDown | src/main/java/blockcraft/BlockCraftGame.java:46-60 | the selection becomes `KeySelection` of the key, mirrored into the player |
| Interaction.Scrolled | src/main/java/blockcraft/BlockCraftGame.java:63-67 | the selection becomes `ScrollSelection`, mirrored into the player |
| JavaText.TrimTrimmed | src/main/java/blockcraft/SaveSystem.java:98-102 | `trim()` leaves alone text that starts and ends with a visible character |
| JavaText.SplitJoin | src/main/java/blockcraft/SaveSystem.java:70-77 | `split(d)` of parts joined by d gives the parts back when none holds d and the last is non-empty |
| JavaText.ParseIntToString | src/main/java/blockcraft/SaveSystem.java:109-111 | parsing a number's decimal text gives the number back |
| SaveFormat.FromChar | src/main/java/blockcraft/SaveSystem.java:125-136 | any character outside `.gdswlp` reads as AIR |
| SaveFormat.ToChar | src/main/java/blockcraft/SaveSystem.java:113-123 | each kind's character is in `.gdswlp` and reads back as that kind |
| SaveFormat.CharTileRoundTrip | src/main/java/blockcraft/SaveSystem.java:113-136 | each table character survives `fromChar` then `toChar` |
| SaveFormat.RowsOf | src/main/java/blockcraft/SaveSystem.java:47-52 | the grid as height rows of width kinds, cell for cell |
| SaveFormat.EncodeRows | src/main/java/blockcraft/SaveSystem.java:46-52 | after the eight header lines come exactly height lines of width characters that read back as the grid |
| SaveFormat.JoinEntries | src/main/java/blockcraft/SaveSystem.java:38-43 | the entries as `NAME:count` joined by commas, empty when there are none |
| SaveFormat.InventoryLine | src/main/java/blockcraft/SaveSystem.java:37-44 | the `inv=` line lists the snapshot in order |
| SaveFormat.RowLine | src/main/java/blockcraft/SaveSystem.java:48-50 | a row line is the characters of that grid row |
| SaveFormat.Encode | src/main/java/blockcraft/SaveSystem.java:26-55 | the file has eight header lines, the first the format tag and the eighth `tiles:`, followed by one line per grid row holding that row's characters |
| SaveFormat.Save | src/main/java/blockcraft/SaveSystem.java:26-55 | the lines written are `Encode` of the session's saved data |
| SaveFormat.ValueFrom | src/main/java/blockcraft/SaveSystem.java:98-102 | the trimmed rest of the first line starting with `key=`, or "" when there is none |
| SaveFormat.FindFrom | src/main/java/blockcraft/SaveSystem.java:104-107 | the first index whose trimmed line equals the target, or -1 exactly when none does |
| SaveFormat.Value | src/main/java/blockcraft/SaveSystem.java:98-102 | the trimmed rest of the first line starting with `key=`, or "" when no line does |
| SaveFormat.FindLine | src/main/java/blockcraft/SaveSystem.java:104-107 | the first index whose trimmed line equals the target, or a negative result exactly when none does |
| SaveFormat.ParseInt | src/main/java/blockcraft/SaveSystem.java:109-111 | a parsed value lies in the int range; blank text never parses |
| SaveFormat.DecodePosition | src/main/java/blockcraft/SaveSystem.java:70-71 | the position parses exactly when the `player=` value splits into at least two parts that both parse, and then it is those two values |
| SaveFormat.ParseEntry | src/main/java/blockcraft/SaveSystem.java:77-79 | a parsed entry's count is an int |
| SaveFormat.ParseEntries | src/main/java/blockcraft/SaveSystem.java:74-81 | every parsed count of the `inv=` line is an int |
| SaveFormat.Collect | src/main/java/blockcraft/SaveSystem.java:76-81 | the line parses exactly when every part does, giving the parts' entries in order |
| SaveFormat.DecodeSize | src/main/java/blockcraft/SaveSystem.java:64-68 | a decoded size is one the constructor accepts, and the seed is a long |
| SaveFormat.DecodeRows | src/main/java/blockcraft/SaveSystem.java:88-93 | h rows of w kinds |
| SaveFormat.DecodeContents | src/main/java/blockcraft/SaveSystem.java:74-93 | a success keeps the size, seed, position and selection, holds the parsed `inv=` entries and h rows of w kinds; `NotASave` exactly when the inventory parses and no `tiles:` line exists |
| SaveFormat.DecodeBody | src/main/java/blockcraft/SaveSystem.java:68-93 | a success keeps the given size and seed and holds the parsed position and selection; an unparsable position or selection is `Malformed` |
| SaveFormat.Decode | src/main/java/blockcraft/SaveSystem.java:57-96 | a success comes from a file with at least six lines and the format tag, and holds data a session can take; `NotASave` only for a short file, a wrong tag or a missing `tiles:` line |
| SaveFormat.DecodeLoadable | src/main/java/blockcraft/SaveSystem.java:57-96 | whatever decodes is data a session can hold |
| SaveFormat.DepositPart | src/main/java/blockcraft/SaveSystem.java:77-80 | one part either fails to parse, changing nothing, or adds its entry |
| SaveFormat.AddEntries | src/main/java/blockcraft/SaveSystem.java:76-81 | succeeds exactly when every part parses, and then adds each entry in order |
| SaveFormat.PartFails | src/main/java/blockcraft/SaveSystem.java:76-79 | one unparsable part fails the whole line |
| SaveFormat.PartParses | src/main/java/blockcraft/SaveSystem.java:76-80 | one more parsable part extends the entries read so far |
| SaveFormat.ReadInventory | src/main/java/blockcraft/SaveSystem.java:74-82 | a blank line adds nothing; otherwise succeeds exactly when `ParseEntries` does, adding its entries |
| SaveFormat.ReadTiles | src/main/java/blockcraft/SaveSystem.java:88-93 | succeeds exactly when the h row lines exist and are long enough, and then the grid is `DecodeRows` |
| SaveFormat.Restore | src/main/java/blockcraft/SaveSystem.java:70-93 | fails exactly when `DecodeBody` does, with the same error; otherwise the session holds the decoded data |
| SaveFormat.RestoreContents | src/main/java/blockcraft/SaveSystem.java:74-93 | fails exactly when `DecodeContents` does; otherwise the inventory and grid hold the decoded data |
| SaveFormat.SearchSpawned | src/main/java/blockcraft/GameState.java:27-47 | the constructor's spawn is either the centre of an open tile less than 40 tiles from the grid centre on each axis, or the grid centre when there is none |
| SaveFormat.NewSession | src/main/java/blockcraft/SaveSystem.java:68 | the `new GameState` of a load: fresh objects, the given size and seed, the mixed-seed stream, the starting stock, a spawn on the grid it generated, and the mob six tiles to the right of that spawn with zero cooldown |
| SaveFormat.LoadSized | src/main/java/blockcraft/SaveSystem.java:68-95 | given a decoded size and seed: fails exactly when `DecodeBody` does, with its error; a success is a fresh session rebuilt from the decoded data, its mob left six tiles right of the spawn on the generated grid |
| SaveFormat.Load | src/main/java/blockcraft/SaveSystem.java:57-96 | fails exactly when `Decode` does, with the same error; a success is a session whose every object is fresh, rebuilt from the decoded data, with the mob where the constructor left it: six tiles right of the spawn on the generated grid, cooldown zero |
| SaveFormat.EncodedLines | src/main/java/blockcraft/SaveSystem.java:30-52 | the saved lines in order: header, `w=`, `h=`, `seed=`, `player=`, `sel=`, `inv=`, `tiles:`, then one line per row |
| SaveFormat.ValueOnLine | src/main/java/blockcraft/SaveSystem.java:98-102 | the first `key=` line's trimmed rest is what `value` returns |
| SaveFormat.ValueAfterOthers | src/main/java/blockcraft/SaveSystem.java:98-102 | a key's own header line is the one `value` finds |
| SaveFormat.NumberOnLine | src/main/java/blockcraft/SaveSystem.java:109-111 | a number written on its key's line parses back |
| SaveFormat.IntOnLine | src/main/java/blockcraft/SaveSystem.java:64-65 | an int field written by `save` reads back through `parseInt` |
| SaveFormat.LongOnLine | src/main/java/blockcraft/SaveSystem.java:66 | the seed written by `save` reads back through `Long.parseLong` |
| SaveFormat.SizeRoundTrip | src/main/java/blockcraft/SaveSystem.java:64-68 | the saved width, height and seed decode back |
| SaveFormat.PositionRoundTrip | src/main/java/blockcraft/SaveSystem.java:70-71 | the saved position decodes back when the float text round-trips |
| SaveFormat.SelRoundTrip | src/main/java/blockcraft/SaveSystem.java:72 | the saved selection decodes back |
| SaveFormat.EntryRoundTrip | src/main/java/blockcraft/SaveSystem.java:77-79 | `NAME:count` parses back to the entry |
| SaveFormat.EntriesRoundTrip | src/main/java/blockcraft/SaveSystem.java:76-81 | the saved entries parse back, in order |
| SaveFormat.InventoryRoundTrip | src/main/java/blockcraft/SaveSystem.java:74-81 | the saved `inv=` line decodes to the saved entries |
| SaveFormat.TilesRoundTrip | src/main/java/blockcraft/SaveSystem.java:84-93 | `tiles:` is found at line 7 and the rows after it decode to the saved grid |
| SaveFormat.DecodeFields | src/main/java/blockcraft/SaveSystem.java:57-96 | fields that each decode assemble into a successful decode |
| SaveFormat.DecodeEncode | src/main/java/blockcraft/SaveSystem.java:26-96 | decoding what `save` wrote gives back the saved data |
| SaveFormat.EncodeInjective | src/main/java/blockcraft/SaveSystem.java:26-55 | different saved data are written as different lines |
| SaveFormat.SavedLoadable | src/main/java/blockcraft/SaveSystem.java:26-55 | a session whose grid and counts fit in an int saves data a load accepts |
| SaveFormat.SaveThenLoad | src/main/java/blockcraft/SaveSystem.java:68-80 | loading what `save` wrote always succeeds; it rebuilds the grid, position and selection, and each count becomes the starting count plus the saved one |
| SaveFormat.ReloadDoublesStock | src/main/java/blockcraft/SaveSystem.java:68-80 | a fresh game saved then loaded holds 50 DIRT and 24 PLANKS |
| SaveFormat.ResaveDiffers | src/main/java/blockcraft/SaveSystem.java:68-80 | as written, saving again after a load writes different lines from the save it loaded |
| SaveFormat.ResaveIdentical | src/main/java/blockcraft/SaveSystem.java:74-81 | with counts restored as saved, saving again writes the same lines |

## Left out

- Rendering, textures, fonts, the camera, colours and `EntityColor` are not modelled. They are drawing, not engine logic.
- Input polling, mouse unprojection and the dt clamp are not modelled. `MineAt` and `PlaceAt` take a tile coordinate that already passes `canReach`.
- `keyDown` keys other than 1 to 6 (ESC, H, F5, F9) are not modelled. They exit, toggle help, or call `save`/`load`, which are modelled on their own.
- `SaveFormat.DecodeRows`: a row is indexed by Unicode characters, whereas Java's `charAt` and `length` count UTF-16 code units. A row with a character outside the Basic Multilingual Plane therefore decodes differently: Java reads each surrogate half as AIR, and a short row can pass Java's length test and fail the model's. `ReadTiles`, `Decode` and `Load` inherit this.
- File I/O is not modelled: `Gdx.files`, `exists`, `readString`, `writeString`, UTF-8 and the `\R` line split. `Save` returns the lines and `Load` takes them. A missing file (Java returns `null`) is not modelled.
- The internals of `java.util.Random` are parameters: the stream behind `new Random(seed)`, and how `nextInt` and `nextFloat` derive values from it. Determinism therefore holds by construction, since every draw is read from `src`; it is not a separate lemma.
- Float-to-text and text-to-float conversion of the player's position are the parameters `fmt` and `parseReal`.
- Float rounding is not modelled: positions, `move`, the reach test and the mob cooldown use exact reals. `(int) (height * 0.62f)` is exact `height * 62 / 100`, and the 0.05f, 0.07f and 0.65f thresholds are their exact values.
- The sqrt normalisation and speed scaling in `move` are not modelled. `Move` takes the displacement as given.
- Java int overflow is not modelled: `add` is unbounded, and a `w * h` larger than an int is treated as `Malformed`. `ParseInteger` accepts only ASCII digits, where Java also accepts other Unicode digits.
- `Grid.World.Generate`: its contract states the shape of the result, not the exact tiles of each seed. The exact tiles of one column are `Grid.World.Column`'s contract, and those of one boulder cluster `Grid.World.Boulder`'s.
- `SaveFormat.Load`: the mob is placed relative to the spawn on the grid the constructor generated before the load overwrote it. That spawn is stated as the centre of some open tile less than 40 tiles from the grid centre, or the grid centre when there is none; the exact ring order is `Session.GameState.constructor`'s contract. The generated grid is stated only by its height.
- `SaveFormat.LoadSized` and `SaveFormat.NewSession` state the spawn and the generated grid in the same weaker way as `SaveFormat.Load`.
- The creature's `update(World, float)` no-op overload, the `Entity` interface and `DesktopLauncher` are not modelled.

## Findings

| source | as written | input that shows it | evidently intended | confidence | as-written member | corrected member |
|---|---|---|---|---|---|---|
| src/main/java/blockcraft/SaveSystem.java:68-80 | `load` builds the session with `new GameState`, whose inventory already holds 25 DIRT and 12 PLANKS, then `add`s each saved count on top | a fresh game saved and loaded: the inventory shows 50 DIRT and 24 PLANKS, and saving again writes a different `inv=` line | the loaded inventory holds exactly the saved counts, so save, load, save writes the same lines | high (not executed) | SaveFormat.ResaveDiffers | SaveFormat.ResaveIdentical |
| src/main/java/blockcraft/BlockCraftGame.java:131-136 | `get` reads any cell outside the grid as STONE and `set` there does nothing, so mining an in-reach coordinate past the edge adds a STONE and leaves the grid unchanged | a player within four tiles of the edge mining the cell just outside it: one more STONE per click, with no tile removed | a block is gained only by removing it from the grid | medium (not executed) | Interaction.MineOutsideGrid | Interaction.MinedCell |

`SaveFormat.Load` keeps the source's behaviour: the counts are added on top of the starting stock, as `SaveThenLoad` and `ReloadDoublesStock` state. `SaveFormat.RestoredCounts` is the corrected inventory restore, and `ResaveIdentical` is proved about it.

`Interaction.MineAt` keeps the source's behaviour likewise. `Interaction.MinedCell` is the corrected rule, and its contract proves it agrees with `Mined` inside the grid.
