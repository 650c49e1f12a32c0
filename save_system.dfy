/**
 * The save format (SaveSystem.java): a session written as lines of text, a header of
 * eight lines followed by one line of tile characters per grid row, and read back
 * leniently. Lines stand for the file's text split at line breaks; the conversion of
 * the player's float coordinates to and from text is a pair of parameters.
 */
module SaveFormat {

  import opened Wrappers
  import opened TileCatalog
  import opened JavaText
  import opened Grid
  import opened Inventories
  import opened Players
  import opened Mobs
  import opened Session

  /** `fromChar`: the letter of each kind; any other character reads as AIR. */
  function FromChar(c: char): (t: TileType)
    ensures c !in ".gdswlp" ==> t == Air
  {
    match c
    case '.' => Air
    case 'g' => Grass
    case 'd' => Dirt
    case 's' => Stone
    case 'w' => Water
    case 'l' => Log
    case 'p' => Planks
    case _ => Air
  }

  /** `toChar`: one character of `.gdswlp` per kind, which `fromChar` reads back. */
  function ToChar(t: TileType): (c: char)
    ensures c in ".gdswlp" && FromChar(c) == t
  {
    match t
    case Air => '.'
    case Grass => 'g'
    case Dirt => 'd'
    case Stone => 's'
    case Water => 'w'
    case Log => 'l'
    case Planks => 'p'
  }

  /** Each character of the alphabet is the one written for the kind it reads as. */
  lemma CharTileRoundTrip(c: char)
    requires c in ".gdswlp"
    ensures ToChar(FromChar(c)) == c
  {
  }

  const Header: string := "BC2D:1"
  const TilesMarker: string := "tiles:"

  /**
   * What a save file holds: the grid's size, the seed, the player's position, the
   * selection, the inventory entries in file order and the rows of the grid.
   */
  datatype SaveData = SaveData(width: int, height: int, seed: int, x: real, y: real, sel: int,
                               inv: seq<(TileType, int)>, rows: seq<seq<TileType>>)

  /** Why a load yields no session: Java's `null` return, or an exception on bad content. */
  datatype LoadError = NotASave | Malformed

  // ---------------------------------------------------------------- writing

  /** The grid of w as rows of kinds, top row first. */
  function RowsOf(w: World): (g: seq<seq<TileType>>)
    requires w.Valid()
    reads w.tiles
    ensures |g| == w.height
    ensures forall y :: 0 <= y < w.height ==> |g[y]| == w.width
    ensures forall y, x :: 0 <= y < w.height && 0 <= x < w.width ==> g[y][x] == w.Get(x, y)
  {
    seq(w.height, (y: int) requires 0 <= y < w.height && w.Valid() reads w.tiles =>
      seq(w.width, (x: int) requires 0 <= x < w.width && w.Valid() reads w.tiles => w.Get(x, y)))
  }

  /** What `save` reads from a session. */
  function Saved(s: GameState): SaveData
    requires s.Valid()
    reads s, s.world.tiles, s.player, s.player.inventory
  {
    SaveData(s.world.width, s.world.height, s.seed, s.player.x, s.player.y, s.selectedIndex,
             s.player.inventory.Snapshot(), RowsOf(s.world))
  }

  /** One `NAME:count` entry of the inventory line. */
  function EntryText(e: (TileType, int)): string {
    e.0.Name() + ":" + IntToString(e.1)
  }

  function EntryTexts(es: seq<(TileType, int)>): seq<string> {
    seq(|es|, i requires 0 <= i < |es| => EntryText(es[i]))
  }

  /** A grid row as the characters of its tiles. */
  function RowText(r: seq<TileType>): string {
    seq(|r|, i requires 0 <= i < |r| => ToChar(r[i]))
  }

  /** The eight header lines. `fmt` stands for Java's float-to-text conversion. */
  function HeaderLines(d: SaveData, fmt: real -> string): seq<string> {
    [Header,
     "w=" + IntToString(d.width),
     "h=" + IntToString(d.height),
     "seed=" + IntToString(d.seed),
     "player=" + fmt(d.x) + "," + fmt(d.y),
     "sel=" + IntToString(d.sel),
     "inv=" + Join(EntryTexts(d.inv), ','),
     TilesMarker]
  }

  /** One line per grid row, top row first. */
  function RowLines(rows: seq<seq<TileType>>): seq<string> {
    seq(|rows|, y requires 0 <= y < |rows| => RowText(rows[y]))
  }

  /**
   * The lines `save` writes: the header, `w=`, `h=`, `seed=`, `player=x,y`, `sel=`,
   * `inv=` with the entries joined by commas, `tiles:`, then one line per row.
   */
  function Encode(d: SaveData, fmt: real -> string): (r: seq<string>)
    ensures |r| == 8 + |d.rows| && r[0] == Header && r[7] == TilesMarker
    ensures forall y :: 0 <= y < |d.rows| ==> r[8 + y] == RowText(d.rows[y])
  {
    HeaderLines(d, fmt) + RowLines(d.rows)
  }

  /** The data a save can hold and a load rebuilds: a grid the constructor accepts, Java-sized numbers. */
  predicate Loadable(d: SaveData) {
    && 0 < d.width && 5 <= d.height && d.width * d.height <= MaxInt
    && MinLong <= d.seed <= MaxLong && MinInt <= d.sel <= MaxInt
    && (forall i :: 0 <= i < |d.inv| ==> MinInt <= d.inv[i].1 <= MaxInt)
    && |d.rows| == d.height
    && (forall y :: 0 <= y < |d.rows| ==> |d.rows[y]| == d.width)
  }

  /** After the header come exactly height lines of width characters, one per row, each tile read back by `fromChar`. */
  lemma EncodeRows(d: SaveData, fmt: real -> string)
    requires Loadable(d)
    ensures |Encode(d, fmt)| == 8 + d.height && Encode(d, fmt)[..8] == HeaderLines(d, fmt)
    ensures forall y :: 0 <= y < d.height ==>
              && |Encode(d, fmt)[8 + y]| == d.width
              && forall x :: 0 <= x < d.width ==> FromChar(Encode(d, fmt)[8 + y][x]) == d.rows[y][x]
  {
    var lines := Encode(d, fmt);
    forall y | 0 <= y < d.height
      ensures lines[8 + y] == RowText(d.rows[y])
    {
    }
  }

  /** The `inv=` line `save` builds by iterating the snapshot with a `first` flag. */
  method InventoryLine(inv: Inventory) returns (line: string)
    ensures line == "inv=" + Join(EntryTexts(inv.Snapshot()), ',')
  {
    var joined := JoinEntries(inv.Snapshot());
    line := "inv=" + joined;
  }

  /** The entries joined as the loop over `entrySet()` appends them: a ',' before all but the first. */
  method JoinEntries(entries: seq<(TileType, int)>) returns (joined: string)
    ensures joined == Join(EntryTexts(entries), ',')
  {
    ghost var texts := EntryTexts(entries);
    joined := "";
    var first := true;
    var i := 0;
    while i < |entries|
      invariant 0 <= i <= |entries|
      invariant first <==> i == 0
      invariant joined == Join(texts[..i], ',')
    {
      var text := EntryText(entries[i]);
      JoinSnoc(texts, i, ',');
      if !first {
        joined := joined + [','] + text;
      } else {
        joined := text;
      }
      first := false;
      i := i + 1;
    }
    assert texts[..i] == texts;
  }

  /** The characters `save` appends for grid row y. */
  method RowLine(world: World, y: int) returns (row: string)
    requires world.Valid() && 0 <= y < world.height
    ensures row == RowText(RowsOf(world)[y])
  {
    ghost var r := RowsOf(world)[y];
    row := "";
    var x := 0;
    while x < world.width
      invariant 0 <= x <= world.width
      invariant row == RowText(r[..x])
    {
      row := row + [ToChar(world.Get(x, y))];
      x := x + 1;
    }
    assert r[..x] == r;
  }

  /** One more row line is the text of one more row. */
  lemma RowLinesSnoc(rows: seq<seq<TileType>>, y: nat)
    requires y < |rows|
    ensures RowLines(rows[..y + 1]) == RowLines(rows[..y]) + [RowText(rows[y])]
  {
    assert rows[..y + 1][y] == rows[y];
  }

  /** `save(name, s)`, producing the file's lines. */
  method Save(s: GameState, fmt: real -> string) returns (lines: seq<string>)
    requires s.Valid()
    ensures lines == Encode(Saved(s), fmt)
  {
    ghost var d := Saved(s);
    var inv := InventoryLine(s.player.inventory);
    var header := [Header,
                   "w=" + IntToString(s.world.width),
                   "h=" + IntToString(s.world.height),
                   "seed=" + IntToString(s.seed),
                   "player=" + fmt(s.player.x) + "," + fmt(s.player.y),
                   "sel=" + IntToString(s.selectedIndex),
                   inv,
                   TilesMarker];
    assert header == HeaderLines(d, fmt);

    var rows: seq<string> := [];
    var y := 0;
    while y < s.world.height
      invariant 0 <= y <= s.world.height
      invariant rows == RowLines(d.rows[..y])
    {
      var row := RowLine(s.world, y);
      RowLinesSnoc(d.rows, y);
      rows := rows + [row];
      y := y + 1;
    }
    assert d.rows[..y] == d.rows;
    lines := header + rows;
  }

  // ---------------------------------------------------------------- reading

  /**
   * `value(lines, key)` searching from line k: the trimmed remainder of the first line
   * starting with `key=`, or "" when there is none.
   */
  function ValueFrom(lines: seq<string>, key: string, k: nat): (v: string)
    ensures (forall i :: k <= i < |lines| ==> !StartsWith(lines[i], key + "=")) ==> v == ""
    ensures forall i ::
              (k <= i < |lines| && StartsWith(lines[i], key + "=") &&
               (forall j :: k <= j < i ==> !StartsWith(lines[j], key + "="))) ==>
              v == Trim(lines[i][|key| + 1..])
    decreases |lines| - k
  {
    if k >= |lines| then ""
    else if StartsWith(lines[k], key + "=") then Trim(lines[k][|key| + 1..])
    else ValueFrom(lines, key, k + 1)
  }

  /** `value(lines, key)`. */
  function Value(lines: seq<string>, key: string): (v: string)
    ensures (forall i :: 0 <= i < |lines| ==> !StartsWith(lines[i], key + "=")) ==> v == ""
    ensures forall i ::
              (0 <= i < |lines| && StartsWith(lines[i], key + "=") &&
               (forall j :: 0 <= j < i ==> !StartsWith(lines[j], key + "="))) ==>
              v == Trim(lines[i][|key| + 1..])
  {
    ValueFrom(lines, key, 0)
  }

  /**
   * `findLine(lines, exact)` searching from line k: the first index whose trimmed line
   * equals `exact`, or -1 when there is none.
   */
  function FindFrom(lines: seq<string>, exact: string, k: nat): (r: int)
    ensures r == -1 || k <= r < |lines|
    ensures r >= 0 ==> Trim(lines[r]) == exact && forall j :: k <= j < r ==> Trim(lines[j]) != exact
    ensures r == -1 <==> forall j :: k <= j < |lines| ==> Trim(lines[j]) != exact
    decreases |lines| - k
  {
    if k >= |lines| then -1
    else if Trim(lines[k]) == exact then k
    else FindFrom(lines, exact, k + 1)
  }

  /** `findLine(lines, exact)`. */
  function FindLine(lines: seq<string>, exact: string): (r: int)
    ensures r >= 0 ==> r < |lines| && Trim(lines[r]) == exact && forall j :: 0 <= j < r ==> Trim(lines[j]) != exact
    ensures r < 0 <==> forall j :: 0 <= j < |lines| ==> Trim(lines[j]) != exact
  {
    FindFrom(lines, exact, 0)
  }

  /** The save code's `parseInt`: `Integer.parseInt` of the trimmed text. */
  function ParseInt(s: string): (r: Option<int>)
    ensures r.Some? ==> MinInt <= r.value <= MaxInt
    ensures Trim(s) == [] ==> r.None?
  {
    ParseInteger(Trim(s), MinInt, MaxInt)
  }

  /** `Long.parseLong`. */
  function ParseLong(s: string): Option<int> {
    ParseInteger(s, MinLong, MaxLong)
  }

  /**
   * One inventory entry: split at ':', the kind named by the trimmed first piece,
   * the count parsed from the second; None where Java throws.
   */
  function ParseEntry(part: string): (r: Option<(TileType, int)>)
    ensures r.Some? ==> MinInt <= r.value.1 <= MaxInt
  {
    var kv := Split(part, ':');
    if kv == [] then None
    else match ValueOf(Trim(kv[0]))
      case None => None
      case Some(t) =>
        if |kv| < 2 then None
        else match ParseInt(kv[1])
          case None => None
          case Some(c) => Some((t, c))
  }

  /** The inventory line's entries: none for a blank line, else every comma-separated part. */
  function ParseEntries(inv: string): (r: Option<seq<(TileType, int)>>)
    ensures r.Some? ==> forall i :: 0 <= i < |r.value| ==> MinInt <= r.value[i].1 <= MaxInt
  {
    if IsBlank(inv) then Some([])
    else Collect(ParsedParts(Split(inv, ',')))
  }

  /** Each part read as an entry. */
  function ParsedParts(parts: seq<string>): seq<Option<(TileType, int)>> {
    seq(|parts|, i requires 0 <= i < |parts| => ParseEntry(parts[i]))
  }

  /** The entries of rs in order when every one is present, else None: one bad part fails the line. */
  function Collect(rs: seq<Option<(TileType, int)>>): (r: Option<seq<(TileType, int)>>)
    ensures r.Some? <==> forall i :: 0 <= i < |rs| ==> rs[i].Some?
    ensures r.Some? ==> |r.value| == |rs| && forall i :: 0 <= i < |rs| ==> rs[i] == Some(r.value[i])
  {
    if rs == [] then Some([])
    else match Collect(rs[..|rs| - 1])
      case None => None
      case Some(es) =>
        match rs[|rs| - 1]
        case None => None
        case Some(e) => Some(es + [e])
  }

  /** One more entry present extends the entries collected so far. */
  lemma CollectSnoc(rs: seq<Option<(TileType, int)>>, i: nat, es: seq<(TileType, int)>, e: (TileType, int))
    requires i < |rs| && Collect(rs[..i]) == Some(es) && rs[i] == Some(e)
    ensures Collect(rs[..i + 1]) == Some(es + [e])
  {
    var p := rs[..i + 1];
    assert p[..|p| - 1] == rs[..i] && p[|p| - 1] == rs[i];
  }

  /** The sizes `new GameState(w, h, seed)` accepts without throwing, with an int-sized grid. */
  predicate Constructible(w: int, h: int) {
    0 < w && 5 <= h && w * h <= MaxInt
  }

  /** The `w=`, `h=` and `seed=` fields, when they parse and the constructor accepts them. */
  function DecodeSize(lines: seq<string>): (r: Option<(int, int, int)>)
    ensures r.Some? ==> Constructible(r.value.0, r.value.1) && MinLong <= r.value.2 <= MaxLong
  {
    var w, h, seed := ParseInt(Value(lines, "w")), ParseInt(Value(lines, "h")), ParseLong(Value(lines, "seed"));
    if w.None? || h.None? || seed.None? || !Constructible(w.value, h.value) then None
    else Some((w.value, h.value, seed.value))
  }

  /** The `player=` field split at ',' with both pieces parsed. `parseReal` stands for `Float.parseFloat`. */
  function DecodePosition(lines: seq<string>, parseReal: string -> Option<real>): (r: Option<(real, real)>)
    ensures var p := Split(Value(lines, "player"), ',');
            r.Some? <==> |p| >= 2 && parseReal(p[0]).Some? && parseReal(p[1]).Some?
    ensures var p := Split(Value(lines, "player"), ',');
            r.Some? ==> parseReal(p[0]) == Some(r.value.0) && parseReal(p[1]) == Some(r.value.1)
  {
    var p := Split(Value(lines, "player"), ',');
    if |p| < 2 || parseReal(p[0]).None? || parseReal(p[1]).None? then None
    else Some((parseReal(p[0]).value, parseReal(p[1]).value))
  }

  /** Lines start .. start + h - 1 exist and each holds at least w characters. */
  predicate RowsPresent(lines: seq<string>, start: int, w: int, h: int) {
    0 <= start && 0 <= h && start + h <= |lines| && forall i :: start <= i < start + h ==> |lines[i]| >= w
  }

  /** The grid read from h lines from `start`: `fromChar` of each of the first w characters. */
  function DecodeRows(lines: seq<string>, start: int, w: nat, h: nat): (g: seq<seq<TileType>>)
    requires RowsPresent(lines, start, w, h)
    ensures |g| == h && forall y :: 0 <= y < h ==> |g[y]| == w
  {
    seq(h, y requires 0 <= y < h && RowsPresent(lines, start, w, h) =>
      seq(w, x requires 0 <= x < w && RowsPresent(lines, start, w, h) => FromChar(lines[start + y][x])))
  }

  /**
   * What `load` makes of the lines: NotASave for its two `null` returns (too short or
   * wrong header; no `tiles:` line), Malformed where a parse, the constructor, an
   * array index or `charAt` throws. Every field failure precedes the `tiles:` search,
   * as in the Java order.
   */
  function Decode(lines: seq<string>, parseReal: string -> Option<real>): (r: Result<SaveData, LoadError>)
    ensures r.Success? ==> |lines| >= 6 && Trim(lines[0]) == Header && Loadable(r.value)
    ensures r.Failure? && r.error == NotASave ==>
              |lines| < 6 || Trim(lines[0]) != Header || FindLine(lines, TilesMarker) < 0
  {
    if |lines| < 6 || Trim(lines[0]) != Header then Failure(NotASave)
    else match DecodeSize(lines)
      case None => Failure(Malformed)
      case Some(size) => DecodeBody(lines, parseReal, size.0, size.1, size.2)
  }

  /** The part of a decode after the grid's size and the seed are known. */
  function DecodeBody(lines: seq<string>, parseReal: string -> Option<real>, w: nat, h: nat, seed: int)
    : (r: Result<SaveData, LoadError>)
    ensures r.Success? ==> r.value.width == w && r.value.height == h && r.value.seed == seed
    ensures r.Success? ==> DecodePosition(lines, parseReal) == Some((r.value.x, r.value.y))
    ensures r.Success? ==> ParseInt(Value(lines, "sel")) == Some(r.value.sel)
    ensures DecodePosition(lines, parseReal).None? || ParseInt(Value(lines, "sel")).None? ==> r == Failure(Malformed)
  {
    var pos, sel := DecodePosition(lines, parseReal), ParseInt(Value(lines, "sel"));
    if pos.None? || sel.None? then Failure(Malformed)
    else DecodeContents(lines, SaveData(w, h, seed, pos.value.0, pos.value.1, sel.value, [], []))
  }

  /** The inventory line, then the grid rows, completing the fields `head` already holds. */
  function DecodeContents(lines: seq<string>, head: SaveData): (r: Result<SaveData, LoadError>)
    requires 0 <= head.width && 0 <= head.height
    ensures r.Success? ==> r.value == head.(inv := r.value.inv, rows := r.value.rows)
    ensures r.Success? ==> ParseEntries(Value(lines, "inv")) == Some(r.value.inv)
    ensures r.Success? ==> |r.value.rows| == head.height && forall y :: 0 <= y < head.height ==> |r.value.rows[y]| == head.width
    ensures r.Failure? && r.error == NotASave <==> ParseEntries(Value(lines, "inv")).Some? && FindLine(lines, TilesMarker) < 0
  {
    match ParseEntries(Value(lines, "inv"))
    case None => Failure(Malformed)
    case Some(inv) =>
      var start := FindLine(lines, TilesMarker) + 1;
      if start == 0 then Failure(NotASave)
      else if !RowsPresent(lines, start, head.width, head.height) then Failure(Malformed)
      else Success(head.(inv := inv, rows := DecodeRows(lines, start, head.width, head.height)))
  }

  /** Every successful decode yields data a save could have written. */
  lemma DecodeLoadable(lines: seq<string>, parseReal: string -> Option<real>)
    requires Decode(lines, parseReal).Success?
    ensures Loadable(Decode(lines, parseReal).value)
  {
  }

  /** The inventory a load leaves: the constructor's stock plus every saved entry. */
  function LoadedCounts(inv: seq<(TileType, int)>): map<TileType, int> {
    AddAll(Start, inv)
  }

  /** The inventory a load evidently should leave: the saved entries alone. */
  function RestoredCounts(inv: seq<(TileType, int)>): map<TileType, int> {
    AddAll(map[], inv)
  }

  /** The session a load has rebuilt from d. */
  ghost predicate Rebuilt(s: GameState, d: SaveData, stream: int -> (nat -> int))
    reads s, s.world.tiles, s.player, s.player.inventory, s.rng
  {
    && Filled(s, d)
    && s.rng.src == stream(MixSeed(d.seed)) && s.rng.drawn == 0
  }

  /** Every saved field of s holds what d says, the inventory on top of the stock. */
  ghost predicate Filled(s: GameState, d: SaveData)
    reads s, s.world.tiles, s.player, s.player.inventory
  {
    && s.Valid()
    && s.seed == d.seed && s.world.width == d.width && s.world.height == d.height
    && RowsOf(s.world) == d.rows
    && s.player.x == d.x && s.player.y == d.y
    && s.selectedIndex == SelectionIndex(d.sel, |Hotbar|)
    && s.player.inventory.counts == LoadedCounts(d.inv)
  }

  lemma AddAllSnoc(m: map<TileType, int>, es: seq<(TileType, int)>, e: (TileType, int))
    ensures AddAll(m, es + [e]) == Added(AddAll(m, es), e.0, e.1)
    decreases |es|
  {
    if es != [] {
      assert (es + [e])[1..] == es[1..] + [e];
      AddAllSnoc(Added(m, es[0].0, es[0].1), es[1..], e);
    }
  }

  /**
   * One part of the inventory line: parse it as `TYPE:count` and `add` it, or report that it
   * does not parse (where Java throws) and change nothing.
   */
  method DepositPart(inv: Inventory, part: string, ghost start: map<TileType, int>, ghost done: seq<(TileType, int)>)
      returns (ok: bool, ghost next: seq<(TileType, int)>)
    requires inv.Valid() && inv.counts == AddAll(start, done)
    modifies inv
    ensures ok <==> ParseEntry(part).Some?
    ensures ok ==> next == done + [ParseEntry(part).value]
    ensures inv.Valid() && inv.counts == AddAll(start, next)
  {
    var e := ParseEntry(part);
    if e.None? {
      return false, done;
    }
    inv.Add(e.value.0, e.value.1);
    AddAllSnoc(start, done, e.value);
    next := done + [e.value];
    ok := true;
  }

  /** The inventory part of `load`: nothing for a blank line, else each comma-separated entry. */
  method ReadInventory(inv: Inventory, text: string) returns (ok: bool)
    requires inv.Valid()
    modifies inv
    ensures inv.Valid()
    ensures ok <==> ParseEntries(text).Some?
    ensures ok ==> inv.counts == AddAll(old(inv.counts), ParseEntries(text).value)
  {
    if IsBlank(text) {
      return true;
    }
    ok := AddEntries(inv, Split(text, ','));
  }

  /** `add` for each entry in turn, stopping at the first part that does not parse, where Java throws. */
  method AddEntries(inv: Inventory, parts: seq<string>) returns (ok: bool)
    requires inv.Valid()
    modifies inv
    ensures inv.Valid()
    ensures ok <==> Collect(ParsedParts(parts)).Some?
    ensures ok ==> inv.counts == AddAll(old(inv.counts), Collect(ParsedParts(parts)).value)
  {
    ghost var start := inv.counts;
    ghost var entries: seq<(TileType, int)> := [];
    var i := 0;
    while i < |parts|
      invariant 0 <= i <= |parts|
      invariant Collect(ParsedParts(parts[..i])) == Some(entries)
      invariant inv.counts == AddAll(start, entries) && inv.Valid()
    {
      ghost var before := entries;
      ok, entries := DepositPart(inv, parts[i], start, entries);
      if !ok {
        PartFails(parts, i);
        return;
      }
      PartParses(parts, i, before);
      i := i + 1;
    }
    assert parts[..i] == parts;
    return true;
  }

  /** A part that does not parse fails the whole line. */
  lemma PartFails(parts: seq<string>, i: int)
    requires 0 <= i < |parts| && ParseEntry(parts[i]).None?
    ensures Collect(ParsedParts(parts)).None?
  {
    assert ParsedParts(parts)[i].None?;
  }

  /** One more part that parses extends the entries read so far. */
  lemma PartParses(parts: seq<string>, i: int, es: seq<(TileType, int)>)
    requires 0 <= i < |parts| && Collect(ParsedParts(parts[..i])) == Some(es) && ParseEntry(parts[i]).Some?
    ensures Collect(ParsedParts(parts[..i + 1])) == Some(es + [ParseEntry(parts[i]).value])
  {
    var rs := ParsedParts(parts[..i + 1]);
    assert rs[..i] == ParsedParts(parts[..i]);
    CollectSnoc(rs, i, es, ParseEntry(parts[i]).value);
    assert rs[..i + 1] == rs;
  }

  /** The tile part of `load`: `set(x, y, fromChar(row.charAt(x)))` for each cell, row by row. */
  method ReadTiles(world: World, lines: seq<string>, start: int) returns (ok: bool)
    requires world.Valid() && 0 <= start <= |lines|
    modifies world.tiles
    ensures ok <==> RowsPresent(lines, start, world.width, world.height)
    ensures ok ==> RowsOf(world) == DecodeRows(lines, start, world.width, world.height)
  {
    var y := 0;
    while y < world.height
      invariant 0 <= y <= world.height
      invariant RowsPresent(lines, start, world.width, y)
      invariant forall y', x' :: 0 <= y' < y && 0 <= x' < world.width ==>
                  world.Get(x', y') == FromChar(lines[start + y'][x'])
    {
      if start + y >= |lines| {
        return false;
      }
      var row := lines[start + y];
      if |row| < world.width {
        return false;
      }
      var x := 0;
      while x < world.width
        invariant 0 <= x <= world.width
        invariant forall y', x' :: 0 <= y' < y && 0 <= x' < world.width ==>
                    world.Get(x', y') == FromChar(lines[start + y'][x'])
        invariant forall x' :: 0 <= x' < x ==> world.Get(x', y) == FromChar(row[x'])
      {
        world.Set(x, y, FromChar(row[x]));
        x := x + 1;
      }
      y := y + 1;
    }
    assert RowsOf(world) == DecodeRows(lines, start, world.width, world.height) by {
      forall y' | 0 <= y' < world.height
        ensures RowsOf(world)[y'] == DecodeRows(lines, start, world.width, world.height)[y']
      {
      }
    }
    return true;
  }

  /**
   * The part of `load` after the constructor: position and selection, then the
   * inventory and the tiles, written into the new session in Java's order.
   */
  method Restore(s: GameState, lines: seq<string>, parseReal: string -> Option<real>) returns (err: Option<LoadError>)
    requires s.Valid() && s.player.inventory.counts == Start
    modifies s`selectedIndex, s.player, s.player.inventory, s.world.tiles
    ensures var d := DecodeBody(lines, parseReal, s.world.width, s.world.height, s.seed);
      && (err.Some? <==> d.Failure?)
      && (err.Some? ==> err.value == d.error)
      && (err.None? ==> Filled(s, d.value))
  {
    var pos := DecodePosition(lines, parseReal);
    if pos.None? {
      return Some(Malformed);
    }
    s.player.SetPos(pos.value.0, pos.value.1);
    var sel := ParseInt(Value(lines, "sel"));
    if sel.None? {
      return Some(Malformed);
    }
    s.SetSelectedIndex(sel.value);
    err := RestoreContents(s, lines, SaveData(s.world.width, s.world.height, s.seed, pos.value.0, pos.value.1, sel.value, [], []));
  }

  /** The inventory and tile part of `load`, for a session whose other saved fields hold `head`. */
  method RestoreContents(s: GameState, lines: seq<string>, ghost head: SaveData) returns (err: Option<LoadError>)
    requires s.Valid() && s.player.inventory.counts == Start
    requires head.width == s.world.width && head.height == s.world.height && head.seed == s.seed
    requires head.x == s.player.x && head.y == s.player.y && s.selectedIndex == SelectionIndex(head.sel, |Hotbar|)
    modifies s.player.inventory, s.world.tiles
    ensures var d := DecodeContents(lines, head);
      && (err.Some? <==> d.Failure?)
      && (err.Some? ==> err.value == d.error)
      && (err.None? ==> Filled(s, d.value))
  {
    var ok := ReadInventory(s.player.inventory, Value(lines, "inv"));
    if !ok {
      return Some(Malformed);
    }
    var idx := FindLine(lines, TilesMarker);
    if idx < 0 {
      return Some(NotASave);
    }
    ok := ReadTiles(s.world, lines, idx + 1);
    if !ok {
      return Some(Malformed);
    }
    return None;
  }

  /** A tile of the grid rows g that the spawn search accepts: not solid and not WATER. */
  ghost predicate OpenIn(g: seq<seq<TileType>>, x: int, y: int) {
    0 <= y < |g| && 0 <= x < |g[y]| && !g[y][x].Solid() && g[y][x] != Water
  }

  /**
   * Where the constructor's spawn search can leave the player on a grid with rows g:
   * the centre of an open tile within 39 tiles of the grid centre on both axes, or the
   * grid centre itself when no such tile exists.
   */
  ghost predicate SpawnedOn(g: seq<seq<TileType>>, width: int, height: int, px: real, py: real) {
    || (exists tx, ty :: OpenIn(g, tx, ty) && Dist(tx, width / 2) < 40 && Dist(ty, height / 2) < 40 &&
          px == Centre(tx) && py == Centre(ty))
    || ((forall x, y :: Dist(x, width / 2) < 40 && Dist(y, height / 2) < 40 ==> !OpenIn(g, x, y)) &&
        px == width as real / 2.0 + 0.5 && py == height as real / 2.0 + 0.5)
  }

  /** The constructor's placement of the player satisfies `SpawnedOn` for the grid it searched. */
  lemma SearchSpawned(w: World, px: real, py: real)
    requires w.Valid()
    requires SpawnedAt(w, px, py)
    ensures SpawnedOn(RowsOf(w), w.width, w.height, px, py)
  {
    var g := RowsOf(w);
    if NoneOpen(w) && px == w.width as real / 2.0 + 0.5 && py == w.height as real / 2.0 + 0.5 {
      forall x, y | Dist(x, w.width / 2) < 40 && Dist(y, w.height / 2) < 40
        ensures !OpenIn(g, x, y)
      {
        if 0 <= y < |g| && 0 <= x < |g[y]| {
          assert g[y][x] == w.Get(x, y);
        }
      }
    } else {
      var r: int, tx: int, ty: int :| FirstOpen(w, r, tx, ty) && px == Centre(tx) && py == Centre(ty);
      assert OpenIn(g, tx, ty);
    }
  }

  /**
   * The `new GameState(w, h, seed)` that `load` starts from, with the grid it generated
   * and the spawn it chose there recorded as ghost results.
   */
  method NewSession(w: int, h: int, seed: int, stream: int -> (nat -> int))
    returns (s: GameState, ghost generated: seq<seq<TileType>>, ghost spawnX: real, ghost spawnY: real)
    requires 0 < w && 5 <= h && MinLong <= seed <= MaxLong
    ensures fresh(s) && fresh(s.world) && fresh(s.world.tiles) && fresh(s.player)
    ensures fresh(s.player.inventory) && fresh(s.mob) && fresh(s.rng)
    ensures s.Valid() && s.seed == seed && s.world.width == w && s.world.height == h
    ensures s.rng.src == stream(MixSeed(seed)) && s.rng.drawn == 0
    ensures s.player.inventory.counts == Start
    ensures |generated| == h && SpawnedOn(generated, w, h, spawnX, spawnY)
    ensures s.mob.x == spawnX + 6.0 && s.mob.y == spawnY && s.mob.moveCooldown == 0.0
  {
    s := new GameState(w, h, seed, stream);
    generated, spawnX, spawnY := RowsOf(s.world), s.player.x, s.player.y;
    SearchSpawned(s.world, spawnX, spawnY);
  }

  /**
   * `load(name)`, from the file's lines: a fresh session built by the constructor, then
   * overwritten field by field from the file; every failure is the one `Decode` names.
   * `stream` stands for the draws of `new Random(seed)`, as in the constructor. The ghost
   * results record the grid the constructor generated and the spawn it chose there: the
   * creature stays six tiles right of that spawn with cooldown 0, whatever the file says
   * about the player's position and the tiles.
   */
  method Load(lines: seq<string>, parseReal: string -> Option<real>, stream: int -> (nat -> int))
    returns (r: Result<GameState, LoadError>, ghost generated: seq<seq<TileType>>, ghost spawnX: real, ghost spawnY: real)
    ensures r.Failure? <==> Decode(lines, parseReal).Failure?
    ensures r.Failure? ==> r.error == Decode(lines, parseReal).error
    ensures r.Success? ==> fresh(r.value) && Rebuilt(r.value, Decode(lines, parseReal).value, stream)
    ensures r.Success? ==>
              && fresh(r.value.world) && fresh(r.value.world.tiles) && fresh(r.value.player)
              && fresh(r.value.player.inventory) && fresh(r.value.mob) && fresh(r.value.rng)
    ensures r.Success? ==>
              && |generated| == r.value.world.height
              && SpawnedOn(generated, r.value.world.width, r.value.world.height, spawnX, spawnY)
              && r.value.mob.x == spawnX + 6.0 && r.value.mob.y == spawnY && r.value.mob.moveCooldown == 0.0
  {
    generated, spawnX, spawnY := [], 0.0, 0.0;
    if |lines| < 6 || Trim(lines[0]) != Header {
      return Failure(NotASave), generated, spawnX, spawnY;
    }
    var w := ParseInt(Value(lines, "w"));
    var h := ParseInt(Value(lines, "h"));
    var seed := ParseLong(Value(lines, "seed"));
    if w.None? || h.None? || seed.None? || !Constructible(w.value, h.value) {
      return Failure(Malformed), generated, spawnX, spawnY;
    }
    assert DecodeSize(lines) == Some((w.value, h.value, seed.value));
    r, generated, spawnX, spawnY := LoadSized(lines, parseReal, stream, w.value, h.value, seed.value);
  }

  /** The rest of `load` once the size and the seed have been read and accepted. */
  method LoadSized(lines: seq<string>, parseReal: string -> Option<real>, stream: int -> (nat -> int),
                   w: nat, h: nat, seed: int)
    returns (r: Result<GameState, LoadError>, ghost generated: seq<seq<TileType>>, ghost spawnX: real, ghost spawnY: real)
    requires Constructible(w, h) && MinLong <= seed <= MaxLong
    ensures var d := DecodeBody(lines, parseReal, w, h, seed);
            && (r.Failure? <==> d.Failure?)
            && (r.Failure? ==> r.error == d.error)
            && (r.Success? ==> fresh(r.value) && Rebuilt(r.value, d.value, stream))
    ensures r.Success? ==>
              && fresh(r.value.world) && fresh(r.value.world.tiles) && fresh(r.value.player)
              && fresh(r.value.player.inventory) && fresh(r.value.mob) && fresh(r.value.rng)
    ensures r.Success? ==>
              && |generated| == r.value.world.height
              && SpawnedOn(generated, r.value.world.width, r.value.world.height, spawnX, spawnY)
              && r.value.mob.x == spawnX + 6.0 && r.value.mob.y == spawnY && r.value.mob.moveCooldown == 0.0
  {
    var s;
    s, generated, spawnX, spawnY := NewSession(w, h, seed, stream);
    var err := Restore(s, lines, parseReal);
    if err.Some? {
      return Failure(err.value), generated, spawnX, spawnY;
    }
    return Success(s), generated, spawnX, spawnY;
  }

  // ---------------------------------------------------------------- round trip

  /** `fmt` writes v as text that `parseReal` reads back, holding no comma and nothing `trim` drops. */
  predicate FloatText(fmt: real -> string, parseReal: string -> Option<real>, v: real) {
    fmt(v) != [] && Trimmed(fmt(v)) && ',' !in fmt(v) && parseReal(fmt(v)) == Some(v)
  }

  /** The saved lines one by one. */
  lemma EncodedLines(d: SaveData, fmt: real -> string)
    ensures var lines := Encode(d, fmt);
      && |lines| == 8 + |d.rows|
      && lines[0] == Header
      && lines[1] == "w=" + IntToString(d.width)
      && lines[2] == "h=" + IntToString(d.height)
      && lines[3] == "seed=" + IntToString(d.seed)
      && lines[4] == "player=" + (fmt(d.x) + "," + fmt(d.y))
      && lines[5] == "sel=" + IntToString(d.sel)
      && lines[6] == "inv=" + Join(EntryTexts(d.inv), ',')
      && lines[7] == TilesMarker
      && (forall y :: 0 <= y < |d.rows| ==> lines[8 + y] == RowText(d.rows[y]))
      && HeadsAre(lines)
  {
    var lines := Encode(d, fmt);
    assert lines[4] == "player=" + fmt(d.x) + "," + fmt(d.y);
    assert "player=" + fmt(d.x) + "," + fmt(d.y) == "player=" + (fmt(d.x) + "," + fmt(d.y));
  }

  /** A string whose k-th character differs from p's does not start with p. */
  lemma Mismatch(s: string, p: string, k: nat)
    requires k < |s| && k < |p| && s[k] != p[k]
    ensures !StartsWith(s, p)
  {
    if |p| <= |s| {
      assert s[..|p|][k] != p[k];
    }
  }

  /** `value` finds a field on line i when no earlier line starts with the same key. */
  lemma ValueOnLine(lines: seq<string>, key: string, i: nat, rest: string)
    requires i < |lines| && lines[i] == key + "=" + rest && Trimmed(rest)
    requires forall j :: 0 <= j < i ==> !StartsWith(lines[j], key + "=")
    ensures Value(lines, key) == rest
  {
    StartsWithPrefix(key + "=", rest);
    assert lines[i][|key| + 1..] == rest;
    TrimTrimmed(rest);
  }

  /** No header line before line i starts with c. */
  predicate HeadsDiffer(lines: seq<string>, i: nat, c: char)
    requires i <= |lines|
  {
    forall j :: 0 <= j < i ==> lines[j] != [] && lines[j][0] != c
  }

  /** The first character of each header line `save` writes, and the third of `seed=`. */
  predicate HeadsAre(lines: seq<string>) {
    && 8 <= |lines| && (forall j :: 0 <= j < 8 ==> |lines[j]| >= 3)
    && lines[0][0] == 'B' && lines[1][0] == 'w' && lines[2][0] == 'h' && lines[3][0] == 's'
    && lines[3][2] == 'e' && lines[4][0] == 'p' && lines[5][0] == 's' && lines[6][0] == 'i'
    && lines[7][0] == 't'
  }

  /** No header line before a key's own line starts with the key's first letter. */
  lemma HeadsBefore(lines: seq<string>)
    requires HeadsAre(lines)
    ensures HeadsDiffer(lines, 1, 'w') && HeadsDiffer(lines, 2, 'h') && HeadsDiffer(lines, 3, 's')
    ensures HeadsDiffer(lines, 4, 'p') && HeadsDiffer(lines, 6, 'i')
  {
  }

  /** A whole-number field reads back: `value` finds it and `parseInt` or `parseLong` gives n. */
  lemma NumberOnLine(lines: seq<string>, key: string, prefix: string, i: nat, n: int, lo: int, hi: int)
    requires prefix == key + "=" && key != []
    requires i < |lines| && lines[i] == prefix + IntToString(n)
    requires HeadsDiffer(lines, i, key[0]) && lo <= n <= hi
    ensures ParseInteger(Value(lines, key), lo, hi) == Some(n)
    ensures ParseInteger(Trim(Value(lines, key)), lo, hi) == Some(n)
  {
    ValueAfterOthers(lines, key, i, IntToString(n));
    TrimTrimmed(IntToString(n));
    ParseIntToString(n, lo, hi);
  }

  lemma ValueAfterOthers(lines: seq<string>, key: string, i: nat, rest: string)
    requires i < |lines| && lines[i] == key + "=" + rest && Trimmed(rest) && key != []
    requires HeadsDiffer(lines, i, key[0])
    ensures Value(lines, key) == rest
  {
    forall j | 0 <= j < i
      ensures !StartsWith(lines[j], key + "=")
    {
      Mismatch(lines[j], key + "=", 0);
    }
    ValueOnLine(lines, key, i, rest);
  }

  /** A positive factor never exceeds the product. */
  lemma ProductBounds(w: int, h: int)
    requires 0 < w && 0 < h
    ensures w <= w * h && h <= w * h
  {
    assert w * h == w * (h - 1) + w;
    assert w * h == (w - 1) * h + h;
  }

  /** The grid size and the seed read back from the lines `save` writes first. */
  lemma SizeRoundTrip(lines: seq<string>, w: int, h: int, seed: int)
    requires HeadsAre(lines)
    requires lines[1] == "w=" + IntToString(w) && lines[2] == "h=" + IntToString(h)
    requires lines[3] == "seed=" + IntToString(seed)
    requires Constructible(w, h) && MinLong <= seed <= MaxLong
    ensures DecodeSize(lines) == Some((w, h, seed))
  {
    HeadsBefore(lines);
    ProductBounds(w, h);
    assert MinInt <= h <= MaxInt;
    IntOnLine(lines, "w", "w=", 1, w);
    IntOnLine(lines, "h", "h=", 2, h);
    LongOnLine(lines, "seed", "seed=", 3, seed);
  }

  /** An int field written by `save` reads back through `parseInt`. */
  lemma IntOnLine(lines: seq<string>, key: string, prefix: string, i: nat, n: int)
    requires prefix == key + "=" && key != []
    requires i < |lines| && lines[i] == prefix + IntToString(n)
    requires HeadsDiffer(lines, i, key[0]) && MinInt <= n <= MaxInt
    ensures ParseInt(Value(lines, key)) == Some(n)
  {
    NumberOnLine(lines, key, prefix, i, n, MinInt, MaxInt);
  }

  /** A long field written by `save` reads back through `Long.parseLong`. */
  lemma LongOnLine(lines: seq<string>, key: string, prefix: string, i: nat, n: int)
    requires prefix == key + "=" && key != []
    requires i < |lines| && lines[i] == prefix + IntToString(n)
    requires HeadsDiffer(lines, i, key[0]) && MinLong <= n <= MaxLong
    ensures ParseLong(Value(lines, key)) == Some(n)
  {
    NumberOnLine(lines, key, prefix, i, n, MinLong, MaxLong);
  }

  /** The player's position reads back, given float text that round-trips on its own. */
  lemma PositionRoundTrip(lines: seq<string>, fmt: real -> string, parseReal: string -> Option<real>, x: real, y: real)
    requires HeadsAre(lines)
    requires lines[4] == "player=" + (fmt(x) + "," + fmt(y))
    requires FloatText(fmt, parseReal, x) && FloatText(fmt, parseReal, y)
    ensures DecodePosition(lines, parseReal) == Some((x, y))
  {
    var text := fmt(x) + "," + fmt(y);
    HeadsBefore(lines);
    assert "player" + "=" == "player=";
    assert text[0] == fmt(x)[0] && text[|text| - 1] == fmt(y)[|fmt(y)| - 1];
    ValueAfterOthers(lines, "player", 4, text);
    assert Join([fmt(x), fmt(y)], ',') == text;
    SplitJoin([fmt(x), fmt(y)], ',');
  }

  /** The selection reads back. */
  lemma SelRoundTrip(lines: seq<string>, sel: int)
    requires HeadsAre(lines)
    requires lines[5] == "sel=" + IntToString(sel) && MinInt <= sel <= MaxInt
    ensures ParseInt(Value(lines, "sel")) == Some(sel)
  {
    assert "sel" + "=" == "sel=";
    forall j | 0 <= j < 5
      ensures !StartsWith(lines[j], "sel=")
    {
      if j == 3 {
        Mismatch(lines[j], "sel=", 2);
      } else {
        Mismatch(lines[j], "sel=", 0);
      }
    }
    ValueOnLine(lines, "sel", 5, IntToString(sel));
    TrimTrimmed(IntToString(sel));
    ParseIntToString(sel, MinInt, MaxInt);
  }

  /** No entry text holds the separators of the inventory line. */
  lemma EntryTextChars(e: (TileType, int))
    ensures var t := EntryText(e); t != [] && t[0] == e.0.Name()[0] && ',' !in t && Trimmed(t)
    ensures e.0.Name()[0] > ' ' && !IsWhitespace(e.0.Name()[0])
  {
    var n, v := e.0.Name(), IntToString(e.1);
    var t := EntryText(e);
    forall i | 0 <= i < |t|
      ensures t[i] != ','
    {
      if i > |n| {
        assert t[i] == v[i - |n| - 1];
      }
    }
  }

  /** One entry reads back: split at ':', the kind by name, the count by `parseInt`. */
  lemma EntryRoundTrip(e: (TileType, int))
    requires MinInt <= e.1 <= MaxInt
    ensures ParseEntry(EntryText(e)) == Some(e)
  {
    var n, v := e.0.Name(), IntToString(e.1);
    assert Join([n, v], ':') == EntryText(e);
    assert ':' !in n;
    assert ':' !in v;
    SplitJoin([n, v], ':');
    TrimTrimmed(n);
    ValueOfName(e.0);
    TrimTrimmed(v);
    ParseIntToString(e.1, MinInt, MaxInt);
  }

  /** Every entry reads back, in order. */
  lemma EntriesRoundTrip(es: seq<(TileType, int)>)
    requires forall i :: 0 <= i < |es| ==> MinInt <= es[i].1 <= MaxInt
    ensures Collect(ParsedParts(EntryTexts(es))) == Some(es)
  {
    var rs := ParsedParts(EntryTexts(es));
    forall i | 0 <= i < |es|
      ensures rs[i] == Some(es[i])
    {
      EntryRoundTrip(es[i]);
    }
    assert Collect(rs).value == es;
  }

  /** The inventory line reads back as the saved entries. */
  lemma InventoryRoundTrip(lines: seq<string>, inv: seq<(TileType, int)>)
    requires HeadsAre(lines)
    requires lines[6] == "inv=" + Join(EntryTexts(inv), ',')
    requires forall i :: 0 <= i < |inv| ==> MinInt <= inv[i].1 <= MaxInt
    ensures ParseEntries(Value(lines, "inv")) == Some(inv)
  {
    var texts := EntryTexts(inv);
    var text := Join(texts, ',');
    HeadsBefore(lines);
    assert "inv" + "=" == "inv=";
    if inv == [] {
      ValueAfterOthers(lines, "inv", 6, text);
    } else {
      EntryTextChars(inv[0]);
      EntryTextChars(inv[|inv| - 1]);
      JoinEnds(texts, ',');
      ValueAfterOthers(lines, "inv", 6, text);
      assert !IsWhitespace(text[0]);
      forall i | 0 <= i < |texts|
        ensures ',' !in texts[i]
      {
        EntryTextChars(inv[i]);
      }
      SplitJoin(texts, ',');
      EntriesRoundTrip(inv);
    }
  }

  /** `tiles:` is found on line 7 and the rows after it read back as the grid. */
  lemma TilesRoundTrip(lines: seq<string>, rows: seq<seq<TileType>>, w: nat)
    requires HeadsAre(lines) && |lines| == 8 + |rows| && lines[7] == TilesMarker
    requires forall y :: 0 <= y < |rows| ==> |rows[y]| == w && lines[8 + y] == RowText(rows[y])
    ensures FindLine(lines, TilesMarker) == 7
    ensures RowsPresent(lines, 8, w, |rows|)
    ensures DecodeRows(lines, 8, w, |rows|) == rows
  {
    forall j | 0 <= j < 7
      ensures Trim(lines[j]) != TilesMarker
    {
      TrimKeepsHead(lines[j]);
    }
    TrimTrimmed(TilesMarker);
    assert RowsPresent(lines, 8, w, |rows|) by {
      forall i | 8 <= i < 8 + |rows|
        ensures |lines[i]| >= w
      {
        assert lines[8 + (i - 8)] == RowText(rows[i - 8]);
      }
    }
    var g := DecodeRows(lines, 8, w, |rows|);
    forall y | 0 <= y < |rows|
      ensures g[y] == rows[y]
    {
      assert lines[8 + y] == RowText(rows[y]);
    }
  }

  /** `load`'s reading, field by field: when each field reads back as d's, the whole decode gives d. */
  lemma DecodeFields(lines: seq<string>, parseReal: string -> Option<real>, d: SaveData)
    requires 6 <= |lines| && Trim(lines[0]) == Header
    requires 0 <= d.width && 0 <= d.height
    requires DecodeSize(lines) == Some((d.width, d.height, d.seed))
    requires DecodePosition(lines, parseReal) == Some((d.x, d.y))
    requires ParseInt(Value(lines, "sel")) == Some(d.sel)
    requires ParseEntries(Value(lines, "inv")) == Some(d.inv)
    requires FindLine(lines, TilesMarker) == 7 && RowsPresent(lines, 8, d.width, d.height)
    requires DecodeRows(lines, 8, d.width, d.height) == d.rows
    ensures Decode(lines, parseReal) == Success(d)
  {
  }

  /**
   * Reading back what `save` wrote gives the saved data: the grid's size, seed, position,
   * selection, inventory entries and every tile.
   */
  lemma DecodeEncode(d: SaveData, fmt: real -> string, parseReal: string -> Option<real>)
    requires Loadable(d)
    requires FloatText(fmt, parseReal, d.x) && FloatText(fmt, parseReal, d.y)
    ensures Decode(Encode(d, fmt), parseReal) == Success(d)
  {
    var lines := Encode(d, fmt);
    EncodedLines(d, fmt);
    TrimTrimmed(Header);
    SizeRoundTrip(lines, d.width, d.height, d.seed);
    PositionRoundTrip(lines, fmt, parseReal, d.x, d.y);
    SelRoundTrip(lines, d.sel);
    InventoryRoundTrip(lines, d.inv);
    TilesRoundTrip(lines, d.rows, d.width);
    DecodeFields(lines, parseReal, d);
  }

  // ---------------------------------------------------------------- save, load, save again

  /** The entries listed from counts that fit in an int fit in an int. */
  lemma ListingInRange(c: map<TileType, int>)
    requires Positive(c) && forall k :: Count(c, k) <= MaxInt
    ensures forall i :: 0 <= i < |Listing(c)| ==> MinInt <= Listing(c)[i].1 <= MaxInt
  {
    ListFromEntries(c, AllKinds);
    forall i | 0 <= i < |Listing(c)|
      ensures MinInt <= Listing(c)[i].1 <= MaxInt
    {
      assert Count(c, Listing(c)[i].0) == Listing(c)[i].1;
    }
  }

  /** A state whose grid and counts fit in an int writes data a load accepts. */
  lemma SavedLoadable(s: GameState)
    requires s.Valid() && s.world.width * s.world.height <= MaxInt
    requires forall k :: Count(s.player.inventory.counts, k) <= MaxInt
    ensures Loadable(Saved(s))
  {
    ListingInRange(s.player.inventory.counts);
  }

  /**
   * `save` then `load` rebuilds the state: same grid, seed, position and selection, and
   * every kind's count raised by the constructor's stock.
   */
  method SaveThenLoad(s: GameState, fmt: real -> string, parseReal: string -> Option<real>,
                      stream: int -> (nat -> int)) returns (r: Result<GameState, LoadError>)
    requires s.Valid() && s.world.width * s.world.height <= MaxInt
    requires forall k :: Count(s.player.inventory.counts, k) <= MaxInt
    requires FloatText(fmt, parseReal, s.player.x) && FloatText(fmt, parseReal, s.player.y)
    ensures r.Success? && fresh(r.value) && Rebuilt(r.value, Saved(s), stream)
    ensures r.value.selectedIndex == s.selectedIndex
    ensures forall k :: Count(r.value.player.inventory.counts, k) == Count(Start, k) + Count(s.player.inventory.counts, k)
  {
    var lines := Save(s, fmt);
    SavedLoadable(s);
    DecodeEncode(Saved(s), fmt, parseReal);
    ghost var generated, spawnX, spawnY;
    r, generated, spawnX, spawnY := Load(lines, parseReal, stream);
    forall k
      ensures Count(r.value.player.inventory.counts, k) == Count(Start, k) + Count(s.player.inventory.counts, k)
    {
      AddAllListing(Start, s.player.inventory.counts, k);
    }
  }

  /** Loading a save of the starting inventory leaves twice the stock. */
  lemma ReloadDoublesStock()
    ensures LoadedCounts(Listing(Start)) == map[Dirt := 50, Planks := 24]
  {
    var doubled := map[Dirt := 50, Planks := 24];
    forall k
      ensures Count(LoadedCounts(Listing(Start)), k) == Count(doubled, k)
    {
      StartStock(k);
      AddAllListing(Start, Start, k);
    }
    StartStock(Dirt);
    AddAllPositive(Start, Listing(Start));
    SameCounts(LoadedCounts(Listing(Start)), doubled);
  }

  /** Different loadable data never encode to the same lines. */
  lemma EncodeInjective(d1: SaveData, d2: SaveData, fmt: real -> string, parseReal: string -> Option<real>)
    requires Loadable(d1) && FloatText(fmt, parseReal, d1.x) && FloatText(fmt, parseReal, d1.y)
    requires Loadable(d2) && FloatText(fmt, parseReal, d2.x) && FloatText(fmt, parseReal, d2.y)
    requires d1 != d2
    ensures Encode(d1, fmt) != Encode(d2, fmt)
  {
    DecodeEncode(d1, fmt, parseReal);
    DecodeEncode(d2, fmt, parseReal);
  }

  /** Different positive maps list differently. */
  lemma ListingsDiffer(a: map<TileType, int>, b: map<TileType, int>)
    requires Positive(a) && Positive(b) && a != b
    ensures Listing(a) != Listing(b)
  {
    AddAllListingRestores(a);
    AddAllListingRestores(b);
  }

  /**
   * As `load` is written, a save made right after loading a save differs from the save that
   * was loaded, whatever the saved inventory: the `inv=` line gains the constructor's stock.
   */
  lemma ResaveDiffers(d: SaveData, fmt: real -> string, parseReal: string -> Option<real>, c: map<TileType, int>)
    requires Loadable(d) && FloatText(fmt, parseReal, d.x) && FloatText(fmt, parseReal, d.y)
    requires Positive(c) && d.inv == Listing(c) && forall k :: Count(c, k) <= MaxInt - 25
    ensures Encode(d.(inv := Listing(LoadedCounts(d.inv))), fmt) != Encode(d, fmt)
  {
    var c2 := LoadedCounts(d.inv);
    forall k
      ensures Count(c2, k) == Count(Start, k) + Count(c, k) && Count(c2, k) <= MaxInt
    {
      StartStock(k);
      AddAllListing(Start, c, k);
    }
    assert Count(c2, Dirt) != Count(c, Dirt);
    StartStock(Dirt);
    AddAllPositive(Start, d.inv);
    ListingsDiffer(c2, c);
    ListingInRange(c2);
    EncodeInjective(d.(inv := Listing(c2)), d, fmt, parseReal);
  }

  /** With the evident fix, a save made right after a load is byte for byte the save that was loaded. */
  lemma ResaveIdentical(d: SaveData, fmt: real -> string, c: map<TileType, int>)
    requires Positive(c) && d.inv == Listing(c)
    ensures Encode(d.(inv := Listing(RestoredCounts(d.inv))), fmt) == Encode(d, fmt)
  {
    AddAllListingRestores(c);
  }
}
