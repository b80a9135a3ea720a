/** The level data model of the editor (src/level.rs): tiles, layers, levels and the
    "x,y" string-key encoding a layer's tile map takes in a saved file. */
module Levels {
  import opened Text
  import opened JsonValues

  /** A grid coordinate `(x, y)`, in tiles. */
  type Pos = (int, int)

  datatype Rgb = Rgb(r: byte, g: byte, b: byte)

  /** A tile: a flat colour, or a tile of a loaded tileset. */
  datatype TileData = Color(rgb: Rgb) | Texture(tilesetId: nat, tileIndex: nat)
  {
    /** The "empty" tile: dark grey 40,40,40, which doubles as the background colour. */
    static function Empty(): TileData { Color(Rgb(40, 40, 40)) }

    predicate IsEmpty()
    {
      match this
      case Color(c) => c == Rgb(40, 40, 40)
      case Texture(_, _) => false
    }
  }

  /** Erasing and painting the sentinel colour are the same thing: `IsEmpty` holds for
      exactly one tile value. */
  lemma EmptyIsTheSentinel(t: TileData)
    ensures t.IsEmpty() <==> t == TileData.Empty()
  {
  }

  /** The predefined tile kinds kept for compatibility, each with a colour and a French label. */
  datatype TileType = Empty | Ground | Wall | Platform | Spike | Coin | Spawn | Exit
  {
    function Color(): Rgb
    {
      match this
      case Empty => Rgb(40, 40, 40)
      case Ground => Rgb(139, 69, 19)
      case Wall => Rgb(128, 128, 128)
      case Platform => Rgb(205, 133, 63)
      case Spike => Rgb(255, 0, 0)
      case Coin => Rgb(255, 215, 0)
      case Spawn => Rgb(0, 255, 0)
      case Exit => Rgb(0, 191, 255)
    }

    function Name(): string
    {
      match this
      case Empty => "Vide"
      case Ground => "Sol"
      case Wall => "Mur"
      case Platform => "Plateforme"
      case Spike => "Piège"
      case Coin => "Pièce"
      case Spawn => "Départ"
      case Exit => "Sortie"
    }

    static function All(): seq<TileType>
    {
      [Empty, Ground, Wall, Platform, Spike, Coin, Spawn, Exit]
    }
  }

  /** `All` lists every kind once; colours and names tell the kinds apart, and only the
      `Empty` kind paints the empty tile. */
  lemma TileTypeTable(a: TileType, b: TileType)
    ensures |TileType.All()| == 8 && a in TileType.All()
    ensures forall i, j | 0 <= i < j < |TileType.All()| :: TileType.All()[i] != TileType.All()[j]
    ensures a.Color() == b.Color() ==> a == b
    ensures a.Name() == b.Name() ==> a == b
    ensures Color(a.Color()).IsEmpty() <==> a == TileType.Empty
  {
  }

  // ---------------------------------------------------------------------------
  // Layers

  /** A layer: a name, a visibility flag and a sparse map from coordinates to tiles. */
  datatype Layer = Layer(name: string, visible: bool, tiles: map<Pos, TileData>)
  {
    static function New(name: string): Layer { Layer(name, true, map[]) }

    /** Places `t` at `(x, y)`; placing the empty tile removes the entry instead. */
    function SetTile(x: int, y: int, t: TileData): (l: Layer)
      ensures l.name == name && l.visible == visible
      ensures t.IsEmpty() ==> (x, y) !in l.tiles
      ensures !t.IsEmpty() ==> (x, y) in l.tiles && l.tiles[(x, y)] == t
      ensures forall p | p != (x, y) :: (p in l.tiles <==> p in tiles)
      ensures forall p | p != (x, y) && p in tiles :: l.tiles[p] == tiles[p]
    {
      if t.IsEmpty() then this.(tiles := tiles - {(x, y)}) else this.(tiles := tiles[(x, y) := t])
    }

    /** The tile at `(x, y)`; a missing entry reads as the empty tile. */
    function GetTile(x: int, y: int): TileData
    {
      if (x, y) in tiles then tiles[(x, y)] else TileData.Empty()
    }

    function Clear(): Layer { this.(tiles := map[]) }

    /** No stored entry holds the empty tile, so a stored entry always means "painted". */
    predicate Sparse() { forall p | p in tiles :: !tiles[p].IsEmpty() }
  }

  /** Reading back what was just written gives it, whatever it was, and nothing else moves;
      writes keep the map sparse. */
  lemma GetAfterSet(l: Layer, x: int, y: int, t: TileData, q: Pos)
    ensures l.SetTile(x, y, t).GetTile(x, y) == t
    ensures q != (x, y) ==> l.SetTile(x, y, t).GetTile(q.0, q.1) == l.GetTile(q.0, q.1)
    ensures l.Sparse() ==> l.SetTile(x, y, t).Sparse()
  {
  }

  lemma ClearedLayer(l: Layer, x: int, y: int)
    ensures l.Clear().GetTile(x, y).IsEmpty() && l.Clear().Sparse()
    ensures l.Clear().name == l.name && l.Clear().visible == l.visible
  {
  }

  // ---------------------------------------------------------------------------
  // Levels

  /** A swap of two positions of a sequence (`Vec::swap`). */
  function Swap<T>(s: seq<T>, i: nat, j: nat): (r: seq<T>)
    requires i < |s| && j < |s|
    ensures |r| == |s| && r[i] == s[j] && r[j] == s[i]
    ensures forall k | 0 <= k < |s| && k != i && k != j :: r[k] == s[k]
    ensures multiset(r) == multiset(s)
  {
    s[i := s[j]][j := s[i]]
  }

  /** A level as a value: what a saved level file holds. */
  datatype LevelData = LevelData(name: string, width: nat, height: nat, tileSize: nat, layers: seq<Layer>)

  const DefaultLayerNames: seq<string> := ["Background", "Main", "Foreground"]

  /** A level being edited; its layer list changes in place. Widths are `u32` in the source,
      unbounded here. */
  class Level {
    var name: string
    var width: nat
    var height: nat
    var tileSize: nat
    var layers: seq<Layer>

    /** A new level holds three empty, visible layers "Background", "Main", "Foreground". */
    constructor (name: string, width: nat, height: nat, tileSize: nat)
      ensures Data() == LevelData(name, width, height, tileSize,
                                  [Layer.New("Background"), Layer.New("Main"), Layer.New("Foreground")])
    {
      this.name := name;
      this.width := width;
      this.height := height;
      this.tileSize := tileSize;
      var ls: seq<Layer> := [];
      ls := ls + [Layer.New("Background")];
      ls := ls + [Layer.New("Main")];
      ls := ls + [Layer.New("Foreground")];
      layers := ls;
    }

    /** A level read back from a file. */
    constructor FromData(d: LevelData)
      ensures Data() == d
    {
      name := d.name;
      width := d.width;
      height := d.height;
      tileSize := d.tileSize;
      layers := d.layers;
    }

    function Data(): LevelData
      reads this
    {
      LevelData(name, width, height, tileSize, layers)
    }

    method AddLayer(layerName: string)
      modifies this`layers
      ensures layers == old(layers) + [Layer.New(layerName)]
    {
      layers := layers + [Layer.New(layerName)];
    }

    /** Removes a layer, but never the last one. */
    method RemoveLayer(index: nat) returns (removed: bool)
      modifies this`layers
      ensures removed <==> |old(layers)| > 1 && index < |old(layers)|
      ensures removed ==> layers == old(layers)[..index] + old(layers)[index + 1..]
      ensures !removed ==> layers == old(layers)
      ensures |old(layers)| >= 1 ==> |layers| >= 1
    {
      if |layers| > 1 && index < |layers| {
        layers := layers[..index] + layers[index + 1..];
        removed := true;
      } else {
        removed := false;
      }
    }

    method MoveLayerUp(index: nat) returns (moved: bool)
      modifies this`layers
      ensures moved <==> 0 < index < |old(layers)|
      ensures layers == if moved then Swap(old(layers), index, index - 1) else old(layers)
    {
      if index > 0 && index < |layers| {
        layers := Swap(layers, index, index - 1);
        moved := true;
      } else {
        moved := false;
      }
    }

    /** `index < len - 1` on a `usize`: an empty layer list would underflow, so it must not be. */
    method MoveLayerDown(index: nat) returns (moved: bool)
      requires |layers| >= 1
      modifies this`layers
      ensures moved <==> index < |old(layers)| - 1
      ensures layers == if moved then Swap(old(layers), index, index + 1) else old(layers)
    {
      if index < |layers| - 1 {
        layers := Swap(layers, index, index + 1);
        moved := true;
      } else {
        moved := false;
      }
    }

    method RenameLayer(index: nat, newName: string) returns (renamed: bool)
      modifies this`layers
      ensures renamed <==> index < |old(layers)|
      ensures layers == if renamed then old(layers)[index := old(layers)[index].(name := newName)] else old(layers)
    {
      if index < |layers| {
        layers := layers[index := layers[index].(name := newName)];
        renamed := true;
      } else {
        renamed := false;
      }
    }
  }

  /** Moving a layer up and then down again restores the list. */
  lemma MoveUpThenDown(s: seq<Layer>, index: nat)
    requires 0 < index < |s|
    ensures index - 1 < |s| - 1 && Swap(Swap(s, index, index - 1), index - 1, index) == s
  {
  }

  // ---------------------------------------------------------------------------
  // The "x,y" key encoding of a layer's tile map

  /** `format!("{},{}", x, y)`. */
  function EncodeKey(p: Pos): string
  {
    FormatInt(p.0) + "," + FormatInt(p.1)
  }

  /** Splits on ',' and parses both halves as `i32`; a key without exactly two parts or with
      a half that does not parse yields nothing (the entry is skipped). */
  function DecodeKey(key: string): (r: Option<Pos>)
    ensures r.Some? ==> InI32(r.value.0) && InI32(r.value.1)
  {
    var parts := Split(key, ',');
    if |parts| != 2 then None
    else
      match (ParseI32(parts[0]), ParseI32(parts[1]))
      case (Some(x), Some(y)) => Some((x, y))
      case _ => None
  }

  predicate KeysInI32(tiles: map<Pos, TileData>)
  {
    forall p | p in tiles :: InI32(p.0) && InI32(p.1)
  }

  lemma EncodeKeySplits(p: Pos)
    ensures Split(EncodeKey(p), ',') == [FormatInt(p.0), FormatInt(p.1)]
  {
    assert EncodeKey(p) == FormatInt(p.0) + [','] + FormatInt(p.1);
    SplitPair(FormatInt(p.0), FormatInt(p.1), ',');
  }

  /** Every coordinate pair of 32-bit integers survives the key encoding; the key of any
      other pair is skipped on reading. */
  lemma DecodeEncodeKey(p: Pos)
    ensures DecodeKey(EncodeKey(p)) == if InI32(p.0) && InI32(p.1) then Some(p) else None
  {
    EncodeKeySplits(p);
    ParseFormatI32(p.0);
    ParseFormatI32(p.1);
  }

  /** Distinct coordinates give distinct keys, 32-bit or not. */
  lemma EncodeKeyInjective(p: Pos, q: Pos)
    ensures EncodeKey(p) == EncodeKey(q) ==> p == q
  {
    if EncodeKey(p) == EncodeKey(q) {
      EncodeKeySplits(p);
      EncodeKeySplits(q);
      FormatIntInjective(p.0, q.0);
      FormatIntInjective(p.1, q.1);
    }
  }

  /** A key decodes exactly when it has one comma and both halves are `i32` literals. */
  lemma DecodeKeyShape(key: string)
    ensures DecodeKey(key).Some? <==>
      && Count(key, ',') == 1 && |Split(key, ',')| == 2
      && ParseI32(Split(key, ',')[0]).Some? && ParseI32(Split(key, ',')[1]).Some?
  {
    SplitShape(key, ',');
  }

  /** The tiles of a decoded tiles object, member by member in document order; a later member
      with the same coordinates replaces an earlier one, undecodable keys are dropped. */
  function DecodeEntries(entries: seq<(string, TileData)>): map<Pos, TileData>
  {
    if |entries| == 0 then map[]
    else
      var m := DecodeEntries(entries[..|entries| - 1]);
      var e := entries[|entries| - 1];
      match DecodeKey(e.0)
      case Some(p) => m[p := e.1]
      case None => m
  }

  /** A coordinate is decoded iff some member's key decodes to it. */
  lemma {:induction false} DecodedKeys(entries: seq<(string, TileData)>, p: Pos)
    ensures p in DecodeEntries(entries) <==> exists i | 0 <= i < |entries| :: DecodeKey(entries[i].0) == Some(p)
  {
    if |entries| > 0 {
      var init := entries[..|entries| - 1];
      var e := entries[|entries| - 1];
      DecodedKeys(init, p);
      DecodeEntriesSnoc(entries, p);
      KeyNamedSnoc(entries, init, p);
    }
  }

  /** Some member's key reads as `p` iff one before the last does or the last one does. */
  lemma KeyNamedSnoc(entries: seq<(string, TileData)>, init: seq<(string, TileData)>, p: Pos)
    requires |entries| > 0 && init == entries[..|entries| - 1]
    ensures (exists i | 0 <= i < |entries| :: DecodeKey(entries[i].0) == Some(p)) <==>
            (exists i | 0 <= i < |init| :: DecodeKey(init[i].0) == Some(p)) || DecodeKey(entries[|entries| - 1].0) == Some(p)
  {
    assert forall i | 0 <= i < |init| :: init[i] == entries[i];
  }

  /** The last member adds its own coordinate to those of the members before it. */
  lemma DecodeEntriesSnoc(entries: seq<(string, TileData)>, p: Pos)
    requires |entries| > 0
    ensures p in DecodeEntries(entries) <==>
            p in DecodeEntries(entries[..|entries| - 1]) || DecodeKey(entries[|entries| - 1].0) == Some(p)
  {
  }

  /** The value decoded for a coordinate is that of the last member naming it. */
  lemma {:induction false} DecodedValueIsLast(entries: seq<(string, TileData)>, i: nat)
    requires i < |entries| && DecodeKey(entries[i].0).Some?
    requires forall j | i < j < |entries| :: DecodeKey(entries[j].0) != DecodeKey(entries[i].0)
    ensures DecodeKey(entries[i].0).value in DecodeEntries(entries)
    ensures DecodeEntries(entries)[DecodeKey(entries[i].0).value] == entries[i].1
  {
    var init := entries[..|entries| - 1];
    if i < |entries| - 1 {
      assert init[i] == entries[i];
      forall j | i < j < |init| ensures DecodeKey(init[j].0) != DecodeKey(init[i].0) {
        assert init[j] == entries[j];
      }
      DecodedValueIsLast(init, i);
    }
  }

  /** The empty tile itself decodes like any other: a file holding it keeps it in the map,
      where painting it never would. */
  lemma SentinelSurvivesDecoding()
    ensures DecodeEntries([("0,0", TileData.Empty())]) == map[(0, 0) := TileData.Empty()]
  {
    DecodeEncodeKey((0, 0));
    assert EncodeKey((0, 0)) == "0,0";
    var entries := [("0,0", TileData.Empty())];
    assert entries[..0] == [];
  }

  function Entry(tiles: map<Pos, TileData>, p: Pos): (string, TileData)
    requires p in tiles
  {
    (EncodeKey(p), tiles[p])
  }

  /** Member `e` is the one written for some coordinate of `done`. */
  predicate WrittenFrom(e: (string, TileData), tiles: map<Pos, TileData>, done: set<Pos>)
  {
    exists p | p in done && p in tiles :: e == Entry(tiles, p)
  }

  predicate DistinctKeys(entries: seq<(string, TileData)>)
  {
    forall i, j | 0 <= i < j < |entries| :: entries[i].0 != entries[j].0
  }

  /** `entries` holds one member for each coordinate of `done`, and nothing else. */
  predicate EncodesPart(entries: seq<(string, TileData)>, tiles: map<Pos, TileData>, done: set<Pos>)
  {
    && done <= tiles.Keys
    && |entries| == |done|
    && (forall i | 0 <= i < |entries| :: WrittenFrom(entries[i], tiles, done))
    && (forall p | p in done :: Entry(tiles, p) in entries)
    && DistinctKeys(entries)
  }

  /** The member list `serialize_tiles` writes: one member per tile, keys distinct, in the
      map's iteration order (which this model leaves open). */
  predicate EncodesTiles(entries: seq<(string, TileData)>, tiles: map<Pos, TileData>)
  {
    EncodesPart(entries, tiles, tiles.Keys)
  }

  lemma {:induction false} EncodesPartStep(entries: seq<(string, TileData)>, tiles: map<Pos, TileData>, done: set<Pos>, p: Pos)
    requires EncodesPart(entries, tiles, done) && p in tiles && p !in done
    ensures EncodesPart(entries + [Entry(tiles, p)], tiles, done + {p})
  {
    var next := entries + [Entry(tiles, p)];
    NewKeyIsFresh(entries, tiles, done, p);
    forall i | 0 <= i < |next| ensures WrittenFrom(next[i], tiles, done + {p}) {
      if i < |entries| {
        var q :| q in done && q in tiles && entries[i] == Entry(tiles, q);
        assert next[i] == Entry(tiles, q);
      } else {
        assert next[i] == Entry(tiles, p);
      }
    }
    forall q | q in done + {p} ensures Entry(tiles, q) in next {
      if q != p {
        assert Entry(tiles, q) in entries;
      } else {
        assert next[|entries|] == Entry(tiles, p);
      }
    }
  }

  lemma {:induction false} NewKeyIsFresh(entries: seq<(string, TileData)>, tiles: map<Pos, TileData>, done: set<Pos>, p: Pos)
    requires EncodesPart(entries, tiles, done) && p in tiles && p !in done
    ensures DistinctKeys(entries + [Entry(tiles, p)])
  {
    forall i | 0 <= i < |entries| ensures entries[i].0 != EncodeKey(p) {
      assert WrittenFrom(entries[i], tiles, done);
      var q :| q in done && q in tiles && entries[i] == Entry(tiles, q);
      EncodeKeyInjective(p, q);
    }
  }

  lemma DecodeAppend(entries: seq<(string, TileData)>, e: (string, TileData))
    ensures DecodeEntries(entries + [e]) ==
      match DecodeKey(e.0)
      case Some(p) => DecodeEntries(entries)[p := e.1]
      case None => DecodeEntries(entries)
  {
    assert (entries + [e])[..|entries|] == entries;
  }

  /** Writes one "x,y" member per tile; a map whose coordinates are all 32-bit reads back
      unchanged. */
  method SerializeTiles(tiles: map<Pos, TileData>) returns (entries: seq<(string, TileData)>)
    ensures EncodesTiles(entries, tiles)
    ensures KeysInI32(tiles) ==> DecodeEntries(entries) == tiles
  {
    entries := [];
    var done: set<Pos> := {};
    while done != tiles.Keys
      invariant EncodesPart(entries, tiles, done)
      decreases |tiles.Keys - done|
    {
      var p :| p in tiles.Keys - done;
      EncodesPartStep(entries, tiles, done, p);
      FewerLeft(tiles.Keys, done, p);
      entries := entries + [Entry(tiles, p)];
      done := done + {p};
    }
    if KeysInI32(tiles) {
      TilesRoundTrip(tiles, entries);
    }
  }

  /** Taking one more coordinate leaves fewer to go. */
  lemma FewerLeft(all: set<Pos>, done: set<Pos>, p: Pos)
    requires p in all - done
    ensures |all - (done + {p})| < |all - done|
  {
    var rest := all - (done + {p});
    assert all - done == rest + {p} && p !in rest;
  }

  /** Reads the members in document order into a map (the visitor's `while let` loop). */
  method DeserializeTiles(entries: seq<(string, TileData)>) returns (tiles: map<Pos, TileData>)
    ensures tiles == DecodeEntries(entries)
  {
    tiles := map[];
    var i := 0;
    while i < |entries|
      invariant 0 <= i <= |entries|
      invariant tiles == DecodeEntries(entries[..i])
    {
      assert entries[..i + 1][..i] == entries[..i];
      var parts := Split(entries[i].0, ',');
      if |parts| == 2 {
        var x := ParseI32(parts[0]);
        var y := ParseI32(parts[1]);
        if x.Some? && y.Some? {
          tiles := tiles[(x.value, y.value) := entries[i].1];
        }
      }
      i := i + 1;
    }
    assert entries[..|entries|] == entries;
  }

  /** Writing a layer's tiles and reading them back gives the same tiles, whatever member
      order was used. */
  lemma {:induction false} TilesRoundTrip(tiles: map<Pos, TileData>, entries: seq<(string, TileData)>)
    requires KeysInI32(tiles) && EncodesTiles(entries, tiles)
    ensures DecodeEntries(entries) == tiles
  {
    var m := DecodeEntries(entries);
    forall p | p in tiles ensures p in m && m[p] == tiles[p] {
      RoundTripAt(tiles, entries, p);
    }
    forall p | p in m ensures p in tiles {
      DecodedComesFromTiles(tiles, entries, p);
    }
    SameMap(m, tiles);
  }

  lemma SameMap<K, V>(m: map<K, V>, n: map<K, V>)
    requires forall k | k in n :: k in m && m[k] == n[k]
    requires forall k | k in m :: k in n
    ensures m == n
  {
  }

  lemma {:induction false} DecodedComesFromTiles(tiles: map<Pos, TileData>, entries: seq<(string, TileData)>, p: Pos)
    requires EncodesTiles(entries, tiles) && p in DecodeEntries(entries)
    ensures p in tiles
  {
    DecodedKeys(entries, p);
    var i :| 0 <= i < |entries| && DecodeKey(entries[i].0) == Some(p);
    assert WrittenFrom(entries[i], tiles, tiles.Keys);
    var q :| q in tiles && entries[i] == Entry(tiles, q);
    DecodeEncodeKey(q);
  }

  lemma {:induction false} RoundTripAt(tiles: map<Pos, TileData>, entries: seq<(string, TileData)>, p: Pos)
    requires KeysInI32(tiles) && EncodesTiles(entries, tiles) && p in tiles
    ensures p in DecodeEntries(entries) && DecodeEntries(entries)[p] == tiles[p]
  {
    var i :| 0 <= i < |entries| && entries[i] == Entry(tiles, p);
    DecodeEncodeKey(p);
    forall j | i < j < |entries| ensures DecodeKey(entries[j].0) != DecodeKey(entries[i].0) {
      assert WrittenFrom(entries[j], tiles, tiles.Keys);
      var q :| q in tiles && entries[j] == Entry(tiles, q);
      DecodeEncodeKey(q);
      EncodeKeyInjective(p, q);
    }
    DecodedValueIsLast(entries, i);
  }

  // ---------------------------------------------------------------------------
  // The JSON shape serde gives a saved level (externally tagged enum, field names as declared)

  function RgbJson(c: Rgb): Json { JArr([JInt(c.r), JInt(c.g), JInt(c.b)]) }

  function TileJson(t: TileData): Json
  {
    match t
    case Color(c) => JObj([("Color", RgbJson(c))])
    case Texture(s, i) => JObj([("Texture", JObj([("tileset_id", JInt(s)), ("tile_index", JInt(i))]))])
  }

  function EntriesJson(entries: seq<(string, TileData)>): (fields: seq<(string, Json)>)
    ensures |fields| == |entries|
    ensures forall i | 0 <= i < |entries| :: fields[i] == (entries[i].0, TileJson(entries[i].1))
  {
    if |entries| == 0 then [] else [(entries[0].0, TileJson(entries[0].1))] + EntriesJson(entries[1..])
  }

  /** A layer as written, given the member order `serialize_tiles` used. */
  function LayerJson(l: Layer, entries: seq<(string, TileData)>): Json
  {
    JObj([("name", JStr(l.name)), ("visible", JBool(l.visible)), ("tiles", JObj(EntriesJson(entries)))])
  }

  /** A level as written; `orders[k]` is the member order of layer `k`'s tiles. */
  function LevelJson(d: LevelData, orders: seq<seq<(string, TileData)>>): Json
    requires |orders| == |d.layers|
  {
    JObj([("name", JStr(d.name)), ("width", JInt(d.width)), ("height", JInt(d.height)),
          ("tile_size", JInt(d.tileSize)), ("layers", JArr(LayersJson(d.layers, orders)))])
  }

  function LayersJson(layers: seq<Layer>, orders: seq<seq<(string, TileData)>>): (r: seq<Json>)
    requires |orders| == |layers|
    ensures |r| == |layers|
    ensures forall k | 0 <= k < |layers| :: r[k] == LayerJson(layers[k], orders[k])
  {
    if |layers| == 0 then [] else [LayerJson(layers[0], orders[0])] + LayersJson(layers[1..], orders[1..])
  }

  /** The member orders `save_to_file` may produce for each layer of `d`. */
  predicate SerializedOrders(d: LevelData, orders: seq<seq<(string, TileData)>>)
  {
    |orders| == |d.layers| && forall k | 0 <= k < |orders| :: EncodesTiles(orders[k], d.layers[k].tiles)
  }
}
