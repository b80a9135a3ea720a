/** The Bevy importer (`parsers/bevy_parser.rs`): its own serde shapes for a project file,
    its copy of the "x,y" tile-key codec, and its two queries. Its `TileData` is untagged, so
    a colour is a bare `[r, g, b]` array and a texture an object (or pair) of its two ids,
    and its `tilesets` is an object keyed by name, defaulting to empty. */
module BevyParser {
  import opened Text
  import opened JsonValues
  import opened Levels
  import LevelFiles
  import Projects

  /** `TilesetInfo`: `tiles_per_row` and `total_tiles` are `u32`. */
  datatype TilesetInfo = TilesetInfo(name: string, path: string, tilesPerRow: nat, totalTiles: nat)

  /** `Level`, with the three sizes as `i32`; a layer is the editor's `Layer` shape. */
  datatype BevyLevel = BevyLevel(name: string, width: int, height: int, tileSize: int, layers: seq<Layer>)

  /** `EditorProject`. */
  datatype EditorProject = EditorProject(level: BevyLevel, tilesets: map<string, TilesetInfo>)

  /** A layer as serde hands it to `deserialize_tiles`: the `tiles` object already read into
      a `HashMap<String, TileData>`. */
  datatype RawLayer = RawLayer(name: string, visible: bool, tiles: map<string, TileData>)

  datatype RawLevel = RawLevel(name: string, width: int, height: int, tileSize: int, layers: seq<RawLayer>)

  datatype RawProject = RawProject(level: RawLevel, tilesets: map<string, TilesetInfo>)

  /** `load_from_file`'s error: the file could not be read or parsed, or the document does
      not have the declared shape. */
  datatype BevyLoadError = ReadError(message: string) | ShapeError

  // ---------------------------------------------------------------------------
  // The untagged `TileData`

  /** `#[serde(untagged)]`: the variants are tried in order. `Color([u8; 3])` takes an array
      of exactly three bytes; `Texture { tileset_id: usize, tile_index: u32 }` takes an
      object holding both fields once each (other members ignored), or an array of exactly
      the two values. Anything else matches no variant. */
  function DecodeBevyTile(j: Json): (r: Option<TileData>)
    ensures r.Some? && r.value.Color? ==> j.JArr? && |j.items| == 3
    ensures r.Some? && r.value.Texture? ==> j.JObj? || (j.JArr? && |j.items| == 2)
    ensures r.Some? ==> LevelFiles.TileInRange(r.value)
  {
    match j
    case JArr(items) =>
      if |items| == 3 then
        var r := LevelFiles.AsNat(items[0], 256);
        var g := LevelFiles.AsNat(items[1], 256);
        var b := LevelFiles.AsNat(items[2], 256);
        if r.Ok? && g.Ok? && b.Ok? then Some(Color(Rgb(r.value, g.value, b.value))) else None
      else if |items| == 2 then TextureOf(items[0], items[1])
      else None
    case JObj(fields) =>
      var s := LevelFiles.Member(fields, "tileset_id");
      var i := LevelFiles.Member(fields, "tile_index");
      if s.Ok? && i.Ok? then TextureOf(s.value, i.value) else None
    case _ => None
  }

  function TextureOf(s: Json, i: Json): (r: Option<TileData>)
    ensures r.Some? ==> r.value.Texture? && LevelFiles.TileInRange(r.value)
  {
    var sv := LevelFiles.AsNat(s, LevelFiles.UsizeLimit);
    var iv := LevelFiles.AsNat(i, LevelFiles.U32Limit);
    if sv.Ok? && iv.Ok? then Some(Texture(sv.value, iv.value)) else None
  }

  /** What the derived `Serialize` writes for a tile here. */
  function BevyTileJson(t: TileData): Json
  {
    match t
    case Color(c) => RgbJson(c)
    case Texture(s, i) => JObj([("tileset_id", JInt(s)), ("tile_index", JInt(i))])
  }

  lemma DecodeBevyTileJson(t: TileData)
    requires LevelFiles.TileInRange(t)
    ensures DecodeBevyTile(BevyTileJson(t)) == Some(t)
  {
    if t.Texture? {
      var tf := [("tileset_id", JInt(t.tilesetId)), ("tile_index", JInt(t.tileIndex))];
      LevelFiles.MemberUnique(tf, "tileset_id", 0);
      LevelFiles.MemberUnique(tf, "tile_index", 1);
    }
  }

  /** The editor writes a tile externally tagged, `{"Color": [..]}` or `{"Texture": {..}}`:
      an object without a `tileset_id` member, which matches no variant here. */
  lemma EditorTileRejected(t: TileData)
    ensures DecodeBevyTile(TileJson(t)) == None
  {
    var fields := TileJson(t).fields;
    assert !HasKey(fields, "tileset_id");
  }

  // ---------------------------------------------------------------------------
  // Objects read into a `HashMap<String, V>`

  /** Every value must decode; a repeated key keeps its last value. */
  function DecodeObjectMap<V>(fields: seq<(string, Json)>, decode: Json -> Option<V>): (r: Option<map<string, V>>)
    ensures r.Some? ==> forall k | k in r.value :: HasKey(fields, k)
    ensures r.Some? ==> forall i | 0 <= i < |fields| :: fields[i].0 in r.value
  {
    if |fields| == 0 then Some(map[])
    else
      var init := fields[..|fields| - 1];
      var last := fields[|fields| - 1];
      var m := DecodeObjectMap(init, decode);
      var v := decode(last.1);
      assert forall i | 0 <= i < |init| :: init[i] == fields[i];
      if m.None? || v.None? then None
      else
        var r := m.value[last.0 := v.value];
        assert forall k | k in m.value :: HasKey(fields, k) by {
          forall k | k in m.value ensures HasKey(fields, k) {
            var i :| 0 <= i < |init| && init[i].0 == k;
            assert fields[i].0 == k;
          }
        }
        Some(r)
  }

  /** The member list `serialize_tiles` writes, read back into a `HashMap<String, _>`. */
  function StringMap(entries: seq<(string, TileData)>): map<string, TileData>
  {
    if |entries| == 0 then map[]
    else StringMap(entries[..|entries| - 1])[entries[|entries| - 1].0 := entries[|entries| - 1].1]
  }

  function BevyEntriesJson(entries: seq<(string, TileData)>): (fields: seq<(string, Json)>)
    ensures |fields| == |entries|
    ensures forall i | 0 <= i < |entries| :: fields[i] == (entries[i].0, BevyTileJson(entries[i].1))
  {
    if |entries| == 0 then [] else BevyEntriesJson(entries[..|entries| - 1]) + [(entries[|entries| - 1].0, BevyTileJson(entries[|entries| - 1].1))]
  }

  /** A tiles object written here reads into the map of its members. */
  lemma {:induction false} DecodeBevyEntries(entries: seq<(string, TileData)>)
    requires forall i | 0 <= i < |entries| :: LevelFiles.TileInRange(entries[i].1)
    ensures DecodeObjectMap(BevyEntriesJson(entries), DecodeBevyTile) == Some(StringMap(entries))
  {
    if |entries| > 0 {
      var init := entries[..|entries| - 1];
      var fields := BevyEntriesJson(entries);
      assert fields[..|fields| - 1] == BevyEntriesJson(init);
      DecodeBevyEntries(init);
      DecodeBevyTileJson(entries[|entries| - 1].1);
    }
  }

  /** The keys of the member map are the members' keys, each with one of its values. */
  lemma {:induction false} StringMapKeys(entries: seq<(string, TileData)>, k: string)
    ensures k in StringMap(entries) <==> exists i | 0 <= i < |entries| :: entries[i].0 == k
    ensures k in StringMap(entries) ==> exists i | 0 <= i < |entries| :: entries[i] == (k, StringMap(entries)[k])
  {
    if |entries| > 0 {
      var init := entries[..|entries| - 1];
      StringMapKeys(init, k);
      assert forall i | 0 <= i < |init| :: init[i] == entries[i];
    }
  }

  // ---------------------------------------------------------------------------
  // `deserialize_tiles`: the string map turned into coordinates, in the map's order

  /** What `deserialize_tiles` may return for `m`: exactly the coordinates some key decodes
      to, each holding the value of a key that decodes to it. When two keys decode to the
      same coordinates (`"1,2"` and `"+1,2"`), the map's iteration order picks the value. */
  predicate DeserializedFrom(tiles: map<Pos, TileData>, m: map<string, TileData>)
  {
    && (forall k | k in m && DecodeKey(k).Some? :: DecodeKey(k).value in tiles)
    && (forall p | p in tiles :: exists k | k in m && DecodeKey(k) == Some(p) :: tiles[p] == m[k])
  }

  method DeserializeTiles(m: map<string, TileData>) returns (tiles: map<Pos, TileData>)
    ensures DeserializedFrom(tiles, m)
    ensures KeysInI32(tiles)
  {
    tiles := map[];
    var rest := m.Keys;
    while rest != {}
      invariant rest <= m.Keys
      invariant DeserializedFrom(tiles, m - rest)
      decreases |rest|
    {
      var key :| key in rest;
      ghost var done := m - rest;
      ghost var before := tiles;
      var parts := Split(key, ',');
      if |parts| == 2 {
        var x := ParseI32(parts[0]);
        var y := ParseI32(parts[1]);
        if x.Some? && y.Some? {
          tiles := tiles[(x.value, y.value) := m[key]];
        }
      }
      assert m - (rest - {key}) == done[key := m[key]];
      DeserializeStep(before, done, key, m[key], tiles);
      rest := rest - {key};
    }
    assert m - rest == m;
    KeysFromDecoding(tiles, m);
  }

  lemma DeserializeStep(tiles: map<Pos, TileData>, done: map<string, TileData>, key: string, v: TileData, next: map<Pos, TileData>)
    requires DeserializedFrom(tiles, done) && key !in done
    requires next == match DecodeKey(key) case Some(p) => tiles[p := v] case None => tiles
    ensures DeserializedFrom(next, done[key := v])
  {
    StepKeys(tiles, done, key, v, next);
    StepValues(tiles, done, key, v, next);
  }

  lemma StepKeys(tiles: map<Pos, TileData>, done: map<string, TileData>, key: string, v: TileData, next: map<Pos, TileData>)
    requires DeserializedFrom(tiles, done) && key !in done
    requires next == match DecodeKey(key) case Some(p) => tiles[p := v] case None => tiles
    ensures forall k | k in done[key := v] && DecodeKey(k).Some? :: DecodeKey(k).value in next
  {
    forall k | k in done[key := v] && DecodeKey(k).Some? ensures DecodeKey(k).value in next {
      if k != key {
        assert k in done;
      }
    }
  }

  lemma StepValues(tiles: map<Pos, TileData>, done: map<string, TileData>, key: string, v: TileData, next: map<Pos, TileData>)
    requires DeserializedFrom(tiles, done) && key !in done
    requires next == match DecodeKey(key) case Some(p) => tiles[p := v] case None => tiles
    ensures forall p | p in next :: exists k | k in done[key := v] && DecodeKey(k) == Some(p) :: next[p] == done[key := v][k]
  {
    var m := done[key := v];
    forall p | p in next ensures exists k | k in m && DecodeKey(k) == Some(p) :: next[p] == m[k] {
      if DecodeKey(key) == Some(p) {
        assert next[p] == m[key];
      } else {
        var k :| k in done && DecodeKey(k) == Some(p) && tiles[p] == done[k];
        assert k != key && next[p] == m[k];
      }
    }
  }

  lemma KeysFromDecoding(tiles: map<Pos, TileData>, m: map<string, TileData>)
    requires DeserializedFrom(tiles, m)
    ensures KeysInI32(tiles)
  {
    forall p | p in tiles ensures InI32(p.0) && InI32(p.1) {
      var k :| k in m && DecodeKey(k) == Some(p);
    }
  }

  /** With at most one key per coordinate the result is fully determined. */
  lemma DeserializedUnique(t1: map<Pos, TileData>, t2: map<Pos, TileData>, m: map<string, TileData>)
    requires forall k1, k2 | k1 in m && k2 in m && DecodeKey(k1).Some? && DecodeKey(k1) == DecodeKey(k2) :: k1 == k2
    requires DeserializedFrom(t1, m) && DeserializedFrom(t2, m)
    ensures t1 == t2
  {
    forall p | p in t1 ensures p in t2 && t1[p] == t2[p] {
      var k1 :| k1 in m && DecodeKey(k1) == Some(p) && t1[p] == m[k1];
      var k2 :| k2 in m && DecodeKey(k2) == Some(p) && t2[p] == m[k2];
    }
    SameMap(t1, t2);
  }

  /** `serialize_tiles` followed by `deserialize_tiles` gives the tiles back, whatever order
      either map was walked in. */
  lemma BevyTilesRoundTrip(tiles: map<Pos, TileData>, entries: seq<(string, TileData)>, back: map<Pos, TileData>)
    requires KeysInI32(tiles) && EncodesTiles(entries, tiles)
    requires DeserializedFrom(back, StringMap(entries))
    ensures back == tiles
  {
    var m := StringMap(entries);
    forall p | p in back ensures p in tiles && back[p] == tiles[p] {
      var k :| k in m && DecodeKey(k) == Some(p) && back[p] == m[k];
      var q := MemberOfTile(tiles, entries, k);
      DecodeEncodeKey(q);
    }
    forall p | p in tiles ensures p in back {
      TileMember(tiles, entries, p);
      DecodeEncodeKey(p);
    }
    SameMap(back, tiles);
  }

  /** Each member of the map read back is the key and value of a tile. */
  lemma MemberOfTile(tiles: map<Pos, TileData>, entries: seq<(string, TileData)>, k: string) returns (p: Pos)
    requires EncodesTiles(entries, tiles) && k in StringMap(entries)
    ensures p in tiles && k == EncodeKey(p) && StringMap(entries)[k] == tiles[p]
  {
    StringMapKeys(entries, k);
    var i :| 0 <= i < |entries| && entries[i] == (k, StringMap(entries)[k]);
    assert WrittenFrom(entries[i], tiles, tiles.Keys);
    p :| p in tiles && entries[i] == Entry(tiles, p);
  }

  /** Each tile is in the map read back, under its key. */
  lemma TileMember(tiles: map<Pos, TileData>, entries: seq<(string, TileData)>, p: Pos)
    requires EncodesTiles(entries, tiles) && p in tiles
    ensures EncodeKey(p) in StringMap(entries) && StringMap(entries)[EncodeKey(p)] == tiles[p]
  {
    assert Entry(tiles, p) in entries;
    StringMapKeys(entries, EncodeKey(p));
    var q := MemberOfTile(tiles, entries, EncodeKey(p));
    EncodeKeyInjective(p, q);
  }

  // ---------------------------------------------------------------------------
  // The document shape

  /** A derived struct reads from an object or from an array of its fields in declaration
      order; `Layer` is `{name, visible, tiles}` or `[name, visible, tiles]`. */
  function DecodeRawLayer(j: Json): Option<RawLayer>
  {
    match j
    case JObj(fields) =>
      var n := LevelFiles.Member(fields, "name");
      var v := LevelFiles.Member(fields, "visible");
      var t := LevelFiles.Member(fields, "tiles");
      if n.Err? || v.Err? || t.Err? then None else DecodeRawLayerValues(n.value, v.value, t.value)
    case JArr(items) =>
      if |items| == 3 then DecodeRawLayerValues(items[0], items[1], items[2]) else None
    case _ => None
  }

  function DecodeRawLayerValues(n: Json, v: Json, t: Json): Option<RawLayer>
  {
    if !n.JStr? || !v.JBool? || !t.JObj? then None
    else
      match DecodeObjectMap(t.fields, DecodeBevyTile)
      case Some(m) => Some(RawLayer(n.s, v.b, m))
      case None => None
  }

  function DecodeRawLayers(items: seq<Json>): (r: Option<seq<RawLayer>>)
    ensures r.Some? ==> |r.value| == |items|
  {
    if |items| == 0 then Some([])
    else
      match (DecodeRawLayer(items[0]), DecodeRawLayers(items[1..]))
      case (Some(l), Some(rest)) => Some([l] + rest)
      case _ => None
  }

  /** `Level`: its sizes are `i32`, so a size past `i32::MAX` does not load. */
  function DecodeRawLevel(j: Json): Option<RawLevel>
  {
    match j
    case JObj(fields) =>
      var n := LevelFiles.Member(fields, "name");
      var w := LevelFiles.Member(fields, "width");
      var h := LevelFiles.Member(fields, "height");
      var ts := LevelFiles.Member(fields, "tile_size");
      var ls := LevelFiles.Member(fields, "layers");
      if n.Err? || w.Err? || h.Err? || ts.Err? || ls.Err? then None
      else DecodeRawLevelValues(n.value, w.value, h.value, ts.value, ls.value)
    case JArr(items) =>
      if |items| == 5 then DecodeRawLevelValues(items[0], items[1], items[2], items[3], items[4])
      else None
    case _ => None
  }

  function DecodeRawLevelValues(n: Json, w: Json, h: Json, ts: Json, ls: Json): Option<RawLevel>
  {
    var width := LevelFiles.AsI32(w);
    var height := LevelFiles.AsI32(h);
    var tileSize := LevelFiles.AsI32(ts);
    if !n.JStr? || width.Err? || height.Err? || tileSize.Err? || !ls.JArr? then None
    else
      match DecodeRawLayers(ls.items)
      case Some(layers) => Some(RawLevel(n.s, width.value, height.value, tileSize.value, layers))
      case None => None
  }

  function DecodeTilesetInfo(j: Json): Option<TilesetInfo>
  {
    match j
    case JObj(fields) =>
      var n := LevelFiles.Member(fields, "name");
      var p := LevelFiles.Member(fields, "path");
      var tpr := LevelFiles.Member(fields, "tiles_per_row");
      var tt := LevelFiles.Member(fields, "total_tiles");
      if n.Err? || p.Err? || tpr.Err? || tt.Err? then None
      else DecodeTilesetInfoValues(n.value, p.value, tpr.value, tt.value)
    case JArr(items) =>
      if |items| == 4 then DecodeTilesetInfoValues(items[0], items[1], items[2], items[3]) else None
    case _ => None
  }

  function DecodeTilesetInfoValues(n: Json, p: Json, tpr: Json, tt: Json): Option<TilesetInfo>
  {
    var a := LevelFiles.AsNat(tpr, LevelFiles.U32Limit);
    var b := LevelFiles.AsNat(tt, LevelFiles.U32Limit);
    if n.JStr? && p.JStr? && a.Ok? && b.Ok? then Some(TilesetInfo(n.s, p.s, a.value, b.value))
    else None
  }

  /** `tilesets` is `#[serde(default)]`: a document without it has no tilesets; one that has
      it must give an object of `TilesetInfo`s. */
  function DecodeTilesets(fields: seq<(string, Json)>): (r: Option<map<string, TilesetInfo>>)
    ensures !HasKey(fields, "tilesets") ==> r == Some(map[])
  {
    if !HasKey(fields, "tilesets") then Some(map[])
    else
      match LevelFiles.Member(fields, "tilesets")
      case Ok(JObj(tf)) => DecodeObjectMap(tf, DecodeTilesetInfo)
      case _ => None
  }

  /** `EditorProject`: an object with `level` and perhaps `tilesets`, or the array `[level]`
      or `[level, tilesets]`, the missing `tilesets` being empty either way. */
  function DecodeRawProject(j: Json): (r: Option<RawProject>)
    ensures r.Some? ==> (j.JObj? && HasKey(j.fields, "level")) || (j.JArr? && 1 <= |j.items| <= 2)
    ensures r.Some? && ((j.JObj? && !HasKey(j.fields, "tilesets")) || (j.JArr? && |j.items| == 1)) ==>
              r.value.tilesets == map[]
  {
    match j
    case JObj(fields) =>
      var l := LevelFiles.Member(fields, "level");
      if l.Err? then None
      else
        (match (DecodeRawLevel(l.value), DecodeTilesets(fields))
         case (Some(level), Some(ts)) => Some(RawProject(level, ts))
         case _ => None)
    case JArr(items) =>
      if |items| == 1 then
        (match DecodeRawLevel(items[0])
         case Some(level) => Some(RawProject(level, map[]))
         case None => None)
      else if |items| == 2 && items[1].JObj? then
        match (DecodeRawLevel(items[0]), DecodeObjectMap(items[1].fields, DecodeTilesetInfo))
        case (Some(level), Some(ts)) => Some(RawProject(level, ts))
        case _ => None
      else None
    case _ => None
  }

  /** A `Layer` written as the array of its fields, in declaration order, reads as the object
      with those fields. */
  lemma RawLayerArrayForm(n: Json, v: Json, t: Json)
    ensures DecodeRawLayer(JArr([n, v, t])) == DecodeRawLayer(JObj([("name", n), ("visible", v), ("tiles", t)]))
  {
    var fields := [("name", n), ("visible", v), ("tiles", t)];
    LevelFiles.MemberUnique(fields, "name", 0);
    LevelFiles.MemberUnique(fields, "visible", 1);
    LevelFiles.MemberUnique(fields, "tiles", 2);
  }

  /** So does a `Level`. */
  lemma RawLevelArrayForm(n: Json, w: Json, h: Json, ts: Json, ls: Json)
    ensures DecodeRawLevel(JArr([n, w, h, ts, ls])) == DecodeRawLevel(JObj(LevelFiles.LevelObject(n, w, h, ts, ls)))
  {
    LevelFiles.LevelMembers(n, w, h, ts, ls);
    assert DecodeRawLevel(JObj(LevelFiles.LevelObject(n, w, h, ts, ls))) == DecodeRawLevelValues(n, w, h, ts, ls);
  }

  /** And a `TilesetInfo`. */
  lemma TilesetInfoArrayForm(n: Json, p: Json, tpr: Json, tt: Json)
    ensures DecodeTilesetInfo(JArr([n, p, tpr, tt]))
         == DecodeTilesetInfo(JObj([("name", n), ("path", p), ("tiles_per_row", tpr), ("total_tiles", tt)]))
  {
    var fields := [("name", n), ("path", p), ("tiles_per_row", tpr), ("total_tiles", tt)];
    LevelFiles.MemberUnique(fields, "name", 0);
    LevelFiles.MemberUnique(fields, "path", 1);
    LevelFiles.MemberUnique(fields, "tiles_per_row", 2);
    LevelFiles.MemberUnique(fields, "total_tiles", 3);
  }

  /** `[level]` reads as `{"level": level}`, both without tilesets. */
  lemma RawProjectLevelOnly(l: Json)
    ensures DecodeRawProject(JArr([l])) == DecodeRawProject(JObj([("level", l)]))
  {
    LevelFiles.MemberUnique([("level", l)], "level", 0);
    assert !HasKey([("level", l)], "tilesets");
  }

  /** `[level, tilesets]` reads as `{"level": level, "tilesets": tilesets}`. */
  lemma RawProjectArrayForm(l: Json, t: Json)
    ensures DecodeRawProject(JArr([l, t])) == DecodeRawProject(JObj([("level", l), ("tilesets", t)]))
  {
    var fields := [("level", l), ("tilesets", t)];
    LevelFiles.MemberUnique(fields, "level", 0);
    LevelFiles.MemberUnique(fields, "tilesets", 1);
  }

  /** `p` is what serde builds from `raw`, `deserialize_tiles` applied to each layer. */
  predicate FromRaw(raw: RawProject, p: EditorProject)
  {
    && p.tilesets == raw.tilesets
    && p.level.name == raw.level.name && p.level.width == raw.level.width
    && p.level.height == raw.level.height && p.level.tileSize == raw.level.tileSize
    && |p.level.layers| == |raw.level.layers|
    && forall k | 0 <= k < |p.level.layers| ::
         && p.level.layers[k].name == raw.level.layers[k].name
         && p.level.layers[k].visible == raw.level.layers[k].visible
         && DeserializedFrom(p.level.layers[k].tiles, raw.level.layers[k].tiles)
  }

  /** `EditorProject::load_from_file`, given what reading and parsing the file gave. */
  method LoadFromFile(read: Result<Json, string>) returns (r: Result<EditorProject, BevyLoadError>)
    ensures read.Err? ==> r == Err(ReadError(read.error))
    ensures read.Ok? ==> (r.Ok? <==> DecodeRawProject(read.value).Some?)
    ensures r.Ok? ==> read.Ok? && FromRaw(DecodeRawProject(read.value).value, r.value)
  {
    if read.Err? {
      return Err(ReadError(read.error));
    }
    var decoded := DecodeRawProject(read.value);
    if decoded.None? {
      return Err(ShapeError);
    }
    var p := Deserialize(decoded.value);
    r := Ok(p);
  }

  /** The project serde builds once the document has the right shape: each layer's tile keys
      go through `deserialize_tiles`. */
  method Deserialize(raw: RawProject) returns (p: EditorProject)
    ensures FromRaw(raw, p)
  {
    var layers: seq<Layer> := [];
    var k := 0;
    while k < |raw.level.layers|
      invariant k <= |raw.level.layers| && |layers| == k
      invariant forall i | 0 <= i < k ::
        && layers[i].name == raw.level.layers[i].name && layers[i].visible == raw.level.layers[i].visible
        && DeserializedFrom(layers[i].tiles, raw.level.layers[i].tiles)
    {
      var rl := raw.level.layers[k];
      var tiles := DeserializeTiles(rl.tiles);
      layers := layers + [Layer(rl.name, rl.visible, tiles)];
      k := k + 1;
    }
    var level := BevyLevel(raw.level.name, raw.level.width, raw.level.height, raw.level.tileSize, layers);
    p := EditorProject(level, raw.tilesets);
  }

  // ---------------------------------------------------------------------------
  // Files the editor writes

  /** A project the editor saves has `tilesets` as an array, which is not the object this
      shape asks for, so it never loads here, even with no tilesets at all. */
  lemma EditorProjectRejected(p: Projects.ProjectData, orders: seq<seq<(string, TileData)>>)
    requires |orders| == |p.level.layers|
    ensures DecodeRawProject(Projects.ProjectJson(p, orders)) == None
  {
    var fields := Projects.ProjectJson(p, orders).fields;
    Projects.ProjectMembers(p, orders);
    assert fields[2].0 == "tilesets";
    assert DecodeTilesets(fields) == None;
  }

  /** A level the editor saves on its own has no `level` member, so it does not load either. */
  lemma EditorLevelRejected(d: LevelData, orders: seq<seq<(string, TileData)>>)
    requires |orders| == |d.layers|
    ensures DecodeRawProject(LevelJson(d, orders)) == None
  {
    var fields := LevelJson(d, orders).fields;
    assert !HasKey(fields, "level");
  }

  /** A layer the editor writes with at least one tile does not load here: its tile values
      are tagged. */
  lemma EditorLayerRejected(l: Layer, entries: seq<(string, TileData)>)
    requires |entries| > 0
    ensures DecodeRawLayer(LayerJson(l, entries)) == None
  {
    var fields := LayerJson(l, entries).fields;
    LevelFiles.MemberUnique(fields, "name", 0);
    LevelFiles.MemberUnique(fields, "visible", 1);
    LevelFiles.MemberUnique(fields, "tiles", 2);
    EditorTileStops(EntriesJson(entries), |entries| - 1);
  }

  /** A member map with one tagged tile value does not decode. */
  lemma {:induction false} EditorTileStops(fields: seq<(string, Json)>, i: nat)
    requires i < |fields| && exists t :: fields[i].1 == TileJson(t)
    ensures DecodeObjectMap(fields, DecodeBevyTile) == None
    decreases |fields|
  {
    var t :| fields[i].1 == TileJson(t);
    if i == |fields| - 1 {
      EditorTileRejected(t);
    } else {
      var init := fields[..|fields| - 1];
      assert init[i] == fields[i];
      EditorTileStops(init, i);
    }
  }

  // ---------------------------------------------------------------------------
  // Queries

  /** `get_layer_tiles`: the tiles of the first layer with that name. */
  function GetLayerTiles(p: EditorProject, layerName: string): (r: Option<map<Pos, TileData>>)
    ensures r.None? <==> forall k | 0 <= k < |p.level.layers| :: p.level.layers[k].name != layerName
    ensures r.Some? ==> exists k | 0 <= k < |p.level.layers| ::
      && p.level.layers[k].name == layerName && r.value == p.level.layers[k].tiles
      && forall j | 0 <= j < k :: p.level.layers[j].name != layerName
  {
    match FirstNamed(p.level.layers, layerName)
    case Some(k) => Some(p.level.layers[k].tiles)
    case None => None
  }

  function FirstNamed(layers: seq<Layer>, name: string): (r: Option<nat>)
    ensures r.None? <==> forall k | 0 <= k < |layers| :: layers[k].name != name
    ensures r.Some? ==> r.value < |layers| && layers[r.value].name == name
    ensures r.Some? ==> forall j | 0 <= j < r.value :: layers[j].name != name
  {
    if |layers| == 0 then None
    else if layers[0].name == name then Some(0)
    else
      match FirstNamed(layers[1..], name)
      case Some(k) =>
        assert forall j | 1 <= j <= k :: layers[j] == layers[1..][j - 1];
        Some(k + 1)
      case None =>
        assert forall j | 1 <= j < |layers| :: layers[j] == layers[1..][j - 1];
        None
  }

  /** The coordinates of a layer that hold exactly the colour `color`. */
  function Matching(tiles: map<Pos, TileData>, color: Rgb): set<Pos>
  {
    set p | p in tiles && tiles[p] == Color(color)
  }

  function Concat(chunks: seq<seq<Pos>>): seq<Pos>
  {
    if |chunks| == 0 then [] else Concat(chunks[..|chunks| - 1]) + chunks[|chunks| - 1]
  }

  /** `s` lists the set `c` once each, in some order. */
  predicate Enumerates(s: seq<Pos>, c: set<Pos>)
  {
    && |s| == |c|
    && (forall i | 0 <= i < |s| :: s[i] in c)
    && (forall p | p in c :: p in s)
  }

  /** `find_tiles_by_color`: the layers in order, and in each the coordinates holding that
      colour in the map's order; `chunks` is the part each layer contributed. */
  method FindTilesByColor(p: EditorProject, color: Rgb) returns (positions: seq<Pos>, ghost chunks: seq<seq<Pos>>)
    ensures |chunks| == |p.level.layers| && positions == Concat(chunks)
    ensures forall k | 0 <= k < |chunks| :: Enumerates(chunks[k], Matching(p.level.layers[k].tiles, color))
    ensures forall q :: q in positions <==>
              exists k | 0 <= k < |p.level.layers| :: q in p.level.layers[k].tiles && p.level.layers[k].tiles[q] == Color(color)
  {
    positions := [];
    chunks := [];
    var k := 0;
    while k < |p.level.layers|
      invariant k <= |p.level.layers| && |chunks| == k && positions == Concat(chunks)
      invariant forall i | 0 <= i < k :: Enumerates(chunks[i], Matching(p.level.layers[i].tiles, color))
    {
      var tiles := p.level.layers[k].tiles;
      var found := ColorPositions(tiles, color);
      assert (chunks + [found])[..k] == chunks;
      positions := positions + found;
      chunks := chunks + [found];
      k := k + 1;
    }
    forall q {
      FoundPositions(p.level.layers, color, chunks, q);
    }
  }

  /** The inner loop over one layer's tiles. */
  method ColorPositions(tiles: map<Pos, TileData>, color: Rgb) returns (found: seq<Pos>)
    ensures Enumerates(found, Matching(tiles, color))
  {
    found := [];
    var rest := tiles.Keys;
    ghost var seen: set<Pos> := {};
    while rest != {}
      invariant rest <= tiles.Keys && seen == Matching(tiles, color) - rest
      invariant Enumerates(found, seen)
      decreases |rest|
    {
      var pos :| pos in rest;
      if tiles[pos] == Color(color) {
        assert pos !in found;
        found := found + [pos];
        seen := seen + {pos};
      }
      rest := rest - {pos};
    }
  }

  /** A position is reported exactly when some layer has that colour there; no texture tile
      is ever reported. */
  lemma {:induction false} FoundPositions(layers: seq<Layer>, color: Rgb, chunks: seq<seq<Pos>>, q: Pos)
    requires |chunks| == |layers|
    requires forall k | 0 <= k < |chunks| :: Enumerates(chunks[k], Matching(layers[k].tiles, color))
    ensures q in Concat(chunks) <==> exists k | 0 <= k < |layers| :: q in layers[k].tiles && layers[k].tiles[q] == Color(color)
  {
    if |chunks| > 0 {
      var n := |chunks| - 1;
      FoundPositions(layers[..n], color, chunks[..n], q);
      assert q in Concat(chunks) <==> q in Concat(chunks[..n]) || q in chunks[n];
      assert forall k | 0 <= k < n :: layers[..n][k] == layers[k];
    }
  }

  /** The number of positions is the number of matching tiles over all layers, repeats
      across layers included. */
  lemma {:induction false} FoundCount(layers: seq<Layer>, color: Rgb, chunks: seq<seq<Pos>>)
    requires |chunks| == |layers|
    requires forall k | 0 <= k < |chunks| :: Enumerates(chunks[k], Matching(layers[k].tiles, color))
    ensures |Concat(chunks)| == MatchCount(layers, color)
  {
    if |chunks| > 0 {
      var n := |chunks| - 1;
      FoundCount(layers[..n], color, chunks[..n]);
      assert layers[..n] == layers[..|layers| - 1];
    }
  }

  function MatchCount(layers: seq<Layer>, color: Rgb): nat
  {
    if |layers| == 0 then 0 else MatchCount(layers[..|layers| - 1], color) + |Matching(layers[|layers| - 1].tiles, color)|
  }
}
