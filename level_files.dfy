/** Reading a saved level back (`Level::load_from_file` in src/level.rs): what serde's derived
    `Deserialize` does with a decoded JSON document of the editor's level shape. The JSON text
    and the file are outside the model; the document is a decoded value. */
module LevelFiles {
  import opened Text
  import opened JsonValues
  import opened Levels

  /** Why a document does not decode. Which of several problems serde reports first is not
      modelled, only that it reports one. */
  datatype DecodeError = MissingField(field: string) | DuplicateField(field: string) | InvalidType | InvalidValue
    | InvalidLength(length: nat)

  /** Why loading a file fails: reading or parsing its text, or decoding the document. */
  datatype LoadError = ReadFailed(message: string) | Invalid(error: DecodeError)

  const U32Limit: nat := 0x1_0000_0000
  const UsizeLimit: nat := 0x1_0000_0000_0000_0000

  function Occurrences(fields: seq<(string, Json)>, key: string): nat
  {
    if |fields| == 0 then 0
    else Occurrences(fields[..|fields| - 1], key) + (if fields[|fields| - 1].0 == key then 1 else 0)
  }

  /** A struct field as the derived decoder finds it: missing and repeated fields are errors,
      members it does not know are ignored. */
  function Member(fields: seq<(string, Json)>, key: string): (r: Result<Json, DecodeError>)
    ensures r.Ok? ==> HasKey(fields, key)
  {
    match Lookup(fields, key)
    case None => Err(MissingField(key))
    case Some(v) => if Occurrences(fields, key) > 1 then Err(DuplicateField(key)) else Ok(v)
  }

  /** A key that names exactly one member finds that member. */
  lemma MemberUnique(fields: seq<(string, Json)>, key: string, i: nat)
    requires i < |fields| && fields[i].0 == key
    requires forall j | 0 <= j < |fields| && j != i :: fields[j].0 != key
    ensures Member(fields, key) == Ok(fields[i].1)
  {
    LookupUnique(fields, key, i);
    OccursOnce(fields, key, i);
  }

  lemma {:induction false} LookupUnique(fields: seq<(string, Json)>, key: string, i: nat)
    requires i < |fields| && fields[i].0 == key
    requires forall j | i < j < |fields| :: fields[j].0 != key
    ensures Lookup(fields, key) == Some(fields[i].1)
  {
    if i < |fields| - 1 {
      var init := fields[..|fields| - 1];
      forall j | i < j < |init| ensures init[j].0 != key {
        assert init[j] == fields[j];
      }
      LookupUnique(init, key, i);
    }
  }

  lemma {:induction false} OccursOnce(fields: seq<(string, Json)>, key: string, i: nat)
    requires i < |fields| && fields[i].0 == key
    requires forall j | 0 <= j < |fields| && j != i :: fields[j].0 != key
    ensures Occurrences(fields, key) == 1
  {
    var init := fields[..|fields| - 1];
    if i < |fields| - 1 {
      forall j | 0 <= j < |init| && j != i ensures init[j].0 != key {
        assert init[j] == fields[j];
      }
      OccursOnce(init, key, i);
    } else {
      forall j | 0 <= j < |init| ensures init[j].0 != key {
        assert init[j] == fields[j];
      }
      NeverOccurs(init, key);
    }
  }

  lemma {:induction false} NeverOccurs(fields: seq<(string, Json)>, key: string)
    requires forall j | 0 <= j < |fields| :: fields[j].0 != key
    ensures Occurrences(fields, key) == 0
  {
    if |fields| > 0 {
      var init := fields[..|fields| - 1];
      forall j | 0 <= j < |init| ensures init[j].0 != key {
        assert init[j] == fields[j];
      }
      NeverOccurs(init, key);
    }
  }

  /** An unsigned integer of a type with `limit` values. */
  function AsNat(j: Json, limit: nat): (r: Result<nat, DecodeError>)
    ensures r.Ok? ==> r.value < limit
  {
    match j
    case JInt(i) => if 0 <= i < limit then Ok(i) else Err(InvalidValue)
    case _ => Err(InvalidType)
  }

  function AsI32(j: Json): (r: Result<int, DecodeError>)
    ensures r.Ok? ==> InI32(r.value)
  {
    match j
    case JInt(i) => if InI32(i) then Ok(i) else Err(InvalidValue)
    case _ => Err(InvalidType)
  }

  function AsString(j: Json): Result<string, DecodeError>
  {
    match j
    case JStr(s) => Ok(s)
    case _ => Err(InvalidType)
  }

  function AsBool(j: Json): Result<bool, DecodeError>
  {
    match j
    case JBool(b) => Ok(b)
    case _ => Err(InvalidType)
  }

  /** `[u8; 3]`: an array of exactly three bytes. */
  function DecodeRgb(j: Json): Result<Rgb, DecodeError>
  {
    match j
    case JArr(items) =>
      if |items| != 3 then Err(InvalidValue)
      else
        (match (AsNat(items[0], 256), AsNat(items[1], 256), AsNat(items[2], 256))
         case (Ok(r), Ok(g), Ok(b)) => Ok(Rgb(r, g, b))
         case _ => Err(InvalidValue))
    case _ => Err(InvalidType)
  }

  /** The fields of `Texture { tileset_id: usize, tile_index: u32 }`, given as an object. */
  function DecodeTextureFields(fields: seq<(string, Json)>): Result<TileData, DecodeError>
  {
    match (Member(fields, "tileset_id"), Member(fields, "tile_index"))
    case (Ok(s), Ok(i)) => DecodeTextureValues(s, i)
    case (Err(e), _) => Err(e)
    case (_, Err(e)) => Err(e)
  }

  /** The values of the two `Texture` fields, whichever form carried them. */
  function DecodeTextureValues(s: Json, i: Json): Result<TileData, DecodeError>
  {
    match (AsNat(s, UsizeLimit), AsNat(i, U32Limit))
    case (Ok(sv), Ok(iv)) => Ok(Texture(sv, iv))
    case _ => Err(InvalidValue)
  }

  /** The editor's `TileData`, externally tagged: an object with exactly one member, named
      after the variant. The struct variant's fields come as an object or, as with every
      derived struct, as an array in declaration order. */
  function DecodeTile(j: Json): (r: Result<TileData, DecodeError>)
    ensures r.Ok? ==> j.JObj? && |j.fields| == 1
  {
    match j
    case JObj(fields) =>
      if |fields| != 1 then Err(InvalidValue)
      else if fields[0].0 == "Color" then
        (match DecodeRgb(fields[0].1)
         case Ok(c) => Ok(Color(c))
         case Err(e) => Err(e))
      else if fields[0].0 == "Texture" then
        (match fields[0].1
         case JObj(tf) => DecodeTextureFields(tf)
         case JArr(items) =>
           if |items| != 2 then Err(InvalidLength(|items|))
           else DecodeTextureValues(items[0], items[1])
         case _ => Err(InvalidType))
      else Err(InvalidValue)
    case _ => Err(InvalidType)
  }

  /** The values of a `tiles` object, decoded in document order as `next_entry` visits them;
      the first value that does not decode fails the whole level. */
  function DecodeTileMembers(fields: seq<(string, Json)>): (r: Result<seq<(string, TileData)>, DecodeError>)
    ensures r.Ok? ==> |r.value| == |fields|
    ensures r.Ok? ==> forall i | 0 <= i < |fields| :: r.value[i].0 == fields[i].0
  {
    if |fields| == 0 then Ok([])
    else
      match DecodeTile(fields[0].1)
      case Err(e) => Err(e)
      case Ok(t) =>
        match DecodeTileMembers(fields[1..])
        case Err(e) => Err(e)
        case Ok(rest) => Ok([(fields[0].0, t)] + rest)
  }

  /** A `Layer`, as an object or as the array `[name, visible, tiles]`; its `tiles` member
      goes through the lenient "x,y" key decoding. */
  function DecodeLayer(j: Json): Result<Layer, DecodeError>
  {
    match j
    case JObj(fields) =>
      (match (Member(fields, "name"), Member(fields, "visible"), Member(fields, "tiles"))
       case (Ok(n), Ok(v), Ok(t)) => DecodeLayerValues(n, v, t)
       case (Err(e), _, _) => Err(e)
       case (_, Err(e), _) => Err(e)
       case (_, _, Err(e)) => Err(e))
    case JArr(items) =>
      if |items| != 3 then Err(InvalidLength(|items|))
      else DecodeLayerValues(items[0], items[1], items[2])
    case _ => Err(InvalidType)
  }

  /** The values of a `Layer`'s three fields; `tiles` must be an object. */
  function DecodeLayerValues(n: Json, v: Json, t: Json): Result<Layer, DecodeError>
  {
    match (AsString(n), AsBool(v), t)
    case (Ok(name), Ok(visible), JObj(tf)) =>
      (match DecodeTileMembers(tf)
       case Ok(entries) => Ok(Layer(name, visible, DecodeEntries(entries)))
       case Err(e) => Err(e))
    case _ => Err(InvalidType)
  }

  function DecodeLayers(items: seq<Json>): (r: Result<seq<Layer>, DecodeError>)
    ensures r.Ok? ==> |r.value| == |items|
  {
    if |items| == 0 then Ok([])
    else
      match DecodeLayer(items[0])
      case Err(e) => Err(e)
      case Ok(l) =>
        match DecodeLayers(items[1..])
        case Err(e) => Err(e)
        case Ok(rest) => Ok([l] + rest)
  }

  /** A `Level`: name, three `u32` sizes and the layer array, as an object or as an array
      in that order. */
  function DecodeLevel(j: Json): Result<LevelData, DecodeError>
  {
    match j
    case JObj(fields) =>
      var n := Member(fields, "name");
      var w := Member(fields, "width");
      var h := Member(fields, "height");
      var ts := Member(fields, "tile_size");
      var ls := Member(fields, "layers");
      if n.Err? then Err(n.error)
      else if w.Err? then Err(w.error)
      else if h.Err? then Err(h.error)
      else if ts.Err? then Err(ts.error)
      else if ls.Err? then Err(ls.error)
      else DecodeLevelValues(n.value, w.value, h.value, ts.value, ls.value)
    case JArr(items) =>
      if |items| != 5 then Err(InvalidLength(|items|))
      else DecodeLevelValues(items[0], items[1], items[2], items[3], items[4])
    case _ => Err(InvalidType)
  }

  /** The values of a `Level`'s members, once each has been found exactly once. */
  function DecodeLevelValues(n: Json, w: Json, h: Json, ts: Json, ls: Json): Result<LevelData, DecodeError>
  {
    if !ls.JArr? then Err(InvalidType)
    else
      var name := AsString(n);
      var width := AsNat(w, U32Limit);
      var height := AsNat(h, U32Limit);
      var tileSize := AsNat(ts, U32Limit);
      var layers := DecodeLayers(ls.items);
      if name.Err? then Err(name.error)
      else if width.Err? then Err(width.error)
      else if height.Err? then Err(height.error)
      else if tileSize.Err? then Err(tileSize.error)
      else if layers.Err? then Err(layers.error)
      else Ok(LevelData(name.value, width.value, height.value, tileSize.value, layers.value))
  }

  /** `Level::load_from_file`, given what reading the file and parsing its text gave. */
  function LoadLevel(read: Result<Json, string>): (r: Result<LevelData, LoadError>)
    ensures read.Err? ==> r == Err(ReadFailed(read.error))
  {
    match read
    case Err(m) => Err(ReadFailed(m))
    case Ok(j) =>
      match DecodeLevel(j)
      case Ok(d) => Ok(d)
      case Err(e) => Err(Invalid(e))
  }

  // ---------------------------------------------------------------------------
  // Saving and loading again gives the same level

  /** A tile the derived encoder and decoder agree on: its texture ids fit their Rust types. */
  predicate TileInRange(t: TileData)
  {
    t.Texture? ==> t.tilesetId < UsizeLimit && t.tileIndex < U32Limit
  }

  predicate LayerInRange(l: Layer)
  {
    KeysInI32(l.tiles) && forall p | p in l.tiles :: TileInRange(l.tiles[p])
  }

  /** A level whose every number fits the type the file format gives it. */
  predicate LevelInRange(d: LevelData)
  {
    && d.width < U32Limit && d.height < U32Limit && d.tileSize < U32Limit
    && forall k | 0 <= k < |d.layers| :: LayerInRange(d.layers[k])
  }

  lemma DecodeRgbJson(c: Rgb)
    ensures DecodeRgb(RgbJson(c)) == Ok(c)
  {
  }

  lemma DecodeTileJson(t: TileData)
    requires TileInRange(t)
    ensures DecodeTile(TileJson(t)) == Ok(t)
  {
    match t
    case Color(c) =>
      DecodeRgbJson(c);
    case Texture(s, i) =>
      var tf := [("tileset_id", JInt(s)), ("tile_index", JInt(i))];
      MemberUnique(tf, "tileset_id", 0);
      MemberUnique(tf, "tile_index", 1);
  }

  lemma {:induction false} DecodeTileMembersJson(entries: seq<(string, TileData)>)
    requires forall i | 0 <= i < |entries| :: TileInRange(entries[i].1)
    ensures DecodeTileMembers(EntriesJson(entries)) == Ok(entries)
  {
    if |entries| > 0 {
      var fields := EntriesJson(entries);
      DecodeTileJson(entries[0].1);
      assert EntriesJson(entries)[1..] == EntriesJson(entries[1..]);
      DecodeTileMembersJson(entries[1..]);
      assert [(entries[0].0, entries[0].1)] + entries[1..] == entries;
    }
  }

  /** Every tile written for a layer is one of its tiles. */
  lemma EntriesInRange(l: Layer, entries: seq<(string, TileData)>)
    requires LayerInRange(l) && EncodesTiles(entries, l.tiles)
    ensures forall i | 0 <= i < |entries| :: TileInRange(entries[i].1)
  {
    forall i | 0 <= i < |entries| ensures TileInRange(entries[i].1) {
      assert WrittenFrom(entries[i], l.tiles, l.tiles.Keys);
    }
  }

  lemma LayerFields(l: Layer, entries: seq<(string, TileData)>)
    ensures var fields := [("name", JStr(l.name)), ("visible", JBool(l.visible)), ("tiles", JObj(EntriesJson(entries)))];
      && Member(fields, "name") == Ok(JStr(l.name))
      && Member(fields, "visible") == Ok(JBool(l.visible))
      && Member(fields, "tiles") == Ok(JObj(EntriesJson(entries)))
  {
    var fields := [("name", JStr(l.name)), ("visible", JBool(l.visible)), ("tiles", JObj(EntriesJson(entries)))];
    MemberUnique(fields, "name", 0);
    MemberUnique(fields, "visible", 1);
    MemberUnique(fields, "tiles", 2);
  }

  /** A layer written with any member order reads back as the same layer. */
  lemma DecodeLayerJson(l: Layer, entries: seq<(string, TileData)>)
    requires LayerInRange(l) && EncodesTiles(entries, l.tiles)
    ensures DecodeLayer(LayerJson(l, entries)) == Ok(l)
  {
    EntriesInRange(l, entries);
    DecodeLayerMembers(l, entries);
    TilesRoundTrip(l.tiles, entries);
  }

  /** Reading a written layer decodes its members, whatever they are. */
  lemma DecodeLayerMembers(l: Layer, entries: seq<(string, TileData)>)
    requires forall i | 0 <= i < |entries| :: TileInRange(entries[i].1)
    ensures DecodeLayer(LayerJson(l, entries)) == Ok(Layer(l.name, l.visible, DecodeEntries(entries)))
  {
    LayerFields(l, entries);
    DecodeTileMembersJson(entries);
    DecodeLayerOf(LayerJson(l, entries).fields, l.name, l.visible, EntriesJson(entries), entries);
  }

  /** A layer object whose three fields read as a name, a flag and a tiles object. */
  lemma DecodeLayerOf(fields: seq<(string, Json)>, name: string, visible: bool, tf: seq<(string, Json)>,
                      entries: seq<(string, TileData)>)
    requires Member(fields, "name") == Ok(JStr(name)) && Member(fields, "visible") == Ok(JBool(visible))
    requires Member(fields, "tiles") == Ok(JObj(tf)) && DecodeTileMembers(tf) == Ok(entries)
    ensures DecodeLayer(JObj(fields)) == Ok(Layer(name, visible, DecodeEntries(entries)))
  {
  }

  lemma DecodeLayersJson(layers: seq<Layer>, orders: seq<seq<(string, TileData)>>)
    requires |orders| == |layers|
    requires forall k | 0 <= k < |layers| :: LayerInRange(layers[k]) && EncodesTiles(orders[k], layers[k].tiles)
    ensures DecodeLayers(LayersJson(layers, orders)) == Ok(layers)
  {
    var items := LayersJson(layers, orders);
    forall k | 0 <= k < |layers| ensures DecodeLayer(items[k]) == Ok(layers[k]) {
      DecodeLayerJson(layers[k], orders[k]);
    }
    DecodeLayersOf(items, layers);
  }

  lemma DecodeLayersCons(items: seq<Json>, l: Layer, rest: seq<Layer>)
    requires |items| > 0 && DecodeLayer(items[0]) == Ok(l) && DecodeLayers(items[1..]) == Ok(rest)
    ensures DecodeLayers(items) == Ok([l] + rest)
  {
  }

  /** A list whose every item decodes to a layer decodes to the list of those layers. */
  lemma {:induction false} DecodeLayersOf(items: seq<Json>, layers: seq<Layer>)
    requires |items| == |layers|
    requires forall k | 0 <= k < |items| :: DecodeLayer(items[k]) == Ok(layers[k])
    ensures DecodeLayers(items) == Ok(layers)
  {
    if |items| > 0 {
      DecodeLayersOf(items[1..], layers[1..]);
      DecodeLayersCons(items, layers[0], layers[1..]);
      assert [layers[0]] + layers[1..] == layers;
    }
  }


  lemma LevelFields(d: LevelData, ls: seq<Json>)
    ensures var fields := [("name", JStr(d.name)), ("width", JInt(d.width)), ("height", JInt(d.height)),
                           ("tile_size", JInt(d.tileSize)), ("layers", JArr(ls))];
      && Member(fields, "name") == Ok(JStr(d.name))
      && Member(fields, "width") == Ok(JInt(d.width))
      && Member(fields, "height") == Ok(JInt(d.height))
      && Member(fields, "tile_size") == Ok(JInt(d.tileSize))
      && Member(fields, "layers") == Ok(JArr(ls))
  {
    LevelMembers(JStr(d.name), JInt(d.width), JInt(d.height), JInt(d.tileSize), JArr(ls));
  }

  /** The members of a level object, in declaration order. */
  function LevelObject(n: Json, w: Json, h: Json, ts: Json, ls: Json): seq<(string, Json)>
  {
    [("name", n), ("width", w), ("height", h), ("tile_size", ts), ("layers", ls)]
  }

  /** Each member of a level object is found under its own name. */
  lemma LevelMembers(n: Json, w: Json, h: Json, ts: Json, ls: Json)
    ensures var fields := LevelObject(n, w, h, ts, ls);
      && Member(fields, "name") == Ok(n) && Member(fields, "width") == Ok(w)
      && Member(fields, "height") == Ok(h) && Member(fields, "tile_size") == Ok(ts)
      && Member(fields, "layers") == Ok(ls)
  {
    var fields := LevelObject(n, w, h, ts, ls);
    MemberUnique(fields, "name", 0);
    MemberUnique(fields, "width", 1);
    MemberUnique(fields, "height", 2);
    MemberUnique(fields, "tile_size", 3);
    MemberUnique(fields, "layers", 4);
  }

  /** Saving a level and loading the file again gives the level back, whatever member order
      the tile maps were written in, as long as its numbers fit the file's types. */
  lemma SaveThenLoadLevel(d: LevelData, orders: seq<seq<(string, TileData)>>)
    requires SerializedOrders(d, orders) && LevelInRange(d)
    ensures LoadLevel(Ok(LevelJson(d, orders))) == Ok(d)
  {
    DecodeLayersJson(d.layers, orders);
    DecodeLevelFields(d, LayersJson(d.layers, orders));
  }

  /** A written level decodes once its layers do. */
  lemma DecodeLevelFields(d: LevelData, ls: seq<Json>)
    requires d.width < U32Limit && d.height < U32Limit && d.tileSize < U32Limit
    requires DecodeLayers(ls) == Ok(d.layers)
    ensures DecodeLevel(JObj([("name", JStr(d.name)), ("width", JInt(d.width)), ("height", JInt(d.height)),
                              ("tile_size", JInt(d.tileSize)), ("layers", JArr(ls))])) == Ok(d)
  {
    var fields := [("name", JStr(d.name)), ("width", JInt(d.width)), ("height", JInt(d.height)),
                   ("tile_size", JInt(d.tileSize)), ("layers", JArr(ls))];
    LevelFields(d, ls);
    assert DecodeLevel(JObj(fields)) == DecodeLevelValues(JStr(d.name), JInt(d.width), JInt(d.height), JInt(d.tileSize), JArr(ls));
    LevelValues(d, ls);
  }

  /** The member values of a written level decode to it. */
  lemma LevelValues(d: LevelData, ls: seq<Json>)
    requires d.width < U32Limit && d.height < U32Limit && d.tileSize < U32Limit
    requires DecodeLayers(ls) == Ok(d.layers)
    ensures DecodeLevelValues(JStr(d.name), JInt(d.width), JInt(d.height), JInt(d.tileSize), JArr(ls)) == Ok(d)
  {
  }

  // ---------------------------------------------------------------------------
  // The array form of a derived struct

  /** A `Texture` tile whose fields come as the array `[tileset_id, tile_index]` reads as the
      one whose fields come as an object. */
  lemma TextureArrayForm(s: Json, i: Json)
    ensures DecodeTile(JObj([("Texture", JArr([s, i]))]))
         == DecodeTile(JObj([("Texture", JObj([("tileset_id", s), ("tile_index", i)]))]))
  {
    var fields := [("tileset_id", s), ("tile_index", i)];
    MemberUnique(fields, "tileset_id", 0);
    MemberUnique(fields, "tile_index", 1);
  }

  /** A `Layer` written as the array of its fields, in declaration order, reads as the object
      with those fields. */
  lemma LayerArrayForm(n: Json, v: Json, t: Json)
    ensures DecodeLayer(JArr([n, v, t])) == DecodeLayer(JObj([("name", n), ("visible", v), ("tiles", t)]))
  {
    var fields := [("name", n), ("visible", v), ("tiles", t)];
    MemberUnique(fields, "name", 0);
    MemberUnique(fields, "visible", 1);
    MemberUnique(fields, "tiles", 2);
  }

  /** So does a `Level`. */
  lemma LevelArrayForm(n: Json, w: Json, h: Json, ts: Json, ls: Json)
    ensures DecodeLevel(JArr([n, w, h, ts, ls])) == DecodeLevel(JObj(LevelObject(n, w, h, ts, ls)))
  {
    assert DecodeLevel(JArr([n, w, h, ts, ls])) == DecodeLevelValues(n, w, h, ts, ls);
    DecodeLevelObject(n, w, h, ts, ls);
  }

  /** A level object decodes its members' values. */
  lemma DecodeLevelObject(n: Json, w: Json, h: Json, ts: Json, ls: Json)
    ensures DecodeLevel(JObj(LevelObject(n, w, h, ts, ls))) == DecodeLevelValues(n, w, h, ts, ls)
  {
    LevelMembers(n, w, h, ts, ls);
  }

  /** A file may hold the empty tile under a key; it is loaded as it is, where painting it
      would have removed the entry. */
  lemma LoadedSentinelStays()
    ensures var l := Layer("Main", true, map[(0, 0) := TileData.Empty()]);
            DecodeLayer(LayerJson(l, [("0,0", TileData.Empty())])) == Ok(l) && !l.Sparse()
  {
    var l := Layer("Main", true, map[(0, 0) := TileData.Empty()]);
    var entries := [("0,0", TileData.Empty())];
    DecodeLayerMembers(l, entries);
    SentinelSurvivesDecoding();
    assert (0, 0) in l.tiles && l.tiles[(0, 0)].IsEmpty();
  }
}
