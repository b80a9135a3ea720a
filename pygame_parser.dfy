/** The pygame importer (`parsers/pygame_parser.py`): how `EditorLevelLoader` reads a decoded
    document, tells a project from a legacy level, registers its tileset images, answers its
    queries and picks the cells it draws. Documents are the values `json.load` returns;
    whether a tileset's image path opens is an input, and surfaces are named by that path. */
module PygameParser {
  import opened Text
  import opened JsonValues
  import opened Levels
  import opened PyValues
  import LevelFiles
  import Projects
  import BevyParser

  // ---------------------------------------------------------------------------
  // Tile keys and numbers

  /** `x, y = map(int, key.split(','))`: exactly two comma-separated pieces, each read by
      `int()`; any other key raises `ValueError`. */
  function KeyPos(key: string): (r: Result<Pos, PyError>)
    ensures r.Err? ==> r.error == ValueError
  {
    var parts := Split(key, ',');
    if |parts| != 2 then Err(ValueError)
    else
      match (PyParseInt(parts[0]), PyParseInt(parts[1]))
      case (Some(x), Some(y)) => Ok((x, y))
      case _ => Err(ValueError)
  }

  /** A key the Rust readers take, `int()` takes too, to the same cell. */
  lemma RustKeysRead(key: string)
    requires DecodeKey(key).Some?
    ensures KeyPos(key) == Ok(DecodeKey(key).value)
  {
    var parts := Split(key, ',');
    ParseI32ThenPy(parts[0]);
    ParseI32ThenPy(parts[1]);
  }

  /** The converse fails: `int()` ignores surrounding blanks, which `parse::<i32>` does not.
      A key the Rust readers take, with a blank in front, is skipped by them and read here
      as the same cell. */
  lemma BlankKeyReadHere(key: string)
    requires DecodeKey(key).Some?
    ensures DecodeKey(" " + key) == None
    ensures KeyPos(" " + key) == Ok(DecodeKey(key).value)
  {
    BlankKeySkipped(key);
    BlankKeySame(key);
    RustKeysRead(key);
  }

  lemma BlankKeySkipped(key: string)
    requires |Split(key, ',')| == 2
    ensures DecodeKey(" " + key) == None
  {
    var parts := Split(key, ',');
    BlankSplit(key, parts);
    BlankNotI32(parts[0]);
  }

  lemma BlankKeySame(key: string)
    requires |Split(key, ',')| == 2
    ensures KeyPos(" " + key) == KeyPos(key)
  {
    var parts := Split(key, ',');
    BlankSplit(key, parts);
    BlankStripped(parts[0]);
    JoinedPieces(" " + key, key, " " + parts[0]);
  }

  /** A key whose first piece is replaced by one `int` reads alike is read alike. */
  lemma JoinedPieces(k: string, key: string, first: string)
    requires |Split(key, ',')| == 2
    requires Split(k, ',') == [first] + Split(key, ',')[1..]
    requires PyParseInt(first) == PyParseInt(Split(key, ',')[0])
    ensures KeyPos(k) == KeyPos(key)
  {
    SamePieces(k, key);
  }

  /** `parse::<i32>` does not take a blank in front. */
  lemma BlankNotI32(piece: string)
    ensures ParseI32(" " + piece) == None
  {
    assert !IsDigit((" " + piece)[0]);
  }

  /** A blank in front of a key joins its first piece. */
  lemma BlankSplit(key: string, parts: seq<string>)
    requires parts == Split(key, ',')
    ensures Split(" " + key, ',') == [" " + parts[0]] + parts[1..]
  {
    assert (" " + key)[1..] == key;
  }

  /** `int` ignores a blank in front. */
  lemma BlankStripped(piece: string)
    ensures PyParseInt(" " + piece) == PyParseInt(piece)
  {
    var first := " " + piece;
    assert first[1..] == piece;
    TrimStartStep(first, IsPySpace);
    PyParseStripped(first, piece);
  }

  /** Keys whose pieces `int` reads alike are read alike. */
  lemma SamePieces(k1: string, k2: string)
    requires |Split(k1, ',')| == |Split(k2, ',')| == 2
    requires PyParseInt(Split(k1, ',')[0]) == PyParseInt(Split(k2, ',')[0])
    requires Split(k1, ',')[1] == Split(k2, ',')[1]
    ensures KeyPos(k1) == KeyPos(k2)
  {
  }

  /** Every key the editor writes reads back as its coordinates, with no range limit:
      Python's integers are unbounded. */
  lemma KeyPosOfEncoded(p: Pos)
    ensures KeyPos(EncodeKey(p)) == Ok(p)
  {
    EncodeKeySplits(p);
    PyParseFormat(p.0);
    PyParseFormat(p.1);
  }

  /** The integer a value stands for in arithmetic and comparisons: an int, or a boolean as
      0 or 1; other values are not numbers. */
  function IntOf(j: Json): (r: Option<int>)
    ensures r.Some? <==> j.JInt? || j.JBool?
    ensures j.JInt? ==> r == Some(j.i)
  {
    match j
    case JInt(i) => Some(i)
    case JBool(b) => Some(if b then 1 else 0)
    case _ => None
  }

  /** `str(v)` for the scalar values; the `repr` of a list or a dict is not modelled. */
  function PyStr(j: Json): (r: Option<string>)
    ensures j.JStr? ==> r == Some(j.s)
    ensures j.JInt? ==> r == Some(FormatInt(j.i))
  {
    match j
    case JNull => Some("None")
    case JBool(b) => Some(if b then "True" else "False")
    case JInt(i) => Some(FormatInt(i))
    case JStr(s) => Some(s)
    case _ => None
  }

  // ---------------------------------------------------------------------------
  // Loading a document (`_load_project`, `_load_tilesets`)

  /** A key of `tileset_surfaces`: a dict of tilesets gives its string keys, a list its
      positions from `enumerate`. */
  datatype SurfaceKey = StrKey(name: string) | IntKey(index: int)

  /** The loader's attributes: `level`, `tilesets`, and for each registered surface the path
      its image was loaded from. */
  datatype LoaderState = LoaderState(level: Json, tilesets: Json, surfaces: map<SurfaceKey, string>)

  /** The attributes `__init__` sets before loading. */
  function Initial(): LoaderState
  {
    LoaderState(JNull, JObj([]), map[])
  }

  /** What `_load_project` leaves behind, and the exception it raises, if any. */
  datatype Loaded = Loaded(state: LoaderState, raised: Option<PyError>)

  /** The pairs `_load_tilesets` iterates: `items()` of a dict, `enumerate` of a list, and
      nothing for any other value. */
  function TilesetItems(tilesets: Json): (items: seq<(SurfaceKey, Json)>)
    ensures tilesets.JArr? ==> |items| == |tilesets.items|
    ensures tilesets.JArr? ==> forall i | 0 <= i < |items| :: items[i] == (IntKey(i), tilesets.items[i])
    ensures tilesets.JObj? ==> forall i | 0 <= i < |items| :: items[i].0.StrKey?
    ensures !tilesets.JArr? && !tilesets.JObj? ==> items == []
  {
    match tilesets
    case JObj(fields) => StrItems(DictItems(fields))
    case JArr(list) => Enumerated(list, 0)
    case _ => []
  }

  function StrItems(d: seq<(string, Json)>): (items: seq<(SurfaceKey, Json)>)
    ensures |items| == |d|
    ensures forall i | 0 <= i < |d| :: items[i] == (StrKey(d[i].0), d[i].1)
  {
    if |d| == 0 then [] else [(StrKey(d[0].0), d[0].1)] + StrItems(d[1..])
  }

  function Enumerated(list: seq<Json>, start: int): (items: seq<(SurfaceKey, Json)>)
    ensures |items| == |list|
    ensures forall i | 0 <= i < |list| :: items[i] == (IntKey(start + i), list[i])
  {
    if |list| == 0 then [] else [(IntKey(start), list[0])] + Enumerated(list[1..], start + 1)
  }

  /** One turn of the loop: `info["path"]` must exist and be a string; an image that opens is
      registered under the item's key, and the report then reads `info["name"]`, whose
      `KeyError` is not caught. A path that does not open is skipped. */
  function LoadItem(surfaces: map<SurfaceKey, string>, item: (SurfaceKey, Json), opens: string -> bool)
    : (r: (map<SurfaceKey, string>, Option<PyError>))
    ensures r.0.Keys <= surfaces.Keys + {item.0}
  {
    match Subscript(item.1, "path")
    case Err(e) => (surfaces, Some(e))
    case Ok(path) =>
      if !path.JStr? then (surfaces, Some(TypeError))
      else if !opens(path.s) then (surfaces, None)
      else (surfaces[item.0 := path.s], if HasKey(item.1.fields, "name") then None else Some(KeyError("name")))
  }

  /** The loop of `_load_tilesets` from the given surfaces on, stopping at the first
      exception. */
  function LoadItems(items: seq<(SurfaceKey, Json)>, surfaces: map<SurfaceKey, string>, opens: string -> bool)
    : (r: (map<SurfaceKey, string>, Option<PyError>))
    decreases |items|
  {
    if |items| == 0 then (surfaces, None)
    else
      var (next, raised) := LoadItem(surfaces, items[0], opens);
      if raised.Some? then (next, raised) else LoadItems(items[1..], next, opens)
  }

  /** Only the keys of the items iterated are ever registered. */
  lemma {:induction false} LoadedKeysAreItemKeys(items: seq<(SurfaceKey, Json)>, surfaces: map<SurfaceKey, string>,
                                                  opens: string -> bool, key: SurfaceKey)
    requires key in LoadItems(items, surfaces, opens).0
    ensures key in surfaces || exists i | 0 <= i < |items| :: items[i].0 == key
    decreases |items|
  {
    if |items| > 0 {
      var (next, raised) := LoadItem(surfaces, items[0], opens);
      if raised.None? {
        LoadedKeysAreItemKeys(items[1..], next, opens, key);
        if key !in next {
          var i :| 0 <= i < |items[1..]| && items[1..][i].0 == key;
          assert items[i + 1].0 == key;
        }
      }
    }
  }

  /** `_load_project`: a document in which `"level"` is found is a project, whose `level` and
      `tilesets` (by default `{}`) are taken and whose tilesets are loaded; any other
      document is the level itself. */
  function LoadDocument(data: Json, opens: string -> bool): (r: Loaded)
  {
    match Contains(data, "level")
    case Err(e) => Loaded(Initial(), Some(e))
    case Ok(isProject) =>
      if !isProject then Loaded(LoaderState(data, JObj([]), map[]), None)
      else
        match Subscript(data, "level")
        case Err(e) => Loaded(Initial(), Some(e))
        case Ok(level) =>
          var tilesets := Get(data.fields, "tilesets", JObj([]));
          var (surfaces, raised) := LoadItems(TilesetItems(tilesets), map[], opens);
          Loaded(LoaderState(level, tilesets, surfaces), raised)
  }

  /** A document the editor saves as a project is read as one: its level is the saved level,
      its tilesets the saved list, nothing is raised, and exactly the tilesets whose path
      opens get a surface, under their position in the list. */
  lemma LoadsEditorProject(p: Projects.ProjectData, orders: seq<seq<(string, TileData)>>, opens: string -> bool)
    requires |orders| == |p.level.layers|
    ensures LoadDocument(Projects.ProjectJson(p, orders), opens)
         == Loaded(LoaderState(LevelJson(p.level, orders), JArr(Projects.MetadataListJson(p.tilesets)),
                               Registered(p.tilesets, 0, opens)), None)
  {
    var fields := Projects.ProjectJson(p, orders).fields;
    Projects.ProjectMembers(p, orders);
    LevelFiles.LookupUnique(fields, "tilesets", 2);
    assert HasKey(fields, "level") by { assert fields[1].0 == "level"; }
    LoadMetadata(p.tilesets, 0, map[], opens);
    EmptyUnion(Registered(p.tilesets, 0, opens));
  }

  lemma EmptyUnion(m: map<SurfaceKey, string>)
    ensures map[] + m == m
  {
  }

  /** The surfaces a saved tileset list gets when read from position `start` on: the
      position of every entry whose path opens, holding that path. */
  function Registered(ms: seq<Projects.TilesetMetadata>, start: int, opens: string -> bool): (m: map<SurfaceKey, string>)
    ensures forall key | key in m :: key.IntKey? && start <= key.index < start + |ms|
    ensures forall i | 0 <= i < |ms| :: IntKey(start + i) in m <==> opens(ms[i].path)
    ensures forall i | 0 <= i < |ms| && IntKey(start + i) in m :: m[IntKey(start + i)] == ms[i].path
    decreases |ms|
  {
    if |ms| == 0 then map[]
    else
      var rest := Registered(ms[1..], start + 1, opens);
      assert forall i | 1 <= i < |ms| :: IntKey(start + i) == IntKey((start + 1) + (i - 1)) && ms[i] == ms[1..][i - 1];
      if opens(ms[0].path) then rest[IntKey(start) := ms[0].path] else rest
  }

  /** The loop over `enumerate` of a saved tileset list adds the registered surfaces to
      those already present, and raises nothing. */
  lemma {:induction false} LoadMetadata(ms: seq<Projects.TilesetMetadata>, start: int,
                                        surfaces: map<SurfaceKey, string>, opens: string -> bool)
    requires forall key | key in surfaces :: key.IntKey? && key.index < start
    ensures LoadItems(Enumerated(Projects.MetadataListJson(ms), start), surfaces, opens)
         == (surfaces + Registered(ms, start, opens), None)
    decreases |ms|
  {
    var items := Enumerated(Projects.MetadataListJson(ms), start);
    if |ms| > 0 {
      var next := if opens(ms[0].path) then surfaces[IntKey(start) := ms[0].path] else surfaces;
      assert items[0] == (IntKey(start), Projects.MetadataJson(ms[0]));
      LoadMetadataItem(surfaces, IntKey(start), ms[0], opens);
      assert Projects.MetadataListJson(ms)[1..] == Projects.MetadataListJson(ms[1..]);
      assert items[1..] == Enumerated(Projects.MetadataListJson(ms[1..]), start + 1);
      LoadMetadata(ms[1..], start + 1, next, opens);
      var rest := Registered(ms[1..], start + 1, opens);
      assert LoadItems(items, surfaces, opens) == LoadItems(items[1..], next, opens);
      assert LoadItems(items, surfaces, opens) == (next + rest, None);
      if opens(ms[0].path) {
        assert Registered(ms, start, opens) == rest[IntKey(start) := ms[0].path];
        InsertBefore(surfaces, IntKey(start), ms[0].path, rest);
      } else {
        assert Registered(ms, start, opens) == rest;
      }
    } else {
      assert surfaces + map[] == surfaces;
    }
  }

  /** One saved entry: its path is read, and it is registered when the path opens. */
  lemma LoadMetadataItem(surfaces: map<SurfaceKey, string>, key: SurfaceKey, m: Projects.TilesetMetadata,
                         opens: string -> bool)
    ensures LoadItem(surfaces, (key, Projects.MetadataJson(m)), opens)
         == (if opens(m.path) then surfaces[key := m.path] else surfaces, None)
  {
    MetadataMembers(m);
  }

  lemma InsertBefore<K, V>(m: map<K, V>, k: K, v: V, rest: map<K, V>)
    requires k !in rest
    ensures m[k := v] + rest == m + rest[k := v]
  {
  }

  lemma MetadataMembers(m: Projects.TilesetMetadata)
    ensures Subscript(Projects.MetadataJson(m), "path") == Ok(JStr(m.path))
    ensures HasKey(Projects.MetadataJson(m).fields, "name")
  {
    var fields := Projects.MetadataJson(m).fields;
    LevelFiles.LookupUnique(fields, "path", 2);
    assert fields[1].0 == "name";
  }

  /** A level saved on its own has no `"level"` member, so it is taken as the level, with no
      tilesets and no surfaces. */
  lemma LoadsLegacyLevel(d: LevelData, orders: seq<seq<(string, TileData)>>, opens: string -> bool)
    requires |orders| == |d.layers|
    ensures LoadDocument(LevelJson(d, orders), opens) == Loaded(LoaderState(LevelJson(d, orders), JObj([]), map[]), None)
  {
    var fields := LevelJson(d, orders).fields;
    assert !HasKey(fields, "level") by {
      forall k | 0 <= k < |fields| ensures fields[k].0 != "level" {
      }
    }
  }

  // ---------------------------------------------------------------------------
  // Queries (`get_layer_tiles`, `get_tiles_by_color`, `get_collision_tiles`)

  /** `level["layers"]` as the loop iterates it. */
  function LevelLayers(level: Json): (r: Result<seq<Json>, PyError>)
    ensures Subscript(level, "layers").Ok? && Subscript(level, "layers").value.JArr? ==>
              r == Ok(Subscript(level, "layers").value.items)
  {
    match Subscript(level, "layers")
    case Err(e) => Err(e)
    case Ok(layers) =>
      match Iterate(layers)
      case None => Err(TypeError)
      case Some(list) => Ok(list)
  }

  /** The dict that `get_layer_tiles` fills from the given one on: each key is read as
      coordinates, and a coordinate seen before keeps its place and takes the later tile. */
  function TilesDict(items: seq<(string, Json)>, acc: seq<(Pos, Json)>): (r: Result<seq<(Pos, Json)>, PyError>)
    ensures r.Err? ==> r == Err(ValueError)
    decreases |items|
  {
    if |items| == 0 then Ok(acc)
    else
      match KeyPos(items[0].0)
      case Err(e) => Err(e)
      case Ok(p) => TilesDict(items[1..], DictInsert(acc, p, items[0].1))
  }

  /** Filling the dict fails exactly when some key does not parse. */
  lemma {:induction false} TilesDictFails(items: seq<(string, Json)>, acc: seq<(Pos, Json)>)
    ensures TilesDict(items, acc).Err? <==> exists i | 0 <= i < |items| :: KeyPos(items[i].0).Err?
    decreases |items|
  {
    if |items| > 0 && KeyPos(items[0].0).Ok? {
      TilesDictFails(items[1..], DictInsert(acc, KeyPos(items[0].0).value, items[0].1));
      if i :| 0 <= i < |items| && KeyPos(items[i].0).Err? {
        assert items[1..][i - 1] == items[i];
      }
      if i :| 0 <= i < |items[1..]| && KeyPos(items[1..][i].0).Err? {
        assert items[1..][i] == items[i + 1];
      }
    }
  }

  /** `layer["tiles"].items()` read into a dict keyed by coordinates: the tiles must be a
      dict. */
  function TilesOf(layer: Json): (r: Result<seq<(Pos, Json)>, PyError>)
  {
    match Subscript(layer, "tiles")
    case Err(e) => Err(e)
    case Ok(tiles) => if !tiles.JObj? then Err(AttributeError) else TilesDict(DictItems(tiles.fields), [])
  }

  /** A layer whose tiles are a dict raises exactly when one of its keys is not two
      comma-separated integers, and then raises `ValueError`; the Rust readers skip such a
      key instead. */
  lemma BadKeyRaises(layer: Json, fields: seq<(string, Json)>)
    requires Subscript(layer, "tiles") == Ok(JObj(fields))
    ensures TilesOf(layer).Err? <==> exists i | 0 <= i < |fields| :: KeyPos(fields[i].0).Err?
    ensures TilesOf(layer).Err? ==> TilesOf(layer) == Err(ValueError)
  {
    var d := DictItems(fields);
    TilesDictFails(d, []);
    if i :| 0 <= i < |d| && KeyPos(d[i].0).Err? {
      assert HasDictKey(d, d[i].0);
      var j :| 0 <= j < |fields| && fields[j].0 == d[i].0;
    }
    if j :| 0 <= j < |fields| && KeyPos(fields[j].0).Err? {
      assert HasKey(fields, fields[j].0);
      var i :| 0 <= i < |d| && d[i].0 == fields[j].0;
    }
  }

  /** `get_layer_tiles(name)` from the given layer on: the first layer with that name gives
      its tiles, and none gives `{}`; every layer passed must have a `"name"`. */
  function FindLayerTiles(layers: seq<Json>, name: string): (r: Result<seq<(Pos, Json)>, PyError>)
    decreases |layers|
  {
    if |layers| == 0 then Ok([])
    else
      match Subscript(layers[0], "name")
      case Err(e) => Err(e)
      case Ok(n) => if n == JStr(name) then TilesOf(layers[0]) else FindLayerTiles(layers[1..], name)
  }

  /** `get_layer_tiles(name)` on the loaded level. */
  function LayerTiles(level: Json, name: string): Result<seq<(Pos, Json)>, PyError>
  {
    match LevelLayers(level)
    case Err(e) => Err(e)
    case Ok(layers) => FindLayerTiles(layers, name)
  }

  /** The values of `items` at the coordinates `qs`. */
  function AtCoordinates(qs: seq<Pos>, items: seq<(string, Json)>): (r: seq<(Pos, Json)>)
    requires |qs| == |items|
    ensures |r| == |items|
    ensures forall i | 0 <= i < |items| :: r[i] == (qs[i], items[i].1)
  {
    if |items| == 0 then [] else [(qs[0], items[0].1)] + AtCoordinates(qs[1..], items[1..])
  }

  /** Items whose keys read as distinct new coordinates are appended in order. */
  lemma {:induction false} TilesDictFresh(items: seq<(string, Json)>, qs: seq<Pos>, acc: seq<(Pos, Json)>)
    requires KeysReadAs(items, qs)
    requires forall i, j | 0 <= i < j < |qs| :: qs[i] != qs[j]
    requires forall i | 0 <= i < |qs| :: !HasDictKey(acc, qs[i])
    ensures TilesDict(items, acc) == Ok(acc + AtCoordinates(qs, items))
    decreases |items|
  {
    if |items| == 0 {
      assert acc + AtCoordinates(qs, items) == acc;
    } else {
      var x := (qs[0], items[0].1);
      TilesDictStep(items, qs[0], acc);
      FreshAfterAppend(qs, acc, x);
      TilesDictFresh(items[1..], qs[1..], acc + [x]);
      AppendFirst(acc, x, qs, items);
    }
  }

  lemma FreshAfterAppend(qs: seq<Pos>, acc: seq<(Pos, Json)>, x: (Pos, Json))
    requires |qs| > 0 && x.0 == qs[0]
    requires forall i, j | 0 <= i < j < |qs| :: qs[i] != qs[j]
    requires forall i | 0 <= i < |qs| :: !HasDictKey(acc, qs[i])
    ensures forall i, j | 0 <= i < j < |qs[1..]| :: qs[1..][i] != qs[1..][j]
    ensures forall i | 0 <= i < |qs[1..]| :: !HasDictKey(acc + [x], qs[1..][i])
  {
    forall i | 0 <= i < |qs[1..]| ensures !HasDictKey(acc + [x], qs[1..][i]) {
      assert qs[1..][i] == qs[i + 1];
      HasDictKeyAppend(acc, x, qs[i + 1]);
    }
  }

  lemma AppendFirst(acc: seq<(Pos, Json)>, x: (Pos, Json), qs: seq<Pos>, items: seq<(string, Json)>)
    requires |qs| == |items| > 0 && x == (qs[0], items[0].1)
    ensures acc + [x] + AtCoordinates(qs[1..], items[1..]) == acc + AtCoordinates(qs, items)
  {
    assert AtCoordinates(qs, items) == [x] + AtCoordinates(qs[1..], items[1..]);
  }

  /** The keys of `items` read as the coordinates `qs`. */
  predicate KeysReadAs(items: seq<(string, Json)>, qs: seq<Pos>)
    decreases |items|
  {
    |items| == |qs| && (|items| == 0 || (KeyPos(items[0].0) == Ok(qs[0]) && KeysReadAs(items[1..], qs[1..])))
  }

  /** A key that reads as new coordinates is appended. */
  lemma TilesDictStep(items: seq<(string, Json)>, p: Pos, acc: seq<(Pos, Json)>)
    requires |items| > 0 && KeyPos(items[0].0) == Ok(p) && !HasDictKey(acc, p)
    ensures TilesDict(items, acc) == TilesDict(items[1..], acc + [(p, items[0].1)])
  {
    DictInsertNew(acc, p, items[0].1);
  }

  lemma HasDictKeyAppend<K(!new), V>(d: seq<(K, V)>, x: (K, V), q: K)
    ensures HasDictKey(d + [x], q) <==> HasDictKey(d, q) || x.0 == q
  {
    if HasDictKey(d, q) {
      var i :| 0 <= i < |d| && d[i].0 == q;
      assert (d + [x])[i].0 == q;
    }
    if HasDictKey(d + [x], q) && x.0 != q {
      var i :| 0 <= i < |d + [x]| && (d + [x])[i].0 == q;
      assert d[i].0 == q;
    }
    assert (d + [x])[|d|] == x;
  }

  /** The coordinates each written member was written for. */
  lemma {:induction false} WrittenCoordinates(entries: seq<(string, TileData)>, tiles: map<Pos, TileData>)
    returns (qs: seq<Pos>)
    requires forall i | 0 <= i < |entries| :: WrittenFrom(entries[i], tiles, tiles.Keys)
    ensures |qs| == |entries|
    ensures forall i | 0 <= i < |entries| :: qs[i] in tiles && entries[i] == Entry(tiles, qs[i])
    decreases |entries|
  {
    if |entries| == 0 {
      qs := [];
    } else {
      var q := WrittenAt(entries[0], tiles);
      WrittenTail(entries, tiles);
      var rest := WrittenCoordinates(entries[1..], tiles);
      qs := ConsCoordinates(entries, tiles, q, rest);
    }
  }

  /** The coordinates one written member was written for. */
  lemma WrittenAt(e: (string, TileData), tiles: map<Pos, TileData>) returns (q: Pos)
    requires WrittenFrom(e, tiles, tiles.Keys)
    ensures q in tiles && e == Entry(tiles, q)
  {
    q :| q in tiles.Keys && q in tiles && e == Entry(tiles, q);
  }

  lemma WrittenTail(entries: seq<(string, TileData)>, tiles: map<Pos, TileData>)
    requires |entries| > 0 && forall i | 0 <= i < |entries| :: WrittenFrom(entries[i], tiles, tiles.Keys)
    ensures forall i | 0 <= i < |entries[1..]| :: WrittenFrom(entries[1..][i], tiles, tiles.Keys)
  {
    forall i | 0 <= i < |entries[1..]| ensures WrittenFrom(entries[1..][i], tiles, tiles.Keys) {
      assert entries[1..][i] == entries[i + 1];
    }
  }

  lemma ConsCoordinates(entries: seq<(string, TileData)>, tiles: map<Pos, TileData>, q: Pos, rest: seq<Pos>)
    returns (qs: seq<Pos>)
    requires |entries| > 0 && q in tiles && entries[0] == Entry(tiles, q)
    requires |rest| == |entries| - 1
    requires forall i | 0 <= i < |rest| :: rest[i] in tiles && entries[1..][i] == Entry(tiles, rest[i])
    ensures qs == [q] + rest
    ensures |qs| == |entries|
    ensures forall i | 0 <= i < |entries| :: qs[i] in tiles && entries[i] == Entry(tiles, qs[i])
  {
    qs := [q] + rest;
    forall i | 0 <= i < |entries| ensures qs[i] in tiles && entries[i] == Entry(tiles, qs[i]) {
      if i > 0 {
        assert qs[i] == rest[i - 1] && entries[i] == entries[1..][i - 1];
      }
    }
  }

  /** `dict` holds the tiles of a layer written as `entries`: one member per written entry, in
      that order, each at its coordinates and holding the tagged tile. */
  ghost predicate ReadsBack(dict: seq<(Pos, Json)>, entries: seq<(string, TileData)>, tiles: map<Pos, TileData>)
  {
    && |dict| == |entries|
    && (forall i | 0 <= i < |dict| :: dict[i].0 in tiles && entries[i] == Entry(tiles, dict[i].0)
                                       && dict[i].1 == TileJson(tiles[dict[i].0]))
    && (forall p :: HasDictKey(dict, p) <==> p in tiles)
  }

  /** A layer the editor wrote is read back whole: the importer's dict has every tile of the
      layer, at its coordinates, in the written order, and nothing else. */
  lemma WrittenLayerTiles(l: Layer, entries: seq<(string, TileData)>)
    requires EncodesTiles(entries, l.tiles)
    ensures TilesOf(LayerJson(l, entries)).Ok?
    ensures ReadsBack(TilesOf(LayerJson(l, entries)).value, entries, l.tiles)
  {
    var qs := WrittenCoordinates(entries, l.tiles);
    WrittenTilesDict(l, entries, qs);
    CoordinatesReadBack(entries, l.tiles, qs);
  }

  /** The importer's dict of a written layer holds the written values at their coordinates. */
  lemma WrittenTilesDict(l: Layer, entries: seq<(string, TileData)>, qs: seq<Pos>)
    requires DistinctKeys(entries) && |qs| == |entries|
    requires forall i | 0 <= i < |entries| :: qs[i] in l.tiles && entries[i] == Entry(l.tiles, qs[i])
    ensures TilesOf(LayerJson(l, entries)) == Ok(AtCoordinates(qs, EntriesJson(entries)))
  {
    TilesOfWritten(l, entries);
    WrittenKeysRead(entries, l.tiles, qs);
    DistinctCoordinates(entries, l.tiles, qs);
    FreshTilesDict(EntriesJson(entries), qs);
  }

  lemma TilesOfWritten(l: Layer, entries: seq<(string, TileData)>)
    requires DistinctKeys(entries)
    ensures TilesOf(LayerJson(l, entries)) == TilesDict(EntriesJson(entries), [])
  {
    WrittenTilesMember(l, entries);
  }

  /** The keys written for a layer read back as the coordinates they were written for. */
  lemma WrittenKeysRead(entries: seq<(string, TileData)>, tiles: map<Pos, TileData>, qs: seq<Pos>)
    requires |qs| == |entries|
    requires forall i | 0 <= i < |entries| :: qs[i] in tiles && entries[i] == Entry(tiles, qs[i])
    ensures KeysReadAs(EntriesJson(entries), qs)
  {
    var items := EntriesJson(entries);
    forall i | 0 <= i < |items| ensures items[i].0 == EncodeKey(qs[i]) {
      assert items[i].0 == entries[i].0;
    }
    EncodedKeysRead(items, qs);
  }

  /** A fresh dict built from keys that read as distinct coordinates. */
  lemma FreshTilesDict(items: seq<(string, Json)>, qs: seq<Pos>)
    requires KeysReadAs(items, qs)
    requires forall i, j | 0 <= i < j < |qs| :: qs[i] != qs[j]
    ensures TilesDict(items, []) == Ok(AtCoordinates(qs, items))
  {
    TilesDictFresh(items, qs, []);
    assert [] + AtCoordinates(qs, items) == AtCoordinates(qs, items);
  }

  /** The tiles member of a written layer is a dict with the written members, in order. */
  lemma WrittenTilesMember(l: Layer, entries: seq<(string, TileData)>)
    requires DistinctKeys(entries)
    ensures Subscript(LayerJson(l, entries), "tiles") == Ok(JObj(EntriesJson(entries)))
    ensures DictItems(EntriesJson(entries)) == EntriesJson(entries)
  {
    var items := EntriesJson(entries);
    LevelFiles.LookupUnique(LayerJson(l, entries).fields, "tiles", 2);
    assert DistinctDictKeys(items) by {
      forall i, j | 0 <= i < j < |items| ensures items[i].0 != items[j].0 {
        assert items[i].0 == entries[i].0 && items[j].0 == entries[j].0;
      }
    }
    DictItemsOfDistinct(items);
  }

  /** Keys written for coordinates read back as those coordinates. */
  lemma EncodedKeysRead(items: seq<(string, Json)>, qs: seq<Pos>)
    requires |qs| == |items| && forall i | 0 <= i < |items| :: items[i].0 == EncodeKey(qs[i])
    ensures KeysReadAs(items, qs)
  {
    forall i | 0 <= i < |items| ensures KeyPos(items[i].0) == Ok(qs[i]) {
      KeyPosOfEncoded(qs[i]);
    }
    KeysReadInOrder(items, qs);
  }

  lemma {:induction false} KeysReadInOrder(items: seq<(string, Json)>, qs: seq<Pos>)
    requires |qs| == |items| && forall i | 0 <= i < |items| :: KeyPos(items[i].0) == Ok(qs[i])
    ensures KeysReadAs(items, qs)
    decreases |items|
  {
    if |items| > 0 {
      KeysReadTail(items, qs);
      KeysReadInOrder(items[1..], qs[1..]);
      KeysReadCons(items, qs);
    }
  }

  lemma KeysReadTail(items: seq<(string, Json)>, qs: seq<Pos>)
    requires |qs| == |items| > 0 && forall i | 0 <= i < |items| :: KeyPos(items[i].0) == Ok(qs[i])
    ensures forall i | 0 <= i < |items[1..]| :: KeyPos(items[1..][i].0) == Ok(qs[1..][i])
  {
    forall i | 0 <= i < |items[1..]| ensures KeyPos(items[1..][i].0) == Ok(qs[1..][i]) {
      assert items[1..][i] == items[i + 1] && qs[1..][i] == qs[i + 1];
    }
  }

  lemma KeysReadCons(items: seq<(string, Json)>, qs: seq<Pos>)
    requires |qs| == |items| > 0 && KeyPos(items[0].0) == Ok(qs[0]) && KeysReadAs(items[1..], qs[1..])
    ensures KeysReadAs(items, qs)
  {
  }

  /** Distinct written keys come from distinct coordinates. */
  lemma DistinctCoordinates(entries: seq<(string, TileData)>, tiles: map<Pos, TileData>, qs: seq<Pos>)
    requires DistinctKeys(entries) && |qs| == |entries|
    requires forall i | 0 <= i < |entries| :: qs[i] in tiles && entries[i] == Entry(tiles, qs[i])
    ensures forall i, j | 0 <= i < j < |qs| :: qs[i] != qs[j]
  {
  }

  /** The written members at their coordinates hold every tile of the layer and nothing else. */
  lemma CoordinatesReadBack(entries: seq<(string, TileData)>, tiles: map<Pos, TileData>, qs: seq<Pos>)
    requires EncodesTiles(entries, tiles) && |qs| == |entries|
    requires forall i | 0 <= i < |entries| :: qs[i] in tiles && entries[i] == Entry(tiles, qs[i])
    ensures ReadsBack(AtCoordinates(qs, EntriesJson(entries)), entries, tiles)
  {
    CoordinatesHoldTiles(entries, tiles, qs);
    CoordinatesCoverTiles(entries, tiles, qs);
  }

  lemma CoordinatesHoldTiles(entries: seq<(string, TileData)>, tiles: map<Pos, TileData>, qs: seq<Pos>)
    requires |qs| == |entries|
    requires forall i | 0 <= i < |entries| :: qs[i] in tiles && entries[i] == Entry(tiles, qs[i])
    ensures var dict := AtCoordinates(qs, EntriesJson(entries));
      forall i | 0 <= i < |dict| :: dict[i].0 in tiles && entries[i] == Entry(tiles, dict[i].0)
                                    && dict[i].1 == TileJson(tiles[dict[i].0])
  {
  }

  lemma CoordinatesCoverTiles(entries: seq<(string, TileData)>, tiles: map<Pos, TileData>, qs: seq<Pos>)
    requires EncodesTiles(entries, tiles) && |qs| == |entries|
    requires forall i | 0 <= i < |entries| :: qs[i] in tiles && entries[i] == Entry(tiles, qs[i])
    ensures forall p :: HasDictKey(AtCoordinates(qs, EntriesJson(entries)), p) <==> p in tiles
  {
    TilesAmongCoordinates(entries, tiles, qs);
    CoordinatesAreKeys(qs, EntriesJson(entries), tiles);
  }

  /** A dict keyed by exactly the coordinates of a map has the map's keys. */
  lemma CoordinatesAreKeys(qs: seq<Pos>, items: seq<(string, Json)>, tiles: map<Pos, TileData>)
    requires |qs| == |items|
    requires forall i | 0 <= i < |qs| :: qs[i] in tiles
    requires forall p | p in tiles :: p in qs
    ensures forall p :: HasDictKey(AtCoordinates(qs, items), p) <==> p in tiles
  {
    var dict := AtCoordinates(qs, items);
    forall p ensures HasDictKey(dict, p) <==> p in tiles {
      if p in tiles {
        var i :| 0 <= i < |qs| && qs[i] == p;
        assert dict[i].0 == p;
      }
    }
  }

  lemma TilesAmongCoordinates(entries: seq<(string, TileData)>, tiles: map<Pos, TileData>, qs: seq<Pos>)
    requires EncodesTiles(entries, tiles) && |qs| == |entries|
    requires forall i | 0 <= i < |entries| :: qs[i] in tiles && entries[i] == Entry(tiles, qs[i])
    ensures forall p | p in tiles :: p in qs
  {
    forall p | p in tiles ensures p in qs {
      var i := WrittenTileListed(entries, tiles, qs, p);
    }
  }

  /** Every tile of the layer was written at some position of the member list. */
  lemma WrittenTileListed(entries: seq<(string, TileData)>, tiles: map<Pos, TileData>, qs: seq<Pos>, p: Pos)
    returns (i: nat)
    requires EncodesTiles(entries, tiles) && |qs| == |entries| && p in tiles
    requires forall i | 0 <= i < |entries| :: qs[i] in tiles && entries[i] == Entry(tiles, qs[i])
    ensures i < |qs| && qs[i] == p
  {
    assert Entry(tiles, p) in entries;
    i :| 0 <= i < |entries| && entries[i] == Entry(tiles, p);
    EncodeKeyInjective(qs[i], p);
  }

  // ---------------------------------------------------------------------------
  // A saved level's layers, looked up by name

  /** A layer of a saved level, looked up by name, is the first layer with that name, read
      back whole; a name no layer has gives `{}`. This is the layer the Rust reader's
      `get_layer_tiles` picks. */
  lemma EditorLayerTiles(d: LevelData, orders: seq<seq<(string, TileData)>>, name: string)
    requires SerializedOrders(d, orders)
    ensures match BevyParser.FirstNamed(d.layers, name)
      case None => LayerTiles(LevelJson(d, orders), name) == Ok([])
      case Some(k) => LayerTiles(LevelJson(d, orders), name).Ok?
                      && ReadsBack(LayerTiles(LevelJson(d, orders), name).value, orders[k], d.layers[k].tiles)
  {
    WrittenLevelLayers(d, orders);
    FindWrittenLayer(d.layers, orders, name);
    match BevyParser.FirstNamed(d.layers, name)
    case None =>
    case Some(k) =>
      assert EncodesTiles(orders[k], d.layers[k].tiles);
      WrittenLayerTiles(d.layers[k], orders[k]);
  }

  /** The layers of a saved level are the written layers, in order. */
  lemma WrittenLevelLayers(d: LevelData, orders: seq<seq<(string, TileData)>>)
    requires |orders| == |d.layers|
    ensures LevelLayers(LevelJson(d, orders)) == Ok(LayersJson(d.layers, orders))
  {
    LevelFiles.LookupUnique(LevelJson(d, orders).fields, "layers", 4);
  }

  lemma WrittenLayerName(l: Layer, entries: seq<(string, TileData)>)
    ensures Subscript(LayerJson(l, entries), "name") == Ok(JStr(l.name))
  {
    LevelFiles.LookupUnique(LayerJson(l, entries).fields, "name", 0);
  }

  /** The search over written layers stops at the first layer with the name. */
  lemma {:induction false} FindWrittenLayer(layers: seq<Layer>, orders: seq<seq<(string, TileData)>>, name: string)
    requires |orders| == |layers|
    ensures match BevyParser.FirstNamed(layers, name)
      case None => FindLayerTiles(LayersJson(layers, orders), name) == Ok([])
      case Some(k) => FindLayerTiles(LayersJson(layers, orders), name) == TilesOf(LayerJson(layers[k], orders[k]))
    decreases |layers|
  {
    if |layers| > 0 {
      WrittenLayerName(layers[0], orders[0]);
      if layers[0].name != name {
        FindWrittenLayer(layers[1..], orders[1..], name);
        assert LayersJson(layers, orders)[1..] == LayersJson(layers[1..], orders[1..]);
        match BevyParser.FirstNamed(layers[1..], name)
        case None =>
        case Some(k) => assert layers[1..][k] == layers[k + 1] && orders[1..][k] == orders[k + 1];
      }
    }
  }

  // ---------------------------------------------------------------------------
  // `get_collision_tiles`

  function DictKeys(d: seq<(Pos, Json)>): (r: seq<Pos>)
    ensures |r| == |d| && forall i | 0 <= i < |d| :: r[i] == d[i].0
  {
    if |d| == 0 then [] else [d[0].0] + DictKeys(d[1..])
  }

  /** `list(get_layer_tiles(name).keys())`. The source's `layer_name` defaults to `"Main"`;
      a call without it is this function at `name == "Main"`. */
  function CollisionTiles(level: Json, name: string): Result<seq<Pos>, PyError>
  {
    match LayerTiles(level, name)
    case Err(e) => Err(e)
    case Ok(d) => Ok(DictKeys(d))
  }

  /** On a saved level, the collision tiles of a layer are its occupied coordinates, each
      once; a name no layer has gives none. */
  lemma EditorCollisionTiles(d: LevelData, orders: seq<seq<(string, TileData)>>, name: string)
    requires SerializedOrders(d, orders)
    ensures match BevyParser.FirstNamed(d.layers, name)
      case None => CollisionTiles(LevelJson(d, orders), name) == Ok([])
      case Some(k) => CollisionTiles(LevelJson(d, orders), name).Ok?
                      && BevyParser.Enumerates(CollisionTiles(LevelJson(d, orders), name).value, d.layers[k].tiles.Keys)
  {
    EditorLayerTiles(d, orders, name);
    match BevyParser.FirstNamed(d.layers, name)
    case None =>
    case Some(k) =>
      assert EncodesTiles(orders[k], d.layers[k].tiles);
      ReadBackKeys(LayerTiles(LevelJson(d, orders), name).value, orders[k], d.layers[k].tiles);
  }

  /** The keys of a dict read back from a layer list the layer's coordinates once each. */
  lemma ReadBackKeys(dict: seq<(Pos, Json)>, entries: seq<(string, TileData)>, tiles: map<Pos, TileData>)
    requires ReadsBack(dict, entries, tiles) && |entries| == |tiles.Keys|
    ensures BevyParser.Enumerates(DictKeys(dict), tiles.Keys)
  {
    var keys := DictKeys(dict);
    forall p | p in tiles.Keys ensures p in keys {
      assert HasDictKey(dict, p);
    }
  }

  // ---------------------------------------------------------------------------
  // `get_tiles_by_color`

  /** `"Color" in tile_data and tuple(tile_data["Color"]) == color`: the test short-circuits,
      and a tuple equals `color` when it has three members equal to its three integers (a
      boolean equals 0 or 1). */
  function ColorMatches(tile: Json, color: (int, int, int)): (r: Result<bool, PyError>)
    ensures tile.JObj? && !HasKey(tile.fields, "Color") ==> r == Ok(false)
  {
    match Contains(tile, "Color")
    case Err(e) => Err(e)
    case Ok(has) =>
      if !has then Ok(false)
      else
        match Subscript(tile, "Color")
        case Err(e) => Err(e)
        case Ok(v) =>
          match Iterate(v)
          case None => Err(TypeError)
          case Some(cs) =>
            Ok(|cs| == 3 && IntOf(cs[0]) == Some(color.0) && IntOf(cs[1]) == Some(color.1)
               && IntOf(cs[2]) == Some(color.2))
  }

  /** The positions one layer's tiles add to `found`, in dict order; a matching tile whose
      key does not parse raises `ValueError`. */
  function ColorItems(items: seq<(string, Json)>, color: (int, int, int), found: seq<Pos>)
    : (r: Result<seq<Pos>, PyError>)
    ensures r.Ok? ==> found <= r.value
    decreases |items|
  {
    if |items| == 0 then Ok(found)
    else
      match ColorMatches(items[0].1, color)
      case Err(e) => Err(e)
      case Ok(false) => ColorItems(items[1..], color, found)
      case Ok(true) =>
        match KeyPos(items[0].0)
        case Err(e) => Err(e)
        case Ok(p) => ColorItems(items[1..], color, found + [p])
  }

  /** One layer's pass: its tiles must be a dict (`AttributeError` otherwise, as there is no
      `.items()`). */
  function ColorLayer(layer: Json, color: (int, int, int), found: seq<Pos>): (r: Result<seq<Pos>, PyError>)
    ensures r.Ok? ==> found <= r.value
  {
    match Subscript(layer, "tiles")
    case Err(e) => Err(e)
    case Ok(tiles) => if !tiles.JObj? then Err(AttributeError) else ColorItems(DictItems(tiles.fields), color, found)
  }

  /** The layers in order, each adding its matching positions. */
  function ColorLayers(layers: seq<Json>, color: (int, int, int), found: seq<Pos>)
    : (r: Result<seq<Pos>, PyError>)
    ensures r.Ok? ==> found <= r.value
    decreases |layers|
  {
    if |layers| == 0 then Ok(found)
    else
      match ColorLayer(layers[0], color, found)
      case Err(e) => Err(e)
      case Ok(more) => ColorLayers(layers[1..], color, more)
  }

  /** `get_tiles_by_color(color)` on the loaded level. */
  function ColorPositions(level: Json, color: (int, int, int)): Result<seq<Pos>, PyError>
  {
    match LevelLayers(level)
    case Err(e) => Err(e)
    case Ok(layers) => ColorLayers(layers, color, [])
  }

  function RgbTuple(c: Rgb): (int, int, int) { (c.r, c.g, c.b) }

  /** A written tile matches a colour exactly when it is that colour. */
  lemma WrittenTileMatches(t: TileData, c: Rgb)
    ensures ColorMatches(TileJson(t), RgbTuple(c)) == Ok(t == Color(c))
  {
    match t
    case Color(c2) =>
      var fields := [("Color", RgbJson(c2))];
      assert HasKey(fields, "Color") by { assert fields[0].0 == "Color"; }
    case Texture(_, _) =>
  }

  /** On a saved level, the colour query gives, layer after layer, each coordinate of that
      layer holding the colour, once each: what the Rust reader's `find_tiles_by_color`
      promises. */
  lemma EditorColorPositions(d: LevelData, orders: seq<seq<(string, TileData)>>, c: Rgb)
    returns (chunks: seq<seq<Pos>>)
    requires SerializedOrders(d, orders)
    ensures |chunks| == |d.layers|
    ensures ColorPositions(LevelJson(d, orders), RgbTuple(c)) == Ok(BevyParser.Concat(chunks))
    ensures forall k | 0 <= k < |chunks| :: BevyParser.Enumerates(chunks[k], BevyParser.Matching(d.layers[k].tiles, c))
  {
    chunks := WrittenChunks(orders, c);
    WrittenLevelLayers(d, orders);
    WrittenLayersAdd(d, orders, c);
    ColorLayersOf(LayersJson(d.layers, orders), RgbTuple(c), [], chunks);
    EmptyPrefix(BevyParser.Concat(chunks));
    WrittenChunksList(d, orders, c);
  }

  lemma WrittenChunksList(d: LevelData, orders: seq<seq<(string, TileData)>>, c: Rgb)
    requires SerializedOrders(d, orders)
    ensures var chunks := WrittenChunks(orders, c);
      forall k | 0 <= k < |chunks| :: BevyParser.Enumerates(chunks[k], BevyParser.Matching(d.layers[k].tiles, c))
  {
    var chunks := WrittenChunks(orders, c);
    forall k | 0 <= k < |chunks| ensures BevyParser.Enumerates(chunks[k], BevyParser.Matching(d.layers[k].tiles, c)) {
      WrittenChunkLists(d.layers[k], orders[k], c);
    }
  }

  lemma EmptyPrefix(s: seq<Pos>)
    ensures [] + s == s
  {
  }

  lemma WrittenLayersAdd(d: LevelData, orders: seq<seq<(string, TileData)>>, c: Rgb)
    requires SerializedOrders(d, orders)
    ensures var js := LayersJson(d.layers, orders); var chunks := WrittenChunks(orders, c);
      forall k, f | 0 <= k < |js| :: ColorLayer(js[k], RgbTuple(c), f) == Ok(f + chunks[k])
  {
    var js := LayersJson(d.layers, orders);
    var chunks := WrittenChunks(orders, c);
    forall k, f | 0 <= k < |js| ensures ColorLayer(js[k], RgbTuple(c), f) == Ok(f + chunks[k]) {
      WrittenChunkAdds(d.layers[k], orders[k], c);
    }
  }

  /** The coordinates the keys of `items` read as (`(0, 0)` for a key that does not read). */
  function ReadKeys(items: seq<(string, Json)>): (qs: seq<Pos>)
    ensures |qs| == |items|
  {
    if |items| == 0 then []
    else [match KeyPos(items[0].0) case Ok(p) => p case Err(_) => (0, 0)] + ReadKeys(items[1..])
  }

  lemma {:induction false} ReadKeysAre(items: seq<(string, Json)>, qs: seq<Pos>)
    requires KeysReadAs(items, qs)
    ensures ReadKeys(items) == qs
    decreases |items|
  {
    if |items| > 0 {
      ReadKeysAre(items[1..], qs[1..]);
    }
  }

  /** The coordinates of a written layer holding the colour `c`, in the written order. */
  function WrittenChunk(entries: seq<(string, TileData)>, c: Rgb): seq<Pos>
  {
    Picked(EntryTiles(entries), ReadKeys(EntriesJson(entries)), c)
  }

  function WrittenChunks(orders: seq<seq<(string, TileData)>>, c: Rgb): (chunks: seq<seq<Pos>>)
    ensures |chunks| == |orders|
    ensures forall k | 0 <= k < |orders| :: chunks[k] == WrittenChunk(orders[k], c)
  {
    seq(|orders|, k requires 0 <= k < |orders| => WrittenChunk(orders[k], c))
  }

  /** The fold over the layers, given what each layer adds. */
  lemma {:induction false} ColorLayersOf(js: seq<Json>, color: (int, int, int), found: seq<Pos>, chunks: seq<seq<Pos>>)
    requires |chunks| == |js|
    requires forall k, f | 0 <= k < |js| :: ColorLayer(js[k], color, f) == Ok(f + chunks[k])
    ensures ColorLayers(js, color, found) == Ok(found + BevyParser.Concat(chunks))
    decreases |js|
  {
    if |js| == 0 {
      assert found + [] == found;
    } else {
      assert ColorLayer(js[0], color, found) == Ok(found + chunks[0]);
      assert forall k | 0 <= k < |js| - 1 :: js[1..][k] == js[k + 1] && chunks[1..][k] == chunks[k + 1];
      ColorLayersOf(js[1..], color, found + chunks[0], chunks[1..]);
      ConcatFirst(found, chunks);
    }
  }

  lemma ConcatFirst(found: seq<Pos>, chunks: seq<seq<Pos>>)
    requires |chunks| > 0
    ensures found + chunks[0] + BevyParser.Concat(chunks[1..]) == found + BevyParser.Concat(chunks)
  {
    ConcatCons(chunks[0], chunks[1..]);
    assert [chunks[0]] + chunks[1..] == chunks;
  }

  lemma {:induction false} ConcatCons(a: seq<Pos>, rest: seq<seq<Pos>>)
    ensures BevyParser.Concat([a] + rest) == a + BevyParser.Concat(rest)
    decreases |rest|
  {
    if |rest| > 0 {
      var n := |rest| - 1;
      assert ([a] + rest)[..|rest|] == [a] + rest[..n];
      ConcatCons(a, rest[..n]);
    }
  }

  /** One written layer adds the coordinates holding the colour, in the written order. */
  lemma WrittenChunkAdds(l: Layer, entries: seq<(string, TileData)>, c: Rgb)
    requires EncodesTiles(entries, l.tiles)
    ensures forall f :: ColorLayer(LayerJson(l, entries), RgbTuple(c), f) == Ok(f + WrittenChunk(entries, c))
  {
    var qs := WrittenChunkCoordinates(l.tiles, entries);
    WrittenColorItems(l, entries, qs, EntryTiles(entries), c);
  }

  /** What one written layer adds lists its tiles of that colour once each. */
  lemma WrittenChunkLists(l: Layer, entries: seq<(string, TileData)>, c: Rgb)
    requires EncodesTiles(entries, l.tiles)
    ensures BevyParser.Enumerates(WrittenChunk(entries, c), BevyParser.Matching(l.tiles, c))
  {
    var qs := WrittenChunkCoordinates(l.tiles, entries);
    var ts := EntryTiles(entries);
    WrittenCoordinatesHold(entries, l.tiles, qs, ts);
    DistinctCoordinates(entries, l.tiles, qs);
    TilesAmongCoordinates(entries, l.tiles, qs);
    PickedEnumerates(l.tiles, qs, ts, c);
  }

  lemma WrittenChunkCoordinates(tiles: map<Pos, TileData>, entries: seq<(string, TileData)>) returns (qs: seq<Pos>)
    requires EncodesTiles(entries, tiles)
    ensures |qs| == |entries| && ReadKeys(EntriesJson(entries)) == qs
    ensures forall i | 0 <= i < |entries| :: qs[i] in tiles && entries[i] == Entry(tiles, qs[i])
  {
    qs := WrittenCoordinates(entries, tiles);
    WrittenKeysRead(entries, tiles, qs);
    ReadKeysAre(EntriesJson(entries), qs);
  }

  lemma WrittenColorItems(l: Layer, entries: seq<(string, TileData)>, qs: seq<Pos>, ts: seq<TileData>, c: Rgb)
    requires DistinctKeys(entries) && |qs| == |entries| && ts == EntryTiles(entries)
    requires forall i | 0 <= i < |entries| :: qs[i] in l.tiles && entries[i] == Entry(l.tiles, qs[i])
    ensures forall f :: ColorLayer(LayerJson(l, entries), RgbTuple(c), f) == Ok(f + Picked(ts, qs, c))
  {
    ColorLayerOfWritten(l, entries, RgbTuple(c));
    WrittenKeysRead(entries, l.tiles, qs);
    WrittenTilesAre(entries, ts);
    forall f ensures ColorItems(EntriesJson(entries), RgbTuple(c), f) == Ok(f + Picked(ts, qs, c)) {
      PickedItems(EntriesJson(entries), qs, ts, c, f);
    }
  }

  lemma ColorLayerOfWritten(l: Layer, entries: seq<(string, TileData)>, color: (int, int, int))
    requires DistinctKeys(entries)
    ensures forall f :: ColorLayer(LayerJson(l, entries), color, f) == ColorItems(EntriesJson(entries), color, f)
  {
    WrittenTilesMember(l, entries);
  }

  lemma WrittenTilesAre(entries: seq<(string, TileData)>, ts: seq<TileData>)
    requires ts == EntryTiles(entries)
    ensures |ts| == |EntriesJson(entries)|
    ensures forall i | 0 <= i < |ts| :: EntriesJson(entries)[i].1 == TileJson(ts[i])
  {
  }

  lemma WrittenCoordinatesHold(entries: seq<(string, TileData)>, tiles: map<Pos, TileData>, qs: seq<Pos>, ts: seq<TileData>)
    requires |qs| == |entries| && ts == EntryTiles(entries)
    requires forall i | 0 <= i < |entries| :: qs[i] in tiles && entries[i] == Entry(tiles, qs[i])
    ensures forall i | 0 <= i < |qs| :: qs[i] in tiles && tiles[qs[i]] == ts[i]
  {
  }

  function EntryTiles(entries: seq<(string, TileData)>): (ts: seq<TileData>)
    ensures |ts| == |entries| && forall i | 0 <= i < |entries| :: ts[i] == entries[i].1
  {
    if |entries| == 0 then [] else [entries[0].1] + EntryTiles(entries[1..])
  }

  /** The coordinates `qs[i]` whose tile `ts[i]` is the colour `c`. */
  function Picked(ts: seq<TileData>, qs: seq<Pos>, c: Rgb): (r: seq<Pos>)
    requires |qs| == |ts|
    ensures forall q :: q in r <==> exists i | 0 <= i < |qs| :: qs[i] == q && ts[i] == Color(c)
    decreases |ts|
  {
    if |ts| == 0 then []
    else
      var rest := Picked(ts[1..], qs[1..], c);
      assert forall i | 1 <= i < |qs| :: qs[i] == qs[1..][i - 1] && ts[i] == ts[1..][i - 1];
      if ts[0] == Color(c) then [qs[0]] + rest else rest
  }

  /** Items whose keys read as `qs` and which hold the written tiles `ts` add the picked
      coordinates, in order. */
  lemma {:induction false} PickedItems(items: seq<(string, Json)>, qs: seq<Pos>, ts: seq<TileData>, c: Rgb,
                                       found: seq<Pos>)
    requires KeysReadAs(items, qs) && |ts| == |items|
    requires forall i | 0 <= i < |items| :: items[i].1 == TileJson(ts[i])
    ensures ColorItems(items, RgbTuple(c), found) == Ok(found + Picked(ts, qs, c))
    decreases |items|
  {
    if |items| == 0 {
      assert found + [] == found;
    } else {
      ColorItemsStep(items, c, found, ts[0], qs[0]);
      WrittenTilesTail(items, ts);
      if ts[0] == Color(c) {
        PickedItems(items[1..], qs[1..], ts[1..], c, found + [qs[0]]);
        PickedFirst(found, ts, qs, c);
      } else {
        PickedItems(items[1..], qs[1..], ts[1..], c, found);
      }
    }
  }

  lemma PickedFirst(found: seq<Pos>, ts: seq<TileData>, qs: seq<Pos>, c: Rgb)
    requires |ts| == |qs| > 0 && ts[0] == Color(c)
    ensures found + [qs[0]] + Picked(ts[1..], qs[1..], c) == found + Picked(ts, qs, c)
  {
  }

  lemma ColorItemsStep(items: seq<(string, Json)>, c: Rgb, found: seq<Pos>, t: TileData, q: Pos)
    requires |items| > 0 && items[0].1 == TileJson(t) && KeyPos(items[0].0) == Ok(q)
    ensures ColorItems(items, RgbTuple(c), found)
         == ColorItems(items[1..], RgbTuple(c), if t == Color(c) then found + [q] else found)
  {
    WrittenTileMatches(t, c);
  }

  lemma WrittenTilesTail(items: seq<(string, Json)>, ts: seq<TileData>)
    requires |ts| == |items| > 0 && forall i | 0 <= i < |items| :: items[i].1 == TileJson(ts[i])
    ensures forall i | 0 <= i < |items[1..]| :: items[1..][i].1 == TileJson(ts[1..][i])
  {
    forall i | 0 <= i < |items[1..]| ensures items[1..][i].1 == TileJson(ts[1..][i]) {
      assert items[1..][i] == items[i + 1] && ts[1..][i] == ts[i + 1];
    }
  }

  /** The picked coordinates of a written layer list its tiles of that colour once each. */
  lemma PickedEnumerates(tiles: map<Pos, TileData>, qs: seq<Pos>, ts: seq<TileData>, c: Rgb)
    requires |qs| == |ts|
    requires forall i | 0 <= i < |qs| :: qs[i] in tiles && tiles[qs[i]] == ts[i]
    requires forall i, j | 0 <= i < j < |qs| :: qs[i] != qs[j]
    requires forall p | p in tiles :: p in qs
    ensures BevyParser.Enumerates(Picked(ts, qs, c), BevyParser.Matching(tiles, c))
  {
    var chunk := Picked(ts, qs, c);
    var m := BevyParser.Matching(tiles, c);
    forall q | q in m ensures q in chunk {
      var i :| 0 <= i < |qs| && qs[i] == q;
      assert ts[i] == Color(c);
    }
    forall q | q in chunk ensures q in m {
      var i :| 0 <= i < |qs| && qs[i] == q && ts[i] == Color(c);
    }
    PickedDistinct(ts, qs, c);
    DistinctCard(chunk, m);
  }

  lemma {:induction false} PickedDistinct(ts: seq<TileData>, qs: seq<Pos>, c: Rgb)
    requires |qs| == |ts| && forall i, j | 0 <= i < j < |qs| :: qs[i] != qs[j]
    ensures NoRepeats(Picked(ts, qs, c))
    decreases |ts|
  {
    if |ts| > 0 {
      assert forall i, j | 0 <= i < j < |qs| - 1 :: qs[1..][i] == qs[i + 1] && qs[1..][j] == qs[j + 1];
      PickedDistinct(ts[1..], qs[1..], c);
      var rest := Picked(ts[1..], qs[1..], c);
      if ts[0] == Color(c) {
        assert qs[0] !in rest;
        var r := [qs[0]] + rest;
        forall i, j | 0 <= i < j < |r| ensures r[i] != r[j] {
          assert r[j] == rest[j - 1] && rest[j - 1] in rest;
          if i == 0 {
            assert r[i] == qs[0];
          } else {
            assert r[i] == rest[i - 1];
          }
        }
      }
    }
  }

  predicate NoRepeats(s: seq<Pos>)
  {
    forall i, j | 0 <= i < j < |s| :: s[i] != s[j]
  }

  /** A sequence without repeats that holds exactly the members of a set has its size. */
  lemma {:induction false} DistinctCard(s: seq<Pos>, c: set<Pos>)
    requires NoRepeats(s)
    requires forall q :: q in s <==> q in c
    ensures |s| == |c|
    decreases |s|
  {
    if |s| > 0 {
      var n := |s| - 1;
      assert forall q :: q in s[..n] <==> q in c - {s[n]} by {
        forall q ensures q in s[..n] <==> q in c - {s[n]} {
          if q in s[..n] {
            var i :| 0 <= i < n && s[..n][i] == q;
            assert s[i] == q;
          }
          if q in c - {s[n]} {
            var i :| 0 <= i < |s| && s[i] == q;
            assert s[..n][i] == q;
          }
        }
      }
      DistinctCard(s[..n], c - {s[n]});
    }
  }

  // ---------------------------------------------------------------------------
  // `get_tile_surface`

  /** What a tile is drawn with: a square of `size` filled with the colour `color` (the
      items of `tuple(tile_data["Color"])`), or the 16-pixel square at (`x`, `y`) of the tileset
      image loaded from `image`, scaled to `size`. */
  datatype Surface = Fill(color: seq<Json>, size: Json) | Cut(image: string, x: int, y: int, size: Json)

  /** The side of a source tile in a tileset image. */
  const SourceTile: int := 16

  /** `get_tile_surface(tile_data)`: `None` when there is nothing to draw. The level must be a
      dict (`self.level.get`). */
  function TileSource(st: LoaderState, tile: Json): (r: Result<Option<Surface>, PyError>)
    ensures !st.level.JObj? ==> r == Err(AttributeError)
  {
    if !st.level.JObj? then Err(AttributeError)
    else
      var size := Get(st.level.fields, "tile_size", JInt(32));
      match Contains(tile, "Color")
      case Err(e) => Err(e)
      case Ok(true) =>
        (match Subscript(tile, "Color")
         case Err(e) => Err(e)
         case Ok(v) =>
           match Iterate(v)
           case None => Err(TypeError)
           case Some(cs) => Ok(Some(Fill(cs, size))))
      case Ok(false) =>
        match Contains(tile, "Texture")
        case Err(e) => Err(e)
        case Ok(false) => Ok(None)
        case Ok(true) => TextureSource(st, tile, size)
  }

  /** The `"Texture"` branch: `tileset_id` (as `str`) and `tile_index` are read first; a
      tileset without a surface gives nothing. */
  function TextureSource(st: LoaderState, tile: Json, size: Json): Result<Option<Surface>, PyError>
  {
    match Subscript(tile, "Texture")
    case Err(e) => Err(e)
    case Ok(info) =>
      match Subscript(info, "tileset_id")
      case Err(e) => Err(e)
      case Ok(idValue) =>
        match Subscript(info, "tile_index")
        case Err(e) => Err(e)
        case Ok(index) =>
          match PyStr(idValue)
          case None => Ok(None)
          case Some(id) =>
            if StrKey(id) !in st.surfaces then Ok(None)
            else CutFrom(st.surfaces[StrKey(id)], TilesetInfo(st.tilesets, id), index, size)
  }

  /** The tileset's entry: `tilesets.get(id)` for a dict; for a list the entry at `int(id)`,
      counting from the end for a negative index, with `ValueError` and `IndexError` caught;
      `None` otherwise. */
  function TilesetInfo(tilesets: Json, id: string): (info: Json)
    ensures tilesets.JObj? ==> info == Get(tilesets.fields, id, JNull)
  {
    match tilesets
    case JObj(fields) => Get(fields, id, JNull)
    case JArr(list) =>
      (match PyParseInt(id)
       case None => JNull
       case Some(n) =>
         if 0 <= n < |list| then list[n]
         else if -|list| <= n < 0 then list[|list| + n]
         else JNull)
    case _ => JNull
  }

  /** The tile's square in its tileset: row-major, `tiles_per_row` to a row. */
  function CutFrom(image: string, info: Json, index: Json, size: Json): (r: Result<Option<Surface>, PyError>)
    ensures !Truthy(info) ==> r == Ok(None)
    ensures r.Ok? && r.value.Some? ==> r.value.value.Cut? && r.value.value.image == image
  {
    if !Truthy(info) then Ok(None)
    else
      match Subscript(info, "tiles_per_row")
      case Err(e) => Err(e)
      case Ok(perRow) =>
        match (IntOf(index), IntOf(perRow))
        case (Some(i), Some(n)) =>
          if n == 0 then Err(ZeroDivisionError)
          else Ok(Some(Cut(image, FloorMod(i, n) * SourceTile, FloorDiv(i, n) * SourceTile, size)))
        case _ => Err(TypeError)
  }

  /** A colour tile as the editor writes it is filled with its three components, at the
      level's `tile_size` (32 when absent). */
  lemma ColorTileSource(st: LoaderState, c: Rgb)
    requires st.level.JObj?
    ensures TileSource(st, TileJson(Color(c)))
         == Ok(Some(Fill([JInt(c.r), JInt(c.g), JInt(c.b)], Get(st.level.fields, "tile_size", JInt(32)))))
  {
    var fields := [("Color", RgbJson(c))];
    assert HasKey(fields, "Color") by { assert fields[0].0 == "Color"; }
  }

  /** A texture tile of a dict-form tileset with a surface and a positive `tiles_per_row`
      is cut from the square at column `index % n`, row `index // n`, and that
      square gives the index back. */
  lemma TextureTileSource(st: LoaderState, s: nat, i: nat, n: int)
    requires st.level.JObj? && st.tilesets.JObj? && StrKey(FormatInt(s)) in st.surfaces
    requires n > 0
    requires Truthy(TilesetInfo(st.tilesets, FormatInt(s)))
    requires Subscript(TilesetInfo(st.tilesets, FormatInt(s)), "tiles_per_row") == Ok(JInt(n))
    ensures var r := TileSource(st, TileJson(Texture(s, i)));
      && r.Ok? && r.value.Some? && r.value.value.Cut?
      && r.value.value == Cut(st.surfaces[StrKey(FormatInt(s))], (i % n) * SourceTile, (i / n) * SourceTile,
                              Get(st.level.fields, "tile_size", JInt(32)))
  {
    TextureTileFields(s, i);
    FloorOfNatural(i, n);
  }

  /** On a non-negative index and a positive row length, Python's `//` and `%` agree with
      Dafny's. */
  lemma FloorOfNatural(i: nat, n: int)
    requires n > 0
    ensures FloorDiv(i, n) == i / n && FloorMod(i, n) == i % n
  {
  }

  /** How a texture tile as the editor writes it reads in Python. */
  lemma TextureTileFields(s: nat, i: nat)
    ensures var tile := TileJson(Texture(s, i));
      && Contains(tile, "Color") == Ok(false) && Contains(tile, "Texture") == Ok(true)
      && Subscript(tile, "Texture").Ok?
      && Subscript(Subscript(tile, "Texture").value, "tileset_id") == Ok(JInt(s))
      && Subscript(Subscript(tile, "Texture").value, "tile_index") == Ok(JInt(i))
  {
    var tex := JObj([("tileset_id", JInt(s)), ("tile_index", JInt(i))]);
    var fields := [("Texture", tex)];
    assert !HasKey(fields, "Color");
    assert HasKey(fields, "Texture") by { assert fields[0].0 == "Texture"; }
    LevelFiles.LookupUnique(tex.fields, "tileset_id", 0);
    LevelFiles.LookupUnique(tex.fields, "tile_index", 1);
  }

  /** The square a tile is cut from lies in the first `n` columns of the image, and its
      row and column give the index back: distinct indices get distinct squares. */
  lemma SourceSquare(i: nat, n: int)
    requires n > 0
    ensures 0 <= (i % n) * SourceTile < n * SourceTile && 0 <= (i / n) * SourceTile
    ensures ((i / n) * SourceTile / SourceTile) * n + (i % n) * SourceTile / SourceTile == i
  {
    assert (i / n) * SourceTile / SourceTile == i / n;
    assert (i % n) * SourceTile / SourceTile == i % n;
  }

  /** When every surface is registered under a list position, as `_load_tilesets` does for
      a list of tilesets, no tile is ever cut from a tileset: a texture looks its surface
      up under `str(tileset_id)`, which is never a list position. */
  lemma PositionKeysNeverCut(st: LoaderState, tile: Json)
    requires forall key | key in st.surfaces :: key.IntKey?
    ensures TileSource(st, tile).Ok? && TileSource(st, tile).value.Some? ==> TileSource(st, tile).value.value.Fill?
  {
  }

  /** So every texture tile of a project the editor saved comes out as nothing to draw,
      whichever of its tileset images open. */
  lemma EditorTexturesNotDrawn(p: Projects.ProjectData, orders: seq<seq<(string, TileData)>>, opens: string -> bool,
                               s: nat, i: nat)
    requires |orders| == |p.level.layers|
    ensures TileSource(LoadDocument(Projects.ProjectJson(p, orders), opens).state, TileJson(Texture(s, i))) == Ok(None)
  {
    LoadsEditorProject(p, orders, opens);
    var st := LoadDocument(Projects.ProjectJson(p, orders), opens).state;
    LevelFiles.LookupUnique(LevelJson(p.level, orders).fields, "tile_size", 3);
    TextureTileFields(s, i);
    assert StrKey(FormatInt(s)) !in st.surfaces;
  }

  // ---------------------------------------------------------------------------
  // `render`, at scale 1.0

  /** `screen.blit(surface, screen_pos)` for the tile at `cell`. */
  datatype Blit = Blit(cell: Pos, surface: Surface, screenPos: Pos)

  /** The blits `render` made, in order, and the exception that stopped it, if any. */
  datatype Drawn = Drawn(blits: seq<Blit>, raised: Option<PyError>)

  /** The drawing window: the tile size, the half-open ranges of columns and rows visited,
      and the camera. */
  datatype View = View(tileSize: int, xs: (int, int), ys: (int, int), camera: Pos)

  /** `max(0, camera // tile_size)` up to `min(limit, (camera + screen) // tile_size + 1)`. */
  function Span(camera: int, screen: int, tileSize: int, limit: int): (int, int)
    requires tileSize != 0
  {
    (Max(0, FloorDiv(camera, tileSize)), Min(limit, FloorDiv(camera + screen, tileSize) + 1))
  }

  /** With a positive tile size a column is visited exactly when it is inside the level and
      its tile overlaps the screen, edges included. */
  lemma VisibleSpan(camera: int, screen: int, tileSize: int, limit: int, x: int)
    requires tileSize > 0
    ensures Span(camera, screen, tileSize, limit).0 <= x < Span(camera, screen, tileSize, limit).1
        <==> 0 <= x < limit && camera < (x + 1) * tileSize && x * tileSize <= camera + screen
  {
    var lo := FloorDiv(camera, tileSize);
    var hi := FloorDiv(camera + screen, tileSize);
    AtLeastFloor(camera, tileSize, lo, x);
    AtMostFloor(camera + screen, tileSize, hi, x);
  }

  lemma AtLeastFloor(a: int, b: int, q: int, x: int)
    requires b > 0 && q * b <= a < q * b + b
    ensures x >= q <==> a < (x + 1) * b
  {
    if x >= q {
      assert (x + 1) * b >= (q + 1) * b by { MulMonotone(q + 1, x + 1, b); }
    } else {
      assert (x + 1) * b <= q * b by { MulMonotone(x + 1, q, b); }
    }
  }

  lemma AtMostFloor(a: int, b: int, q: int, x: int)
    requires b > 0 && q * b <= a < q * b + b
    ensures x < q + 1 <==> x * b <= a
  {
    if x <= q {
      assert x * b <= q * b by { MulMonotone(x, q, b); }
    } else {
      assert x * b >= (q + 1) * b by { MulMonotone(q + 1, x, b); }
    }
  }

  lemma MulMonotone(x: int, y: int, b: int)
    requires x <= y && b > 0
    ensures x * b <= y * b
  {
    assert y * b - x * b == (y - x) * b;
  }

  /** `self.level.get("tile_size", 32)` as a number. */
  function TileSize(level: Json): Option<int>
  {
    if level.JObj? then IntOf(Get(level.fields, "tile_size", JInt(32))) else None
  }

  /** `self.level["width"]` (or `"height"`) as a number. */
  function Dimension(level: Json, key: string): (r: Result<int, PyError>)
    ensures r.Ok? ==> Subscript(level, key).Ok? && IntOf(Subscript(level, key).value) == Some(r.value)
  {
    match Subscript(level, key)
    case Err(e) => Err(e)
    case Ok(j) =>
      match IntOf(j)
      case None => Err(TypeError)
      case Some(n) => Ok(n)
  }

  /** The tile size, both ranges and the camera, read in `render`'s order: `tile_size`
      (32 when absent) must be a number and not 0, `width` and `height` must exist and be
      numbers. */
  function Window(level: Json, camera: Pos, screenWidth: nat, screenHeight: nat): (r: Result<View, PyError>)
    ensures r.Ok? <==> (level.JObj? && TileSize(level).Some? && TileSize(level).value != 0
                        && Dimension(level, "width").Ok? && Dimension(level, "height").Ok?)
    ensures r.Ok? ==> r.value == View(TileSize(level).value,
      Span(camera.0, screenWidth, TileSize(level).value, Dimension(level, "width").value),
      Span(camera.1, screenHeight, TileSize(level).value, Dimension(level, "height").value), camera)
  {
    if !level.JObj? then Err(AttributeError)
    else
      match TileSize(level)
      case None => Err(TypeError)
      case Some(ts) =>
        if ts == 0 then Err(ZeroDivisionError)
        else
          match Dimension(level, "width")
          case Err(e) => Err(e)
          case Ok(width) =>
            match Dimension(level, "height")
            case Err(e) => Err(e)
            case Ok(height) =>
              Ok(View(ts, Span(camera.0, screenWidth, ts, width), Span(camera.1, screenHeight, ts, height), camera))
  }

  /** A blit at `cell`, placed `x * tile_size - camera_x` across and likewise down. */
  predicate Placed(b: Blit, v: View)
  {
    b.screenPos == (b.cell.0 * v.tileSize - v.camera.0, b.cell.1 * v.tileSize - v.camera.1)
  }

  /** A blit for a cell inside the view's ranges. */
  predicate InView(b: Blit, v: View)
  {
    v.xs.0 <= b.cell.0 < v.xs.1 && v.ys.0 <= b.cell.1 < v.ys.1 && Placed(b, v)
  }

  /** One cell: `f"{x},{y}" in tiles`, then `tiles[key]` and its surface. */
  function DrawCell(st: LoaderState, tiles: Json, v: View, x: int, y: int): (r: Result<seq<Blit>, PyError>)
    ensures r.Ok? ==> forall b | b in r.value :: b.cell == (x, y) && Placed(b, v)
  {
    var key := EncodeKey((x, y));
    match Contains(tiles, key)
    case Err(e) => Err(e)
    case Ok(false) => Ok([])
    case Ok(true) =>
      match Subscript(tiles, key)
      case Err(e) => Err(e)
      case Ok(tile) =>
        match TileSource(st, tile)
        case Err(e) => Err(e)
        case Ok(None) => Ok([])
        case Ok(Some(surface)) =>
          Ok([Blit((x, y), surface, (x * v.tileSize - v.camera.0, y * v.tileSize - v.camera.1))])
  }

  /** The cells of row `y` from column `x` on. */
  function DrawCells(st: LoaderState, tiles: Json, v: View, x: int, y: int, acc: seq<Blit>): (r: Drawn)
    ensures acc <= r.blits
    ensures forall b | b in r.blits :: b in acc || (x <= b.cell.0 < v.xs.1 && b.cell.1 == y && Placed(b, v))
    decreases v.xs.1 - x
  {
    if x >= v.xs.1 then Drawn(acc, None)
    else
      match DrawCell(st, tiles, v, x, y)
      case Err(e) => Drawn(acc, Some(e))
      case Ok(bs) => DrawCells(st, tiles, v, x + 1, y, acc + bs)
  }

  /** The rows from `y` on. */
  function DrawRows(st: LoaderState, tiles: Json, v: View, y: int, acc: seq<Blit>): (r: Drawn)
    ensures acc <= r.blits
    ensures forall b | b in r.blits :: b in acc || (y <= b.cell.1 < v.ys.1 && v.xs.0 <= b.cell.0 < v.xs.1 && Placed(b, v))
    decreases v.ys.1 - y
  {
    if y >= v.ys.1 then Drawn(acc, None)
    else
      var d := DrawCells(st, tiles, v, v.xs.0, y, acc);
      if d.raised.Some? then d else DrawRows(st, tiles, v, y + 1, d.blits)
  }

  /** The layers in order; a layer whose `visible` is false is skipped. */
  function DrawLayers(st: LoaderState, layers: seq<Json>, v: View, acc: seq<Blit>): (r: Drawn)
    ensures acc <= r.blits
    ensures forall b | b in r.blits :: b in acc || InView(b, v)
    decreases |layers|
  {
    if |layers| == 0 then Drawn(acc, None)
    else
      match Subscript(layers[0], "visible")
      case Err(e) => Drawn(acc, Some(e))
      case Ok(visible) =>
        if !Truthy(visible) then DrawLayers(st, layers[1..], v, acc)
        else
          match Subscript(layers[0], "tiles")
          case Err(e) => Drawn(acc, Some(e))
          case Ok(tiles) =>
            var d := DrawRows(st, tiles, v, v.ys.0, acc);
            if d.raised.Some? then d else DrawLayers(st, layers[1..], v, d.blits)
  }

  /** `render(screen, camera_x, camera_y)` on a screen of the given size; the camera defaults
      to `(0, 0)` in the source. */
  function RenderSpec(st: LoaderState, camera: Pos, screenWidth: nat, screenHeight: nat): Drawn
  {
    match Window(st.level, camera, screenWidth, screenHeight)
    case Err(e) => Drawn([], Some(e))
    case Ok(v) =>
      match LevelLayers(st.level)
      case Err(e) => Drawn([], Some(e))
      case Ok(layers) => DrawLayers(st, layers, v, [])
  }

  /** Every tile `render` draws lies inside the level and overlaps the screen: no cell with
      a negative or out-of-range coordinate, nor one wholly off screen, is drawn. */
  lemma RenderSound(st: LoaderState, camera: Pos, screenWidth: nat, screenHeight: nat, b: Blit)
    requires b in RenderSpec(st, camera, screenWidth, screenHeight).blits
    requires TileSize(st.level).Some? && TileSize(st.level).value > 0
    ensures Dimension(st.level, "width").Ok? && Dimension(st.level, "height").Ok?
    ensures 0 <= b.cell.0 < Dimension(st.level, "width").value
    ensures 0 <= b.cell.1 < Dimension(st.level, "height").value
    ensures -TileSize(st.level).value < b.screenPos.0 <= screenWidth
    ensures -TileSize(st.level).value < b.screenPos.1 <= screenHeight
  {
    var v := Window(st.level, camera, screenWidth, screenHeight).value;
    assert InView(b, v);
    BlitOnScreen(b, v, camera, screenWidth, screenHeight, Dimension(st.level, "width").value, Dimension(st.level, "height").value);
  }

  lemma BlitOnScreen(b: Blit, v: View, camera: Pos, screenWidth: nat, screenHeight: nat, width: int, height: int)
    requires v.tileSize > 0 && v.camera == camera && InView(b, v)
    requires v.xs == Span(camera.0, screenWidth, v.tileSize, width)
    requires v.ys == Span(camera.1, screenHeight, v.tileSize, height)
    ensures 0 <= b.cell.0 < width && 0 <= b.cell.1 < height
    ensures -v.tileSize < b.screenPos.0 <= screenWidth && -v.tileSize < b.screenPos.1 <= screenHeight
  {
    AxisOnScreen(b.cell.0, b.screenPos.0, camera.0, screenWidth, v.tileSize, width);
    AxisOnScreen(b.cell.1, b.screenPos.1, camera.1, screenHeight, v.tileSize, height);
  }

  /** One axis: a visited column is in the level, and its tile starts less than a tile before
      the screen's edge and no further than its far edge. */
  lemma AxisOnScreen(x: int, at: int, camera: int, screen: int, tileSize: int, limit: int)
    requires tileSize > 0 && at == x * tileSize - camera
    requires Span(camera, screen, tileSize, limit).0 <= x < Span(camera, screen, tileSize, limit).1
    ensures 0 <= x < limit && -tileSize < at <= screen
  {
    VisibleSpan(camera, screen, tileSize, limit, x);
    assert (x + 1) * tileSize == x * tileSize + tileSize;
  }

  /** When `render` finishes, every cell in view of every visible layer has been drawn:
      whatever that cell's tile yields is among the blits. */
  lemma RenderComplete(st: LoaderState, camera: Pos, screenWidth: nat, screenHeight: nat,
                       k: nat, tiles: Json, x: int, y: int)
    requires RenderSpec(st, camera, screenWidth, screenHeight).raised.None?
    requires Window(st.level, camera, screenWidth, screenHeight).Ok?
    requires LevelLayers(st.level).Ok? && k < |LevelLayers(st.level).value|
    requires Subscript(LevelLayers(st.level).value[k], "visible").Ok?
    requires Truthy(Subscript(LevelLayers(st.level).value[k], "visible").value)
    requires Subscript(LevelLayers(st.level).value[k], "tiles") == Ok(tiles)
    requires var v := Window(st.level, camera, screenWidth, screenHeight).value;
      v.xs.0 <= x < v.xs.1 && v.ys.0 <= y < v.ys.1
    ensures var v := Window(st.level, camera, screenWidth, screenHeight).value;
      && DrawCell(st, tiles, v, x, y).Ok?
      && forall b | b in DrawCell(st, tiles, v, x, y).value :: b in RenderSpec(st, camera, screenWidth, screenHeight).blits
  {
    var v := Window(st.level, camera, screenWidth, screenHeight).value;
    LayersComplete(st, LevelLayers(st.level).value, v, [], k, tiles, x, y);
  }

  lemma {:induction false} LayersComplete(st: LoaderState, layers: seq<Json>, v: View, acc: seq<Blit>,
                                          k: nat, tiles: Json, x: int, y: int)
    requires DrawLayers(st, layers, v, acc).raised.None?
    requires k < |layers|
    requires Subscript(layers[k], "visible").Ok? && Truthy(Subscript(layers[k], "visible").value)
    requires Subscript(layers[k], "tiles") == Ok(tiles)
    requires v.xs.0 <= x < v.xs.1 && v.ys.0 <= y < v.ys.1
    ensures DrawCell(st, tiles, v, x, y).Ok?
    ensures forall b | b in DrawCell(st, tiles, v, x, y).value :: b in DrawLayers(st, layers, v, acc).blits
    decreases k
  {
    var r := DrawLayers(st, layers, v, acc);
    assert Subscript(layers[0], "visible").Ok?;
    if !Truthy(Subscript(layers[0], "visible").value) {
      LayersComplete(st, layers[1..], v, acc, k - 1, tiles, x, y);
    } else {
      var t0 := Subscript(layers[0], "tiles").value;
      var d := DrawRows(st, t0, v, v.ys.0, acc);
      assert d.raised.None?;
      if k == 0 {
        RowsComplete(st, tiles, v, v.ys.0, acc, x, y);
      } else {
        LayersComplete(st, layers[1..], v, d.blits, k - 1, tiles, x, y);
      }
    }
  }

  lemma {:induction false} RowsComplete(st: LoaderState, tiles: Json, v: View, y0: int, acc: seq<Blit>, x: int, y: int)
    requires DrawRows(st, tiles, v, y0, acc).raised.None?
    requires v.xs.0 <= x < v.xs.1 && y0 <= y < v.ys.1
    ensures DrawCell(st, tiles, v, x, y).Ok?
    ensures forall b | b in DrawCell(st, tiles, v, x, y).value :: b in DrawRows(st, tiles, v, y0, acc).blits
    decreases v.ys.1 - y0
  {
    var d := DrawCells(st, tiles, v, v.xs.0, y0, acc);
    assert d.raised.None?;
    if y0 == y {
      CellsComplete(st, tiles, v, v.xs.0, y, acc, x);
    } else {
      RowsComplete(st, tiles, v, y0 + 1, d.blits, x, y);
    }
  }

  lemma {:induction false} CellsComplete(st: LoaderState, tiles: Json, v: View, x0: int, y: int, acc: seq<Blit>, x: int)
    requires DrawCells(st, tiles, v, x0, y, acc).raised.None?
    requires x0 <= x < v.xs.1
    ensures DrawCell(st, tiles, v, x, y).Ok?
    ensures forall b | b in DrawCell(st, tiles, v, x, y).value :: b in DrawCells(st, tiles, v, x0, y, acc).blits
    decreases v.xs.1 - x0
  {
    var bs := DrawCell(st, tiles, v, x0, y).value;
    var r := DrawCells(st, tiles, v, x0 + 1, y, acc + bs);
    assert DrawCells(st, tiles, v, x0, y, acc) == r;
    if x0 != x {
      CellsComplete(st, tiles, v, x0 + 1, y, acc + bs, x);
    } else {
      forall b | b in bs ensures b in r.blits {
        PrefixHas(acc + bs, r.blits, b);
      }
    }
  }

  lemma PrefixHas<T>(a: seq<T>, c: seq<T>, b: T)
    requires a <= c && b in a
    ensures b in c
  {
    var i :| 0 <= i < |a| && a[i] == b;
    assert c[i] == b;
  }
}
