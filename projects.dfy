/** The project file of src/project.rs: a level together with the metadata of the tilesets it
    uses, saved as one document, and the legacy level-only document beside it. */
module Projects {
  import opened Text
  import opened JsonValues
  import opened Levels
  import opened LevelFiles

  /** `TilesetMetadata`: where a tileset's image lives and how it is cut into tiles. */
  datatype TilesetMetadata = TilesetMetadata(id: nat, name: string, path: string,
                                             tileWidth: nat, tileHeight: nat, columns: nat, rows: nat)

  /** `Project` as a value: what is saved and loaded. */
  datatype ProjectData = ProjectData(version: string, level: LevelData, tilesets: seq<TilesetMetadata>)

  /** The format version every new project is written with. */
  const CurrentVersion: string := "1.0"

  /** The project being assembled before a save. The level is an owned copy (`state.level.clone()`). */
  class Project {
    var version: string
    var level: LevelData
    var tilesets: seq<TilesetMetadata>

    function Data(): ProjectData
      reads this
    {
      ProjectData(version, level, tilesets)
    }

    /** `Project::new`: the current version, exactly the given level and no tilesets. */
    constructor (level: LevelData)
      ensures Data() == ProjectData(CurrentVersion, level, [])
    {
      version := CurrentVersion;
      this.level := level;
      tilesets := [];
    }

    /** `add_tileset`: appends at the end; version, level and earlier entries are kept. */
    method AddTileset(metadata: TilesetMetadata)
      modifies this
      ensures Data() == old(Data()).(tilesets := old(tilesets) + [metadata])
    {
      tilesets := tilesets + [metadata];
    }

    /** `save_level_only`: the document `Level::save_to_file` writes for the project's level,
        with its tile maps written in the member orders `orders`. It is the project's own
        "level" member, and it loads back as the level. */
    method SaveLevelOnly(orders: seq<seq<(string, TileData)>>) returns (doc: Json)
      requires SerializedOrders(level, orders)
      ensures Member(ProjectJson(Data(), orders).fields, "level") == Ok(doc)
      ensures LevelInRange(level) ==> LoadLevel(Ok(doc)) == Ok(level)
    {
      doc := LevelJson(level, orders);
      ProjectMembers(Data(), orders);
      if LevelInRange(level) {
        SaveThenLoadLevel(level, orders);
      }
    }
  }

  // ---------------------------------------------------------------------------
  // The document shape serde derives

  function MetadataJson(m: TilesetMetadata): Json
  {
    JObj(MetadataObject(JInt(m.id), JStr(m.name), JStr(m.path), JInt(m.tileWidth), JInt(m.tileHeight),
                        JInt(m.columns), JInt(m.rows)))
  }

  /** The members of a metadata object, in declaration order. */
  function MetadataObject(id: Json, name: Json, path: Json, tw: Json, th: Json, cs: Json, rs: Json)
    : seq<(string, Json)>
  {
    [("id", id), ("name", name), ("path", path), ("tile_width", tw), ("tile_height", th),
     ("columns", cs), ("rows", rs)]
  }

  function MetadataListJson(ms: seq<TilesetMetadata>): (r: seq<Json>)
    ensures |r| == |ms|
    ensures forall k | 0 <= k < |ms| :: r[k] == MetadataJson(ms[k])
  {
    if |ms| == 0 then [] else [MetadataJson(ms[0])] + MetadataListJson(ms[1..])
  }

  /** The saved project: exactly the members `version`, `level` and `tilesets`. */
  function ProjectJson(p: ProjectData, orders: seq<seq<(string, TileData)>>): Json
    requires |orders| == |p.level.layers|
  {
    JObj([("version", JStr(p.version)), ("level", LevelJson(p.level, orders)),
          ("tilesets", JArr(MetadataListJson(p.tilesets)))])
  }

  // ---------------------------------------------------------------------------
  // Reading a project back (`Project::load_from_file`)

  function DecodeMetadata(j: Json): Result<TilesetMetadata, DecodeError>
  {
    match j
    case JObj(fields) =>
      var id := Member(fields, "id");
      var name := Member(fields, "name");
      var path := Member(fields, "path");
      var tw := Member(fields, "tile_width");
      var th := Member(fields, "tile_height");
      var cs := Member(fields, "columns");
      var rs := Member(fields, "rows");
      if id.Err? then Err(id.error)
      else if name.Err? then Err(name.error)
      else if path.Err? then Err(path.error)
      else if tw.Err? then Err(tw.error)
      else if th.Err? then Err(th.error)
      else if cs.Err? then Err(cs.error)
      else if rs.Err? then Err(rs.error)
      else DecodeMetadataValues(id.value, name.value, path.value, tw.value, th.value, cs.value, rs.value)
    case JArr(items) =>
      if |items| != 7 then Err(InvalidLength(|items|))
      else DecodeMetadataValues(items[0], items[1], items[2], items[3], items[4], items[5], items[6])
    case _ => Err(InvalidType)
  }

  /** The member values of a `TilesetMetadata`: a `usize` id and four `u32` sizes. */
  function DecodeMetadataValues(id: Json, name: Json, path: Json, tw: Json, th: Json, cs: Json, rs: Json)
    : Result<TilesetMetadata, DecodeError>
  {
    var i := AsNat(id, UsizeLimit);
    var n := AsString(name);
    var p := AsString(path);
    var w := AsNat(tw, U32Limit);
    var h := AsNat(th, U32Limit);
    var c := AsNat(cs, U32Limit);
    var r := AsNat(rs, U32Limit);
    if i.Err? then Err(i.error)
    else if n.Err? then Err(n.error)
    else if p.Err? then Err(p.error)
    else if w.Err? then Err(w.error)
    else if h.Err? then Err(h.error)
    else if c.Err? then Err(c.error)
    else if r.Err? then Err(r.error)
    else Ok(TilesetMetadata(i.value, n.value, p.value, w.value, h.value, c.value, r.value))
  }

  function DecodeMetadataList(items: seq<Json>): (r: Result<seq<TilesetMetadata>, DecodeError>)
    ensures r.Ok? ==> |r.value| == |items|
  {
    if |items| == 0 then Ok([])
    else
      match DecodeMetadata(items[0])
      case Err(e) => Err(e)
      case Ok(m) =>
        match DecodeMetadataList(items[1..])
        case Err(e) => Err(e)
        case Ok(ms) => Ok([m] + ms)
  }

  function DecodeProject(j: Json): Result<ProjectData, DecodeError>
  {
    match j
    case JObj(fields) =>
      var v := Member(fields, "version");
      var l := Member(fields, "level");
      var ts := Member(fields, "tilesets");
      if v.Err? then Err(v.error)
      else if l.Err? then Err(l.error)
      else if ts.Err? then Err(ts.error)
      else DecodeProjectValues(v.value, l.value, ts.value)
    case JArr(items) =>
      if |items| != 3 then Err(InvalidLength(|items|))
      else DecodeProjectValues(items[0], items[1], items[2])
    case _ => Err(InvalidType)
  }

  function DecodeProjectValues(v: Json, l: Json, ts: Json): Result<ProjectData, DecodeError>
  {
    if !ts.JArr? then Err(InvalidType)
    else
      var version := AsString(v);
      var level := DecodeLevel(l);
      var tilesets := DecodeMetadataList(ts.items);
      if version.Err? then Err(version.error)
      else if level.Err? then Err(level.error)
      else if tilesets.Err? then Err(tilesets.error)
      else Ok(ProjectData(version.value, level.value, tilesets.value))
  }

  /** `Project::load_from_file`, given what reading the file and parsing its text gave: a
      failure of either is an error, and so is a document that is not a project. */
  function LoadProject(read: Result<Json, string>): (r: Result<ProjectData, LoadError>)
    ensures read.Err? ==> r == Err(ReadFailed(read.error))
    ensures read.Ok? ==> (r.Ok? <==> DecodeProject(read.value).Ok?)
  {
    match read
    case Err(m) => Err(ReadFailed(m))
    case Ok(j) =>
      match DecodeProject(j)
      case Ok(p) => Ok(p)
      case Err(e) => Err(Invalid(e))
  }

  // ---------------------------------------------------------------------------
  // Saving and loading again gives the same project

  predicate MetadataInRange(m: TilesetMetadata)
  {
    && m.id < UsizeLimit && m.tileWidth < U32Limit && m.tileHeight < U32Limit
    && m.columns < U32Limit && m.rows < U32Limit
  }

  predicate ProjectInRange(p: ProjectData)
  {
    LevelInRange(p.level) && forall k | 0 <= k < |p.tilesets| :: MetadataInRange(p.tilesets[k])
  }

  lemma MetadataFields(m: TilesetMetadata)
    ensures var fields := MetadataJson(m).fields;
      && Member(fields, "id") == Ok(JInt(m.id))
      && Member(fields, "name") == Ok(JStr(m.name))
      && Member(fields, "path") == Ok(JStr(m.path))
      && Member(fields, "tile_width") == Ok(JInt(m.tileWidth))
      && Member(fields, "tile_height") == Ok(JInt(m.tileHeight))
      && Member(fields, "columns") == Ok(JInt(m.columns))
      && Member(fields, "rows") == Ok(JInt(m.rows))
  {
    MetadataNames(JInt(m.id), JStr(m.name), JStr(m.path), JInt(m.tileWidth), JInt(m.tileHeight),
                  JInt(m.columns), JInt(m.rows));
    MetadataSizes(JInt(m.id), JStr(m.name), JStr(m.path), JInt(m.tileWidth), JInt(m.tileHeight),
                  JInt(m.columns), JInt(m.rows));
  }

  lemma MetadataNames(id: Json, name: Json, path: Json, tw: Json, th: Json, cs: Json, rs: Json)
    ensures var fields := MetadataObject(id, name, path, tw, th, cs, rs);
      && Member(fields, "id") == Ok(id) && Member(fields, "name") == Ok(name)
      && Member(fields, "path") == Ok(path)
  {
    var fields := MetadataObject(id, name, path, tw, th, cs, rs);
    MemberUnique(fields, "id", 0);
    MemberUnique(fields, "name", 1);
    MemberUnique(fields, "path", 2);
  }

  lemma MetadataSizes(id: Json, name: Json, path: Json, tw: Json, th: Json, cs: Json, rs: Json)
    ensures var fields := MetadataObject(id, name, path, tw, th, cs, rs);
      && Member(fields, "tile_width") == Ok(tw) && Member(fields, "tile_height") == Ok(th)
      && Member(fields, "columns") == Ok(cs) && Member(fields, "rows") == Ok(rs)
  {
    var fields := MetadataObject(id, name, path, tw, th, cs, rs);
    MemberUnique(fields, "tile_width", 3);
    MemberUnique(fields, "tile_height", 4);
    MemberUnique(fields, "columns", 5);
    MemberUnique(fields, "rows", 6);
  }

  lemma DecodeMetadataJson(m: TilesetMetadata)
    requires MetadataInRange(m)
    ensures DecodeMetadata(MetadataJson(m)) == Ok(m)
  {
    MetadataFields(m);
    MetadataValues(m);
  }

  lemma MetadataValues(m: TilesetMetadata)
    requires MetadataInRange(m)
    ensures DecodeMetadataValues(JInt(m.id), JStr(m.name), JStr(m.path), JInt(m.tileWidth),
                                 JInt(m.tileHeight), JInt(m.columns), JInt(m.rows)) == Ok(m)
  {
  }

  lemma {:induction false} DecodeMetadataListJson(ms: seq<TilesetMetadata>)
    requires forall k | 0 <= k < |ms| :: MetadataInRange(ms[k])
    ensures DecodeMetadataList(MetadataListJson(ms)) == Ok(ms)
  {
    if |ms| > 0 {
      DecodeMetadataJson(ms[0]);
      assert MetadataListJson(ms)[1..] == MetadataListJson(ms[1..]);
      DecodeMetadataListJson(ms[1..]);
      assert [ms[0]] + ms[1..] == ms;
    }
  }

  /** Each of the three members of a saved project is found exactly once. */
  lemma ProjectMembers(p: ProjectData, orders: seq<seq<(string, TileData)>>)
    requires |orders| == |p.level.layers|
    ensures var fields := ProjectJson(p, orders).fields;
      && Member(fields, "version") == Ok(JStr(p.version))
      && Member(fields, "level") == Ok(LevelJson(p.level, orders))
      && Member(fields, "tilesets") == Ok(JArr(MetadataListJson(p.tilesets)))
  {
    var fields := ProjectJson(p, orders).fields;
    MemberUnique(fields, "version", 0);
    MemberUnique(fields, "level", 1);
    MemberUnique(fields, "tilesets", 2);
  }

  /** Saving a project and loading the file again gives the project back, whatever member
      order the tile maps were written in, as long as its numbers fit the file's types. */
  lemma SaveThenLoadProject(p: ProjectData, orders: seq<seq<(string, TileData)>>)
    requires SerializedOrders(p.level, orders) && ProjectInRange(p)
    ensures LoadProject(Ok(ProjectJson(p, orders))) == Ok(p)
  {
    ProjectMembers(p, orders);
    SaveThenLoadLevel(p.level, orders);
    DecodeMetadataListJson(p.tilesets);
    assert DecodeProjectValues(JStr(p.version), LevelJson(p.level, orders), JArr(MetadataListJson(p.tilesets))) == Ok(p);
  }

  /** A `TilesetMetadata` written as the array of its fields, in declaration order, reads as
      the object with those fields. */
  lemma MetadataArrayForm(id: Json, name: Json, path: Json, tw: Json, th: Json, cs: Json, rs: Json)
    ensures DecodeMetadata(JArr([id, name, path, tw, th, cs, rs]))
         == DecodeMetadata(JObj(MetadataObject(id, name, path, tw, th, cs, rs)))
  {
    var items := [id, name, path, tw, th, cs, rs];
    assert DecodeMetadata(JArr(items)) == DecodeMetadataValues(id, name, path, tw, th, cs, rs);
    MetadataNames(id, name, path, tw, th, cs, rs);
    MetadataSizes(id, name, path, tw, th, cs, rs);
    assert DecodeMetadata(JObj(MetadataObject(id, name, path, tw, th, cs, rs)))
        == DecodeMetadataValues(id, name, path, tw, th, cs, rs);
  }

  /** So does a `Project`. */
  lemma ProjectArrayForm(v: Json, l: Json, ts: Json)
    ensures DecodeProject(JArr([v, l, ts]))
         == DecodeProject(JObj([("version", v), ("level", l), ("tilesets", ts)]))
  {
    var fields := [("version", v), ("level", l), ("tilesets", ts)];
    MemberUnique(fields, "version", 0);
    MemberUnique(fields, "level", 1);
    MemberUnique(fields, "tilesets", 2);
  }

  /** A level-only document has no `version` member, so it does not load as a project. */
  lemma LevelOnlyIsNotProject(d: LevelData, orders: seq<seq<(string, TileData)>>)
    requires |orders| == |d.layers|
    ensures LoadProject(Ok(LevelJson(d, orders))) == Err(Invalid(MissingField("version")))
  {
    var fields := LevelJson(d, orders).fields;
    assert !HasKey(fields, "version");
  }

  /** A project document has no `name` member at the top, so it does not load as a level. */
  lemma ProjectIsNotLevelOnly(p: ProjectData, orders: seq<seq<(string, TileData)>>)
    requires |orders| == |p.level.layers|
    ensures LoadLevel(Ok(ProjectJson(p, orders))) == Err(Invalid(MissingField("name")))
  {
    var fields := ProjectJson(p, orders).fields;
    assert !HasKey(fields, "name");
  }
}
