/** `EditorLevelLoader`, the object a pygame game holds: its attributes are set by the
    constructor and `_load_project`, and its queries and `render` walk the loaded level with
    loops. Each method is proved to compute what the functions of `PygameParser` describe. */
module PygameLoader {
  import opened Text
  import opened JsonValues
  import opened Levels
  import opened PyValues
  import opened PygameParser

  class EditorLevelLoader {
    /** `self.level`, `self.tilesets` and `self.tileset_surfaces`. */
    var level: Json
    var tilesets: Json
    var surfaces: map<SurfaceKey, string>

    function State(): LoaderState
      reads this
    {
      LoaderState(level, tilesets, surfaces)
    }

    /** The attributes `__init__` sets before it loads anything. */
    constructor ()
      ensures State() == Initial()
    {
      level := JNull;
      tilesets := JObj([]);
      surfaces := map[];
    }

    /** `EditorLevelLoader(project_file)`: a loader, carrying what `_load_project` leaves, or
        the exception that escapes the constructor. */
    static method Open(data: Json, opens: string -> bool) returns (loader: EditorLevelLoader?, raised: Option<PyError>)
      ensures raised == LoadDocument(data, opens).raised
      ensures raised.Some? <==> loader == null
      ensures loader != null ==> fresh(loader) && loader.State() == LoadDocument(data, opens).state
    {
      var l := new EditorLevelLoader();
      raised := l.LoadProject(data, opens);
      if raised.Some? {
        loader := null;
      } else {
        loader := l;
      }
    }

    /** `_load_project` on the decoded document. */
    method LoadProject(data: Json, opens: string -> bool) returns (raised: Option<PyError>)
      requires State() == Initial()
      modifies this
      ensures Loaded(State(), raised) == LoadDocument(data, opens)
    {
      var isProject := Contains(data, "level");
      if isProject.Err? {
        return Some(isProject.error);
      }
      if !isProject.value {
        level := data;
        return None;
      }
      var l := Subscript(data, "level");
      if l.Err? {
        return Some(l.error);
      }
      level := l.value;
      tilesets := Get(data.fields, "tilesets", JObj([]));
      raised := LoadTilesets(opens);
    }

    /** `_load_tilesets`: registers, in iteration order, the image of every tileset whose
        path opens, until an entry raises. */
    method LoadTilesets(opens: string -> bool) returns (raised: Option<PyError>)
      requires surfaces == map[]
      modifies this
      ensures level == old(level) && tilesets == old(tilesets)
      ensures (surfaces, raised) == LoadItems(TilesetItems(tilesets), map[], opens)
    {
      var items := TilesetItems(tilesets);
      var i := 0;
      while i < |items|
        invariant 0 <= i <= |items|
        invariant level == old(level) && tilesets == old(tilesets)
        invariant LoadItems(items, map[], opens) == LoadItems(items[i..], surfaces, opens)
      {
        var info := items[i].1;
        var path := Subscript(info, "path");
        if path.Err? {
          return Some(path.error);
        }
        if !path.value.JStr? {
          return Some(TypeError);
        }
        if opens(path.value.s) {
          surfaces := surfaces[items[i].0 := path.value.s];
          if !HasKey(info.fields, "name") {
            return Some(KeyError("name"));
          }
        }
        i := i + 1;
      }
      return None;
    }

    /** `get_layer_tiles(layer_name)`. */
    method GetLayerTiles(name: string) returns (r: Result<seq<(Pos, Json)>, PyError>)
      ensures r == LayerTiles(level, name)
    {
      var layers := LevelLayers(level);
      if layers.Err? {
        return Err(layers.error);
      }
      var ls := layers.value;
      var k := 0;
      while k < |ls|
        invariant 0 <= k <= |ls|
        invariant FindLayerTiles(ls, name) == FindLayerTiles(ls[k..], name)
      {
        var n := Subscript(ls[k], "name");
        if n.Err? {
          return Err(n.error);
        }
        if n.value == JStr(name) {
          r := ReadTiles(ls[k]);
          return;
        }
        k := k + 1;
      }
      return Ok([]);
    }

    /** The dict `get_layer_tiles` builds from one layer's `tiles`. */
    static method ReadTiles(layer: Json) returns (r: Result<seq<(Pos, Json)>, PyError>)
      ensures r == TilesOf(layer)
    {
      var t := Subscript(layer, "tiles");
      if t.Err? {
        return Err(t.error);
      }
      if !t.value.JObj? {
        return Err(AttributeError);
      }
      var items := DictItems(t.value.fields);
      var tiles: seq<(Pos, Json)> := [];
      var i := 0;
      while i < |items|
        invariant 0 <= i <= |items|
        invariant TilesDict(items, []) == TilesDict(items[i..], tiles)
      {
        var p := KeyPos(items[i].0);
        if p.Err? {
          return Err(p.error);
        }
        tiles := DictInsert(tiles, p.value, items[i].1);
        i := i + 1;
      }
      return Ok(tiles);
    }

    /** `get_tiles_by_color(color)`. */
    method GetTilesByColor(color: (int, int, int)) returns (r: Result<seq<Pos>, PyError>)
      ensures r == ColorPositions(level, color)
    {
      var layers := LevelLayers(level);
      if layers.Err? {
        return Err(layers.error);
      }
      var ls := layers.value;
      var positions: seq<Pos> := [];
      var k := 0;
      while k < |ls|
        invariant 0 <= k <= |ls|
        invariant ColorLayers(ls, color, []) == ColorLayers(ls[k..], color, positions)
      {
        var tiles := Subscript(ls[k], "tiles");
        if tiles.Err? {
          return Err(tiles.error);
        }
        if !tiles.value.JObj? {
          return Err(AttributeError);
        }
        var items := DictItems(tiles.value.fields);
        ghost var before := positions;
        var i := 0;
        while i < |items|
          invariant 0 <= i <= |items|
          invariant ColorItems(items, color, before) == ColorItems(items[i..], color, positions)
        {
          var m := ColorMatches(items[i].1, color);
          if m.Err? {
            return Err(m.error);
          }
          if m.value {
            var p := KeyPos(items[i].0);
            if p.Err? {
              return Err(p.error);
            }
            positions := positions + [p.value];
          }
          i := i + 1;
        }
        k := k + 1;
      }
      return Ok(positions);
    }

    /** `get_collision_tiles(layer_name)`: the keys of `get_layer_tiles`. `layer_name`
        defaults to `"Main"` in the source, which a caller passes here explicitly. */
    method GetCollisionTiles(name: string) returns (r: Result<seq<Pos>, PyError>)
      ensures r == CollisionTiles(level, name)
    {
      var tiles := GetLayerTiles(name);
      if tiles.Err? {
        return Err(tiles.error);
      }
      return Ok(DictKeys(tiles.value));
    }

    /** `render(screen, camera_x, camera_y)` at scale 1.0 on a screen of the given size: the
        blits made, in order, and the exception that stopped drawing, if any. The source's
        camera defaults to `camera_x = 0, camera_y = 0`, here `camera == (0, 0)`. */
    method Render(camera: Pos, screenWidth: nat, screenHeight: nat) returns (blits: seq<Blit>, raised: Option<PyError>)
      ensures Drawn(blits, raised) == RenderSpec(State(), camera, screenWidth, screenHeight)
    {
      var w := Window(level, camera, screenWidth, screenHeight);
      if w.Err? {
        return [], Some(w.error);
      }
      var v := w.value;
      var layers := LevelLayers(level);
      if layers.Err? {
        return [], Some(layers.error);
      }
      var ls := layers.value;
      blits := [];
      var k := 0;
      while k < |ls|
        invariant 0 <= k <= |ls|
        invariant DrawLayers(State(), ls, v, []) == DrawLayers(State(), ls[k..], v, blits)
      {
        var visible := Subscript(ls[k], "visible");
        if visible.Err? {
          return blits, Some(visible.error);
        }
        if Truthy(visible.value) {
          var tiles := Subscript(ls[k], "tiles");
          if tiles.Err? {
            return blits, Some(tiles.error);
          }
          var drawn, stopped := DrawLayerTiles(tiles.value, v, blits);
          if stopped.Some? {
            return drawn, stopped;
          }
          blits := drawn;
        }
        k := k + 1;
      }
      return blits, None;
    }
  
    /** The two nested loops of `render` over one visible layer's `tiles`: rows of the
        window top to bottom, each left to right. */
    method DrawLayerTiles(tiles: Json, v: View, acc: seq<Blit>) returns (blits: seq<Blit>, raised: Option<PyError>)
      ensures Drawn(blits, raised) == DrawRows(State(), tiles, v, v.ys.0, acc)
    {
      blits := acc;
      var y := v.ys.0;
      while y < v.ys.1
        invariant DrawRows(State(), tiles, v, v.ys.0, acc) == DrawRows(State(), tiles, v, y, blits)
        decreases v.ys.1 - y
      {
        var drawn, stopped := DrawRow(tiles, v, y, blits);
        if stopped.Some? {
          return drawn, stopped;
        }
        blits := drawn;
        y := y + 1;
      }
      return blits, None;
    }

    /** The inner loop of `render`: the cells of row `y`, left to right. */
    method DrawRow(tiles: Json, v: View, y: int, acc: seq<Blit>) returns (blits: seq<Blit>, raised: Option<PyError>)
      ensures Drawn(blits, raised) == DrawCells(State(), tiles, v, v.xs.0, y, acc)
    {
      blits := acc;
      var x := v.xs.0;
      while x < v.xs.1
        invariant DrawCells(State(), tiles, v, v.xs.0, y, acc) == DrawCells(State(), tiles, v, x, y, blits)
        decreases v.xs.1 - x
      {
        var cell := DrawCell(State(), tiles, v, x, y);
        if cell.Err? {
          return blits, Some(cell.error);
        }
        blits := blits + cell.value;
        x := x + 1;
      }
      return blits, None;
    }
  }
}
