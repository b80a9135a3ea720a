/** The tileset registry (src/asset_manager.rs): ids, grid dimensions and names. Image
    decoding and textures are outside the model; the outcome of opening the image is an
    input. */
module Assets {
  import opened Text

  /** A loaded tileset, without its pixels and texture. */
  datatype Tileset = Tileset(name: string, path: string, tileWidth: nat, tileHeight: nat, columns: nat, rows: nat)

  /** What opening an image gives: its size in pixels, or the decoder's error message. */
  datatype ImageLoad = Decoded(width: nat, height: nat) | Failed(reason: string)

  /** The pieces of a `/`-separated path that `Path::components` reports as names or `..`:
      empty pieces (repeated or trailing separators) and `.` pieces are not components. */
  function PathComponents(path: string): (cs: seq<string>)
    ensures forall k | 0 <= k < |cs| :: cs[k] != "" && cs[k] != "." && '/' !in cs[k]
  {
    SplitShape(path, '/');
    Components(Split(path, '/'))
  }

  function Components(pieces: seq<string>): (cs: seq<string>)
    requires forall k | 0 <= k < |pieces| :: '/' !in pieces[k]
    ensures forall k | 0 <= k < |cs| :: cs[k] != "" && cs[k] != "." && '/' !in cs[k]
    ensures forall k | 0 <= k < |cs| :: cs[k] in pieces
  {
    if |pieces| == 0 then []
    else
      var rest := Components(pieces[1..]);
      if pieces[0] == "" || pieces[0] == "." then rest else [pieces[0]] + rest
  }

  /** `Path::file_name`: the last component, unless there is none or it is `..`. */
  function FileName(path: string): (r: Option<string>)
    ensures r.Some? ==> r.value != "" && r.value != "." && r.value != ".." && '/' !in r.value
    ensures r.Some? ==> r.value in Split(path, '/')
  {
    SplitShape(path, '/');
    var cs := PathComponents(path);
    if |cs| == 0 || cs[|cs| - 1] == ".." then None else Some(cs[|cs| - 1])
  }

  /** The name a tileset is registered under. */
  function TilesetName(path: string): string
  {
    match FileName(path)
    case Some(n) => n
    case None => "Unknown"
  }

  /** A file inside a one-level directory is named by its last component. */
  lemma FileNameOfFile(dir: string, file: string)
    requires '/' !in dir && '/' !in file && file != "" && file != "." && file != ".."
    ensures FileName(dir + ['/'] + file) == Some(file)
    ensures TilesetName(dir + ['/'] + file) == file
  {
    SplitPair(dir, file, '/');
    assert [dir, file][1..] == [file];
    assert [file][1..] == [];
    assert Components([file]) == [file];
    assert Components([dir, file]) == (if dir == "" || dir == "." then [] else [dir]) + [file];
  }

  /** A trailing separator is ignored, so a directory path names the directory. */
  lemma FileNameOfDirectory(dir: string)
    requires '/' !in dir && dir != "" && dir != "." && dir != ".."
    ensures FileName(dir + ['/']) == Some(dir)
  {
    assert dir + ['/'] == dir + ['/'] + "";
    SplitPair(dir, "", '/');
    assert [dir, ""][1..] == [""];
    assert [""][1..] == [];
  }

  /** A path ending in `..` has no file name, and its tileset is called "Unknown". */
  lemma FileNameOfParent(dir: string)
    requires '/' !in dir
    ensures FileName(dir + ['/'] + "..") == None
    ensures TilesetName(dir + ['/'] + "..") == "Unknown"
  {
    SplitPair(dir, "..", '/');
    assert [dir, ".."][1..] == [".."];
    assert [".."][1..] == [];
    assert Components([".."]) == [".."];
    assert Components([dir, ".."]) == (if dir == "" || dir == "." then [] else [dir]) + [".."];
  }

  class AssetManager {
    var tilesets: seq<Tileset>
    var tilesetCounter: nat

    constructor ()
      ensures Valid() && IdsArePositions()
      ensures tilesets == [] && tilesetCounter == 0
    {
      tilesets := [];
      tilesetCounter := 0;
    }

    /** Replaces the registry by a new, empty one (the menus assign `AssetManager::new()`). */
    method Reset()
      modifies this
      ensures Valid() && IdsArePositions()
      ensures tilesets == [] && tilesetCounter == 0
    {
      tilesets := [];
      tilesetCounter := 0;
    }

    /** Every issued id is below the counter. */
    predicate Valid()
      reads this
    {
      |tilesets| <= tilesetCounter
    }

    /** Ids equal positions as long as nothing was removed. */
    predicate IdsArePositions()
      reads this
    {
      tilesetCounter == |tilesets|
    }

    /** Registers the image at `path`, cut into `tileWidth` x `tileHeight` tiles. A decode
        failure changes nothing. On success the id is the counter's previous value; the grid
        dimensions are truncating divisions, which need non-zero tile sizes. */
    method LoadTileset(path: string, image: ImageLoad, tileWidth: nat, tileHeight: nat) returns (r: Result<nat, string>)
      requires Valid()
      requires image.Decoded? ==> tileWidth > 0 && tileHeight > 0
      modifies this
      ensures Valid()
      ensures image.Failed? ==> r == Err("Erreur de chargement: " + image.reason)
      ensures image.Failed? ==> tilesets == old(tilesets) && tilesetCounter == old(tilesetCounter)
      ensures image.Decoded? ==> r == Ok(old(tilesetCounter)) && tilesetCounter == old(tilesetCounter) + 1
      ensures image.Decoded? ==> tilesets == old(tilesets) + [Tileset(TilesetName(path), path, tileWidth, tileHeight,
                                                                      image.width / tileWidth, image.height / tileHeight)]
      ensures old(IdsArePositions()) && r.Ok? ==> IdsArePositions() && GetTileset(r.value).Some?
    {
      match image
      case Failed(reason) =>
        r := Err("Erreur de chargement: " + reason);
      case Decoded(width, height) =>
        var columns := width / tileWidth;
        var rows := height / tileHeight;
        var name := TilesetName(path);
        var tileset := Tileset(name, path, tileWidth, tileHeight, columns, rows);
        var id := tilesetCounter;
        tilesets := tilesets + [tileset];
        tilesetCounter := tilesetCounter + 1;
        r := Ok(id);
    }

    /** Lookup by position in the list, which is not the same thing as by id once a tileset
        has been removed. */
    function GetTileset(id: nat): (t: Option<Tileset>)
      reads this
      ensures t.Some? <==> id < |tilesets|
      ensures t.Some? ==> t.value == tilesets[id]
    {
      if id < |tilesets| then Some(tilesets[id]) else None
    }

    /** Removes the entry at position `id`, shifting the later ones down; the counter is kept,
        so later ids no longer match positions. */
    method RemoveTileset(id: nat)
      requires Valid()
      modifies this`tilesets
      ensures Valid()
      ensures id < |old(tilesets)| ==> tilesets == old(tilesets)[..id] + old(tilesets)[id + 1..]
      ensures id >= |old(tilesets)| ==> tilesets == old(tilesets)
      ensures id < |old(tilesets)| ==> !IdsArePositions()
    {
      if id < |tilesets| {
        tilesets := tilesets[..id] + tilesets[id + 1..];
      }
    }

    function GetTilesetTileCount(id: nat): (n: Option<nat>)
      reads this
      ensures n.Some? <==> GetTileset(id).Some?
      ensures n.Some? ==> n.value == GetTileset(id).value.columns * GetTileset(id).value.rows
    {
      match GetTileset(id)
      case Some(t) => Some(t.columns * t.rows)
      case None => None
    }
  }

  /** The grid of a tileset lies within its image: `columns` whole tiles fit across and one
      more would not, and likewise down. */
  lemma {:induction false} GridFitsImage(width: nat, height: nat, tileWidth: nat, tileHeight: nat)
    requires tileWidth > 0 && tileHeight > 0
    ensures (width / tileWidth) * tileWidth <= width < (width / tileWidth + 1) * tileWidth
    ensures (height / tileHeight) * tileHeight <= height < (height / tileHeight + 1) * tileHeight
  {
  }
}
