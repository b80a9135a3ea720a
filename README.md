# A verified model of the EditorLevel2D core

EditorLevel2D is a tile-map editor built on egui. A level holds layers of tiles, where a tile is a flat RGB colour or a tile of a tileset image. The project saves the level as JSON, alone or inside a project file that also lists the tilesets, and two importers read these files back: a Rust one for Bevy games and a Python one for pygame games. This Dafny project models the editor's core logic and proves what it promises.

The modules follow the program's files:

- `Text` (`text.dfy`): the standard-library text behaviour the core relies on. It covers `{}` and `{:02X}` formatting, `str::parse::<i32>`, `split`, `trim`, `trim_start_matches`, `u8::from_str_radix` and Python's `int()`. It also models how UTF-8 byte offsets relate to character positions.
- `JsonValues` (`json.dfy`): decoded JSON values. An object keeps its members in document order.
- `Levels` (`levels.dfy`): `src/level.rs`. It covers tiles and tile types, the `Layer` value with `set_tile`, `get_tile` and `clear`, the `Level` class and its layer list, and the `"x,y"` key codec of `serialize_tiles` and `deserialize_tiles`.
- `LevelFiles` (`level_files.dfy`): serde's JSON form of a level (`to_json_string`, `save_to_file`, `load_from_file`) and the round trip from save to load. A derived struct is read from an object, or from the array of its fields in declaration order. Both forms are modelled here and in the two project readers.
- `EditorHistory` and `Editor` (`history.dfy`, `editor.dfy`): `src/editor.rs`, with the bounded undo/redo history and the `EditorState` handlers for keys, selection, copy, paste, delete, fill and paint. The input of one frame is a `CanvasInput` value.
- `Regions` (`regions.dfy`): the rectangle and line geometry of the fill and selection tools, and the loops that write, copy and paste rectangles of tiles.
- `Assets` (`assets.dfy`): the `AssetManager` tileset registry. Decoding the image is an input that gives a width and height, or fails.
- `Projects` (`projects.dfy`): the `Project` file with its tileset metadata, `add_tileset`, saving and loading.
- `Ui` (`ui.dfy`): the logic inside the menus and panels of `src/ui.rs`. This covers the hex colour codec, the colour fields, the bookkeeping of the selected layer, the layer presets, loading a level or a project, and the tile picker's index arithmetic.
- `BevyParser` (`bevy_parser.dfy`): the Bevy importer's serde shapes, its copy of the key codec and its two queries.
- `PyValues`, `PygameParser` and `PygameLoader` (`py_values.dfy`, `pygame_parser.dfy`, `pygame_loader.dfy`): the pygame importer.
  - `PyValues` holds the Python semantics it relies on: subscripts, `in`, truthiness, dict insertion order and floor division.
  - `PygameParser` holds specification functions for loading, querying and rendering.
  - `PygameLoader` holds the `EditorLevelLoader` class, whose loops are proved to compute those functions.

Objects whose fields the source updates in place are classes, with methods that state their whole new state: `Level`, `History`, `EditorState`, `AssetManager`, `Project` and `EditorLevelLoader`. Values that Rust owns and copies are datatypes; a `Layer` is one, and `set_tile` returns the new layer. The history stores such values as snapshots.

Some properties of the two importers are worth stating on their own, because they describe how the programs really behave:

- The Bevy importer's `TileData` is `#[serde(untagged)]`, but the editor writes its tiles externally tagged (`{"Color": [r, g, b]}`). So any layer holding a tile fails to load (`EditorLayerRejected`, `EditorTileRejected`). Every editor project fails as well, even one with no tiles and no tilesets: the editor writes `tilesets` as a JSON list, and the importer's `HashMap<String, TilesetInfo>` reads only an object (`EditorProjectRejected`). A bare level file fails too, because it has no `level` member (`EditorLevelRejected`).
- The importers accept different sets of tile keys. The Rust readers skip a key that is not two `i32`s. The pygame importer reads every key they read, as the same cell (`RustKeysRead`), and more: `int()` also takes surrounding blanks, underscores between digits and values outside the `i32` range. So a key with a blank in front is skipped in Rust and read here (`BlankKeyReadHere`). On a key `int()` rejects, the pygame importer raises `ValueError` (`BadKeyRaises`).
- The pygame importer registers project tilesets under their integer list positions but looks them up by the string `str(tileset_id)`, so it never draws a texture tile of an editor project (`PositionKeysNeverCut`, `EditorTexturesNotDrawn`). It would also need a `tiles_per_row` member, which the editor's metadata does not have.
- Apart from textures, the pygame importer reads an editor project the way the editor wrote it. Its layer lookup, collision positions and colour search agree with the specification the Bevy queries are proved against (`FirstNamed`, `Matching`): `EditorLayerTiles`, `EditorCollisionTiles`, `EditorColorPositions`.

## Model

| member | source | states |
|---|---|---|
| Levels.EmptyIsTheSentinel | src/level.rs:11-19 | `is_empty` holds for exactly one tile value, the colour 40,40,40 that `empty()` returns |
| Levels.TileTypeTable | src/level.rs:34-72 | `all()` lists the eight tile types once each; no two types share a colour or a name; only `Empty`'s colour is the empty tile |
| Levels.Layer.SetTile | src/level.rs:149-155 | painting the empty tile removes the cell and any other tile is stored at it; every other cell, the name and the visibility are unchanged |
| Levels.GetAfterSet | src/level.rs:149-162 | `get_tile` after `set_tile` reads back the tile painted, other cells read as before, and a layer storing no empty tile keeps storing none |
| Levels.ClearedLayer | src/level.rs:157-166 | after `clear` every cell reads as the empty tile and nothing is stored; name and visibility kept |
| Levels.Swap | src/level.rs:209 | `Vec::swap`: the two positions exchange their elements, the others stay, and the result is a permutation |
| Levels.Level.constructor | src/level.rs:180-192 | a new level has the given name and sizes and the layers Background, Main, Foreground, each visible and empty |
| Levels.Level.AddLayer | src/level.rs:194-196 | a new visible, empty layer is appended |
| Levels.Level.RemoveLayer | src/level.rs:198-205 | returns true exactly when there is more than one layer and the index is in range, and then removes that layer keeping the others in order; the last layer is never removed |
| Levels.Level.MoveLayerUp | src/level.rs:207-214 | moves exactly when `0 < index < len`, by swapping with the previous layer; otherwise nothing changes |
| Levels.Level.MoveLayerDown | src/level.rs:216-223 | moves exactly when `index < len - 1`, by swapping with the next layer; otherwise nothing changes |
| Levels.Level.RenameLayer | src/level.rs:225-232 | renames exactly when the index is in range, changing only that layer's name |
| Levels.MoveUpThenDown | src/level.rs:207-223 | moving a layer up and then back down restores the layer order |
| Levels.DecodeKey | src/level.rs:126-131 | a key that is accepted gives two coordinates in the `i32` range |
| Levels.EncodeKeySplits | src/level.rs:96 | splitting a written key at commas gives the two formatted coordinates |
| Levels.DecodeEncodeKey | src/level.rs:96-131 | a written key reads back as its coordinates exactly when they are in the `i32` range |
| Levels.EncodeKeyInjective | src/level.rs:96 | distinct coordinates are written as distinct keys |
| Levels.DecodeKeyShape | src/level.rs:126-128 | a key is accepted exactly when it has one comma and both parts parse as `i32`; other keys are skipped |
| Levels.DecodedKeys | src/level.rs:120-134 | a coordinate is in the map read back exactly when some member's key reads as it |
| Levels.DecodedValueIsLast | src/level.rs:124-130 | for keys naming the same coordinate, the last member's tile is the one kept |
| Levels.SentinelSurvivesDecoding | src/level.rs:124-133 | reading does not filter out the empty tile: a stored `[40,40,40]` cell stays in the map |
| Levels.EncodesPartStep | src/level.rs:94-98 | each turn of the writing loop keeps the invariant that the members written are exactly the cells visited |
| Levels.NewKeyIsFresh | src/level.rs:94-98 | the writing loop never writes a key twice |
| Levels.DecodeAppend | src/level.rs:124-131 | reading one more member inserts it when its key is accepted and skips it otherwise |
| Levels.SerializeTiles | src/level.rs:86-100 | writes one member per stored cell, each key formatted from its coordinates with the cell's tile, and with `i32` coordinates the members read back as the same map |
| Levels.DeserializeTiles | src/level.rs:102-138 | the map read is the members read in order, skipping keys that are not two `i32`s |
| Levels.TilesRoundTrip | src/level.rs:86-138 | writing a tile map and reading it back gives the same map, for coordinates in the `i32` range |
| Levels.DecodedComesFromTiles | src/level.rs:86-138 | every coordinate read back from written members was a stored cell |
| Levels.RoundTripAt | src/level.rs:86-138 | every stored cell is read back with its own tile |
| Levels.EntriesJson | src/level.rs:5-9 | the written tile members are, in order, the keys with each tile's externally tagged JSON form |
| Levels.LayersJson | src/level.rs:75-83 | the written layers are, in order, each layer's JSON object |
| JsonValues.Lookup | src/level.rs:240-244 | a member is found exactly when the object has that key, and what is found is that key's value |
| LevelFiles.Member | src/level.rs:169-177 | a struct field read from an object was present there |
| LevelFiles.MemberUnique | src/level.rs:169-177 | a field that occurs once is read as its value |
| LevelFiles.LookupUnique | src/level.rs:240-244 | a key that no later member repeats is looked up as that member's value |
| LevelFiles.OccursOnce | src/level.rs:169-177 | a key present at one position only occurs exactly once |
| LevelFiles.NeverOccurs | src/level.rs:169-177 | a key present at no position occurs zero times |
| LevelFiles.AsNat | src/level.rs:8 | an unsigned field's value is below the type's limit |
| LevelFiles.AsI32 | src/level.rs:82 | an `i32` field's value is in the `i32` range |
| LevelFiles.DecodeTile | src/level.rs:5-9 | a tile decodes only from an object with one member, its variant tag |
| LevelFiles.TextureArrayForm | src/level.rs:8 | the `Texture` fields given as the array `[tileset_id, tile_index]` decode as the same fields given as an object |
| LevelFiles.LayerArrayForm | src/level.rs:77-83 | a layer given as the array `[name, visible, tiles]` decodes as the object with those three members |
| LevelFiles.DecodeTileMembers | src/level.rs:125 | reading the tiles object decodes every member, keeping its key and position |
| LevelFiles.DecodeLayers | src/level.rs:176 | a layer list decodes to as many layers as it has items |
| LevelFiles.LoadLevel | src/level.rs:240-244 | a file that cannot be read fails with the read error |
| LevelFiles.DecodeRgbJson | src/level.rs:7 | a colour written as `[r, g, b]` decodes back to the same colour |
| LevelFiles.DecodeTileJson | src/level.rs:5-9 | every written tile with fields in range decodes back to itself |
| LevelFiles.DecodeTileMembersJson | src/level.rs:86-125 | the written tile members decode back to the same keys and tiles |
| LevelFiles.EntriesInRange | src/level.rs:86-98 | a layer whose tiles are in range writes only tiles in range |
| LevelFiles.LayerFields | src/level.rs:75-83 | a written layer's three fields are each read back |
| LevelFiles.DecodeLayerJson | src/level.rs:75-138 | a written layer decodes back to the same layer |
| LevelFiles.DecodeLayerMembers | src/level.rs:75-138 | a written layer's tiles decode to the map its members read as |
| LevelFiles.DecodeLayersJson | src/level.rs:176 | a written layer list decodes back to the same layers |
| LevelFiles.DecodeLayersOf | src/level.rs:176 | a layer list decodes, in order, to the layers its items decode to |
| LevelFiles.LevelFields | src/level.rs:169-177 | a written level's five fields are each read back |
| LevelFiles.SaveThenLoadLevel | src/level.rs:234-244 | a level saved and loaded back is the same level, when its sizes fit `u32` and its tiles their ranges |
| LevelFiles.DecodeLevelFields | src/level.rs:169-177 | a level object with in-range sizes decodes to that level |
| LevelFiles.LevelMembers | src/level.rs:171-177 | each of the five members of a level object is found under its own name |
| LevelFiles.DecodeLevelObject | src/level.rs:171-177 | a level object decodes its five members' values |
| LevelFiles.LevelArrayForm | src/level.rs:171-177 | a level given as the array of its five fields in declaration order decodes as the object with those members |
| LevelFiles.LevelValues | src/level.rs:169-177 | the five field values of a written level decode back to it |
| LevelFiles.LoadedSentinelStays | src/level.rs:102-138 | a file storing the empty tile at a cell loads with that cell stored, a layer `set_tile` would never make |
| EditorHistory.PushBounded | src/editor.rs:52-56 | the pushed state is on top; a stack within its capacity stays within it; below the bound it grows by one, and it never grows by more |
| EditorHistory.NewestOfSuffix | src/editor.rs:52-56 | dropping old entries from the front does not change the newest entries kept |
| EditorHistory.RecordAllKeepsNewest | src/editor.rs:52-59 | after any run of pushes the undo stack holds the newest snapshots, at most `max_size` of them (one when `max_size` is 0), oldest first |
| EditorHistory.RecordAllClearsRedo | src/editor.rs:52-59 | any push empties the redo stack and the bound never changes |
| EditorHistory.RecordStep | src/editor.rs:52-56 | one push keeps the newest-entries invariant |
| EditorHistory.PushOffset | src/editor.rs:52-56 | a push either appends or appends and drops exactly the oldest entry, the latter only at full capacity |
| EditorHistory.CapacityTwoKeepsLastTwo | src/editor.rs:52-56 | with a bound of 2, three pushes keep the last two snapshots |
| EditorHistory.History.constructor | src/editor.rs:44-50 | both stacks start empty with the given bound |
| EditorHistory.History.Push | src/editor.rs:52-59 | undo stack becomes the bounded push of the state; redo stack emptied |
| EditorHistory.History.Undo | src/editor.rs:61-63 | returns the top of the undo stack, if any, and pops it; the redo stack is untouched |
| EditorHistory.History.Redo | src/editor.rs:65-67 | returns the top of the redo stack, if any, and pops it; the undo stack is untouched |
| EditorHistory.History.PushRedo | src/editor.rs:69-74 | redo stack becomes the bounded push of the state; undo stack untouched |
| EditorHistory.History.CanUndo | src/editor.rs:76-78 | true exactly when `undo` would return a state |
| EditorHistory.History.CanRedo | src/editor.rs:80-82 | true exactly when `redo` would return a state |
| Assets.PathComponents | src/asset_manager.rs:66-70 | the path's components are its non-empty pieces other than `.`, none holding a separator |
| Assets.FileName | src/asset_manager.rs:66-68 | a file name, when there is one, is a single non-empty path piece other than `.` and `..` |
| Assets.FileNameOfFile | src/asset_manager.rs:66-70 | a file in a directory is named by its own name |
| Assets.FileNameOfDirectory | src/asset_manager.rs:66-68 | a trailing separator does not hide the last name |
| Assets.FileNameOfParent | src/asset_manager.rs:66-70 | a path ending in `..` has no file name, so the tileset is called "Unknown" |
| Assets.AssetManager.constructor | src/asset_manager.rs:32-37 | no tilesets and a counter at 0 |
| Assets.AssetManager.Reset | src/ui.rs:41 | the registry is replaced by an empty one with its counter at 0 |
| Assets.AssetManager.LoadTileset | src/asset_manager.rs:40-88 | an image that fails to open leaves the registry unchanged and gives the prefixed error; otherwise the tileset with its file name, sizes and whole-tile grid is appended, the id returned is the old counter and the counter grows by one, so ids stay positions until a removal |
| Assets.AssetManager.GetTileset | src/asset_manager.rs:91-93 | found exactly when the id is a position of the list, and then it is the tileset there |
| Assets.AssetManager.RemoveTileset | src/asset_manager.rs:101-105 | an id in range removes that entry keeping the others in order (after which ids no longer match positions); any other id changes nothing |
| Assets.AssetManager.GetTilesetTileCount | src/asset_manager.rs:123-126 | defined exactly when the tileset exists, and then columns times rows |
| Assets.GridFitsImage | src/asset_manager.rs:63-64 | the grid covers the image with whole tiles, leaving less than one tile over on each axis |
| Regions.Bounds | src/editor.rs:272-275 | the normalised rectangle contains both corners, its edges are coordinates of the corners, and its sides measure the distance plus one |
| Regions.BoundsIsSmallest | src/editor.rs:614-617 | any rectangle containing both corners contains the normalised one |
| Regions.FillTarget | src/editor.rs:459-470 | a rectangle fill covers the bounds of anchor and click; a line fill runs along the row when the horizontal distance is larger, else along the column, from the anchor to the click's coordinate |
| Regions.LineStaysOnAxis | src/editor.rs:459-466 | every cell of a line fill shares a row or a column with the anchor |
| Regions.Overwrite | src/editor.rs:481-485 | inside the rectangle every cell holds the tile, or is removed when it is the empty tile; outside nothing changes |
| Regions.WriteRect | src/editor.rs:481-485 | the double loop of `set_tile` calls gives the layer with the rectangle overwritten |
| Regions.WriteColumn | src/editor.rs:482-484 | the inner loop overwrites exactly one column of the rectangle |
| Regions.CopyColumn | src/editor.rs:622-628 | every entry copied from a column holds a non-empty tile, at a position relative to the rectangle's corner that lies in it |
| Regions.CopyRect | src/editor.rs:621-629 | every entry copied holds a non-empty tile at a relative position inside the rectangle |
| Regions.CollectRect | src/editor.rs:619-630 | the loops collect exactly the clipboard entries of the rectangle, column by column |
| Regions.CopiedTilesAt | src/editor.rs:619-630 | the clipboard holds, at each relative position, the source cell's tile when that cell is in the rectangle and non-empty, and nothing otherwise |
| Regions.CopiedTilesOnce | src/editor.rs:619-630 | the clipboard has one entry per painted cell of the rectangle, in column-then-row order, and no relative position twice |
| Regions.CopyColumnCount | src/editor.rs:622-628 | a column's copied entries are as many as its painted cells |
| Regions.CopyColumnOrdered | src/editor.rs:622-628 | a column's copied entries lie in that column, in increasing row order |
| Regions.CopyRectCount | src/editor.rs:621-629 | the copied entries of the first columns are as many as their painted cells |
| Regions.CopyRectOrdered | src/editor.rs:621-629 | the copied entries of the first columns come column by column, each column in row order |
| Regions.PasteLoop | src/editor.rs:653-659 | the paste loop gives the layer with every entry written at its shifted position, in order |
| Regions.PastedAt | src/editor.rs:654-658 | after pasting, a cell takes the last clipboard entry aimed at it (removed when that is the empty tile) and otherwise keeps its tile |
| Regions.CopyThenPaste | src/editor.rs:611-666 | copying a rectangle and pasting it places every non-empty source tile at its shifted cell and leaves every other cell as it was |
| Editor.EditorState.constructor | src/editor.rs:115-138 | the default level of 64 by 48 tiles of size 16 with its three layers, layer 1 current, the brown paint colour and its hex text, no selection, clipboard or notification, and an empty history bounded by 50 |
| Editor.EditorState.SaveHistory | src/editor.rs:564-570 | a snapshot of the layers and current layer is pushed and the redo stack emptied |
| Editor.EditorState.Undo | src/editor.rs:573-589 | with an undo snapshot, the current state goes to the redo stack and the snapshot is restored; otherwise only the "nothing to undo" notice is shown |
| Editor.EditorState.Redo | src/editor.rs:592-608 | with a redo snapshot, the current state is pushed as an undo step (emptying the redo stack) and the snapshot is restored; otherwise the "nothing to redo" notice |
| Editor.EditorState.CopySelection | src/editor.rs:611-645 | an active selection with both corners fills the clipboard with its non-empty tiles, origin and size, and reports its area; without an active selection only the notice |
| Editor.EditorState.PasteSelection | src/editor.rs:648-666 | with a clipboard, history is saved and every entry written at the paste point, reporting the entry count; otherwise the "empty clipboard" notice |
| Editor.EditorState.DeleteSelection | src/editor.rs:669-698 | an active selection is saved to history, erased cell by cell, reported by its area and cleared |
| Editor.EditorState.HandleKeys | src/editor.rs:156-180 | undo, redo, copy, delete and escape run in that order when their keys are pressed |
| Editor.EditorState.SelectTool | src/editor.rs:409-445 | paste, first click, drag, drag end and right click act on the selection as the branches do |
| Editor.EditorState.FillTool | src/editor.rs:446-501 | the first click anchors, the second saves history, writes the fill target and reports it, and a right click cancels |
| Editor.EditorState.PaintTool | src/editor.rs:502-541 | a new cell is erased or painted by the button the tool gives that role, history saved once per stroke |
| Editor.EditorState.PaintHovered | src/editor.rs:510-538 | on an existing current layer, the erase button empties the hovered cell and the paint button, outside the select tool, writes the paint tile there; nothing else changes |
| Editor.EditorState.DrawCanvas | src/editor.rs:140-548 | one frame: the keys, then the tool under a hovered cursor, then the end of a drag closes the stroke |
| Editor.EditorState.CanUndo | src/editor.rs:700-702 | true exactly when an undo snapshot exists |
| Editor.EditorState.CanRedo | src/editor.rs:704-706 | true exactly when a redo snapshot exists |
| Editor.UndoRestores | src/editor.rs:573-589 | undo restores the top snapshot, puts the state it replaced on top of the redo stack and shortens the undo stack by one; with none it only notifies |
| Editor.RedoRestores | src/editor.rs:592-608 | redo restores the top redo snapshot, records the replaced state as the newest undo step and empties the redo stack; with none it only notifies |
| Editor.UndoRevertsEdit | src/editor.rs:564-589 | an edit made after saving history is undone back to the saved layers and current layer, and the edited state can be redone |
| Editor.UndoThenRedo | src/editor.rs:573-608 | redo right after undo gives back the layers, the current layer and the undo stack |
| Editor.SecondRedoFindsNothing | src/editor.rs:592-608 | because redo pushes an undo step, which clears the redo stack, a second redo in a row finds nothing |
| Editor.TwoUndosTwoRedos | src/editor.rs:573-608 | after two undos, two redos do not return to the latest state: the first redo clears the redo stack, so the second finds nothing and the state is the one one undo gave |
| Editor.CopyHoldsSelection | src/editor.rs:611-645 | the last clipboard entry at each relative position is the selection's painted tile there, and there is none where the cell is empty or outside; the corner is the origin, the area is reported, and the layers and history are unchanged |
| Editor.PasteCountsSelection | src/editor.rs:611-666 | pasting what was just copied reports as many tiles as the selection has painted cells |
| Editor.CopyThenPasteInEditor | src/editor.rs:611-666 | after copy then paste, each cell of the current layer holds the selection's painted tile that lands on it, or its old tile (or nothing) when none does |
| Editor.CopyPasteLayers | src/editor.rs:611-666 | copy then paste replaces only the current layer, by the pasted one, and one undo brings back the layers as they were |
| Editor.DeleteClearsSelection | src/editor.rs:669-698 | delete empties exactly the selected rectangle, clears the selection, reports its area, and one undo restores the layers |
| Editor.FillWritesTarget | src/editor.rs:446-496 | a second fill click writes the tile over exactly the fill target (on one row or column for a line), resets the anchor, and one undo restores the layers |
| Editor.FillFirstClickAnchors | src/editor.rs:448-451 | the first fill click only sets the anchor |
| Editor.PaintSkipsSameCell | src/editor.rs:504 | dragging over the cell just painted changes nothing |
| Editor.StrokeSavesOnce | src/editor.rs:504-508 | history is saved only by the click starting a stroke |
| Editor.PaintButtons | src/editor.rs:510-539 | the erase button empties the cell, otherwise the paint button writes the paint tile, and with neither the layer is unchanged; the cell becomes the last painted |
| Editor.EscapeIsSecondaryClick | src/editor.rs:175-179 | escape clears the selection just as a right click in select mode does |
| Editor.IdleFrame | src/editor.rs:140-548 | a frame with no key, no hover and no drag end changes nothing |
| Editor.DragEndEndsStroke | src/editor.rs:545-547 | the end of a drag always ends the paint stroke |
| Projects.Project.constructor | src/project.rs:25-31 | a project of version "1.0" with the level and no tilesets |
| Projects.Project.AddTileset | src/project.rs:33-35 | the metadata is appended and nothing else changes |
| Projects.Project.SaveLevelOnly | src/project.rs:50-52 | the level-only file is the project's `level` member, and it loads back as the project's level |
| Projects.MetadataListJson | src/project.rs:21 | the written tileset list is, in order, each metadata object |
| Projects.DecodeMetadataList | src/project.rs:21 | a decoded tileset list has as many entries as items |
| Projects.LoadProject | src/project.rs:43-47 | an unreadable file fails with the read error; a read document loads exactly when it decodes as a `Project`, from an object or from the array of its fields in order (`ProjectArrayForm`) |
| Projects.MetadataFields | src/project.rs:5-14 | each of the seven written metadata fields reads back as its value |
| Projects.MetadataNames | src/project.rs:6-9 | in a metadata object, the id, name and path members are found under their names |
| Projects.MetadataSizes | src/project.rs:10-13 | in a metadata object, the four size members are found under their names |
| Projects.MetadataArrayForm | src/project.rs:6-14 | tileset metadata given as the array of its seven fields in declaration order decodes as the object with those members |
| Projects.ProjectArrayForm | src/project.rs:18-22 | a project given as the array `[version, level, tilesets]` decodes as the object with those members |
| Projects.DecodeMetadataJson | src/project.rs:5-14 | written tileset metadata in range decodes back to itself |
| Projects.MetadataValues | src/project.rs:5-14 | the seven written field values decode back to the metadata |
| Projects.DecodeMetadataListJson | src/project.rs:21 | a written tileset list decodes back to the same list |
| Projects.ProjectMembers | src/project.rs:17-22 | a written project's version, level and tileset list each read back |
| Projects.SaveThenLoadProject | src/project.rs:37-47 | a project saved and loaded back is the same project, when its sizes and tiles are in range |
| Projects.LevelOnlyIsNotProject | src/project.rs:43-52 | a level-only file does not load as a project: the `version` field is missing |
| Projects.ProjectIsNotLevelOnly | src/level.rs:240-244 | a project file does not load as a level: the `name` field is missing |
| Ui.RgbToHex | src/ui.rs:5-7 | the code is `#` and six upper-case hexadecimal digits whose pairs are the red, green and blue values |
| Ui.CodeLayout | src/ui.rs:5-7 | three two-digit pairs after `#` sit at positions 1-2, 3-4 and 5-6 of a seven-character code |
| Ui.HexBodyOfCode | src/ui.rs:11-12 | trimming and stripping a single leading `#` leaves exactly the text after it |
| Ui.HexBodyOfDigits | src/ui.rs:11-12 | text with no blank ends and no leading `#` is read unchanged |
| Ui.ParseHexDigits | src/ui.rs:13-26 | a colour comes only from ASCII text of six or three digits |
| Ui.ParseHexColor | src/ui.rs:10-27 | a colour comes only from a trimmed, `#`-stripped body of six or three ASCII characters |
| Ui.HexRoundTrip | src/ui.rs:5-27 | every colour written by `rgb_to_hex` is parsed back to the same colour |
| Ui.SixDigits | src/ui.rs:13-18 | six digits are read as three pairs, and the colour exists exactly when all three pairs parse |
| Ui.ShortForm | src/ui.rs:19-24 | three digits give channels of seventeen times each digit |
| Ui.ShortFormIsDoubled | src/ui.rs:13-24 | `abc` and `aabbcc` denote the same colour |
| Ui.LongForm | src/ui.rs:13-18 | six digits in doubled pairs give channels of seventeen times each digit |
| Ui.ThreeDigits | src/ui.rs:19-24 | three digits are read by doubling each one |
| Ui.DoubledDigit | src/ui.rs:20-22 | a doubled digit parses as seventeen times its value |
| Ui.SkipsLeadingBlank | src/ui.rs:11 | a leading blank does not change the result |
| Ui.SkipsTrailingBlank | src/ui.rs:11 | a trailing blank does not change the result, for every text |
| Ui.SkipsHash | src/ui.rs:12 | a `#` before text without surrounding blanks does not change the result |
| Text.TrimStartSnoc | src/ui.rs:11 | trimming the front of text ending in a blank keeps that blank unless nothing is left |
| Ui.AsWrittenAgreesOnAscii | src/ui.rs:10-27 | on ASCII text the byte-sliced function as written returns the character-level result |
| Ui.AsciiBytesAgree | src/ui.rs:13-26 | on ASCII digits, byte slicing and character slicing read the same colour |
| Ui.AsWrittenPanics | src/ui.rs:13-18 | a six-byte body whose second character is two bytes long panics at the first slice; the corrected parser returns no colour |
| Ui.FirstSlicePanics | src/ui.rs:15 | six bytes with no character boundary at byte 2 make the slice `[0..2]` panic |
| Ui.SetColorChannel | src/ui.rs:519-533 | moving a slider changes that channel only and rewrites the hex text, which then reads back as the colour |
| Ui.CommitHexInput | src/ui.rs:540-549 | valid text becomes the colour and is kept; invalid text keeps the colour and is rewritten from it; afterwards the text always reads back as the colour |
| Ui.PickPresetColor | src/ui.rs:568-590 | a preset swatch selects its colour, writes its code, paints that colour and switches to the paint tool |
| Ui.UseSelectedColor | src/ui.rs:555-558 | the button makes the selected colour the paint and switches to the paint tool |
| Ui.PickTextureTile | src/ui.rs:483-489 | clicking a picker tile paints that tile under its tileset's list position and switches to the paint tool |
| Ui.PickedTileOutlined | src/ui.rs:460-464 | the picker outlines exactly the tile that is the paint, and no tile while a colour is |
| Ui.InitialColorIsFirstPreset | src/editor.rs:129-130 | the initial brown is the first preset and its initial text `#8B4513` reads back as it |
| Ui.InitialCode | src/ui.rs:5-7 | `rgb_to_hex` of the initial brown is `#8B4513` |
| Ui.NumberedLayerName | src/ui.rs:203 | a numbered layer is called `Layer ` followed by one more than the given count |
| Ui.ClearCurrentLayer | src/ui.rs:192-197 | the selected layer is emptied, keeping its name and visibility, and nothing changes when no layer is selected |
| Ui.AddLayerAndSelect | src/ui.rs:201-206 | one empty layer `Layer {n+1}` is appended and becomes the selected layer |
| Ui.AddLayerOnly | src/ui.rs:676-679 | one empty layer `Layer {n+1}` is appended and a valid selection stays valid |
| Ui.RemoveCurrentLayer | src/ui.rs:208-215 | with more than one layer the selected one is removed and the selection is clamped onto the new last layer; otherwise nothing changes |
| Ui.SelectLayer | src/ui.rs:762-768 | clicking a layer's name selects it |
| Ui.SetLayerVisibility | src/ui.rs:770-776 | the checkbox sets that layer's visibility only, and an index out of range changes nothing |
| Ui.MoveCurrentLayerUp | src/ui.rs:809-813 | a successful move swaps the layer with the one above and the selection follows it; a failed move changes nothing |
| Ui.MoveCurrentLayerDown | src/ui.rs:815-819 | a successful move swaps the layer with the one below and the selection follows it; the last layer does not move |
| Ui.ClearAllLayers | src/ui.rs:681-685 | every layer is emptied and the number of layers is kept |
| Ui.NewLayers | src/ui.rs:693-718 | a preset's layers are empty, visible layers with the preset's names, in order |
| Ui.PresetLayout | src/ui.rs:692-720 | RPG has 5 layers selecting "Gameplay", Parallax 7 selecting "Terrain", Minimal 3 selecting "Main" |
| Ui.ApplyPreset | src/ui.rs:692-720 | the layer list is replaced by the preset's and the selected layer is the one the preset names |
| Ui.NewDocument | src/ui.rs:38-44 | a 64x48 level of 16-pixel tiles named "Nouveau Niveau" with the three default layers, an empty registry and no remembered file; the selected index is kept |
| Ui.LoadedCurrentLayer | src/ui.rs:130 | after a load the second layer is selected when there are two, else the first, and the index names a layer exactly when there is one |
| Ui.LoadedLayerAgrees | src/ui.rs:130 | the as-written `1.min(len - 1)` agrees with the corrected index on non-empty levels and panics on an empty one |
| Ui.TileTotalAppend | src/ui.rs:173 | the total tile count of two lists of layers is the sum of their totals |
| Ui.FinishLevelLoad | src/ui.rs:156-182 | a readable level file replaces the level, is remembered and selects the loaded layer; the notice counts its layers and tiles; a failure changes only the notice |
| Ui.Reloaded | src/ui.rs:110-127 | reloading never registers more tilesets than the project lists |
| Ui.AllReloaded | src/ui.rs:114-134 | every tileset comes back exactly when every image opens |
| Ui.FailedImageShiftsIds | src/ui.rs:114-127 | when the first image fails, the second tileset is registered at position 0 |
| Ui.ReloadTilesets | src/ui.rs:110-127 | the emptied registry holds, in order, the tilesets whose images open, with ids equal to positions, and the count returned is their number |
| Ui.FinishProjectLoad | src/ui.rs:98-154 | a readable project replaces the level and the registry, selects the loaded layer and reports either full or partial loading; a failure changes only the notice |
| Ui.TilePickerCells | src/ui.rs:430-447 | the picker shows `ceil(count/4)` rows and visits each tile index once, in order, at column `i % columns` and row `i / columns` |
| Ui.PickerRow | src/ui.rs:439-447 | one row adds the buttons of tiles `4 * row` up to `4 * row + 3` that exist, each with its column and row in the image |
| Ui.RowsOfFour | src/ui.rs:438 | `(n + 3) / 4` rows of four hold `n` tiles and one row fewer does not |
| Ui.PickerCellInGrid | src/ui.rs:441-447 | every index below `columns * rows` falls inside the tileset's grid |
| Text.FormatInt | src/level.rs:96 | `{}` of an integer is a non-empty run of digits with at most a leading minus |
| Text.DecimalValue | src/level.rs:96 | the decimal digits written for a natural number read back as that number |
| Text.FormatIntInjective | src/level.rs:96 | two different integers are never written the same way |
| Text.ParseI32 | src/level.rs:128 | `str::parse::<i32>` succeeds only on non-empty text and only with a value in the 32-bit range |
| Text.ParseFormatI32 | src/level.rs:96-128 | parsing the decimal text of an integer gives it back exactly when it fits in 32 bits |
| Text.SplitShape | src/level.rs:126 | `split(',')` gives one more piece than there are commas, and no piece holds a comma |
| Text.SplitPair | src/level.rs:126 | two comma-free pieces joined by a comma split back into exactly those two |
| Text.SplitNoSep | src/level.rs:126 | text without a comma splits into itself alone |
| Text.TrimStartWith | src/ui.rs:11 | trimming the start removes exactly a prefix of dropped characters and stops at the first kept one |
| Text.TrimEndWith | src/ui.rs:11 | trimming the end removes exactly a suffix of dropped characters and stops at the last kept one |
| Text.PyParseFormat | parsers/pygame_parser.py:220 | Python's `int()` reads the decimal text of every integer back as that integer |
| Text.ParseI32ThenPy | parsers/pygame_parser.py:220 | `int()` reads every text that `parse::<i32>` reads, to the same value |
| Text.PyParseStripped | parsers/pygame_parser.py:220 | `int()` depends only on the text once surrounding blanks are stripped |
| Text.HexDigit | src/ui.rs:6 | `{:02X}` writes each value below 16 as one upper-case hexadecimal digit of that value |
| Text.Hex2 | src/ui.rs:6 | `{:02X}` of a byte is exactly two upper-case hexadecimal digits |
| Text.ParseHex2 | src/ui.rs:6-14 | `from_str_radix(_, 16)` reads the two digits `{:02X}` writes back as the same byte |
| Text.AsciiOffsets | src/ui.rs:13-22 | in ASCII text the byte length is the character count and every byte offset is a character boundary |
| PyValues.Subscript | parsers/pygame_parser.py:176 | `j[key]` succeeds exactly on a dict holding the key and gives its value; a missing key raises `KeyError`, any other value `TypeError` |
| PyValues.Get | parsers/pygame_parser.py:58 | `d.get(key, default)` is the key's value when present and the default otherwise |
| PyValues.Contains | parsers/pygame_parser.py:56 | `key in d` on a dict is whether the dict has the key |
| PyValues.DictInsert | parsers/pygame_parser.py:221 | `d[k] = v` leaves the dict with its old keys plus `k` |
| PyValues.DictInsertNew | parsers/pygame_parser.py:221 | a new key is appended at the end of the dict's order |
| PyValues.HasDictKeyCons | parsers/pygame_parser.py:221 | a dict's keys are its first key and the keys of the rest |
| PyValues.DictItems | parsers/pygame_parser.py:53 | the dict `json.load` builds has exactly the object's member names as keys |
| PyValues.DictItemsOfDistinct | parsers/pygame_parser.py:53 | an object without repeated names becomes a dict with the same items in the same order |
| PyValues.Iterate | parsers/pygame_parser.py:180 | iterating a list gives its elements in order |
| PyValues.KeysOf | parsers/pygame_parser.py:257 | `d.keys()` lists each key of the dict once, in order |
| PyValues.FloorDiv | parsers/pygame_parser.py:174-177 | `a // b` is the quotient rounded toward negative infinity |
| PyValues.FloorMod | parsers/pygame_parser.py:140 | `a % b` completes `//` with a remainder of the sign of `b` |
| BevyParser.DecodeBevyTile | parsers/bevy_parser.rs:37-42 | the untagged `TileData` reads a colour only from a three-element array and a texture only from an object or a pair, always with values in range |
| BevyParser.TextureOf | parsers/bevy_parser.rs:41 | a texture is read only with a `usize` tileset id and a `u32` tile index |
| BevyParser.DecodeBevyTileJson | parsers/bevy_parser.rs:37-42 | every tile in range, written untagged, is read back as itself |
| BevyParser.EditorTileRejected | parsers/bevy_parser.rs:37-42 | no tile written by the editor's externally tagged `TileData` is accepted by the untagged reader |
| BevyParser.DecodeObjectMap | parsers/bevy_parser.rs:106 | the `HashMap<String, _>` read from an object has exactly the object's member names as keys |
| BevyParser.BevyEntriesJson | parsers/bevy_parser.rs:92-97 | `serialize_tiles` writes one member per entry, with the entry's key and its untagged tile |
| BevyParser.DecodeBevyEntries | parsers/bevy_parser.rs:92-106 | the members `serialize_tiles` writes are read back as the same string map |
| BevyParser.StringMapKeys | parsers/bevy_parser.rs:106 | the string map holds exactly the written keys, each with a value written for it |
| BevyParser.DeserializeTiles | parsers/bevy_parser.rs:100-119 | exactly the keys that split into two `i32`s are kept, under the coordinates they decode to, with their values; everything else is skipped |
| BevyParser.DeserializeStep | parsers/bevy_parser.rs:109-116 | one loop step keeps the result equal to the decoding of the keys seen so far |
| BevyParser.KeysFromDecoding | parsers/bevy_parser.rs:112 | every coordinate kept fits in `i32` |
| BevyParser.DeserializedUnique | parsers/bevy_parser.rs:109-116 | when no two keys decode to the same coordinates, the result does not depend on the map's iteration order |
| BevyParser.BevyTilesRoundTrip | parsers/bevy_parser.rs:84-119 | `serialize_tiles` followed by `deserialize_tiles` gives back the same tiles |
| BevyParser.MemberOfTile | parsers/bevy_parser.rs:93-95 | each written member is the key and value of some tile |
| BevyParser.TileMember | parsers/bevy_parser.rs:93-95 | each tile is written under its key |
| BevyParser.DecodeRawLayers | parsers/bevy_parser.rs:45-63 | a layer list is read only when every layer is, one for one |
| BevyParser.DecodeTilesets | parsers/bevy_parser.rs:79-80 | a project without `tilesets` has an empty tileset map |
| BevyParser.DecodeRawProject | parsers/bevy_parser.rs:76-81 | a project is read only from an object that has a `level` or from an array of one or two items; one without `tilesets` has none |
| BevyParser.RawLayerArrayForm | parsers/bevy_parser.rs:46-54 | a layer given as the array `[name, visible, tiles]` is read as the object with those members |
| BevyParser.RawLevelArrayForm | parsers/bevy_parser.rs:58-64 | a level given as the array of its five fields in declaration order is read as the object with those members |
| BevyParser.TilesetInfoArrayForm | parsers/bevy_parser.rs:68-73 | a tileset given as the array of its four fields is read as the object with those members |
| BevyParser.RawProjectLevelOnly | parsers/bevy_parser.rs:77-81 | `[level]` is read as `{"level": level}`, both with the default empty tilesets |
| BevyParser.RawProjectArrayForm | parsers/bevy_parser.rs:77-81 | `[level, tilesets]` is read as `{"level": level, "tilesets": tilesets}` |
| BevyParser.LoadFromFile | parsers/bevy_parser.rs:163-167 | a read failure is reported as such; otherwise the load succeeds exactly when the document decodes as an `EditorProject`, as an object or as an array in field order, and then each layer's tiles are the decoded keys |
| BevyParser.Deserialize | parsers/bevy_parser.rs:163-167 | the project built from a decoded document keeps its sizes, names, flags and tilesets, and each layer's tiles are its decoded keys |
| BevyParser.EditorProjectRejected | parsers/bevy_parser.rs:76-81 | every project file the editor writes, whatever the order of its tile members and even without tiles, is rejected: its `tilesets` list is not the object a `HashMap` reads |
| BevyParser.EditorLevelRejected | parsers/bevy_parser.rs:76-81 | a bare level file written by the editor is rejected, having no `level` member |
| BevyParser.EditorLayerRejected | parsers/bevy_parser.rs:45-54 | an editor layer holding any tile is rejected |
| BevyParser.EditorTileStops | parsers/bevy_parser.rs:106 | one editor-written tile makes the whole string map fail |
| BevyParser.GetLayerTiles | parsers/bevy_parser.rs:170-175 | the tiles of the first layer with the name, or none when no layer has it |
| BevyParser.FirstNamed | parsers/bevy_parser.rs:173 | `find` gives the first position whose layer has the name, or none when there is none |
| BevyParser.FindTilesByColor | parsers/bevy_parser.rs:178-192 | the result is, layer by layer, an enumeration of each layer's tiles of exactly that colour, so a position is in it exactly when some layer has that colour there |
| BevyParser.ColorPositions | parsers/bevy_parser.rs:182-188 | one layer's positions of that colour are listed once each |
| BevyParser.FoundPositions | parsers/bevy_parser.rs:178-192 | a position is found exactly when some layer has a tile of that colour there |
| BevyParser.FoundCount | parsers/bevy_parser.rs:178-192 | the number found is the number of matching tiles summed over the layers |
| PygameParser.KeyPos | parsers/pygame_parser.py:220 | `map(int, key.split(','))` into two names fails only with `ValueError` |
| PygameParser.KeyPosOfEncoded | parsers/pygame_parser.py:220 | every key written as `x,y` is read back as `(x, y)` |
| PygameParser.RustKeysRead | parsers/pygame_parser.py:220 | every key the Rust readers accept is read here as the same cell |
| PygameParser.BlankKeyReadHere | parsers/pygame_parser.py:220 | a key the Rust readers accept, with a blank in front, is skipped by them and read here as the same cell |
| PygameParser.IntOf | parsers/pygame_parser.py:170-177 | a decoded value is usable as an integer exactly when it is an int or a bool, and an int is itself |
| PygameParser.PyStr | parsers/pygame_parser.py:120 | `str()` of a string is itself and of an int its decimal text |
| PygameParser.TilesetItems | parsers/pygame_parser.py:69-73 | a list is enumerated under integer ids in order, a dict gives its items under string ids, and anything else gives nothing |
| PygameParser.StrItems | parsers/pygame_parser.py:71 | `dict.items()` pairs each key, as a string id, with its value, in order |
| PygameParser.Enumerated | parsers/pygame_parser.py:73 | `enumerate` pairs each element with its position as an integer id |
| PygameParser.LoadItem | parsers/pygame_parser.py:75-91 | one tileset registers at most its own id |
| PygameParser.LoadedKeysAreItemKeys | parsers/pygame_parser.py:75-91 | every registered surface belongs to a tileset entry |
| PygameParser.LoadsEditorProject | parsers/pygame_parser.py:50-91 | an editor project is read as a project: its level and tileset list are kept and each tileset whose path opens is registered under its list position, raising nothing |
| PygameParser.Registered | parsers/pygame_parser.py:73-86 | position `start + i` is registered, with that entry's path, exactly when its path opens |
| PygameParser.LoadMetadata | parsers/pygame_parser.py:75-91 | loading editor metadata entries adds exactly the registered surfaces and raises nothing |
| PygameParser.LoadMetadataItem | parsers/pygame_parser.py:77-87 | one editor metadata entry registers its path when it opens and raises nothing |
| PygameParser.MetadataMembers | parsers/pygame_parser.py:77-87 | an editor metadata entry has the `path` and `name` the loader reads |
| PygameParser.LoadsLegacyLevel | parsers/pygame_parser.py:56-62 | a bare level file is taken as the level itself, with no tilesets and no surfaces |
| PygameParser.LevelLayers | parsers/pygame_parser.py:180 | the layers iterated are the level's `layers` list |
| PygameParser.TilesDict | parsers/pygame_parser.py:218-221 | building the dict of positions can only fail with `ValueError` |
| PygameParser.TilesDictFails | parsers/pygame_parser.py:219-221 | building the dict fails exactly when some key does not read as two integers |
| PygameParser.BadKeyRaises | parsers/pygame_parser.py:216-222 | a layer's tiles raise exactly when one of its keys is malformed, and then with `ValueError` |
| PygameParser.TilesDictFresh | parsers/pygame_parser.py:219-221 | keys that read as distinct positions are appended in order, each with its value |
| PygameParser.WrittenLayerTiles | parsers/pygame_parser.py:216-222 | the tiles of a layer written by the editor read back as exactly that layer's tiles |
| PygameParser.EditorLayerTiles | parsers/pygame_parser.py:206-223 | on an editor level, `get_layer_tiles` returns the tiles of the first layer with the name, or an empty dict when none has it |
| PygameParser.FindWrittenLayer | parsers/pygame_parser.py:216-223 | the search over written layers stops at the first layer with the name |
| PygameParser.DictKeys | parsers/pygame_parser.py:257 | `list(tiles.keys())` is the dict's keys, in order |
| PygameParser.EditorCollisionTiles | parsers/pygame_parser.py:246-257 | on an editor level the collision positions list each tile of the named layer once, or are empty when no layer has the name |
| PygameParser.ColorMatches | parsers/pygame_parser.py:240 | a tile without a `Color` member never matches |
| PygameParser.ColorItems | parsers/pygame_parser.py:239-242 | positions are only ever appended |
| PygameParser.ColorLayers | parsers/pygame_parser.py:238-244 | the positions found over all layers extend what was found before |
| PygameParser.WrittenTileMatches | parsers/pygame_parser.py:240 | an editor tile matches a colour exactly when it is that colour |
| PygameParser.EditorColorPositions | parsers/pygame_parser.py:225-244 | on an editor level the result is, layer by layer, an enumeration of the tiles of exactly that colour, as in the Bevy importer |
| PygameParser.Picked | parsers/pygame_parser.py:239-242 | a position is picked exactly when an item at it has that colour |
| PygameParser.PickedDistinct | parsers/pygame_parser.py:239-242 | distinct keys give positions without repeats |
| PygameParser.PickedEnumerates | parsers/pygame_parser.py:239-242 | the positions picked from a written layer enumerate its tiles of that colour |
| PygameParser.TileSource | parsers/pygame_parser.py:93-157 | the tile surface cannot be computed without a level dict |
| PygameParser.TilesetInfo | parsers/pygame_parser.py:127-128 | with a tileset dict the entry is `tilesets.get(id)` |
| PygameParser.CutFrom | parsers/pygame_parser.py:137-151 | a falsy tileset entry gives no surface, and a surface is always cut from the registered image |
| PygameParser.ColorTileSource | parsers/pygame_parser.py:111-115 | a colour tile gives a square of the level's tile size filled with its colour |
| PygameParser.TextureTileSource | parsers/pygame_parser.py:117-151 | a texture tile whose tileset is registered is cut at column `index % tiles_per_row` and row `index // tiles_per_row` of 16-pixel squares |
| PygameParser.SourceSquare | parsers/pygame_parser.py:140-141 | the source square lies in the image's first `tiles_per_row` columns and comes back to the tile index |
| PygameParser.PositionKeysNeverCut | parsers/pygame_parser.py:120-123 | when every surface is registered under an integer position, no texture is ever drawn |
| PygameParser.EditorTexturesNotDrawn | parsers/pygame_parser.py:120-123 | for every editor project, a texture tile gives no surface |
| PygameParser.VisibleSpan | parsers/pygame_parser.py:174-177 | a column is in the drawn range exactly when it is inside the level and its square meets the screen |
| PygameParser.AtLeastFloor | parsers/pygame_parser.py:174 | a column is at least `camera // size` exactly when its right edge is past the camera |
| PygameParser.AtMostFloor | parsers/pygame_parser.py:176 | a column is below `(camera + screen) // size + 1` exactly when its left edge is not past the screen |
| PygameParser.Dimension | parsers/pygame_parser.py:176-177 | a level dimension is its `width` or `height` member read as an integer |
| PygameParser.Window | parsers/pygame_parser.py:170-177 | the window exists exactly when the level is a dict with a non-zero integer tile size and integer sizes, and it is the drawn ranges for the camera and screen |
| PygameParser.DrawCell | parsers/pygame_parser.py:189-204 | a cell draws at most its own tile, at `(x * size - camera_x, y * size - camera_y)` |
| PygameParser.DrawCells | parsers/pygame_parser.py:188-204 | a row extends what was drawn before with cells of that row only |
| PygameParser.DrawRows | parsers/pygame_parser.py:187-204 | the rows extend what was drawn before with cells of the window only |
| PygameParser.DrawLayers | parsers/pygame_parser.py:180-204 | every blit is of a cell in the window, placed where its position says |
| PygameParser.RenderSound | parsers/pygame_parser.py:159-204 | with a positive tile size every blit is of a cell inside the level and lands on the screen or overlaps its edge |
| PygameParser.BlitOnScreen | parsers/pygame_parser.py:174-204 | a blit in the window is inside the level and on the screen |
| PygameParser.AxisOnScreen | parsers/pygame_parser.py:174-197 | along one axis, a drawn cell is inside the level and overlaps the screen |
| PygameParser.RenderComplete | parsers/pygame_parser.py:179-204 | when render finishes, every cell of the window in every visible layer has been drawn |
| PygameParser.LayersComplete | parsers/pygame_parser.py:180-204 | every visible layer's cells in the window appear among the blits |
| PygameParser.RowsComplete | parsers/pygame_parser.py:187-204 | every cell of the window's rows appears among the blits |
| PygameParser.CellsComplete | parsers/pygame_parser.py:188-204 | every cell of a row appears among the blits |
| PygameLoader.EditorLevelLoader.Open | parsers/pygame_parser.py:35-48 | the constructor raises exactly what `_load_project` raises, and otherwise gives a new loader in the loaded state |
| PygameLoader.EditorLevelLoader.LoadProject | parsers/pygame_parser.py:50-62 | the loader's state and the exception raised are those of loading the document |
| PygameLoader.EditorLevelLoader.LoadTilesets | parsers/pygame_parser.py:64-91 | the surfaces registered and the exception raised are those of loading the tileset entries in order; level and tilesets are unchanged |
| PygameLoader.EditorLevelLoader.GetLayerTiles | parsers/pygame_parser.py:206-223 | the result is the first named layer's tiles, and the error that stops the search |
| PygameLoader.EditorLevelLoader.ReadTiles | parsers/pygame_parser.py:218-222 | the dict built is the layer's tiles under their positions |
| PygameLoader.EditorLevelLoader.GetTilesByColor | parsers/pygame_parser.py:225-244 | the positions found are those of the colour search over every layer |
| PygameLoader.EditorLevelLoader.GetCollisionTiles | parsers/pygame_parser.py:246-257 | the positions are the keys of the named layer's tiles |
| PygameLoader.EditorLevelLoader.Render | parsers/pygame_parser.py:159-204 | the blits made, in order, and the exception that stops drawing are those of the render specification |
| PygameLoader.EditorLevelLoader.DrawLayerTiles | parsers/pygame_parser.py:186-204 | the nested loops over one layer draw exactly the rows of the window |
| PygameLoader.EditorLevelLoader.DrawRow | parsers/pygame_parser.py:187-204 | the inner loop draws the cells of one row left to right, or stops at the first cell that raises |
| PygameLoader.EditorLevelLoader.constructor | parsers/pygame_parser.py:42-46 | a new loader has no level, an empty tileset dict and no surfaces |

## Left out

- File and dialog I/O (`std::fs`, `rfd`, `open`, `pygame.image.load`, `Path.exists`): reading a file is an input that either gives the decoded JSON or an error message. Path resolution and image loading are the inputs `opens` and `images`. Writing a file is modelled as the JSON value written.
- The JSON text itself: serde_json's and `json.load`'s lexing, number syntax and error messages are not modelled. When a document has several shape errors, the model does not say which one serde reports.
- Floating point: the editor's zoom and pan, the world-to-grid `floor` and the UV rectangles. `get_tile_uv`, `get_metadata` and `get_all_tilesets` are also left out: they only produce floats and references, so they are not part of this model. The pygame `scale` is fixed at 1.0, and a `tile_size` in the file is read as an integer (a float `tile_size` is not modelled).
- egui drawing and widgets: panels, the canvas painter, the grid, the previews and the notification timer. Mouse state is abstracted as the per-frame `CanvasInput` flags and cell.
- Bevy's ECS systems and bundles (`spawn_level_tiles`, `EditorLevelBundle`, whose `expect` panics on a file that fails to load), and pygame's example `main`.
- Default arguments of the pygame loader are passed explicitly: `get_collision_tiles`'s `layer_name="Main"` is `CollisionTiles`/`GetCollisionTiles` at `name == "Main"`, and `render`'s `camera_x=0, camera_y=0` is `Render`/`RenderSpec` at `camera == (0, 0)`.
- pygame surfaces: `pygame.Surface`, `fill`, `subsurface`, `transform.scale`, `blit` and the `tile_cache`. A surface is the value `Fill` or `Cut` naming what would be drawn. The cache only returns a surface that the same computation already made, so leaving it out changes no result. The `project_file` attribute is not modelled.
- Python details not used by files the editor writes: `repr` of lists and dicts used as tileset ids, and the digit limit of `int()`. The `%` formatting errors (`ValueError` against `TypeError`) are merged.
- Integer widths: coordinates are unbounded integers, and only the key codec checks the `i32` range. Sizes in files are checked against `u32` on load. The `usize` arithmetic in the editor is modelled as unbounded, except for the two underflows listed under Findings.
- Levels.Level.MoveLayerDown: requires at least one layer, because `len() - 1` underflows on an empty list. The handlers only call it with a selected layer.
- Assets.AssetManager.LoadTileset: requires positive tile sizes when the image decodes, because a zero size panics in the division. The menu always passes 16 by 16.
- Ui.FinishProjectLoad: requires positive tile sizes for the tilesets whose image decodes, for the same reason as `LoadTileset`.
- Ui.ReloadTilesets: requires an empty registry, which is what the project-load handler gives it (`AssetManager::new()`).
- Text.PyParseInt: reads ASCII digits only. Python's `int()` also reads every Unicode decimal digit (category Nd), so `int("١")` is 1 where the model raises `ValueError`. Surrounding white space is the full Unicode set.
- PygameParser.KeyPos: inherits that limit, so a key such as `"١,٢"`, which Python reads as (1, 2), raises here.
- PygameParser.TilesDictFails: states failure for keys that fail the ASCII-only `KeyPos`, so it claims `ValueError` for keys written with non-ASCII decimal digits.
- PygameParser.BadKeyRaises: the same limit as `TilesDictFails`.
- The array form of the derived structs is modelled with serde's length rules: a missing element fails, and so does an extra one. The trailing `#[serde(default)]` `tilesets` of the Bevy project may be left out. Only the error kind `InvalidLength` is modelled, not serde's message.
- The name fields of the layer configuration window (src/ui.rs:655-668) assign `layer.name` directly. They have no handler of their own: their effect is that of `Levels.Level.RenameLayer` on an index in range, and their checkboxes are `Ui.SetLayerVisibility`.

## Findings

| source | as written | input that shows it | evidently intended | confidence | as-written member | corrected member |
|---|---|---|---|---|---|---|
| src/ui.rs:13-22 | `parse_hex_color` tests `hex.len()` in bytes and slices `&hex[0..2]` by byte offsets | `"#0é000"`: five characters but six bytes, with byte 2 inside `é`, so the slice panics | text that is not all hex digits is no colour (`None`) | not executed | Ui.AsWrittenPanics | Ui.ParseHexColor |
| src/ui.rs:130 | `1.min(state.level.layers.len() - 1)` subtracts before the minimum | a level or project file with `"layers": []`: `0 - 1` underflows (a panic in a debug build) | select layer 1 when there are two layers, else layer 0 | not executed | Ui.LoadedLayerAgrees | Ui.LoadedCurrentLayer |
