/** The editing engine (src/editor.rs): the editor state, undo and redo over whole-layer
    snapshots, the selection and clipboard, the fill tools and paint/erase, driven one frame
    at a time by an abstract input record. Drawing, zoom and panning are not modelled. */
module Editor {
  import opened Text
  import opened Levels
  import opened EditorHistory
  import opened Regions
  import opened Assets
  import LevelFiles

  datatype Tool = Paint | Erase | Select | LineFill | RectFill

  /** What the paint tool writes. */
  datatype PaintMode = ColorTile(rgb: Rgb) | TextureTile(tilesetId: nat, tileIndex: nat)
  {
    function Tile(): TileData
    {
      match this
      case ColorTile(c) => Color(c)
      case TextureTile(s, i) => Texture(s, i)
    }
  }

  /** The two corners of a selection or the anchor of a fill, and whether a selection is
      active (`SelectionData`). */
  datatype Selection = Selection(start: Option<Pos>, end: Option<Pos>, isActive: bool)

  const NoSelection: Selection := Selection(None, None, false)

  /** The copied tiles with their offsets from the copied rectangle's corner (`SelectionContent`). */
  datatype Clipboard = Clipboard(tiles: seq<(Pos, TileData)>, origin: Pos, width: int, height: int)

  /** The messages `show_notification` displays; their three-second timer is not modelled. */
  datatype Notice =
    | Undone | NothingToUndo | Redone | NothingToRedo
    | Copied(count: int) | NoActiveSelection | Pasted(pastedCount: nat) | ClipboardEmpty
    | Deleted(count: int) | Selected(count: int) | Filled(count: int, line: bool)
    | LevelLoaded(levelLayers: nat, tileCount: nat) | ProjectLoaded(projectLayers: nat, tilesetsLoaded: nat)
    | ProjectPartlyLoaded(loaded: nat, total: nat) | LoadFailed(reason: LevelFiles.LoadError)

  /** One frame of input to the canvas. `tileX`/`tileY` is the hovered cell; the button
      flags are egui's `clicked_by`/`dragged_by` for each button, `clicked`, `dragged` and
      `drag_stopped` of the canvas response, and the key flags are the shortcuts pressed. */
  datatype CanvasInput = CanvasInput(
    undoKey: bool, redoKey: bool, copyKey: bool, deleteKey: bool, escapeKey: bool, pasteKey: bool,
    hovered: bool, tileX: int, tileY: int,
    primaryClicked: bool, secondaryClicked: bool, primaryDragged: bool, secondaryDragged: bool,
    clicked: bool, dragged: bool, dragStopped: bool)
  {
    function Cell(): Pos { (tileX, tileY) }
    predicate Primary() { primaryDragged || primaryClicked }
    predicate Secondary() { secondaryDragged || secondaryClicked }
  }

  /** The part of the editor state the engine reads and writes. */
  datatype EditorModel = EditorModel(
    layers: seq<Layer>, currentLayer: nat, selection: Selection, clipboard: Option<Clipboard>,
    lastPainted: Option<Pos>, notification: Option<Notice>, history: HistoryModel)

  function Snap(m: EditorModel): Snapshot { Snapshot(m.layers, m.currentLayer) }

  /** Replaces the current layer, which must exist. */
  function WithCurrent(m: EditorModel, l: Layer): EditorModel
    requires m.currentLayer < |m.layers|
  {
    m.(layers := m.layers[m.currentLayer := l])
  }

  // ---------------------------------------------------------------------------
  // The operations, as functions of the state

  /** Writes `t` over the rectangle `r` of the current layer and shows `notice`, when the
      current layer exists; otherwise nothing changes. */
  function OverwriteCurrent(m: EditorModel, r: Rect, t: TileData, notice: Notice): EditorModel
  {
    if m.currentLayer < |m.layers| then
      var l := m.layers[m.currentLayer];
      WithCurrent(m, l.(tiles := Overwrite(l.tiles, r, t))).(notification := Some(notice))
    else m
  }

  /** `save_history`: the current layers and index go on the undo stack. */
  function AfterSave(m: EditorModel): EditorModel
  {
    m.(history := m.history.Record(Snap(m)))
  }

  function AfterUndo(m: EditorModel): EditorModel
  {
    match Top(m.history.undo)
    case None => m.(notification := Some(NothingToUndo))
    case Some(s) =>
      m.(layers := s.layers, currentLayer := s.currentLayer,
         history := m.history.PopUndo().PushRedo(Snap(m)), notification := Some(Undone))
  }

  /** `redo` puts the current state back through `History::push`, which also empties the
      redo stack. */
  function AfterRedo(m: EditorModel): EditorModel
  {
    match Top(m.history.redo)
    case None => m.(notification := Some(NothingToRedo))
    case Some(s) =>
      m.(layers := s.layers, currentLayer := s.currentLayer,
         history := m.history.PopRedo().Record(Snap(m)), notification := Some(Redone))
  }

  function AfterCopy(m: EditorModel): EditorModel
  {
    if !m.selection.isActive then m.(notification := Some(NoActiveSelection))
    else if m.selection.start.None? || m.selection.end.None? then m
    else
      var r := Bounds(m.selection.start.value, m.selection.end.value);
      var tiles := if m.currentLayer < |m.layers| then CopiedTiles(m.layers[m.currentLayer].tiles, r) else [];
      m.(clipboard := Some(Clipboard(tiles, (r.minX, r.minY), r.Width(), r.Height())),
         notification := Some(Copied(r.Area())))
  }

  function AfterPaste(m: EditorModel, at: Pos): EditorModel
  {
    match m.clipboard
    case None => m.(notification := Some(ClipboardEmpty))
    case Some(c) =>
      var saved := AfterSave(m);
      var pasted := if saved.currentLayer < |saved.layers|
                    then WithCurrent(saved, PasteAll(saved.layers[saved.currentLayer], c.tiles, at))
                    else saved;
      pasted.(notification := Some(Pasted(|c.tiles|)))
  }

  function AfterDelete(m: EditorModel): EditorModel
  {
    if !m.selection.isActive then m.(notification := Some(NoActiveSelection))
    else if m.selection.start.None? || m.selection.end.None? then m
    else
      var r := Bounds(m.selection.start.value, m.selection.end.value);
      OverwriteCurrent(AfterSave(m), r, TileData.Empty(), Deleted(r.Area())).(selection := NoSelection)
  }

  /** The keyboard shortcuts, in the order the frame handles them. */
  function AfterKeys(m: EditorModel, inp: CanvasInput): EditorModel
  {
    var m1 := if inp.undoKey then AfterUndo(m) else m;
    var m2 := if inp.redoKey then AfterRedo(m1) else m1;
    var m3 := if inp.copyKey then AfterCopy(m2) else m2;
    var m4 := if inp.deleteKey then AfterDelete(m3) else m3;
    if inp.escapeKey then m4.(selection := NoSelection) else m4
  }

  /** The Select tool on the hovered cell. */
  function AfterSelect(m: EditorModel, inp: CanvasInput): EditorModel
  {
    var at := inp.Cell();
    if inp.pasteKey && m.clipboard.Some? then AfterPaste(m, at)
    else if inp.primaryClicked then m.(selection := Selection(Some(at), Some(at), false))
    else if inp.dragged && m.selection.start.Some? then m.(selection := m.selection.(end := Some(at)))
    else if inp.dragStopped && m.selection.start.Some? then
      m.(selection := m.selection.(end := Some(at), isActive := true),
         notification := Some(Selected(Bounds(m.selection.start.value, at).Area())))
    else if inp.secondaryClicked then m.(selection := NoSelection)
    else m
  }

  /** LineFill (`line`) or RectFill on the hovered cell: the first primary click sets the
      anchor, the second fills and forgets it; a secondary click forgets it. */
  function AfterFill(m: EditorModel, line: bool, paint: PaintMode, inp: CanvasInput): EditorModel
  {
    var at := inp.Cell();
    if inp.primaryClicked then
      if m.selection.start.None? then m.(selection := m.selection.(start := Some(at)))
      else
        var r := FillTarget(line, m.selection.start.value, at);
        var filled := OverwriteCurrent(AfterSave(m), r, paint.Tile(), Filled(r.Area(), line));
        filled.(selection := filled.selection.(start := None, end := None))
    else if inp.secondaryClicked then m.(selection := m.selection.(start := None, end := None))
    else m
  }

  /** Paint and Erase on the hovered cell. The Erase tool swaps the buttons' roles, erasing
      wins when both are down, and a cell already painted during this stroke is skipped. */
  function AfterPaint(m: EditorModel, tool: Tool, paint: PaintMode, inp: CanvasInput): EditorModel
  {
    if m.lastPainted == Some(inp.Cell()) then m
    else PaintCell(StrokeStart(m, inp), tool, paint, inp).(lastPainted := Some(inp.Cell()))
  }

  /** The first click of a stroke saves the history. */
  function StrokeStart(m: EditorModel, inp: CanvasInput): EditorModel
  {
    if inp.clicked && m.lastPainted.None? then AfterSave(m) else m
  }

  /** Erasing or painting the hovered cell of the current layer, if it exists. */
  function PaintCell(m: EditorModel, tool: Tool, paint: PaintMode, inp: CanvasInput): EditorModel
  {
    var erase := if tool == Erase then inp.Primary() else inp.Secondary();
    var draw := if tool == Erase then inp.Secondary() else inp.Primary();
    if m.currentLayer < |m.layers| && (erase || (draw && tool != Select)) then
      var l := m.layers[m.currentLayer];
      WithCurrent(m, l.SetTile(inp.tileX, inp.tileY, if erase then TileData.Empty() else paint.Tile()))
    else m
  }

  /** The tool branch, which runs only while the cursor is over the canvas. */
  function AfterTool(m: EditorModel, tool: Tool, paint: PaintMode, inp: CanvasInput): EditorModel
  {
    if tool == Select then AfterSelect(m, inp)
    else if tool == LineFill || tool == RectFill then AfterFill(m, tool == LineFill, paint, inp)
    else if inp.Primary() || inp.Secondary() then AfterPaint(m, tool, paint, inp)
    else m
  }

  /** One frame of `draw_canvas`: shortcuts, then the tool if hovered, then the end of a drag
      ends the paint stroke. */
  function AfterFrame(m: EditorModel, tool: Tool, paint: PaintMode, inp: CanvasInput): EditorModel
  {
    var keyed := AfterKeys(m, inp);
    var tooled := if inp.hovered then AfterTool(keyed, tool, paint, inp) else keyed;
    if inp.dragStopped then tooled.(lastPainted := None) else tooled
  }

  // ---------------------------------------------------------------------------
  // The editor object

  const NewLevelLayers: seq<Layer> := [Layer.New("Background"), Layer.New("Main"), Layer.New("Foreground")]

  class EditorState {
    var level: Level
    var currentTool: Tool
    var paintMode: PaintMode
    var currentLayer: nat
    var showGrid: bool
    var lastPainted: Option<Pos>
    const assets: AssetManager
    var selectedTileset: Option<nat>
    var selectedColor: Rgb
    var colorHexInput: string
    var notification: Option<Notice>
    var lastLoadedFile: Option<string>
    var showLayerConfig: bool
    var selection: Selection
    const history: History
    var clipboard: Option<Clipboard>

    predicate Valid()
      reads history, assets
    {
      history.Valid() && assets.Valid()
    }

    function Model(): EditorModel
      reads this, level, history
    {
      EditorModel(level.layers, currentLayer, selection, clipboard, lastPainted, notification, history.Model())
    }

    /** A fresh editor: a 64x48 level of 16-pixel tiles named "Nouveau Niveau" with its three
        default layers, the middle one selected, brown paint, an empty 50-step history. */
    constructor ()
      ensures Valid() && fresh(level) && fresh(history) && fresh(assets)
      ensures level.Data() == LevelData("Nouveau Niveau", 64, 48, 16, NewLevelLayers)
      ensures Model() == EditorModel(NewLevelLayers, 1, NoSelection, None, None, None, HistoryModel([], [], MaxHistory))
      ensures currentTool == Paint && paintMode == ColorTile(Rgb(139, 69, 19)) && showGrid
      ensures selectedColor == Rgb(139, 69, 19) && colorHexInput == "#8B4513"
      ensures assets.tilesets == [] && assets.tilesetCounter == 0 && selectedTileset == None
      ensures lastLoadedFile == None && !showLayerConfig
    {
      level := new Level("Nouveau Niveau", 64, 48, 16);
      currentTool := Paint;
      paintMode := ColorTile(Rgb(139, 69, 19));
      currentLayer := 1;
      showGrid := true;
      lastPainted := None;
      assets := new AssetManager();
      selectedTileset := None;
      selectedColor := Rgb(139, 69, 19);
      colorHexInput := "#8B4513";
      notification := None;
      lastLoadedFile := None;
      showLayerConfig := false;
      selection := NoSelection;
      history := new History(MaxHistory);
      clipboard := None;
    }

    method SaveHistory()
      requires Valid()
      modifies history
      ensures Valid() && Model() == AfterSave(old(Model()))
    {
      history.Push(Snapshot(level.layers, currentLayer));
    }

    method Undo()
      requires Valid()
      modifies this`currentLayer, this`notification, level`layers, history
      ensures Valid() && Model() == AfterUndo(old(Model()))
    {
      var previous := history.Undo();
      match previous
      case Some(s) =>
        history.PushRedo(Snapshot(level.layers, currentLayer));
        level.layers := s.layers;
        currentLayer := s.currentLayer;
        notification := Some(Undone);
      case None =>
        notification := Some(NothingToUndo);
    }

    method Redo()
      requires Valid()
      modifies this`currentLayer, this`notification, level`layers, history
      ensures Valid() && Model() == AfterRedo(old(Model()))
    {
      var next := history.Redo();
      match next
      case Some(s) =>
        history.Push(Snapshot(level.layers, currentLayer));
        level.layers := s.layers;
        currentLayer := s.currentLayer;
        notification := Some(Redone);
      case None =>
        notification := Some(NothingToRedo);
    }

    method CopySelection()
      requires Valid()
      modifies this`clipboard, this`notification
      ensures Valid() && Model() == AfterCopy(old(Model()))
    {
      if selection.isActive {
        if selection.start.Some? && selection.end.Some? {
          var r := Bounds(selection.start.value, selection.end.value);
          var tiles: seq<(Pos, TileData)> := [];
          if currentLayer < |level.layers| {
            tiles := CollectRect(level.layers[currentLayer].tiles, r);
          }
          clipboard := Some(Clipboard(tiles, (r.minX, r.minY), r.Width(), r.Height()));
          notification := Some(Copied(r.Area()));
        }
      } else {
        notification := Some(NoActiveSelection);
      }
    }

    method PasteSelection(pasteX: int, pasteY: int)
      requires Valid()
      modifies this`notification, level`layers, history
      ensures Valid() && Model() == AfterPaste(old(Model()), (pasteX, pasteY))
    {
      match clipboard
      case Some(c) =>
        SaveHistory();
        if currentLayer < |level.layers| {
          var pasted := PasteLoop(level.layers[currentLayer], c.tiles, (pasteX, pasteY));
          level.layers := level.layers[currentLayer := pasted];
        }
        notification := Some(Pasted(|c.tiles|));
      case None =>
        notification := Some(ClipboardEmpty);
    }

    method DeleteSelection()
      requires Valid()
      modifies this`selection, this`notification, level`layers, history
      ensures Valid() && Model() == AfterDelete(old(Model()))
    {
      if selection.isActive {
        if selection.start.Some? && selection.end.Some? {
          SaveHistory();
          ghost var saved := Model();
          var r := Bounds(selection.start.value, selection.end.value);
          if currentLayer < |level.layers| {
            var erased := WriteRect(level.layers[currentLayer], r, TileData.Empty());
            level.layers := level.layers[currentLayer := erased];
            notification := Some(Deleted(r.Area()));
          }
          assert Model() == OverwriteCurrent(saved, r, TileData.Empty(), Deleted(r.Area()));
          selection := NoSelection;
        }
      } else {
        notification := Some(NoActiveSelection);
      }
    }

    method HandleKeys(inp: CanvasInput)
      requires Valid()
      modifies this`currentLayer, this`selection, this`clipboard, this`notification, level`layers, history
      ensures Valid() && Model() == AfterKeys(old(Model()), inp)
    {
      if inp.undoKey { Undo(); }
      if inp.redoKey { Redo(); }
      if inp.copyKey { CopySelection(); }
      if inp.deleteKey { DeleteSelection(); }
      if inp.escapeKey {
        selection := selection.(start := None);
        selection := selection.(end := None);
        selection := selection.(isActive := false);
      }
    }

    method SelectTool(inp: CanvasInput)
      requires Valid()
      modifies this`selection, this`notification, level`layers, history
      ensures Valid() && Model() == AfterSelect(old(Model()), inp)
    {
      var at := (inp.tileX, inp.tileY);
      if inp.pasteKey && clipboard.Some? {
        PasteSelection(inp.tileX, inp.tileY);
      } else if inp.primaryClicked {
        selection := Selection(Some(at), Some(at), false);
      } else if inp.dragged && selection.start.Some? {
        selection := selection.(end := Some(at));
      } else if inp.dragStopped && selection.start.Some? {
        selection := selection.(end := Some(at), isActive := true);
        var start := selection.start.value;
        notification := Some(Selected((Abs(start.0 - at.0) + 1) * (Abs(start.1 - at.1) + 1)));
      } else if inp.secondaryClicked {
        selection := NoSelection;
      }
    }

    method FillTool(inp: CanvasInput)
      requires Valid() && (currentTool == LineFill || currentTool == RectFill)
      modifies this`selection, this`notification, level`layers, history
      ensures Valid() && Model() == AfterFill(old(Model()), currentTool == LineFill, paintMode, inp)
    {
      var at := (inp.tileX, inp.tileY);
      if inp.primaryClicked {
        if selection.start.None? {
          selection := selection.(start := Some(at));
        } else {
          var start := selection.start.value;
          SaveHistory();
          ghost var saved := Model();
          var r := FillTarget(currentTool == LineFill, start, at);
          if currentLayer < |level.layers| {
            var filled := WriteRect(level.layers[currentLayer], r, paintMode.Tile());
            level.layers := level.layers[currentLayer := filled];
            notification := Some(Filled(r.Area(), currentTool == LineFill));
          }
          assert Model() == OverwriteCurrent(saved, r, paintMode.Tile(), Filled(r.Area(), currentTool == LineFill));
          selection := selection.(start := None, end := None);
        }
      } else if inp.secondaryClicked {
        selection := selection.(start := None, end := None);
      }
    }

    method PaintTool(inp: CanvasInput)
      requires Valid()
      modifies this`lastPainted, level`layers, history
      ensures Valid() && Model() == AfterPaint(old(Model()), currentTool, paintMode, inp)
    {
      var at := (inp.tileX, inp.tileY);
      if lastPainted != Some(at) {
        if inp.clicked && lastPainted.None? {
          SaveHistory();
        }
        PaintHovered(inp);
        lastPainted := Some(at);
      }
    }

    /** Erases or paints the hovered cell of the current layer, as the tool and the buttons
        say. */
    method PaintHovered(inp: CanvasInput)
      requires Valid()
      modifies level`layers
      ensures Valid() && Model() == PaintCell(old(Model()), currentTool, paintMode, inp)
    {
      var at := (inp.tileX, inp.tileY);
      if currentLayer < |level.layers| {
        var primary := inp.primaryDragged || inp.primaryClicked;
        var secondary := inp.secondaryDragged || inp.secondaryClicked;
        var shouldErase := if currentTool == Erase then primary else secondary;
        var shouldPaint := if currentTool == Erase then secondary else primary;
        if shouldErase {
          level.layers := level.layers[currentLayer := level.layers[currentLayer].SetTile(at.0, at.1, TileData.Empty())];
        } else if shouldPaint && currentTool != Select {
          level.layers := level.layers[currentLayer := level.layers[currentLayer].SetTile(at.0, at.1, paintMode.Tile())];
        }
      }
    }

    /** The input handling of one `draw_canvas` frame. */
    method DrawCanvas(inp: CanvasInput)
      requires Valid()
      modifies this`currentLayer, this`selection, this`clipboard, this`lastPainted, this`notification, level`layers, history
      ensures Valid() && Model() == AfterFrame(old(Model()), currentTool, paintMode, inp)
    {
      HandleKeys(inp);
      if inp.hovered {
        if currentTool == Select {
          SelectTool(inp);
        } else if currentTool == LineFill || currentTool == RectFill {
          FillTool(inp);
        } else if (inp.primaryDragged || inp.primaryClicked) || (inp.secondaryDragged || inp.secondaryClicked) {
          PaintTool(inp);
        }
      }
      if inp.dragStopped {
        lastPainted := None;
      }
    }

    function CanUndo(): (b: bool)
      reads this, history
      ensures b <==> Top(Model().history.undo).Some?
    {
      history.CanUndo()
    }

    function CanRedo(): (b: bool)
      reads this, history
      ensures b <==> Top(Model().history.redo).Some?
    {
      history.CanRedo()
    }
  }

  // ---------------------------------------------------------------------------
  // Properties of the engine

  /** Undo puts back the snapshot on top of the undo stack and keeps the replaced state
      on top of the redo stack; with nothing to undo only the notice changes. */
  lemma UndoRestores(m: EditorModel)
    ensures var u := AfterUndo(m);
            match Top(m.history.undo)
            case Some(s) => u.layers == s.layers && u.currentLayer == s.currentLayer
                            && Top(u.history.redo) == Some(Snap(m)) && |u.history.undo| == |m.history.undo| - 1
            case None => u == m.(notification := Some(NothingToUndo))
  {
  }

  /** Redo puts back the snapshot on top of the redo stack and keeps the replaced state on
      top of the undo stack; with nothing to redo only the notice changes. */
  lemma RedoRestores(m: EditorModel)
    ensures var r := AfterRedo(m);
            match Top(m.history.redo)
            case Some(s) => r.layers == s.layers && r.currentLayer == s.currentLayer
                            && Top(r.history.undo) == Some(Snap(m)) && r.history.redo == []
            case None => r == m.(notification := Some(NothingToRedo))
  {
  }

  /** An edit that saved the history first is reverted by one undo. */
  lemma UndoRevertsEdit(m: EditorModel, edited: EditorModel)
    requires edited.history == AfterSave(m).history
    ensures AfterUndo(edited).layers == m.layers && AfterUndo(edited).currentLayer == m.currentLayer
    ensures Top(AfterUndo(edited).history.redo) == Some(Snap(edited))
  {
    assert Top(edited.history.undo) == Some(Snap(m));
    UndoRestores(edited);
  }

  /** Undo followed by redo gives back the layers, the selected layer and the undo stack of
      a bounded history, and leaves nothing to redo. */
  lemma UndoThenRedo(m: EditorModel)
    requires m.history.Bounded() && Top(m.history.undo).Some?
    ensures var r := AfterRedo(AfterUndo(m));
            r.layers == m.layers && r.currentLayer == m.currentLayer
            && r.history.undo == m.history.undo && r.history.redo == []
  {
    var n := |m.history.undo|;
    assert m.history.undo[..n - 1] + [m.history.undo[n - 1]] == m.history.undo;
  }

  /** Redo stores the state it replaces with `History::push`, which empties the redo stack:
      after two undos, the second redo finds nothing to redo. */
  lemma SecondRedoFindsNothing(m: EditorModel)
    requires Top(m.history.redo).Some?
    ensures AfterRedo(m).history.redo == []
    ensures var twice := AfterRedo(AfterRedo(m));
            twice.notification == Some(NothingToRedo) && twice.layers == AfterRedo(m).layers
  {
  }

  /** A concrete run: after two recorded edits, two undos followed by two redos bring back
      only the state before the second edit; the second redo finds nothing. */
  lemma TwoUndosTwoRedos(m: EditorModel, s0: Snapshot, s1: Snapshot)
    requires m.history == HistoryModel([s0, s1], [], MaxHistory)
    ensures var back := AfterRedo(AfterRedo(AfterUndo(AfterUndo(m))));
            Snap(back) == s1 && back.notification == Some(NothingToRedo)
  {
    UndoRestores(m);
    var u1 := AfterUndo(m);
    assert [s0, s1][..1] == [s0];
    assert u1.history.undo == [s0];
    UndoRestores(u1);
    var u2 := AfterUndo(u1);
    RedoRestores(u2);
    var r1 := AfterRedo(u2);
    RedoRestores(r1);
  }



  /** The clipboard holds, at each offset, the painted tile of the matching cell of the
      selected rectangle on the current layer, and the notice counts the rectangle's cells. */
  lemma CopyHoldsSelection(m: EditorModel, rel: Pos)
    requires m.selection.isActive && m.selection.start.Some? && m.selection.end.Some?
    requires m.currentLayer < |m.layers|
    ensures var r := Bounds(m.selection.start.value, m.selection.end.value);
            var c := AfterCopy(m);
            var src := m.layers[m.currentLayer].tiles;
            var p := Source(r, rel);
            c.clipboard.Some? && c.clipboard.value.origin == (r.minX, r.minY)
            && LastAt(c.clipboard.value.tiles, rel) ==
                 (if r.Contains(p) && p in src && !src[p].IsEmpty() then Some(src[p]) else None)
            && c.notification == Some(Copied(r.Area())) && c.layers == m.layers && c.history == m.history
  {
    CopiedTilesAt(m.layers[m.currentLayer].tiles, Bounds(m.selection.start.value, m.selection.end.value), rel);
  }

  /** Cell `q` of `out`, a copy of the layer tiles `before` with the painted cells of `r`
      pasted with their corner at `at`: a pasted tile where one lands, `before`'s cell
      otherwise. */
  predicate PastedCellOf(before: map<Pos, TileData>, out: map<Pos, TileData>, r: Rect, at: Pos, q: Pos)
  {
    var p := (q.0 - at.0 + r.minX, q.1 - at.1 + r.minY);
    if r.Contains(p) && p in before && !before[p].IsEmpty() then q in out && out[q] == before[p]
    else (q in out <==> q in before) && (q in out ==> out[q] == before[q])
  }

  /** Pasting what was just copied reports one tile per painted cell of the selection: the
      copy takes each of them once, under an offset of its own. */
  lemma PasteCountsSelection(m: EditorModel, at: Pos)
    requires m.selection.isActive && m.selection.start.Some? && m.selection.end.Some?
    requires m.currentLayer < |m.layers|
    ensures var r := Bounds(m.selection.start.value, m.selection.end.value);
            AfterPaste(AfterCopy(m), at).notification
              == Some(Pasted(|SelectedCells(m.layers[m.currentLayer].tiles, r)|))
  {
    CopiedTilesOnce(m.layers[m.currentLayer].tiles, Bounds(m.selection.start.value, m.selection.end.value));
  }

  /** Copy then paste with the corner at `at`: each painted cell of the selection reappears
      shifted by `at` minus the corner, and every other cell of the current layer keeps its
      tile (the other layers are `CopyPasteLayers`). */
  lemma CopyThenPasteInEditor(m: EditorModel, at: Pos, q: Pos)
    requires m.selection.isActive && m.selection.start.Some? && m.selection.end.Some?
    requires m.currentLayer < |m.layers|
    ensures PastedCellOf(m.layers[m.currentLayer].tiles, AfterPaste(AfterCopy(m), at).layers[m.currentLayer].tiles,
                         Bounds(m.selection.start.value, m.selection.end.value), at, q)
  {
    var l := m.layers[m.currentLayer];
    var r := Bounds(m.selection.start.value, m.selection.end.value);
    PasteCurrentTiles(m, at);
    PastedCell(l, r, at, q);
  }

  /** Copy then paste replaces the current layer by the pasted one and leaves the other
      layers alone, and one undo brings the layers back. */
  lemma CopyPasteLayers(m: EditorModel, at: Pos)
    requires m.selection.isActive && m.selection.start.Some? && m.selection.end.Some?
    requires m.currentLayer < |m.layers|
    ensures var r := Bounds(m.selection.start.value, m.selection.end.value);
            var l := m.layers[m.currentLayer];
            var after := AfterPaste(AfterCopy(m), at);
            && after.layers == m.layers[m.currentLayer := PasteAll(l, CopiedTiles(l.tiles, r), at)]
            && AfterUndo(after).layers == m.layers
  {
    var l := m.layers[m.currentLayer];
    var r := Bounds(m.selection.start.value, m.selection.end.value);
    var c := AfterCopy(m);
    var tiles := CopiedTiles(l.tiles, r);
    assert c.clipboard == Some(Clipboard(tiles, (r.minX, r.minY), r.Width(), r.Height()));
    assert c.layers == m.layers && c.currentLayer == m.currentLayer;
    PasteShape(c, at, tiles);
  }

  /** After copy then paste, the current layer holds the pasted tiles. */
  lemma PasteCurrentTiles(m: EditorModel, at: Pos)
    requires m.selection.isActive && m.selection.start.Some? && m.selection.end.Some?
    requires m.currentLayer < |m.layers|
    ensures var r := Bounds(m.selection.start.value, m.selection.end.value);
            var l := m.layers[m.currentLayer];
            AfterPaste(AfterCopy(m), at).layers[m.currentLayer].tiles == PasteAll(l, CopiedTiles(l.tiles, r), at).tiles
  {
    CopyPasteLayers(m, at);
  }

  /** One cell of a layer after pasting the tiles copied from a rectangle of it. */
  lemma PastedCell(l: Layer, r: Rect, at: Pos, q: Pos)
    ensures PastedCellOf(l.tiles, PasteAll(l, CopiedTiles(l.tiles, r), at).tiles, r, at, q)
  {
    CopyThenPaste(l.tiles, r, l, at, q);
  }

  /** Pasting a clipboard writes its entries on the current layer only, after saving the
      layers it replaces on the undo stack. */
  lemma PasteShape(m: EditorModel, at: Pos, tiles: seq<(Pos, TileData)>)
    requires m.clipboard.Some? && m.clipboard.value.tiles == tiles && m.currentLayer < |m.layers|
    ensures var after := AfterPaste(m, at);
            && after.layers == m.layers[m.currentLayer := PasteAll(m.layers[m.currentLayer], tiles, at)]
            && AfterUndo(after).layers == m.layers
  {
    var after := AfterPaste(m, at);
    assert after.history.undo == PushBounded(m.history.undo, Snap(m), m.history.maxSize);
    assert Top(after.history.undo) == Some(Snap(m));
  }

  /** Delete empties every cell of the selected rectangle on the current layer, keeps the
      rest, drops the selection and can be undone. */
  lemma DeleteClearsSelection(m: EditorModel, q: Pos)
    requires m.selection.isActive && m.selection.start.Some? && m.selection.end.Some?
    requires m.currentLayer < |m.layers|
    ensures var r := Bounds(m.selection.start.value, m.selection.end.value);
            var d := AfterDelete(m);
            var before := m.layers[m.currentLayer].tiles;
            var out := d.layers[m.currentLayer].tiles;
            |d.layers| == |m.layers| && d.selection == NoSelection
            && (r.Contains(q) ==> q !in out)
            && (!r.Contains(q) ==> (q in out <==> q in before) && (q in out ==> out[q] == before[q]))
            && d.notification == Some(Deleted(r.Area()))
            && AfterUndo(d).layers == m.layers
  {
  }

  /** The second click of a fill tool writes the paint tile on every cell of the target
      (a row or column through the anchor for a line, the spanned rectangle otherwise) and
      nowhere else, and forgets the anchor. */
  lemma FillWritesTarget(m: EditorModel, line: bool, paint: PaintMode, inp: CanvasInput, q: Pos)
    requires inp.primaryClicked && m.selection.start.Some? && m.currentLayer < |m.layers|
    ensures var r := FillTarget(line, m.selection.start.value, inp.Cell());
            var f := AfterFill(m, line, paint, inp);
            var before := m.layers[m.currentLayer].tiles;
            var out := f.layers[m.currentLayer].tiles;
            |f.layers| == |m.layers| && f.selection.start == None && f.selection.end == None
            && (r.Contains(q) && !paint.Tile().IsEmpty() ==> q in out && out[q] == paint.Tile())
            && (!r.Contains(q) ==> (q in out <==> q in before) && (q in out ==> out[q] == before[q]))
            && (line && r.Contains(q) ==> q.0 == m.selection.start.value.0 || q.1 == m.selection.start.value.1)
            && AfterUndo(f).layers == m.layers
  {
    if line && FillTarget(line, m.selection.start.value, inp.Cell()).Contains(q) {
      LineStaysOnAxis(m.selection.start.value, inp.Cell(), q);
    }
  }

  /** The first click of a fill tool only records the anchor. */
  lemma FillFirstClickAnchors(m: EditorModel, line: bool, paint: PaintMode, inp: CanvasInput)
    requires inp.primaryClicked && m.selection.start.None?
    ensures AfterFill(m, line, paint, inp) == m.(selection := m.selection.(start := Some(inp.Cell())))
  {
  }

  /** A cell already painted during the current stroke is not written again. */
  lemma PaintSkipsSameCell(m: EditorModel, tool: Tool, paint: PaintMode, inp: CanvasInput)
    requires m.lastPainted == Some(inp.Cell())
    ensures AfterPaint(m, tool, paint, inp) == m
  {
  }

  /** A stroke saves the history only on its first click. */
  lemma StrokeSavesOnce(m: EditorModel, tool: Tool, paint: PaintMode, inp: CanvasInput)
    ensures AfterPaint(m, tool, paint, inp).history ==
              if m.lastPainted != Some(inp.Cell()) && inp.clicked && m.lastPainted.None?
              then m.history.Record(Snap(m)) else m.history
  {
  }

  /** The Erase tool erases with the primary button and paints with the secondary one;
      every other tool does the opposite; erasing wins when both buttons are down. */
  lemma PaintButtons(m: EditorModel, tool: Tool, paint: PaintMode, inp: CanvasInput)
    requires m.lastPainted != Some(inp.Cell()) && m.currentLayer < |m.layers| && tool != Select
    ensures var out := AfterPaint(m, tool, paint, inp).layers[m.currentLayer];
            var erase := if tool == Erase then inp.Primary() else inp.Secondary();
            var draw := if tool == Erase then inp.Secondary() else inp.Primary();
            (erase ==> out.GetTile(inp.tileX, inp.tileY).IsEmpty())
            && (!erase && draw ==> out.GetTile(inp.tileX, inp.tileY) == paint.Tile())
            && (!erase && !draw ==> out == m.layers[m.currentLayer])
            && AfterPaint(m, tool, paint, inp).lastPainted == Some(inp.Cell())
  {
    var at := inp.Cell();
    var l := m.layers[m.currentLayer];
    GetAfterSet(l, at.0, at.1, TileData.Empty(), at);
    GetAfterSet(l, at.0, at.1, paint.Tile(), at);
  }

  /** Escape drops the selection the same way a secondary click with the Select tool does. */
  lemma EscapeIsSecondaryClick(m: EditorModel, inp: CanvasInput)
    requires inp.escapeKey && !inp.undoKey && !inp.redoKey && !inp.copyKey && !inp.deleteKey
    requires inp.secondaryClicked && !inp.primaryClicked && !inp.dragged && !inp.dragStopped
    requires !(inp.pasteKey && m.clipboard.Some?)
    ensures AfterKeys(m, inp) == AfterSelect(m, inp)
  {
  }

  /** A frame without shortcuts, hovering or drag end changes nothing. */
  lemma IdleFrame(m: EditorModel, tool: Tool, paint: PaintMode, inp: CanvasInput)
    requires !inp.undoKey && !inp.redoKey && !inp.copyKey && !inp.deleteKey && !inp.escapeKey
    requires !inp.hovered && !inp.dragStopped
    ensures AfterFrame(m, tool, paint, inp) == m
  {
  }

  /** The end of a drag always ends the paint stroke, even off the canvas. */
  lemma DragEndEndsStroke(m: EditorModel, tool: Tool, paint: PaintMode, inp: CanvasInput)
    requires inp.dragStopped
    ensures AfterFrame(m, tool, paint, inp).lastPainted == None
  {
  }
}
