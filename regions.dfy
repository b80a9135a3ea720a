/** The rectangle arithmetic and the tile loops of the editor's selection, clipboard and
    fill tools (src/editor.rs): bounding boxes, fill targets, writing one tile over a
    rectangle, collecting a rectangle's tiles, and pasting a clipboard. */
module Regions {
  import opened Text
  import opened Levels

  /** An inclusive rectangle of cells, `min_x..=max_x` by `min_y..=max_y`. */
  datatype Rect = Rect(minX: int, maxX: int, minY: int, maxY: int)
  {
    predicate Contains(p: Pos) { minX <= p.0 <= maxX && minY <= p.1 <= maxY }
    predicate NonEmpty() { minX <= maxX && minY <= maxY }
    function Width(): int { maxX - minX + 1 }
    function Height(): int { maxY - minY + 1 }
    function Area(): int { Width() * Height() }
  }

  /** The normalised inclusive rectangle spanned by two corners. */
  function Bounds(a: Pos, b: Pos): (r: Rect)
    ensures r.NonEmpty() && r.Contains(a) && r.Contains(b)
    ensures (r.minX == a.0 || r.minX == b.0) && (r.maxX == a.0 || r.maxX == b.0)
    ensures (r.minY == a.1 || r.minY == b.1) && (r.maxY == a.1 || r.maxY == b.1)
    ensures r.Width() == Abs(a.0 - b.0) + 1 && r.Height() == Abs(a.1 - b.1) + 1
  {
    Rect(if a.0 <= b.0 then a.0 else b.0, if a.0 <= b.0 then b.0 else a.0,
         if a.1 <= b.1 then a.1 else b.1, if a.1 <= b.1 then b.1 else a.1)
  }

  /** The smallest rectangle holding both corners: any rectangle holding them holds it. */
  lemma BoundsIsSmallest(a: Pos, b: Pos, q: Rect, p: Pos)
    requires q.Contains(a) && q.Contains(b) && Bounds(a, b).Contains(p)
    ensures q.Contains(p)
  {
  }

  /** The cells the second click of a fill writes. RectFill takes the bounding box; LineFill
      takes a row through the anchor when the click is further away horizontally than
      vertically, and a column through the anchor otherwise, ties included. */
  function FillTarget(line: bool, anchor: Pos, click: Pos): (r: Rect)
    ensures r.NonEmpty() && r.Contains(anchor)
    ensures !line ==> r == Bounds(anchor, click)
    ensures line && Abs(click.0 - anchor.0) > Abs(click.1 - anchor.1) ==>
              r.minY == r.maxY == anchor.1 && r.Contains((click.0, anchor.1)) && r.Width() == Abs(click.0 - anchor.0) + 1
    ensures line && Abs(click.0 - anchor.0) <= Abs(click.1 - anchor.1) ==>
              r.minX == r.maxX == anchor.0 && r.Contains((anchor.0, click.1)) && r.Height() == Abs(click.1 - anchor.1) + 1
  {
    if !line then Bounds(anchor, click)
    else if Abs(click.0 - anchor.0) > Abs(click.1 - anchor.1) then Bounds(anchor, (click.0, anchor.1))
    else Bounds(anchor, (anchor.0, click.1))
  }

  /** A line fill never writes off the anchor's row or column. */
  lemma LineStaysOnAxis(anchor: Pos, click: Pos, p: Pos)
    requires FillTarget(true, anchor, click).Contains(p)
    ensures p.0 == anchor.0 || p.1 == anchor.1
  {
  }

  // ---------------------------------------------------------------------------
  // Writing one tile over a rectangle

  /** The tile map after `set_tile(x, y, t)` for every cell of `r`: with the empty tile the
      rectangle is cleared, with any other tile it is filled; cells outside are untouched. */
  function Overwrite(tiles: map<Pos, TileData>, r: Rect, t: TileData): (m: map<Pos, TileData>)
    ensures forall p: Pos :: p in m <==> (if r.Contains(p) then !t.IsEmpty() else p in tiles)
    ensures forall p | p in m :: m[p] == if r.Contains(p) then t else tiles[p]
  {
    var outside := map p | p in tiles && !r.Contains(p) :: tiles[p];
    if t.IsEmpty() then outside
    else outside + map x, y | r.minX <= x <= r.maxX && r.minY <= y <= r.maxY :: (x, y) := t
  }

  /** Cells of `r` in columns before `tx`: what the outer loop of `WriteRect` has done. */
  predicate Visited(r: Rect, tx: int, p: Pos)
  {
    r.minX <= p.0 < tx && r.minY <= p.1 <= r.maxY
  }

  /** The fill and delete loops: `set_tile` on every cell of the rectangle, column by column. */
  method WriteRect(layer: Layer, r: Rect, t: TileData) returns (out: Layer)
    requires r.NonEmpty()
    ensures out == layer.(tiles := Overwrite(layer.tiles, r, t))
  {
    out := layer;
    var tx := r.minX;
    while tx <= r.maxX
      invariant r.minX <= tx <= r.maxX + 1
      invariant out.name == layer.name && out.visible == layer.visible
      invariant forall p: Pos :: p in out.tiles <==> (if Visited(r, tx, p) then !t.IsEmpty() else p in layer.tiles)
      invariant forall p | p in out.tiles :: out.tiles[p] == if Visited(r, tx, p) then t else layer.tiles[p]
    {
      out := WriteColumn(out, r, tx, t);
      tx := tx + 1;
    }
    SameMap(out.tiles, Overwrite(layer.tiles, r, t));
  }

  /** The inner loop of `WriteRect`: `set_tile` on the cells of column `x` within `r`. */
  method WriteColumn(layer: Layer, r: Rect, x: int, t: TileData) returns (out: Layer)
    requires r.minY <= r.maxY
    ensures out.name == layer.name && out.visible == layer.visible
    ensures forall p: Pos :: p in out.tiles <==> (if p.0 == x && r.minY <= p.1 <= r.maxY then !t.IsEmpty() else p in layer.tiles)
    ensures forall p | p in out.tiles :: out.tiles[p] == if p.0 == x && r.minY <= p.1 <= r.maxY then t else layer.tiles[p]
  {
    out := layer;
    var ty := r.minY;
    while ty <= r.maxY
      invariant r.minY <= ty <= r.maxY + 1
      invariant out.name == layer.name && out.visible == layer.visible
      invariant forall p: Pos :: p in out.tiles <==> (if p.0 == x && r.minY <= p.1 < ty then !t.IsEmpty() else p in layer.tiles)
      invariant forall p | p in out.tiles :: out.tiles[p] == if p.0 == x && r.minY <= p.1 < ty then t else layer.tiles[p]
    {
      out := out.SetTile(x, ty, t);
      ty := ty + 1;
    }
  }

  // ---------------------------------------------------------------------------
  // Collecting a rectangle's tiles (copy)

  /** The copied entries of column `x`, rows `r.minY` up to `yEnd` exclusive, in loop order:
      each stored, non-empty tile with its offset from the rectangle's corner. */
  function CopyColumn(tiles: map<Pos, TileData>, r: Rect, x: int, yEnd: int): (s: seq<(Pos, TileData)>)
    requires r.minX <= x <= r.maxX && yEnd <= r.maxY + 1
    ensures forall i | 0 <= i < |s| :: !s[i].1.IsEmpty() && r.Contains((s[i].0.0 + r.minX, s[i].0.1 + r.minY))
    decreases yEnd - r.minY
  {
    if yEnd <= r.minY then []
    else
      var y := yEnd - 1;
      CopyColumn(tiles, r, x, y)
        + (if (x, y) in tiles && !tiles[(x, y)].IsEmpty() then [((x - r.minX, y - r.minY), tiles[(x, y)])] else [])
  }

  /** The copied entries of the columns `r.minX` up to `xEnd` exclusive. */
  function CopyRect(tiles: map<Pos, TileData>, r: Rect, xEnd: int): (s: seq<(Pos, TileData)>)
    requires xEnd <= r.maxX + 1
    ensures forall i | 0 <= i < |s| :: !s[i].1.IsEmpty() && r.Contains((s[i].0.0 + r.minX, s[i].0.1 + r.minY))
    decreases xEnd - r.minX
  {
    if xEnd <= r.minX then [] else CopyRect(tiles, r, xEnd - 1) + CopyColumn(tiles, r, xEnd - 1, r.maxY + 1)
  }

  /** What `copy_selection` puts on the clipboard for the rectangle `r`. */
  function CopiedTiles(tiles: map<Pos, TileData>, r: Rect): seq<(Pos, TileData)>
  {
    CopyRect(tiles, r, r.maxX + 1)
  }

  /** The copy loops, reading the layer without changing it. */
  method CollectRect(tiles: map<Pos, TileData>, r: Rect) returns (copied: seq<(Pos, TileData)>)
    requires r.NonEmpty()
    ensures copied == CopiedTiles(tiles, r)
  {
    copied := [];
    var tx := r.minX;
    while tx <= r.maxX
      invariant r.minX <= tx <= r.maxX + 1
      invariant copied == CopyRect(tiles, r, tx)
    {
      var column: seq<(Pos, TileData)> := [];
      var ty := r.minY;
      while ty <= r.maxY
        invariant r.minY <= ty <= r.maxY + 1
        invariant column == CopyColumn(tiles, r, tx, ty)
      {
        if (tx, ty) in tiles {
          var t := tiles[(tx, ty)];
          if !t.IsEmpty() {
            column := column + [((tx - r.minX, ty - r.minY), t)];
          }
        }
        ty := ty + 1;
      }
      copied := copied + column;
      tx := tx + 1;
    }
  }

  /** The value of the last entry at offset `rel`, which is the one a paste leaves there. */
  function LastAt(entries: seq<(Pos, TileData)>, rel: Pos): Option<TileData>
  {
    if |entries| == 0 then None
    else if entries[|entries| - 1].0 == rel then Some(entries[|entries| - 1].1)
    else LastAt(entries[..|entries| - 1], rel)
  }

  lemma {:induction false} LastAtAppend(a: seq<(Pos, TileData)>, b: seq<(Pos, TileData)>, rel: Pos)
    ensures LastAt(a + b, rel) == if LastAt(b, rel).Some? then LastAt(b, rel) else LastAt(a, rel)
  {
    if |b| > 0 {
      assert (a + b)[..|a + b| - 1] == a + b[..|b| - 1];
      LastAtAppend(a, b[..|b| - 1], rel);
    } else {
      assert a + b == a;
    }
  }

  /** The cell an offset of the clipboard refers to in the copied rectangle. */
  function Source(r: Rect, rel: Pos): Pos { (rel.0 + r.minX, rel.1 + r.minY) }

  lemma {:induction false} CopyColumnAt(tiles: map<Pos, TileData>, r: Rect, x: int, yEnd: int, rel: Pos)
    requires r.minX <= x <= r.maxX && yEnd <= r.maxY + 1
    ensures var p := Source(r, rel);
            LastAt(CopyColumn(tiles, r, x, yEnd), rel) ==
              if p.0 == x && r.minY <= p.1 < yEnd && p in tiles && !tiles[p].IsEmpty() then Some(tiles[p]) else None
    decreases yEnd - r.minY
  {
    if yEnd > r.minY {
      var y := yEnd - 1;
      CopyColumnAt(tiles, r, x, y, rel);
      var prefix := CopyColumn(tiles, r, x, y);
      var last := if (x, y) in tiles && !tiles[(x, y)].IsEmpty() then [((x - r.minX, y - r.minY), tiles[(x, y)])] else [];
      assert CopyColumn(tiles, r, x, yEnd) == prefix + last;
      LastAtAppend(prefix, last, rel);
      var p := Source(r, rel);
      if (x, y) in tiles && !tiles[(x, y)].IsEmpty() {
        LastAtSingle(((x - r.minX, y - r.minY), tiles[(x, y)]), rel);
        assert (x - r.minX, y - r.minY) == rel <==> p == (x, y);
      } else {
        assert LastAt(last, rel) == None;
      }
    }
  }

  lemma LastAtSingle(e: (Pos, TileData), rel: Pos)
    ensures LastAt([e], rel) == if e.0 == rel then Some(e.1) else None
  {
    assert [e][..0] == [];
  }

  lemma {:induction false} CopyRectAt(tiles: map<Pos, TileData>, r: Rect, xEnd: int, rel: Pos)
    requires xEnd <= r.maxX + 1
    ensures var p := Source(r, rel);
            LastAt(CopyRect(tiles, r, xEnd), rel) ==
              if r.minX <= p.0 < xEnd && r.minY <= p.1 <= r.maxY && p in tiles && !tiles[p].IsEmpty() then Some(tiles[p]) else None
    decreases xEnd - r.minX
  {
    if xEnd > r.minX {
      CopyRectAt(tiles, r, xEnd - 1, rel);
      CopyColumnAt(tiles, r, xEnd - 1, r.maxY + 1, rel);
      LastAtAppend(CopyRect(tiles, r, xEnd - 1), CopyColumn(tiles, r, xEnd - 1, r.maxY + 1), rel);
    }
  }

  /** The clipboard holds, at offset `rel`, exactly the non-empty tile stored at the matching
      cell of the rectangle, and nothing for a cell outside it or without a painted tile. */
  lemma CopiedTilesAt(tiles: map<Pos, TileData>, r: Rect, rel: Pos)
    ensures var p := Source(r, rel);
            LastAt(CopiedTiles(tiles, r), rel) ==
              if r.Contains(p) && p in tiles && !tiles[p].IsEmpty() then Some(tiles[p]) else None
  {
    CopyRectAt(tiles, r, r.maxX + 1, rel);
  }

  /** The painted cells of the rectangle: where a tile is stored and it is not the empty one. */
  function SelectedCells(tiles: map<Pos, TileData>, r: Rect): set<Pos>
  {
    set p | p in tiles && r.Contains(p) && !tiles[p].IsEmpty()
  }

  /** The painted cells of column `x`, rows `r.minY` up to `yEnd` exclusive. */
  function ColumnCells(tiles: map<Pos, TileData>, r: Rect, x: int, yEnd: int): set<Pos>
  {
    set p | p in tiles && p.0 == x && r.minY <= p.1 < yEnd && !tiles[p].IsEmpty()
  }

  /** The painted cells of the columns `r.minX` up to `xEnd` exclusive. */
  function RectCells(tiles: map<Pos, TileData>, r: Rect, xEnd: int): set<Pos>
  {
    set p | p in tiles && r.minX <= p.0 < xEnd && r.minY <= p.1 <= r.maxY && !tiles[p].IsEmpty()
  }

  /** `a` comes before `b` in the copy loops' order: by column, then by row. */
  predicate Before(a: Pos, b: Pos) { a.0 < b.0 || (a.0 == b.0 && a.1 < b.1) }

  /** The offsets of `s` come in the copy loops' order. */
  predicate Ordered(s: seq<(Pos, TileData)>)
  {
    forall i, j | 0 <= i < j < |s| :: Before(s[i].0, s[j].0)
  }

  /** Every offset of `s` is in column `c`, above row `yLimit`. */
  predicate InColumn(s: seq<(Pos, TileData)>, c: int, yLimit: int)
  {
    forall i | 0 <= i < |s| :: s[i].0.0 == c && s[i].0.1 < yLimit
  }

  /** Every offset of `s` is left of column `c`. */
  predicate LeftOf(s: seq<(Pos, TileData)>, c: int)
  {
    forall i | 0 <= i < |s| :: s[i].0.0 < c
  }

  lemma {:induction false} CopyColumnCount(tiles: map<Pos, TileData>, r: Rect, x: int, yEnd: int)
    requires r.minX <= x <= r.maxX && yEnd <= r.maxY + 1
    ensures |CopyColumn(tiles, r, x, yEnd)| == |ColumnCells(tiles, r, x, yEnd)|
    decreases yEnd - r.minY
  {
    if yEnd <= r.minY {
      assert ColumnCells(tiles, r, x, yEnd) == {};
    } else {
      var y := yEnd - 1;
      CopyColumnCount(tiles, r, x, y);
      if (x, y) in tiles && !tiles[(x, y)].IsEmpty() {
        assert ColumnCells(tiles, r, x, yEnd) == ColumnCells(tiles, r, x, y) + {(x, y)};
        assert (x, y) !in ColumnCells(tiles, r, x, y);
      } else {
        assert ColumnCells(tiles, r, x, yEnd) == ColumnCells(tiles, r, x, y);
      }
    }
  }

  lemma {:induction false} CopyColumnOrdered(tiles: map<Pos, TileData>, r: Rect, x: int, yEnd: int)
    requires r.minX <= x <= r.maxX && yEnd <= r.maxY + 1
    ensures Ordered(CopyColumn(tiles, r, x, yEnd)) && InColumn(CopyColumn(tiles, r, x, yEnd), x - r.minX, yEnd - r.minY)
    decreases yEnd - r.minY
  {
    if yEnd > r.minY {
      var y := yEnd - 1;
      CopyColumnOrdered(tiles, r, x, y);
      var prefix := CopyColumn(tiles, r, x, y);
      if (x, y) in tiles && !tiles[(x, y)].IsEmpty() {
        OrderedSnoc(prefix, ((x - r.minX, y - r.minY), tiles[(x, y)]), yEnd - r.minY);
      } else {
        assert CopyColumn(tiles, r, x, yEnd) == prefix;
      }
    }
  }

  /** A column's entries, followed by one further down the same column, stay in order. */
  lemma OrderedSnoc(s: seq<(Pos, TileData)>, e: (Pos, TileData), yLimit: int)
    requires Ordered(s) && InColumn(s, e.0.0, e.0.1) && e.0.1 < yLimit
    ensures Ordered(s + [e]) && InColumn(s + [e], e.0.0, yLimit)
  {
    var t := s + [e];
    assert forall i | 0 <= i < |s| :: t[i] == s[i];
  }

  lemma {:induction false} CopyRectCount(tiles: map<Pos, TileData>, r: Rect, xEnd: int)
    requires xEnd <= r.maxX + 1
    ensures |CopyRect(tiles, r, xEnd)| == |RectCells(tiles, r, xEnd)|
    decreases xEnd - r.minX
  {
    if xEnd <= r.minX {
      assert RectCells(tiles, r, xEnd) == {};
    } else {
      var x := xEnd - 1;
      CopyRectCount(tiles, r, x);
      CopyColumnCount(tiles, r, x, r.maxY + 1);
      assert RectCells(tiles, r, xEnd) == RectCells(tiles, r, x) + ColumnCells(tiles, r, x, r.maxY + 1);
      assert RectCells(tiles, r, x) * ColumnCells(tiles, r, x, r.maxY + 1) == {};
    }
  }

  lemma {:induction false} CopyRectOrdered(tiles: map<Pos, TileData>, r: Rect, xEnd: int)
    requires xEnd <= r.maxX + 1
    ensures Ordered(CopyRect(tiles, r, xEnd)) && LeftOf(CopyRect(tiles, r, xEnd), xEnd - r.minX)
    decreases xEnd - r.minX
  {
    if xEnd > r.minX {
      var x := xEnd - 1;
      CopyRectOrdered(tiles, r, x);
      CopyColumnOrdered(tiles, r, x, r.maxY + 1);
      AppendOrdered(CopyRect(tiles, r, x), CopyColumn(tiles, r, x, r.maxY + 1), x - r.minX, r.maxY + 1 - r.minY);
    }
  }

  /** Entries of earlier columns, followed by those of column `c`, stay in order. */
  lemma AppendOrdered(a: seq<(Pos, TileData)>, b: seq<(Pos, TileData)>, c: int, yLimit: int)
    requires Ordered(a) && LeftOf(a, c) && Ordered(b) && InColumn(b, c, yLimit)
    ensures Ordered(a + b) && LeftOf(a + b, c + 1)
  {
    forall i, j | 0 <= i < j < |a + b| ensures Before((a + b)[i].0, (a + b)[j].0) {
      if j < |a| {
        assert (a + b)[i] == a[i] && (a + b)[j] == a[j];
      } else if i >= |a| {
        assert (a + b)[i] == b[i - |a|] && (a + b)[j] == b[j - |a|];
      } else {
        assert (a + b)[i] == a[i] && (a + b)[j] == b[j - |a|];
      }
    }
    forall i | 0 <= i < |a + b| ensures (a + b)[i].0.0 < c + 1 {
      if i < |a| { assert (a + b)[i] == a[i]; } else { assert (a + b)[i] == b[i - |a|]; }
    }
  }

  /** The clipboard takes each painted cell of the rectangle once, in the loops' order (by
      column, then by row), so it has one entry per painted cell and no offset twice. */
  lemma CopiedTilesOnce(tiles: map<Pos, TileData>, r: Rect)
    ensures |CopiedTiles(tiles, r)| == |SelectedCells(tiles, r)| && Ordered(CopiedTiles(tiles, r))
    ensures var s := CopiedTiles(tiles, r); forall i, j | 0 <= i < j < |s| :: s[i].0 != s[j].0
  {
    CopyRectCount(tiles, r, r.maxX + 1);
    CopyRectOrdered(tiles, r, r.maxX + 1);
    assert RectCells(tiles, r, r.maxX + 1) == SelectedCells(tiles, r);
  }

  // ---------------------------------------------------------------------------
  // Pasting a clipboard

  /** The layer after `set_tile(at + rel, t)` for every clipboard entry `(rel, t)`, in order. */
  function PasteAll(l: Layer, entries: seq<(Pos, TileData)>, at: Pos): (out: Layer)
    ensures out.name == l.name && out.visible == l.visible
  {
    if |entries| == 0 then l
    else
      var e := entries[|entries| - 1];
      PasteAll(l, entries[..|entries| - 1], at).SetTile(at.0 + e.0.0, at.1 + e.0.1, e.1)
  }

  /** The paste loop. */
  method PasteLoop(layer: Layer, entries: seq<(Pos, TileData)>, at: Pos) returns (out: Layer)
    ensures out == PasteAll(layer, entries, at)
  {
    out := layer;
    var i := 0;
    while i < |entries|
      invariant 0 <= i <= |entries|
      invariant out == PasteAll(layer, entries[..i], at)
    {
      assert entries[..i + 1][..i] == entries[..i];
      var e := entries[i];
      out := out.SetTile(at.0 + e.0.0, at.1 + e.0.1, e.1);
      i := i + 1;
    }
    assert entries[..|entries|] == entries;
  }

  /** A pasted cell holds the last clipboard entry aimed at it (absent when that entry is
      the empty tile); every cell no entry aims at is unchanged. */
  lemma {:induction false} PastedAt(l: Layer, entries: seq<(Pos, TileData)>, at: Pos, q: Pos)
    ensures var out := PasteAll(l, entries, at).tiles;
            var rel := (q.0 - at.0, q.1 - at.1);
            match LastAt(entries, rel)
            case Some(t) => (q in out <==> !t.IsEmpty()) && (q in out ==> out[q] == t)
            case None => (q in out <==> q in l.tiles) && (q in out ==> out[q] == l.tiles[q])
  {
    if |entries| > 0 {
      PastedAt(l, entries[..|entries| - 1], at, q);
    }
  }

  /** Copying a rectangle and pasting it with its corner at `at` reproduces every painted
      tile of the rectangle at the shifted cell and leaves every other cell as it was. */
  lemma CopyThenPaste(src: map<Pos, TileData>, r: Rect, dst: Layer, at: Pos, q: Pos)
    ensures var out := PasteAll(dst, CopiedTiles(src, r), at).tiles;
            var p := (q.0 - at.0 + r.minX, q.1 - at.1 + r.minY);
            if r.Contains(p) && p in src && !src[p].IsEmpty() then q in out && out[q] == src[p]
            else (q in out <==> q in dst.tiles) && (q in out ==> out[q] == dst.tiles[q])
  {
    var rel := (q.0 - at.0, q.1 - at.1);
    var p := (q.0 - at.0 + r.minX, q.1 - at.1 + r.minY);
    assert Source(r, rel) == p;
    PastedAt(dst, CopiedTiles(src, r), at, q);
    CopiedTilesAt(src, r, rel);
    if r.Contains(p) && p in src && !src[p].IsEmpty() {
      assert LastAt(CopiedTiles(src, r), rel) == Some(src[p]);
    } else {
      assert LastAt(CopiedTiles(src, r), rel) == None;
    }
  }
}
