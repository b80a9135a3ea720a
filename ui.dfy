/** The logic inside the editor's menus and panels (src/ui.rs): the hexadecimal colour codec,
    the colour fields, the bookkeeping that keeps the selected layer pointing at a layer as the
    list is edited, replaced or loaded, the layer presets and the tile picker's index
    arithmetic. Widgets, dialogs, zoom and the canvas offset are not modelled; every handler
    is a method that receives the editor state, the way the panels receive `&mut EditorState`. */
module Ui {
  import opened Text
  import opened JsonValues
  import opened Levels
  import opened LevelFiles
  import opened Assets
  import opened Editor
  import opened Projects

  // ---------------------------------------------------------------------------
  // Hexadecimal colours

  /** `rgb_to_hex`: `#` and two upper-case hexadecimal digits per channel, red first. */
  function RgbToHex(c: Rgb): (s: string)
    ensures |s| == 7 && s[0] == '#'
    ensures forall i | 1 <= i < 7 :: IsHexDigit(s[i]) && !('a' <= s[i] <= 'f')
    ensures HexDigitsValue(s[1..3]) == c.r && HexDigitsValue(s[3..5]) == c.g && HexDigitsValue(s[5..7]) == c.b
  {
    Hex2Value(c.r);
    Hex2Value(c.g);
    Hex2Value(c.b);
    CodeLayout(Hex2(c.r), Hex2(c.g), Hex2(c.b), c);
    "#" + Hex2(c.r) + Hex2(c.g) + Hex2(c.b)
  }

  /** Where the three pairs sit in a `#RRGGBB` code. */
  lemma CodeLayout(r: string, g: string, b: string, c: Rgb)
    requires |r| == 2 && |g| == 2 && |b| == 2
    requires AllHex(r) && AllHex(g) && AllHex(b)
    requires !('a' <= r[0] <= 'f') && !('a' <= r[1] <= 'f') && !('a' <= g[0] <= 'f')
    requires !('a' <= g[1] <= 'f') && !('a' <= b[0] <= 'f') && !('a' <= b[1] <= 'f')
    requires HexDigitsValue(r) == c.r && HexDigitsValue(g) == c.g && HexDigitsValue(b) == c.b
    ensures var s := "#" + r + g + b;
      && |s| == 7 && s[0] == '#'
      && (forall i | 1 <= i < 7 :: IsHexDigit(s[i]) && !('a' <= s[i] <= 'f'))
      && HexDigitsValue(s[1..3]) == c.r && HexDigitsValue(s[3..5]) == c.g && HexDigitsValue(s[5..7]) == c.b
  {
    var s := "#" + r + g + b;
    assert s == ['#', r[0], r[1], g[0], g[1], b[0], b[1]];
    assert s[1..3] == r && s[3..5] == g && s[5..7] == b;
    forall i | 1 <= i < 7
      ensures IsHexDigit(s[i]) && !('a' <= s[i] <= 'f')
    {
      if i < 3 {
        assert s[i] == r[i - 1];
      } else if i < 5 {
        assert s[i] == g[i - 3];
      } else {
        assert s[i] == b[i - 5];
      }
    }
  }

  /** What `parse_hex_color` reads: the trimmed text without its leading `#` characters. */
  function HexBody(s: string): string
  {
    TrimStartMatches(RustTrim(s), '#')
  }

  /** Text that starts with one `#` and ends in something other than a blank reads as the
      text after the `#`. */
  lemma HexBodyOfCode(body: string)
    requires |body| > 0 && body[0] != '#' && !IsRustWhitespace(body[|body| - 1])
    ensures HexBody("#" + body) == body
  {
    var s := "#" + body;
    assert s[0] == '#' && s[1] == body[0] && s[|s| - 1] == body[|body| - 1];
    TrimStartKeeps(s, IsRustWhitespace);
    TrimEndKeeps(s, IsRustWhitespace);
    TrimStartMatchesOne(s, '#');
    assert s[1..] == body;
  }

  /** Text without blanks at either end, that does not start with `#`, reads as itself. */
  lemma HexBodyOfDigits(body: string)
    requires |body| > 0 && body[0] != '#' && !IsRustWhitespace(body[0]) && !IsRustWhitespace(body[|body| - 1])
    ensures HexBody(body) == body
  {
    TrimStartKeeps(body, IsRustWhitespace);
    TrimEndKeeps(body, IsRustWhitespace);
    TrimStartMatchesNone(body, '#');
  }

  function AllSome(r: Option<byte>, g: Option<byte>, b: Option<byte>): (c: Option<Rgb>)
    ensures c.Some? <==> r.Some? && g.Some? && b.Some?
  {
    if r.Some? && g.Some? && b.Some? then Some(Rgb(r.value, g.value, b.value)) else None
  }

  /** The digits after trimming: six read in pairs, three each doubled (`"A"` reads as `"AA"`),
      and anything else, including text that is not ASCII, is no colour. */
  function ParseHexDigits(hex: string): (r: Option<Rgb>)
    ensures r.Some? ==> IsAscii(hex) && (|hex| == 6 || |hex| == 3)
  {
    if !IsAscii(hex) then None
    else if |hex| == 6 then AllSome(ParseU8Hex(hex[0..2]), ParseU8Hex(hex[2..4]), ParseU8Hex(hex[4..6]))
    else if |hex| == 3 then AllSome(ParseU8Hex([hex[0], hex[0]]), ParseU8Hex([hex[1], hex[1]]), ParseU8Hex([hex[2], hex[2]]))
    else None
  }

  /** `parse_hex_color`, with the length and the slices taken on characters. */
  function ParseHexColor(s: string): (r: Option<Rgb>)
    ensures r.Some? ==> IsAscii(HexBody(s)) && (|HexBody(s)| == 6 || |HexBody(s)| == 3)
  {
    ParseHexDigits(HexBody(s))
  }

  /** A colour written by `rgb_to_hex` reads back as the same colour. */
  lemma HexRoundTrip(c: Rgb)
    ensures ParseHexColor(RgbToHex(c)) == Some(c)
  {
    var hex := Hex2(c.r) + Hex2(c.g) + Hex2(c.b);
    assert RgbToHex(c) == "#" + hex;
    HexBodyOfCode(hex);
    ParseHex2(c.r);
    ParseHex2(c.g);
    ParseHex2(c.b);
    SixDigits(Hex2(c.r), Hex2(c.g), Hex2(c.b));
  }

  /** Six digits, read two at a time. */
  lemma SixDigits(r: string, g: string, b: string)
    requires |r| == 2 && |g| == 2 && |b| == 2 && AllHex(r) && AllHex(g) && AllHex(b)
    ensures ParseHexDigits(r + g + b) == AllSome(ParseU8Hex(r), ParseU8Hex(g), ParseU8Hex(b))
  {
    var hex := r + g + b;
    assert hex[0..2] == r && hex[2..4] == g && hex[4..6] == b;
    assert IsAscii(hex) by {
      forall i | 0 <= i < 6 ensures hex[i] < '\U{80}' {
        assert IsHexDigit(hex[i]);
      }
    }
  }

  /** Three digits: each channel is seventeen times its digit. */
  lemma ShortForm(a: char, b: char, c: char)
    requires IsHexDigit(a) && IsHexDigit(b) && IsHexDigit(c)
    ensures ParseHexColor([a, b, c]) == Some(Rgb(17 * HexValue(a), 17 * HexValue(b), 17 * HexValue(c)))
  {
    DoubledDigit(a);
    DoubledDigit(b);
    DoubledDigit(c);
    HexBodyOfDigits([a, b, c]);
    ThreeDigits(a, b, c);
  }

  /** Three digits mean the same as the six digits with each one doubled. */
  lemma ShortFormIsDoubled(a: char, b: char, c: char)
    requires IsHexDigit(a) && IsHexDigit(b) && IsHexDigit(c)
    ensures ParseHexColor([a, a, b, b, c, c]) == ParseHexColor([a, b, c])
  {
    ShortForm(a, b, c);
    LongForm(a, b, c);
  }

  lemma LongForm(a: char, b: char, c: char)
    requires IsHexDigit(a) && IsHexDigit(b) && IsHexDigit(c)
    ensures ParseHexColor([a, a, b, b, c, c]) == Some(Rgb(17 * HexValue(a), 17 * HexValue(b), 17 * HexValue(c)))
  {
    DoubledDigit(a);
    DoubledDigit(b);
    DoubledDigit(c);
    var long := [a, a] + [b, b] + [c, c];
    assert long == [a, a, b, b, c, c];
    HexBodyOfDigits(long);
    SixDigits([a, a], [b, b], [c, c]);
  }

  /** Three digits, each read twice. */
  lemma ThreeDigits(a: char, b: char, c: char)
    requires IsHexDigit(a) && IsHexDigit(b) && IsHexDigit(c)
    ensures ParseHexDigits([a, b, c]) == AllSome(ParseU8Hex([a, a]), ParseU8Hex([b, b]), ParseU8Hex([c, c]))
  {
    assert IsAscii([a, b, c]);
  }

  lemma DoubledDigit(a: char)
    requires IsHexDigit(a)
    ensures ParseU8Hex([a, a]) == Some(17 * HexValue(a))
  {
    var s := [a, a];
    assert s[..1] == [a] && s[..1][..0] == [];
    assert HexDigitsValue([a]) == HexValue(a);
    assert HexDigitsValue(s) == HexDigitsValue([a]) * 16 + HexValue(a);
  }

  /** A blank before the text is skipped. */
  lemma SkipsLeadingBlank(c: char, s: string)
    requires IsRustWhitespace(c)
    ensures ParseHexColor([c] + s) == ParseHexColor(s)
  {
    TrimStartStep([c] + s, IsRustWhitespace);
    assert ([c] + s)[1..] == s;
  }

  /** A blank after the text is skipped. */
  lemma SkipsTrailingBlank(s: string, c: char)
    requires IsRustWhitespace(c)
    ensures ParseHexColor(s + [c]) == ParseHexColor(s)
  {
    TrimStartSnoc(s, c, IsRustWhitespace);
    var u := TrimStartWith(s, IsRustWhitespace);
    if |u| > 0 {
      TrimEndStep(u + [c], IsRustWhitespace);
      assert (u + [c])[..|u|] == u;
    }
    assert RustTrim(s + [c]) == RustTrim(s);
  }

  /** A `#` before text without surrounding blanks is skipped, so any number of them is. */
  lemma SkipsHash(s: string)
    requires |s| > 0 && !IsRustWhitespace(s[0]) && !IsRustWhitespace(s[|s| - 1])
    ensures ParseHexColor("#" + s) == ParseHexColor(s)
  {
    var t := "#" + s;
    assert t[0] == '#' && t[|t| - 1] == s[|s| - 1];
    TrimStartKeeps(t, IsRustWhitespace);
    TrimEndKeeps(t, IsRustWhitespace);
    TrimStartKeeps(s, IsRustWhitespace);
    TrimEndKeeps(s, IsRustWhitespace);
    TrimStartMatchesStep(t, '#');
    assert t[1..] == s;
  }

  // --- the function as written, which slices by byte offsets

  /** A computation that returns a value or panics. */
  datatype Outcome<T> = Returns(value: T) | Panics

  /** `&s[i..j]` on byte offsets: it panics unless both offsets fall on character boundaries. */
  function ByteSlice(s: string, i: nat, j: nat): Outcome<string>
  {
    var a := CharIndexOfByte(s, i);
    var b := CharIndexOfByte(s, j);
    if a.Some? && b.Some? && a.value <= b.value then Returns(s[a.value..b.value]) else Panics
  }

  /** One channel: the slice `[i..j]`, repeated when the short form is read, parsed as a byte. */
  function ChannelAt(hex: string, i: nat, j: nat, doubled: bool): Outcome<Option<byte>>
  {
    match ByteSlice(hex, i, j)
    case Panics => Panics
    case Returns(t) => Returns(ParseU8Hex(if doubled then t + t else t))
  }

  /** `parse_hex_color` as written: `hex.len()` counts bytes, the slices use byte offsets, and
      each `?` returns before the next channel is sliced. */
  function ParseHexColorAsWritten(s: string): Outcome<Option<Rgb>>
  {
    ParseBytesAsWritten(HexBody(s))
  }

  function ParseBytesAsWritten(hex: string): Outcome<Option<Rgb>>
  {
    if ByteLen(hex) != 6 && ByteLen(hex) != 3 then Returns(None)
    else
      var w := if ByteLen(hex) == 6 then 2 else 1;
      var doubled := ByteLen(hex) == 3;
      var r := ChannelAt(hex, 0, w, doubled);
      if r.Panics? then Panics
      else if r.value.None? then Returns(None)
      else
        var g := ChannelAt(hex, w, 2 * w, doubled);
        if g.Panics? then Panics
        else if g.value.None? then Returns(None)
        else
          var b := ChannelAt(hex, 2 * w, 3 * w, doubled);
          if b.Panics? then Panics
          else if b.value.None? then Returns(None)
          else Returns(Some(Rgb(r.value.value, g.value.value, b.value.value)))
  }

  /** On ASCII text the byte offsets are character offsets, and the function as written is
      the one above. */
  lemma AsWrittenAgreesOnAscii(s: string)
    requires IsAscii(HexBody(s))
    ensures ParseHexColorAsWritten(s) == Returns(ParseHexColor(s))
  {
    AsciiBytesAgree(HexBody(s));
  }

  lemma AsciiBytesAgree(hex: string)
    requires IsAscii(hex)
    ensures ParseBytesAsWritten(hex) == Returns(ParseHexDigits(hex))
  {
    AsciiOffsets(hex, 0);
    if |hex| == 6 {
      SixAscii(hex);
    } else if |hex| == 3 {
      ThreeAscii(hex);
    }
  }

  lemma SixAscii(hex: string)
    requires IsAscii(hex) && |hex| == 6
    ensures ParseBytesAsWritten(hex) == Returns(ParseHexDigits(hex))
  {
    AsciiOffsets(hex, 0);
    AsciiChannel(hex, 0, 2, false);
    AsciiChannel(hex, 2, 4, false);
    AsciiChannel(hex, 4, 6, false);
    SixBytes(hex);
  }

  lemma ThreeAscii(hex: string)
    requires IsAscii(hex) && |hex| == 3
    ensures ParseBytesAsWritten(hex) == Returns(ParseHexDigits(hex))
  {
    AsciiOffsets(hex, 0);
    ShortChannel(hex, 0, 1);
    ShortChannel(hex, 1, 2);
    ShortChannel(hex, 2, 3);
    ThreeBytes(hex);
  }

  /** A channel of the short form is its ASCII digit written twice. */
  lemma ShortChannel(hex: string, i: nat, j: nat)
    requires IsAscii(hex) && j == i + 1 <= |hex|
    ensures ChannelAt(hex, i, j, true) == Returns(ParseU8Hex([hex[i], hex[i]]))
  {
    AsciiChannel(hex, i, j, true);
    assert hex[i..j] + hex[i..j] == [hex[i], hex[i]];
  }

  lemma SixBytes(hex: string)
    requires IsAscii(hex) && |hex| == 6 && ByteLen(hex) == 6
    requires ChannelAt(hex, 0, 2, false) == Returns(ParseU8Hex(hex[0..2]))
    requires ChannelAt(hex, 2, 4, false) == Returns(ParseU8Hex(hex[2..4]))
    requires ChannelAt(hex, 4, 6, false) == Returns(ParseU8Hex(hex[4..6]))
    ensures ParseBytesAsWritten(hex) == Returns(ParseHexDigits(hex))
  {
  }

  lemma ThreeBytes(hex: string)
    requires IsAscii(hex) && |hex| == 3 && ByteLen(hex) == 3
    requires ChannelAt(hex, 0, 1, true) == Returns(ParseU8Hex([hex[0], hex[0]]))
    requires ChannelAt(hex, 1, 2, true) == Returns(ParseU8Hex([hex[1], hex[1]]))
    requires ChannelAt(hex, 2, 3, true) == Returns(ParseU8Hex([hex[2], hex[2]]))
    ensures ParseBytesAsWritten(hex) == Returns(ParseHexDigits(hex))
  {
  }

  /** A slice of ASCII text is taken on characters. */
  lemma AsciiChannel(hex: string, i: nat, j: nat, doubled: bool)
    requires IsAscii(hex) && i <= j <= |hex|
    ensures ChannelAt(hex, i, j, doubled) == Returns(ParseU8Hex(if doubled then hex[i..j] + hex[i..j] else hex[i..j]))
  {
    AsciiOffsets(hex, i);
    AsciiOffsets(hex, j);
  }

  /** Six bytes that are not six characters, such as `"#0é000"`: the first slice, `[0..2]`,
      ends inside the two-byte character. */
  lemma AsWrittenPanics(x: char, y: char, rest: string)
    requires IsHexDigit(x) && '\U{80}' <= y < '\U{800}' && |rest| == 3 && AllHex(rest)
    ensures ParseHexColorAsWritten("#" + [x, y] + rest) == Panics
    ensures ParseHexColor("#" + [x, y] + rest) == None
  {
    var body := [x, y] + rest;
    assert "#" + [x, y] + rest == "#" + body;
    HexBodyOfCode(body);
    TwoByteSecond(x, y, rest);
    FirstSlicePanics(body);
  }

  /** The offsets of a hex digit, a two-byte character and three more hex digits. */
  lemma TwoByteSecond(x: char, y: char, rest: string)
    requires IsHexDigit(x) && '\U{80}' <= y < '\U{800}' && |rest| == 3 && AllHex(rest)
    ensures ByteLen([x, y] + rest) == 6
    ensures CharIndexOfByte([x, y] + rest, 2) == None
    ensures !IsAscii([x, y] + rest)
  {
    var body := [x, y] + rest;
    assert IsAscii(rest);
    AsciiOffsets(rest, 0);
    assert body[1..] == [y] + rest && body[1..][1..] == rest;
    assert CharIndexOfByte(body[1..], 1) == None;
    assert body[1] == y;
  }

  lemma FirstSlicePanics(hex: string)
    requires ByteLen(hex) == 6 && CharIndexOfByte(hex, 2) == None
    ensures ParseBytesAsWritten(hex) == Panics
  {
  }

  // ---------------------------------------------------------------------------
  // The colour fields

  /** `update_hex_from_rgb` after a slider moved channel `channel` (0 red, 1 green, 2 blue). */
  method SetColorChannel(st: EditorState, channel: nat, value: byte)
    requires channel < 3
    modifies st`selectedColor, st`colorHexInput
    ensures st.selectedColor == (if channel == 0 then old(st.selectedColor).(r := value)
                                 else if channel == 1 then old(st.selectedColor).(g := value)
                                 else old(st.selectedColor).(b := value))
    ensures st.colorHexInput == RgbToHex(st.selectedColor)
    ensures ParseHexColor(st.colorHexInput) == Some(st.selectedColor)
  {
    if channel == 0 {
      st.selectedColor := st.selectedColor.(r := value);
    } else if channel == 1 {
      st.selectedColor := st.selectedColor.(g := value);
    } else {
      st.selectedColor := st.selectedColor.(b := value);
    }
    st.colorHexInput := RgbToHex(st.selectedColor);
    HexRoundTrip(st.selectedColor);
  }

  /** The hex field losing focus: a colour that parses becomes the selected colour; text that
      does not is replaced by the selected colour's code. Either way the field then reads as
      the selected colour. */
  method CommitHexInput(st: EditorState)
    modifies st`selectedColor, st`colorHexInput
    ensures ParseHexColor(old(st.colorHexInput)).Some? ==>
              st.selectedColor == ParseHexColor(old(st.colorHexInput)).value && st.colorHexInput == old(st.colorHexInput)
    ensures ParseHexColor(old(st.colorHexInput)).None? ==>
              st.selectedColor == old(st.selectedColor) && st.colorHexInput == RgbToHex(old(st.selectedColor))
    ensures ParseHexColor(st.colorHexInput) == Some(st.selectedColor)
  {
    var parsed := ParseHexColor(st.colorHexInput);
    if parsed.Some? {
      st.selectedColor := parsed.value;
    } else {
      st.colorHexInput := RgbToHex(st.selectedColor);
      HexRoundTrip(st.selectedColor);
    }
  }

  /** The palette of named colours. */
  const PresetColors: seq<(string, Rgb)> := [
    ("Marron (Sol)", Rgb(139, 69, 19)), ("Gris (Mur)", Rgb(128, 128, 128)),
    ("Beige (Plateforme)", Rgb(205, 133, 63)), ("Rouge (Piège)", Rgb(255, 0, 0)),
    ("Jaune (Pièce)", Rgb(255, 215, 0)), ("Vert (Départ)", Rgb(0, 255, 0)),
    ("Bleu ciel (Sortie)", Rgb(0, 191, 255)), ("Noir", Rgb(0, 0, 0)),
    ("Blanc", Rgb(255, 255, 255)), ("Rose", Rgb(255, 192, 203)),
    ("Violet", Rgb(128, 0, 128)), ("Orange", Rgb(255, 165, 0))]

  /** Clicking palette entry `k`: it becomes the selected colour, the hex field and the paint,
      and the paint tool is chosen. */
  method PickPresetColor(st: EditorState, k: nat)
    requires k < |PresetColors|
    modifies st`selectedColor, st`colorHexInput, st`paintMode, st`currentTool
    ensures st.selectedColor == PresetColors[k].1 && st.paintMode == ColorTile(PresetColors[k].1)
    ensures st.colorHexInput == RgbToHex(PresetColors[k].1) && st.currentTool == Paint
  {
    var color := PresetColors[k].1;
    st.selectedColor := color;
    st.colorHexInput := RgbToHex(st.selectedColor);
    st.paintMode := ColorTile(color);
    st.currentTool := Paint;
  }

  /** "Utiliser cette couleur": the selected colour becomes the paint and the paint tool is
      chosen. */
  method UseSelectedColor(st: EditorState)
    modifies st`paintMode, st`currentTool
    ensures st.paintMode == ColorTile(st.selectedColor) && st.currentTool == Paint
  {
    st.paintMode := ColorTile(st.selectedColor);
    st.currentTool := Paint;
  }

  // ---------------------------------------------------------------------------
  // The tile picker

  /** The picker outlines tile `tileIndex` of the `idx`-th loaded tileset when it is the paint. */
  predicate IsSelectedTile(mode: PaintMode, idx: nat, tileIndex: nat)
  {
    mode.TextureTile? && mode.tilesetId == idx && mode.tileIndex == tileIndex
  }

  /** Clicking a tile of the picker: that tile becomes the paint, under the position `idx` of
      its tileset in the loaded list rather than the tileset's own id, and the paint tool is
      chosen. */
  method PickTextureTile(st: EditorState, idx: nat, tileIndex: nat)
    modifies st`paintMode, st`currentTool
    ensures st.paintMode == TextureTile(idx, tileIndex) && st.currentTool == Paint
  {
    st.paintMode := TextureTile(idx, tileIndex);
    st.currentTool := Paint;
  }

  /** After a click, the picker outlines exactly the clicked tile, and no colour is the paint. */
  lemma PickedTileOutlined(idx: nat, tileIndex: nat, i: nat, t: nat)
    ensures IsSelectedTile(TextureTile(idx, tileIndex), i, t) <==> i == idx && t == tileIndex
    ensures forall c: Rgb :: !IsSelectedTile(ColorTile(c), i, t)
  {
  }

  /** The editor's initial colour is the first palette entry, and the code its hex field
      starts with is that colour's code, so it reads back as the same colour. */
  lemma InitialColorIsFirstPreset(st: EditorState)
    requires st.selectedColor == Rgb(139, 69, 19) && st.colorHexInput == "#8B4513"
    ensures st.selectedColor == PresetColors[0].1
    ensures st.colorHexInput == RgbToHex(st.selectedColor)
    ensures ParseHexColor(st.colorHexInput) == Some(st.selectedColor)
  {
    InitialCode(st.selectedColor);
    HexRoundTrip(st.selectedColor);
  }

  lemma InitialCode(c: Rgb)
    requires c == Rgb(139, 69, 19)
    ensures RgbToHex(c) == "#8B4513"
  {
    InitialDigits();
    assert RgbToHex(c) == "#" + (Hex2(139) + Hex2(69) + Hex2(19));
  }

  lemma InitialDigits()
    ensures Hex2(139) + Hex2(69) + Hex2(19) == "8B4513"
  {
    assert Hex2(139) == "8B";
    assert Hex2(69) == "45";
    assert Hex2(19) == "13";
  }

  // ---------------------------------------------------------------------------
  // The selected layer as layers are added, removed, moved and loaded

  /** The selected layer names a layer. */
  predicate CurrentInRange(st: EditorState)
    reads st, st.level
  {
    st.currentLayer < |st.level.layers|
  }

  /** The name the menu gives the layer it appends to a list of `n`. */
  function NumberedLayerName(n: nat): (name: string)
    ensures |name| >= 6 && name[..6] == "Layer " && name[6..] == FormatInt(n + 1)
  {
    "Layer " + FormatInt(n + 1)
  }

  /** "Effacer le calque actuel": empties the selected layer, if there is one. */
  method ClearCurrentLayer(st: EditorState)
    modifies st.level`layers
    ensures st.currentLayer < |old(st.level.layers)| ==>
              st.level.layers == old(st.level.layers)[st.currentLayer := old(st.level.layers)[st.currentLayer].Clear()]
    ensures st.currentLayer >= |old(st.level.layers)| ==> st.level.layers == old(st.level.layers)
  {
    if st.currentLayer < |st.level.layers| {
      st.level.layers := st.level.layers[st.currentLayer := st.level.layers[st.currentLayer].Clear()];
    }
  }

  /** "Ajouter un calque" and the quick "+" button: appends "Layer n+1" and selects it. */
  method AddLayerAndSelect(st: EditorState)
    modifies st.level`layers, st`currentLayer
    ensures st.level.layers == old(st.level.layers) + [Layer.New(NumberedLayerName(|old(st.level.layers)|))]
    ensures st.currentLayer == |old(st.level.layers)|
    ensures CurrentInRange(st) && st.level.layers[st.currentLayer].tiles == map[]
  {
    var count := |st.level.layers|;
    st.level.AddLayer(NumberedLayerName(count));
    st.currentLayer := count;
  }

  /** The quick add of the layer window, which appends "Layer n+1" but keeps the selection. */
  method AddLayerOnly(st: EditorState)
    modifies st.level`layers
    ensures st.level.layers == old(st.level.layers) + [Layer.New(NumberedLayerName(|old(st.level.layers)|))]
    ensures old(CurrentInRange(st)) ==> CurrentInRange(st)
  {
    var count := |st.level.layers|;
    st.level.AddLayer(NumberedLayerName(count));
  }

  /** "Supprimer le calque actuel": when the level lets the layer go, a selection past the
      new end moves to the last layer. */
  method RemoveCurrentLayer(st: EditorState)
    modifies st.level`layers, st`currentLayer
    ensures var old_ := old(st.level.layers); var idx := old(st.currentLayer);
      if |old_| > 1 && idx < |old_| then
        && st.level.layers == old_[..idx] + old_[idx + 1..]
        && st.currentLayer == Min(idx, |old_| - 2)
        && CurrentInRange(st)
      else st.level.layers == old_ && st.currentLayer == idx
  {
    var removed := st.level.RemoveLayer(st.currentLayer);
    if removed {
      if st.currentLayer >= |st.level.layers| {
        st.currentLayer := |st.level.layers| - 1;
      }
    }
  }

  /** Clicking a layer's name in the layer bar selects it. */
  method SelectLayer(st: EditorState, idx: nat)
    requires idx < |st.level.layers|
    modifies st`currentLayer
    ensures st.currentLayer == idx && CurrentInRange(st)
  {
    st.currentLayer := idx;
  }

  /** A layer's visibility box, applied after the layer bar was drawn. */
  method SetLayerVisibility(st: EditorState, idx: nat, visible: bool)
    modifies st.level`layers
    ensures idx < |old(st.level.layers)| ==>
              st.level.layers == old(st.level.layers)[idx := old(st.level.layers)[idx].(visible := visible)]
    ensures idx >= |old(st.level.layers)| ==> st.level.layers == old(st.level.layers)
  {
    if idx < |st.level.layers| {
      st.level.layers := st.level.layers[idx := st.level.layers[idx].(visible := visible)];
    }
  }

  /** The up arrow of the selected layer `idx`: the selection follows the moved layer. */
  method MoveCurrentLayerUp(st: EditorState, idx: nat)
    modifies st.level`layers, st`currentLayer
    ensures 0 < idx < |old(st.level.layers)| ==>
              && st.level.layers == Swap(old(st.level.layers), idx, idx - 1)
              && st.currentLayer == idx - 1
              && CurrentInRange(st) && st.level.layers[st.currentLayer] == old(st.level.layers)[idx]
    ensures !(0 < idx < |old(st.level.layers)|) ==>
              st.level.layers == old(st.level.layers) && st.currentLayer == old(st.currentLayer)
  {
    var moved := st.level.MoveLayerUp(idx);
    if moved {
      st.currentLayer := idx - 1;
    }
  }

  /** The down arrow of the selected layer `idx`, which is only shown for an existing layer. */
  method MoveCurrentLayerDown(st: EditorState, idx: nat)
    requires idx < |st.level.layers|
    modifies st.level`layers, st`currentLayer
    ensures idx < |old(st.level.layers)| - 1 ==>
              && st.level.layers == Swap(old(st.level.layers), idx, idx + 1)
              && st.currentLayer == idx + 1
              && CurrentInRange(st) && st.level.layers[st.currentLayer] == old(st.level.layers)[idx]
    ensures idx == |old(st.level.layers)| - 1 ==>
              st.level.layers == old(st.level.layers) && st.currentLayer == old(st.currentLayer)
  {
    var moved := st.level.MoveLayerDown(idx);
    if moved {
      st.currentLayer := Min(idx + 1, |st.level.layers| - 1);
    }
  }

  /** "Tout effacer": every layer emptied, names, visibility and count kept. */
  method ClearAllLayers(st: EditorState)
    modifies st.level`layers
    ensures |st.level.layers| == |old(st.level.layers)|
    ensures forall k | 0 <= k < |st.level.layers| :: st.level.layers[k] == old(st.level.layers)[k].Clear()
  {
    var k := 0;
    while k < |st.level.layers|
      invariant k <= |st.level.layers| == |old(st.level.layers)|
      invariant forall i | 0 <= i < k :: st.level.layers[i] == old(st.level.layers)[i].Clear()
      invariant forall i | k <= i < |st.level.layers| :: st.level.layers[i] == old(st.level.layers)[i]
    {
      st.level.layers := st.level.layers[k := st.level.layers[k].Clear()];
      k := k + 1;
    }
  }

  // --- the layer presets

  datatype Preset = RpgStandard | Parallax | Minimal

  function PresetNames(p: Preset): seq<string>
  {
    match p
    case RpgStandard => ["Fond lointain", "Arrière-plan", "Gameplay", "Décorations", "Premier plan"]
    case Parallax => ["Ciel", "Montagnes", "Arbres lointains", "Terrain", "Objets", "Arbres proches", "UI/Overlay"]
    case Minimal => ["Background", "Main", "Foreground"]
  }

  function PresetSelected(p: Preset): nat
  {
    match p
    case RpgStandard => 2
    case Parallax => 3
    case Minimal => 1
  }

  /** New, empty, visible layers with the given names, in order. */
  function NewLayers(names: seq<string>): (ls: seq<Layer>)
    ensures |ls| == |names|
    ensures forall k | 0 <= k < |ls| :: ls[k] == Layer.New(names[k])
  {
    if |names| == 0 then [] else NewLayers(names[..|names| - 1]) + [Layer.New(names[|names| - 1])]
  }

  /** Each preset's selected layer exists and is the one meant for the gameplay: "Gameplay"
      of five, "Terrain" of seven, "Main" of three. */
  lemma PresetLayout(p: Preset)
    ensures PresetSelected(p) < |PresetNames(p)|
    ensures |PresetNames(p)| == (match p case RpgStandard => 5 case Parallax => 7 case Minimal => 3)
    ensures PresetNames(p)[PresetSelected(p)] == (match p case RpgStandard => "Gameplay" case Parallax => "Terrain" case Minimal => "Main")
  {
  }

  /** A preset button: the layer list is replaced by the preset's empty layers and the
      preset's layer is selected. No history snapshot is taken. */
  method ApplyPreset(st: EditorState, p: Preset)
    modifies st.level`layers, st`currentLayer
    ensures st.level.layers == NewLayers(PresetNames(p))
    ensures st.currentLayer == PresetSelected(p) && CurrentInRange(st)
    ensures st.level.layers[st.currentLayer].name == PresetNames(p)[PresetSelected(p)]
  {
    st.level.layers := [];
    match p
    case RpgStandard =>
      st.level.AddLayer("Fond lointain");
      st.level.AddLayer("Arrière-plan");
      st.level.AddLayer("Gameplay");
      st.level.AddLayer("Décorations");
      st.level.AddLayer("Premier plan");
      st.currentLayer := 2;
    case Parallax =>
      st.level.AddLayer("Ciel");
      st.level.AddLayer("Montagnes");
      st.level.AddLayer("Arbres lointains");
      st.level.AddLayer("Terrain");
      st.level.AddLayer("Objets");
      st.level.AddLayer("Arbres proches");
      st.level.AddLayer("UI/Overlay");
      st.currentLayer := 3;
    case Minimal =>
      st.level.AddLayer("Background");
      st.level.AddLayer("Main");
      st.level.AddLayer("Foreground");
      st.currentLayer := 1;
    SameLayers(st.level.layers, NewLayers(PresetNames(p)));
  }

  lemma SameLayers(a: seq<Layer>, b: seq<Layer>)
    requires |a| == |b| && forall k | 0 <= k < |a| :: a[k] == b[k]
    ensures a == b
  {
  }

  // --- "Nouveau"

  /** "Nouveau" under "Fichier": a new 64x48 level of 16-pixel tiles and an empty registry;
      the remembered file is forgotten, while selection, history and notification stay. */
  method NewDocument(st: EditorState)
    requires st.Valid()
    modifies st`level, st`lastLoadedFile, st.assets
    ensures st.Valid() && st.assets.IdsArePositions()
    ensures st.level.Data() == LevelData("Nouveau Niveau", 64, 48, 16, NewLevelLayers)
    ensures st.assets.tilesets == [] && st.assets.tilesetCounter == 0
    ensures st.lastLoadedFile == None
    ensures st.currentLayer == old(st.currentLayer)
    ensures CurrentInRange(st) <==> st.currentLayer < 3
  {
    st.level := new Level("Nouveau Niveau", 64, 48, 16);
    st.assets.Reset();
    st.lastLoadedFile := None;
  }

  // --- loading

  /** `1.min(len - 1)` on `usize` as written: with no layers the subtraction underflows,
      which panics in a debug build and wraps to `usize::MAX` in a release build. */
  function LoadedLayerAsWritten(len: nat): Outcome<nat>
  {
    if len == 0 then Panics else Returns(Min(1, len - 1))
  }

  /** The layer selected after a load: the second when there are two or more, else the
      first; it names a layer exactly when the level has one. */
  function LoadedCurrentLayer(len: nat): (k: nat)
    ensures k < len <==> len > 0
    ensures len >= 2 ==> k == 1
    ensures k <= 1
  {
    if len == 0 then 0 else Min(1, len - 1)
  }

  lemma LoadedLayerAgrees(len: nat)
    ensures len > 0 ==> LoadedLayerAsWritten(len) == Returns(LoadedCurrentLayer(len))
    ensures len == 0 ==> LoadedLayerAsWritten(len) == Panics
  {
  }

  /** The total of the layers' tile counts, shown after a level-only load. */
  function TileTotal(layers: seq<Layer>): nat
  {
    if |layers| == 0 then 0 else TileTotal(layers[..|layers| - 1]) + |layers[|layers| - 1].tiles|
  }

  /** A file of layers holding `n` tiles in all counts `n` tiles, layer after layer. */
  lemma {:induction false} TileTotalAppend(layers: seq<Layer>, more: seq<Layer>)
    ensures TileTotal(layers + more) == TileTotal(layers) + TileTotal(more)
    decreases |more|
  {
    if |more| > 0 {
      var last := more[|more| - 1];
      assert (layers + more)[..|layers + more| - 1] == layers + more[..|more| - 1];
      TileTotalAppend(layers, more[..|more| - 1]);
    } else {
      assert layers + more == layers;
    }
  }

  /** "Niveau seul (.json)" under "Charger": the level file replaces the level and is
      remembered; history, tilesets and selection stay as they are. A file that cannot be
      read or decoded changes only the notification. */
  method FinishLevelLoad(st: EditorState, read: Result<Json, string>, fileName: string)
    modifies st`level, st`lastLoadedFile, st`currentLayer, st`notification
    ensures LoadLevel(read).Ok? ==>
              && st.level.Data() == LoadLevel(read).value
              && st.lastLoadedFile == Some(fileName)
              && st.currentLayer == LoadedCurrentLayer(|LoadLevel(read).value.layers|)
              && st.notification == Some(LevelLoaded(|st.level.layers|, TileTotal(st.level.layers)))
              && (CurrentInRange(st) <==> |st.level.layers| > 0)
    ensures LoadLevel(read).Err? ==>
              && st.level == old(st.level) && st.lastLoadedFile == old(st.lastLoadedFile)
              && st.currentLayer == old(st.currentLayer)
              && st.notification == Some(LoadFailed(LoadLevel(read).error))
  {
    var loaded := LoadLevel(read);
    if loaded.Ok? {
      st.level := new Level.FromData(loaded.value);
      st.lastLoadedFile := Some(fileName);
      st.currentLayer := LoadedCurrentLayer(|st.level.layers|);
      st.notification := Some(LevelLoaded(|st.level.layers|, TileTotal(st.level.layers)));
    } else {
      st.notification := Some(LoadFailed(loaded.error));
    }
  }

  /** The tileset a project entry gives when its image opens with the given size. */
  function ReloadedTileset(m: TilesetMetadata, width: nat, height: nat): Tileset
    requires m.tileWidth > 0 && m.tileHeight > 0
  {
    Tileset(TilesetName(m.path), m.path, m.tileWidth, m.tileHeight, width / m.tileWidth, height / m.tileHeight)
  }

  /** The images the project's entries name, each opened with the entry's tile size. */
  predicate OpensWithTiles(ms: seq<TilesetMetadata>, images: string -> ImageLoad)
  {
    forall k | 0 <= k < |ms| :: images(ms[k].path).Decoded? ==> ms[k].tileWidth > 0 && ms[k].tileHeight > 0
  }

  /** The registry after reloading the entries `ms` in order into an empty one: the entries
      whose image opens, in their order; the others leave no gap. */
  function Reloaded(ms: seq<TilesetMetadata>, images: string -> ImageLoad): (ts: seq<Tileset>)
    requires OpensWithTiles(ms, images)
    ensures |ts| <= |ms|
  {
    if |ms| == 0 then []
    else
      var m := ms[|ms| - 1];
      var image := images(m.path);
      Reloaded(ms[..|ms| - 1], images) + (if image.Decoded? then [ReloadedTileset(m, image.width, image.height)] else [])
  }

  /** Every tileset is back exactly when every image opens. */
  lemma {:induction false} AllReloaded(ms: seq<TilesetMetadata>, images: string -> ImageLoad)
    requires OpensWithTiles(ms, images)
    ensures |Reloaded(ms, images)| == |ms| <==> forall k | 0 <= k < |ms| :: images(ms[k].path).Decoded?
  {
    if |ms| > 0 {
      var init := ms[..|ms| - 1];
      var last := |ms| - 1;
      assert forall k | 0 <= k < |init| :: init[k] == ms[k];
      assert OpensWithTiles(init, images);
      AllReloaded(init, images);
      AllOpenSnoc(ms, images);
      assert AllOpen(init, images) <==> forall k | 0 <= k < |init| :: images(init[k].path).Decoded?;
      if images(ms[last].path).Decoded? {
        assert |Reloaded(ms, images)| == |Reloaded(init, images)| + 1;
      } else {
        assert |Reloaded(ms, images)| == |Reloaded(init, images)| <= |init|;
      }
    }
  }

  /** Every entry's image opens. */
  predicate AllOpen(ms: seq<TilesetMetadata>, images: string -> ImageLoad)
  {
    forall k | 0 <= k < |ms| :: images(ms[k].path).Decoded?
  }

  /** Every image opens exactly when those of all but the last entry do and the last one's does. */
  lemma AllOpenSnoc(ms: seq<TilesetMetadata>, images: string -> ImageLoad)
    requires |ms| > 0
    ensures AllOpen(ms, images) <==> AllOpen(ms[..|ms| - 1], images) && images(ms[|ms| - 1].path).Decoded?
  {
    var init := ms[..|ms| - 1];
    assert forall k | 0 <= k < |init| :: init[k] == ms[k];
  }

  /** Tile references name tilesets by position, and the saved ids are not read back: when
      an earlier image fails to open, the next tileset takes its place. */
  lemma FailedImageShiftsIds(m0: TilesetMetadata, m1: TilesetMetadata, images: string -> ImageLoad)
    requires images(m0.path).Failed? && images(m1.path).Decoded? && m1.tileWidth > 0 && m1.tileHeight > 0
    ensures Reloaded([m0, m1], images) == [ReloadedTileset(m1, images(m1.path).width, images(m1.path).height)]
  {
    assert [m0, m1][..1] == [m0];
    assert [m0][..0] == [];
  }

  /** The loop over the project's entries: each is loaded into the registry from its path
      with its tile size; the count is of those whose image opened. */
  method ReloadTilesets(assets: AssetManager, ms: seq<TilesetMetadata>, images: string -> ImageLoad)
    returns (loadedCount: nat)
    requires assets.Valid() && assets.tilesets == [] && assets.tilesetCounter == 0
    requires OpensWithTiles(ms, images)
    modifies assets
    ensures assets.Valid() && assets.IdsArePositions()
    ensures assets.tilesets == Reloaded(ms, images)
    ensures loadedCount == |assets.tilesets|
  {
    loadedCount := 0;
    var k := 0;
    while k < |ms|
      invariant k <= |ms|
      invariant assets.Valid() && assets.IdsArePositions()
      invariant assets.tilesets == Reloaded(ms[..k], images)
      invariant assets.tilesetCounter == |assets.tilesets| == loadedCount
    {
      var m := ms[k];
      assert ms[..k + 1][..k] == ms[..k];
      var r := assets.LoadTileset(m.path, images(m.path), m.tileWidth, m.tileHeight);
      if r.Ok? {
        loadedCount := loadedCount + 1;
      }
      k := k + 1;
    }
    assert ms[..k] == ms;
  }

  /** "Projet Complet (.editorproj)" under "Charger": the project's level replaces the level,
      the registry is emptied and every tileset reloaded from its path and tile size, and the
      notice says whether all of them came back. History and selection stay as they are. */
  method FinishProjectLoad(st: EditorState, read: Result<Json, string>, fileName: string, images: string -> ImageLoad)
    requires st.Valid()
    requires LoadProject(read).Ok? ==> OpensWithTiles(LoadProject(read).value.tilesets, images)
    modifies st`level, st`lastLoadedFile, st`currentLayer, st`notification, st.assets
    ensures st.Valid()
    ensures LoadProject(read).Ok? ==>
              var p := LoadProject(read).value;
              && st.level.Data() == p.level
              && st.assets.tilesets == Reloaded(p.tilesets, images)
              && st.assets.tilesetCounter == |st.assets.tilesets| && st.assets.IdsArePositions()
              && st.lastLoadedFile == Some(fileName)
              && st.currentLayer == LoadedCurrentLayer(|p.level.layers|)
              && st.notification == Some(if |st.assets.tilesets| == |p.tilesets|
                                         then ProjectLoaded(|p.level.layers|, |p.tilesets|)
                                         else ProjectPartlyLoaded(|st.assets.tilesets|, |p.tilesets|))
    ensures LoadProject(read).Err? ==>
              && st.level == old(st.level) && st.lastLoadedFile == old(st.lastLoadedFile)
              && st.currentLayer == old(st.currentLayer)
              && st.assets.tilesets == old(st.assets.tilesets)
              && st.assets.tilesetCounter == old(st.assets.tilesetCounter)
              && st.notification == Some(LoadFailed(LoadProject(read).error))
  {
    var loaded := LoadProject(read);
    if loaded.Ok? {
      var p := loaded.value;
      st.level := new Level.FromData(p.level);
      st.assets.Reset();
      var loadedCount := ReloadTilesets(st.assets, p.tilesets, images);
      st.lastLoadedFile := Some(fileName);
      st.currentLayer := LoadedCurrentLayer(|st.level.layers|);
      if loadedCount == |p.tilesets| {
        st.notification := Some(ProjectLoaded(|st.level.layers|, loadedCount));
      } else {
        st.notification := Some(ProjectPartlyLoaded(loadedCount, |p.tilesets|));
      }
    } else {
      st.notification := Some(LoadFailed(loaded.error));
    }
  }

  // ---------------------------------------------------------------------------
  // The tile picker

  /** Four tiles to a row of the picker. */
  const TilesPerRow: nat := 4

  /** The button for tile `i` of a tileset `columns` wide: the index, its column and row. */
  function PickerCell(i: nat, columns: nat): (nat, nat, nat)
    requires columns > 0
  {
    (i, i % columns, i / columns)
  }

  /** The picker of a tileset cut into `columns` by `rows`: how many rows it shows, and for
      each button in order the tile index it selects and that tile's column and row in the
      image. */
  method TilePickerCells(columns: nat, rows: nat) returns (rowCount: nat, cells: seq<(nat, nat, nat)>)
    ensures rowCount * TilesPerRow >= columns * rows && (rowCount > 0 ==> (rowCount - 1) * TilesPerRow < columns * rows)
    ensures |cells| == columns * rows
    ensures forall i | 0 <= i < |cells| :: columns > 0 && cells[i] == PickerCell(i, columns)
  {
    var tileCount := columns * rows;
    assert tileCount > 0 ==> columns > 0;
    rowCount := (tileCount + TilesPerRow - 1) / TilesPerRow;
    RowsOfFour(tileCount);
    cells := [];
    var row := 0;
    while row < rowCount
      invariant row <= rowCount
      invariant |cells| == Min(4 * row, tileCount)
      invariant forall i | 0 <= i < |cells| :: columns > 0 && cells[i] == PickerCell(i, columns)
    {
      cells := PickerRow(columns, tileCount, row, cells);
      row := row + 1;
    }
  }

  /** One row of the picker: the buttons of tiles `4 * row` to `4 * row + 3`, those that
      exist, appended to the buttons of the rows above. */
  method PickerRow(columns: nat, tileCount: nat, row: nat, cells: seq<(nat, nat, nat)>) returns (out: seq<(nat, nat, nat)>)
    requires tileCount > 0 ==> columns > 0
    requires |cells| == Min(4 * row, tileCount)
    requires forall i | 0 <= i < |cells| :: columns > 0 && cells[i] == PickerCell(i, columns)
    ensures |out| == Min(4 * row + 4, tileCount)
    ensures forall i | 0 <= i < |out| :: columns > 0 && out[i] == PickerCell(i, columns)
  {
    out := cells;
    var col := 0;
    while col < TilesPerRow
      invariant col <= 4
      invariant |out| == Min(4 * row + col, tileCount)
      invariant forall i | 0 <= i < |out| :: columns > 0 && out[i] == PickerCell(i, columns)
    {
      var tileIndex := 4 * row + col;
      if tileIndex >= tileCount {
        break;
      }
      out := out + [(tileIndex, tileIndex % columns, tileIndex / columns)];
      col := col + 1;
    }
  }

  /** Rows of four hold `n` tiles, the last row possibly short. */
  lemma RowsOfFour(n: nat)
    ensures 4 * ((n + 3) / 4) >= n
    ensures (n + 3) / 4 > 0 ==> 4 * ((n + 3) / 4 - 1) < n
  {
  }

  /** Every tile the picker offers lies inside the image's grid. */
  lemma PickerCellInGrid(columns: nat, rows: nat, i: nat)
    requires i < columns * rows
    ensures columns > 0 && i % columns < columns && i / columns < rows
  {
  }
}
