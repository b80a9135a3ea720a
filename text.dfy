/** The text routines of the Rust and Python standard libraries that the editor and its two
    importers rely on, stated over `string` (a sequence of Unicode scalar values):
    Rust's `{}` formatting of integers, `str::parse::<i32>`, `str::split`, `str::trim`,
    `str::trim_start_matches`, `u8::from_str_radix(_, 16)` and UTF-8 byte offsets, and
    Python's `int(str)` and `str.split`. */
module Text {

  datatype Option<T> = None | Some(value: T)

  datatype Result<T, E> = Ok(value: T) | Err(error: E)

  type byte = x: int | 0 <= x < 256

  const MinI32: int := -0x8000_0000
  const MaxI32: int := 0x7FFF_FFFF

  predicate InI32(x: int) { MinI32 <= x <= MaxI32 }

  function Min(a: int, b: int): int { if a <= b then a else b }
  function Max(a: int, b: int): int { if a <= b then b else a }
  function Abs(a: int): nat { if a < 0 then -a else a }

  // ---------------------------------------------------------------------------
  // Decimal digits

  predicate IsDigit(c: char) { '0' <= c <= '9' }

  function DigitValue(c: char): (d: nat)
    requires IsDigit(c)
    ensures d < 10
  {
    c as int - '0' as int
  }

  function DigitChar(d: nat): (c: char)
    requires d < 10
    ensures IsDigit(c) && DigitValue(c) == d
  {
    (d + '0' as int) as char
  }

  predicate AllDigits(s: string) { forall i | 0 <= i < |s| :: IsDigit(s[i]) }

  /** The value of a string of decimal digits, most significant digit first. */
  function DigitsValue(s: string): nat
    requires AllDigits(s)
  {
    if |s| == 0 then 0 else DigitsValue(s[..|s| - 1]) * 10 + DigitValue(s[|s| - 1])
  }

  /** The decimal digits of `n`, without leading zeros. */
  function Decimal(n: nat): (s: string)
    ensures 1 <= |s| && AllDigits(s)
    ensures s[0] == '0' ==> n == 0
  {
    if n < 10 then [DigitChar(n)] else Decimal(n / 10) + [DigitChar(n % 10)]
  }

  /** An integer as both `format!("{}", x)` in Rust and `f"{x}"` in Python print it. */
  function FormatInt(x: int): (s: string)
    ensures 1 <= |s|
    ensures forall i | 0 <= i < |s| :: IsDigit(s[i]) || (i == 0 && s[i] == '-')
    ensures IsDigit(s[|s| - 1])
  {
    if x < 0 then "-" + Decimal(-x) else Decimal(x)
  }

  lemma {:induction false} DecimalValue(n: nat)
    ensures DigitsValue(Decimal(n)) == n
  {
    if n >= 10 {
      DecimalValue(n / 10);
      var s := Decimal(n);
      assert s[..|s| - 1] == Decimal(n / 10);
    }
  }

  /** Distinct integers print differently. */
  lemma FormatIntInjective(a: int, b: int)
    ensures FormatInt(a) == FormatInt(b) ==> a == b
  {
    if FormatInt(a) == FormatInt(b) {
      DecimalValue(Abs(a));
      DecimalValue(Abs(b));
      if a < 0 && b < 0 {
        assert Decimal(-a) == FormatInt(a)[1..];
        assert Decimal(-b) == FormatInt(b)[1..];
      }
    }
  }

  // ---------------------------------------------------------------------------
  // Rust `str::parse::<i32>`

  /** Rust's `str::parse::<i32>`: an optional `+` or `-`, then one or more ASCII digits, and a
      value that fits in 32 bits; anything else is an error (`None`). */
  function ParseI32(s: string): (r: Option<int>)
    ensures r.Some? ==> InI32(r.value)
    ensures r.Some? ==> 1 <= |s|
  {
    var negative := |s| > 0 && s[0] == '-';
    var digits := if |s| > 0 && (s[0] == '+' || s[0] == '-') then s[1..] else s;
    if |digits| == 0 || !AllDigits(digits) then None
    else
      var v: int := if negative then -(DigitsValue(digits) as int) else DigitsValue(digits);
      if InI32(v) then Some(v) else None
  }

  /** Every 32-bit integer survives printing and parsing back; any other integer prints as
      something `parse::<i32>` rejects. */
  lemma ParseFormatI32(x: int)
    ensures ParseI32(FormatInt(x)) == if InI32(x) then Some(x) else None
  {
    DecimalValue(Abs(x));
    if x < 0 {
      assert FormatInt(x)[1..] == Decimal(-x);
    }
  }

  // ---------------------------------------------------------------------------
  // Splitting on a one-character separator

  function Count(s: string, c: char): nat
  {
    if |s| == 0 then 0 else (if s[0] == c then 1 else 0) + Count(s[1..], c)
  }

  /** Rust's `str::split(c)` and Python's `str.split(c)`: the pieces between occurrences of
      `c`, empty pieces included. */
  function Split(s: string, sep: char): (parts: seq<string>)
    ensures |parts| >= 1
  {
    if |s| == 0 then [""]
    else
      var rest := Split(s[1..], sep);
      if s[0] == sep then [""] + rest else [[s[0]] + rest[0]] + rest[1..]
  }

  /** There is one more piece than there are separators, and no piece holds a separator. */
  lemma {:induction false} SplitShape(s: string, sep: char)
    ensures |Split(s, sep)| == Count(s, sep) + 1
    ensures forall k | 0 <= k < |Split(s, sep)| :: sep !in Split(s, sep)[k]
  {
    if |s| > 0 {
      SplitShape(s[1..], sep);
      var rest := Split(s[1..], sep);
      if s[0] != sep {
        var first := [s[0]] + rest[0];
        assert sep !in first by {
          forall i | 0 <= i < |first| ensures first[i] != sep {
            if i > 0 { assert first[i] == rest[0][i - 1]; }
          }
        }
      }
    }
  }

  lemma {:induction false} SplitNoSep(s: string, sep: char)
    requires sep !in s
    ensures Split(s, sep) == [s]
  {
    if |s| > 0 {
      SplitNoSep(s[1..], sep);
      assert [s[0]] + s[1..] == s;
    }
  }

  /** Two separator-free pieces joined by the separator split back into exactly those pieces. */
  lemma {:induction false} SplitPair(a: string, b: string, sep: char)
    requires sep !in a && sep !in b
    ensures Split(a + [sep] + b, sep) == [a, b]
  {
    if |a| == 0 {
      assert a + [sep] + b == [sep] + b;
      assert ([sep] + b)[1..] == b;
      SplitNoSep(b, sep);
    } else {
      SplitPair(a[1..], b, sep);
      assert (a + [sep] + b)[1..] == a[1..] + [sep] + b;
      assert [a[0]] + a[1..] == a;
    }
  }

  // ---------------------------------------------------------------------------
  // Trimming

  /** Rust's `char::is_whitespace`: the Unicode White_Space property. */
  predicate IsRustWhitespace(c: char)
  {
    ('\t' <= c <= '\r') || c == ' ' || c == '\U{85}' || c == '\U{A0}' || c == '\U{1680}'
    || ('\U{2000}' <= c <= '\U{200A}') || c == '\U{2028}' || c == '\U{2029}'
    || c == '\U{202F}' || c == '\U{205F}' || c == '\U{3000}'
  }

  /** Python's `str.isspace` on one character: White_Space plus the four separators U+001C..U+001F. */
  predicate IsPySpace(c: char)
  {
    IsRustWhitespace(c) || ('\U{1C}' <= c <= '\U{1F}')
  }

  function TrimStartWith(s: string, drop: char -> bool): (r: string)
    ensures |r| <= |s| && r == s[|s| - |r|..]
    ensures |r| > 0 ==> !drop(r[0])
    ensures forall i | 0 <= i < |s| - |r| :: drop(s[i])
  {
    if |s| > 0 && drop(s[0]) then TrimStartWith(s[1..], drop) else s
  }

  function TrimEndWith(s: string, drop: char -> bool): (r: string)
    ensures |r| <= |s| && r == s[..|r|]
    ensures |r| > 0 ==> !drop(r[|r| - 1])
    ensures forall i | |r| <= i < |s| :: drop(s[i])
  {
    if |s| > 0 && drop(s[|s| - 1]) then TrimEndWith(s[..|s| - 1], drop) else s
  }

  lemma TrimStartKeeps(s: string, drop: char -> bool)
    requires |s| == 0 || !drop(s[0])
    ensures TrimStartWith(s, drop) == s
  {
  }

  lemma TrimEndKeeps(s: string, drop: char -> bool)
    requires |s| == 0 || !drop(s[|s| - 1])
    ensures TrimEndWith(s, drop) == s
  {
  }

  lemma TrimStartStep(s: string, drop: char -> bool)
    requires |s| > 0 && drop(s[0])
    ensures TrimStartWith(s, drop) == TrimStartWith(s[1..], drop)
  {
  }

  lemma TrimEndStep(s: string, drop: char -> bool)
    requires |s| > 0 && drop(s[|s| - 1])
    ensures TrimEndWith(s, drop) == TrimEndWith(s[..|s| - 1], drop)
  {
  }

  /** Trimming the front of text with one more droppable character at its end keeps that
      character, unless nothing was left. */
  lemma {:induction false} TrimStartSnoc(s: string, c: char, drop: char -> bool)
    requires drop(c)
    ensures TrimStartWith(s + [c], drop) ==
            (if |TrimStartWith(s, drop)| == 0 then [] else TrimStartWith(s, drop) + [c])
  {
    if |s| == 0 {
      assert s + [c] == [c] && [c][1..] == [];
    } else if drop(s[0]) {
      assert (s + [c])[1..] == s[1..] + [c];
      TrimStartSnoc(s[1..], c, drop);
    }
  }

  /** Rust's `str::trim`. */
  function RustTrim(s: string): string
  {
    TrimEndWith(TrimStartWith(s, IsRustWhitespace), IsRustWhitespace)
  }

  /** Python's `str.strip()` with no argument. */
  function PyStrip(s: string): string
  {
    TrimEndWith(TrimStartWith(s, IsPySpace), IsPySpace)
  }

  /** Rust's `str::trim_start_matches(c)`: every leading `c` removed. */
  function TrimStartMatches(s: string, c: char): string
  {
    TrimStartWith(s, x => x == c)
  }

  lemma TrimStartMatchesNone(s: string, c: char)
    requires |s| == 0 || s[0] != c
    ensures TrimStartMatches(s, c) == s
  {
  }

  lemma TrimStartMatchesStep(s: string, c: char)
    requires |s| > 0 && s[0] == c
    ensures TrimStartMatches(s, c) == TrimStartMatches(s[1..], c)
  {
  }

  lemma TrimStartMatchesOne(s: string, c: char)
    requires |s| > 0 && s[0] == c && (|s| == 1 || s[1] != c)
    ensures TrimStartMatches(s, c) == s[1..]
  {
    assert TrimStartMatches(s, c) == TrimStartMatches(s[1..], c);
  }

  // ---------------------------------------------------------------------------
  // Python `int(str)`

  /** The digit part Python's `int` accepts in base 10: digits, with single underscores
      allowed between two digits. */
  predicate PyDigitString(s: string)
  {
    && |s| > 0 && IsDigit(s[0]) && IsDigit(s[|s| - 1])
    && (forall i | 0 <= i < |s| :: IsDigit(s[i]) || s[i] == '_')
    && (forall i | 0 <= i < |s| - 1 :: s[i] == '_' ==> s[i + 1] != '_')
  }

  function WithoutUnderscores(s: string): (r: string)
    ensures (forall i | 0 <= i < |s| :: IsDigit(s[i]) || s[i] == '_') ==> AllDigits(r)
    ensures AllDigits(s) ==> r == s
  {
    if |s| == 0 then ""
    else (if s[0] == '_' then "" else [s[0]]) + WithoutUnderscores(s[1..])
  }

  /** Python's `int(s)` for a `str` in base 10: surrounding whitespace is ignored, an optional
      sign, then a digit string; anything else raises `ValueError` (`None`). */
  function PyParseInt(s: string): Option<int>
  {
    PyParseStrippedText(PyStrip(s))
  }

  /** `int` once the surrounding blanks are gone: an optional sign, then a digit string. */
  function PyParseStrippedText(t: string): Option<int>
  {
    var body := if |t| > 0 && (t[0] == '+' || t[0] == '-') then t[1..] else t;
    if !PyDigitString(body) then None
    else
      var v: int := DigitsValue(WithoutUnderscores(body));
      Some(if t[0] == '-' then -v else v)
  }

  /** Python reads back every integer it prints. */
  lemma {:induction false} PyParseFormat(x: int)
    ensures PyParseInt(FormatInt(x)) == Some(x)
  {
    PyStripFormat(x);
    DigitsArePyDigits(Decimal(Abs(x)));
    DecimalValue(Abs(x));
    if x < 0 {
      PyParseNegative(x);
    } else {
      PyParseSigned(FormatInt(x), Decimal(x), false);
    }
  }

  lemma PyParseNegative(x: int)
    requires x < 0
    requires PyStrip(FormatInt(x)) == FormatInt(x)
    requires PyDigitString(Decimal(-x)) && WithoutUnderscores(Decimal(-x)) == Decimal(-x)
    requires DigitsValue(Decimal(-x)) == -x
    ensures PyParseInt(FormatInt(x)) == Some(x)
  {
    var s := FormatInt(x);
    var body := Decimal(-x);
    assert s == "-" + body;
    assert s[1..] == body;
    PyParseSigned(s, body, true);
  }

  lemma PyParseSigned(s: string, body: string, negative: bool)
    requires PyStrip(s) == s && |s| >= 1
    requires negative ==> s[0] == '-' && body == s[1..]
    requires !negative ==> IsDigit(s[0]) && body == s
    requires PyDigitString(body) && WithoutUnderscores(body) == body && AllDigits(body)
    ensures PyParseInt(s) == Some(if negative then -(DigitsValue(body) as int) else DigitsValue(body))
  {
    assert PyParseInt(s) == PyParseStrippedText(s);
    StrippedTextBody(s, body);
  }

  lemma {:induction false} PyStripFormat(x: int)
    ensures PyStrip(FormatInt(x)) == FormatInt(x)
  {
    var s := FormatInt(x);
    assert !IsPySpace(s[0]);
    assert TrimStartWith(s, IsPySpace) == s;
    assert !IsPySpace(s[|s| - 1]);
  }

  /** A string that neither starts nor ends with white space is left as it is by `strip`. */
  lemma PyStripNone(s: string)
    requires |s| > 0 && !IsPySpace(s[0]) && !IsPySpace(s[|s| - 1])
    ensures PyStrip(s) == s
  {
    assert TrimStartWith(s, IsPySpace) == s;
  }

  /** Python's `int` reads every string Rust's `parse::<i32>` reads, to the same value. */
  lemma ParseI32ThenPy(s: string)
    requires ParseI32(s).Some?
    ensures PyParseInt(s) == ParseI32(s)
  {
    var digits := if s[0] == '+' || s[0] == '-' then s[1..] else s;
    ParseI32Shape(s, digits);
    PyStripNone(s);
    DigitsArePyDigits(digits);
    PyParseBody(s, digits);
  }

  /** What `parse::<i32>` accepted: an optional sign, then digits, and their value. */
  lemma ParseI32Shape(s: string, digits: string)
    requires ParseI32(s).Some?
    requires digits == if s[0] == '+' || s[0] == '-' then s[1..] else s
    ensures 1 <= |digits| && AllDigits(digits) && !IsPySpace(s[0]) && !IsPySpace(s[|s| - 1])
    ensures ParseI32(s) == Some(if s[0] == '-' then -(DigitsValue(digits) as int) else DigitsValue(digits))
  {
    assert digits[|digits| - 1] == s[|s| - 1];
  }

  /** `int` sees a string only once it is stripped. */
  lemma PyParseStripped(s: string, t: string)
    requires PyStrip(s) == PyStrip(t)
    ensures PyParseInt(s) == PyParseInt(t)
  {
  }

  /** `int` of a string without surrounding blanks, made of an optional sign and digits. */
  lemma PyParseBody(s: string, digits: string)
    requires |s| > 0 && PyStrip(s) == s
    requires digits == if s[0] == '+' || s[0] == '-' then s[1..] else s
    requires AllDigits(digits) && PyDigitString(digits) && WithoutUnderscores(digits) == digits
    ensures PyParseInt(s) == Some(if s[0] == '-' then -(DigitsValue(digits) as int) else DigitsValue(digits))
  {
    assert PyParseInt(s) == PyParseStrippedText(s);
    StrippedTextBody(s, digits);
  }

  /** `int` of stripped text whose part after the sign is a digit string. */
  lemma StrippedTextBody(t: string, body: string)
    requires |t| > 0 && body == (if t[0] == '+' || t[0] == '-' then t[1..] else t) && PyDigitString(body)
    ensures PyParseStrippedText(t) ==
            Some(if t[0] == '-' then -(DigitsValue(WithoutUnderscores(body)) as int) else DigitsValue(WithoutUnderscores(body)))
  {
  }

  lemma DigitsArePyDigits(s: string)
    requires 1 <= |s| && AllDigits(s)
    ensures PyDigitString(s) && WithoutUnderscores(s) == s
  {
  }

  // ---------------------------------------------------------------------------
  // Hexadecimal

  predicate IsHexDigit(c: char) { IsDigit(c) || ('a' <= c <= 'f') || ('A' <= c <= 'F') }

  function HexValue(c: char): (d: nat)
    requires IsHexDigit(c)
    ensures d < 16
  {
    if IsDigit(c) then DigitValue(c)
    else if 'a' <= c <= 'f' then c as int - 'a' as int + 10
    else c as int - 'A' as int + 10
  }

  /** The upper-case hexadecimal digit of `d`, as `{:X}` prints it. */
  function HexDigit(d: nat): (c: char)
    requires d < 16
    ensures IsHexDigit(c) && HexValue(c) == d
    ensures !('a' <= c <= 'f')
  {
    if d < 10 then DigitChar(d) else (d - 10 + 'A' as int) as char
  }

  predicate AllHex(s: string) { forall i | 0 <= i < |s| :: IsHexDigit(s[i]) }

  function HexDigitsValue(s: string): nat
    requires AllHex(s)
  {
    if |s| == 0 then 0 else HexDigitsValue(s[..|s| - 1]) * 16 + HexValue(s[|s| - 1])
  }

  /** Rust's `u8::from_str_radix(s, 16)`: an optional `+`, then one or more hexadecimal digits
      of either case, and a value below 256. */
  function ParseU8Hex(s: string): (r: Option<byte>)
    ensures r.Some? ==> 1 <= |s|
  {
    var digits := if |s| > 0 && s[0] == '+' then s[1..] else s;
    if |digits| == 0 || !AllHex(digits) then None
    else if HexDigitsValue(digits) < 256 then Some(HexDigitsValue(digits))
    else None
  }

  /** A byte as two upper-case hexadecimal digits, as `{:02X}` prints it. */
  function Hex2(b: byte): (s: string)
    ensures |s| == 2 && AllHex(s)
    ensures !('a' <= s[0] <= 'f') && !('a' <= s[1] <= 'f')
  {
    [HexDigit(b / 16), HexDigit(b % 16)]
  }

  lemma Hex2Value(b: byte)
    ensures HexDigitsValue(Hex2(b)) == b
  {
    var s := Hex2(b);
    assert s[..1] == [s[0]];
    assert s[..1][..0] == [];
    assert HexDigitsValue(s[..1]) == HexValue(s[0]);
    assert HexDigitsValue(s) == HexValue(s[0]) * 16 + HexValue(s[1]);
  }

  lemma ParseHex2(b: byte)
    ensures HexDigitsValue(Hex2(b)) == b
    ensures ParseU8Hex(Hex2(b)) == Some(b)
  {
    Hex2Value(b);
  }

  // ---------------------------------------------------------------------------
  // UTF-8 byte offsets, which Rust's `str::len` and `&s[i..j]` use

  function Utf8Len(c: char): nat
  {
    if c < '\U{80}' then 1 else if c < '\U{800}' then 2 else if c < '\U{10000}' then 3 else 4
  }

  function ByteLen(s: string): nat
  {
    if |s| == 0 then 0 else Utf8Len(s[0]) + ByteLen(s[1..])
  }

  predicate IsAscii(s: string) { forall i | 0 <= i < |s| :: s[i] < '\U{80}' }

  /** The character index at which byte offset `b` falls on a character boundary of `s`, or
      `None` when `b` is inside a character or past the end (where Rust's slicing panics). */
  function CharIndexOfByte(s: string, b: nat): (r: Option<nat>)
    ensures r.Some? ==> r.value <= |s|
  {
    if b == 0 then Some(0)
    else if |s| == 0 || b < Utf8Len(s[0]) then None
    else match CharIndexOfByte(s[1..], b - Utf8Len(s[0]))
      case Some(k) => Some(k + 1)
      case None => None
  }

  /** In an ASCII string bytes and characters coincide. */
  lemma {:induction false} AsciiOffsets(s: string, b: nat)
    requires IsAscii(s) && b <= |s|
    ensures ByteLen(s) == |s|
    ensures CharIndexOfByte(s, b) == Some(b)
  {
    if |s| > 0 {
      AsciiOffsets(s[1..], if b == 0 then 0 else b - 1);
    }
  }
}
