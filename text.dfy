// The text helpers of Lib/Text.cpp that compute rather than draw: Nice, which trims a formatted
// number in its static buffer; the width of a text, both in the build without FreeType (a fixed
// width per character) and with FreeType (the sum of the glyph advances); and the pen position
// RenderText returns after placing each glyph.
//
// vsnprintf and sprintf are not part of this model: each operation takes the formatted text. The
// FreeType font is a Font value holding, per character code, the glyph's advance in 1/64 pixel.

module Text {
  import opened Vectors

  // ---------------------------------------------------------------- Nice

  /** The float constant .1f, exactly. */
  const PointOne: real := 0.100000001490116119384765625

  function Fabs(f: real): real { if f < 0.0 then -f else f }

  /** The number of decimals Nice asks sprintf for: "%.1f" above 1 in magnitude, "%.2f" above .1f,
      "%.3f" otherwise. */
  function Precision(f: real): (p: nat)
    ensures 1 <= p <= 3
    ensures p == 1 <==> Fabs(f) > 1.0
    ensures p == 2 <==> PointOne < Fabs(f) <= 1.0
    ensures p == 3 <==> Fabs(f) <= PointOne
  {
    if Fabs(f) > 1.0 then 1 else if Fabs(f) > PointOne then 2 else 3
  }

  /** Larger magnitudes never get more decimals. */
  lemma PrecisionFallsWithMagnitude(f: real, g: real)
    requires Fabs(f) <= Fabs(g)
    ensures Precision(g) <= Precision(f)
  {
  }

  /** strlen: the index of the first NUL. */
  function Strlen(b: seq<char>): (n: nat)
    requires '\0' in b
    ensures n < |b| && b[n] == '\0'
    ensures forall i :: 0 <= i < n ==> b[i] != '\0'
  {
    if b[0] == '\0' then 0 else 1 + Strlen(b[1..])
  }

  /** The C string a buffer holds: everything before the first NUL. */
  function CString(b: seq<char>): (s: string)
    requires '\0' in b
    ensures '\0' !in s && |s| < |b|
  {
    b[..Strlen(b)]
  }

  /** Nice's first loop, on the string: trailing '0's go one at a time while more than one
      character is left. */
  function TrimZeros(s: string): (r: string)
  {
    if |s| > 1 && s[|s| - 1] == '0' then TrimZeros(s[..|s| - 1]) else s
  }

  /** A final '.' is dropped when something is left before it. */
  function TrimDot(s: string): (r: string)
  {
    if |s| > 1 && s[|s| - 1] == '.' then s[..|s| - 1] else s
  }

  function Trimmed(s: string): string { TrimDot(TrimZeros(s)) }

  /** The start Nice chooses in the trimmed text u: "-0..." loses its '0' (buf[1] becomes '-'
      and the result starts there), a leading '0' is dropped when more follows, and "-0" becomes
      "0". */
  function DropLeadingZero(u: string): (r: string)
  {
    if |u| > 2 && u[0] == '-' && u[1] == '0' then ['-'] + u[2..]
    else if |u| > 2 && u[0] == '0' then u[1..]
    else if |u| == 2 && u[0] == '-' && u[1] == '0' then u[1..]
    else u
  }

  /** The string Nice returns for the formatted text s. */
  function NiceSpec(s: string): (r: string)
  {
    DropLeadingZero(Trimmed(s))
  }

  /** The zero loop leaves a prefix of s followed only by zeros, and stops at a string of length
      at most 1 or one whose last character is not '0'. */
  lemma {:induction false} TrimZerosStops(s: string)
    ensures var r := TrimZeros(s);
      && r <= s
      && (forall i :: |r| <= i < |s| ==> s[i] == '0')
      && (|r| <= 1 || r[|r| - 1] != '0')
      && (|s| >= 1 ==> |r| >= 1)
  {
    if |s| > 1 && s[|s| - 1] == '0' {
      TrimZerosStops(s[..|s| - 1]);
    }
  }

  /** Trimming keeps a non-empty prefix of a non-empty string; the dot goes only when it is not
      the whole string. */
  lemma TrimmedIsPrefix(s: string)
    ensures Trimmed(s) <= s
    ensures |s| >= 1 ==> |Trimmed(s)| >= 1
    ensures |Trimmed(s)| < |TrimZeros(s)| ==> |TrimZeros(s)| > 1 && TrimZeros(s)[|TrimZeros(s)| - 1] == '.'
  {
    TrimZerosStops(s);
  }

  /** The result is what is left of the trimmed buffer from where Nice starts it: a suffix of
      the trimmed string, or, for "-0...", a suffix whose first character, the '0', was
      overwritten by '-'. It is never longer than the formatted text, and it loses at most one
      more character than trimming does. */
  lemma NiceIsSuffix(s: string)
    ensures var u, r := Trimmed(s), NiceSpec(s);
      && |r| <= |u| <= |s|
      && |u| <= |r| + 1
      && (r == u[|u| - |r|..] || (|r| >= 1 && r[0] == '-' && r[1..] == u[|u| - |r| + 1..]))
  {
    TrimmedIsPrefix(s);
    var u, r := Trimmed(s), NiceSpec(s);
    if |u| > 2 && u[0] == '-' && u[1] == '0' {
      assert r == ['-'] + u[2..] && r[1..] == u[2..];
    } else if |u| > 2 && u[0] == '0' {
      assert r == u[1..];
    } else if |u| == 2 && u[0] == '-' && u[1] == '0' {
      assert r == u[1..];
    } else {
      assert r == u && u[0..] == u;
    }
  }

  /** Nice drops the zero before the point: "-0.5" gives "-.5" and "0.25" gives ".25". */
  lemma NiceDropsLeadingZero()
    ensures NiceSpec("-0.5") == "-.5"
    ensures NiceSpec("0.25") == ".25"
  {
    assert TrimZeros("-0.5") == "-0.5";
    assert TrimZeros("0.25") == "0.25";
  }

  /** Every zero comes out as "0": "0.000", "-0.000", and "-0." (the dot goes, and then "-0"
      becomes "0"). */
  lemma NiceOfZero()
    ensures NiceSpec("0.000") == "0"
    ensures NiceSpec("-0.000") == "0"
    ensures NiceSpec("-0.") == "0"
  {
    assert "0.000"[..4] == "0.00" && "0.00"[..3] == "0.0" && "0.0"[..2] == "0.";
    assert TrimZeros("0.000") == TrimZeros("0.00") == TrimZeros("0.0") == "0.";
    assert "-0.000"[..5] == "-0.00" && "-0.00"[..4] == "-0.0" && "-0.0"[..3] == "-0.";
    assert TrimZeros("-0.000") == TrimZeros("-0.00") == TrimZeros("-0.0") == "-0.";
    assert "-0."[..2] == "-0";
  }

  /** A whole number loses its fraction: "10.0" gives "10", keeping the zero before the point. */
  lemma NiceOfWholeNumber()
    ensures NiceSpec("10.0") == "10"
  {
    assert "10.0"[..3] == "10.";
    assert TrimZeros("10.0") == "10.";
  }

  /** Writing a NUL at the end of the string shortens it by one. */
  lemma CutLast(b: seq<char>, c: char)
    requires '\0' in b && Strlen(b) > 0 && c == '\0'
    ensures '\0' in b[Strlen(b) - 1 := c]
    ensures CString(b[Strlen(b) - 1 := c]) == CString(b)[..Strlen(b) - 1]
  {
    var n := Strlen(b);
    var b' := b[n - 1 := c];
    StrlenIs(b', n - 1);
  }

  /** Overwriting a character of the string with another non-NUL keeps its length. */
  lemma Overwrite(b: seq<char>, i: nat, c: char)
    requires '\0' in b && i < Strlen(b) && c != '\0'
    ensures '\0' in b[i := c]
    ensures CString(b[i := c]) == CString(b)[i := c]
  {
    StrlenIs(b[i := c], Strlen(b));
  }

  /** The first NUL is at n when there is one at n and none before. */
  lemma {:induction false} StrlenIs(b: seq<char>, n: nat)
    requires n < |b| && b[n] == '\0' && forall i :: 0 <= i < n ==> b[i] != '\0'
    ensures '\0' in b && Strlen(b) == n
  {
    if n > 0 {
      StrlenIs(b[1..], n - 1);
    }
  }

  /** Nice(f), from the point where sprintf has written the formatted f into the static buffer:
      trailing zeros are cut, then a trailing '.', then the start is chosen. The result is the
      string from that start. */
  method Nice(buf: array<char>) returns (r: string)
    requires buf.Length == 100 && '\0' in buf[..]
    modifies buf
    ensures r == NiceSpec(old(CString(buf[..])))
  {
    CutZeros(buf);
    CutDot(buf);
    r := SkipLeadingZero(buf);
  }

  /** The three tests on the start of the trimmed buffer, and the string from the chosen start. */
  method SkipLeadingZero(buf: array<char>) returns (r: string)
    requires '\0' in buf[..]
    modifies buf
    ensures r == DropLeadingZero(old(CString(buf[..])))
  {
    ghost var u := CString(buf[..]);
    var t := 0;
    if Strlen(buf[..]) > 2 && buf[0] == '-' && buf[1] == '0' {
      Overwrite(buf[..], 1, '-');
      buf[1] := '-';
      t := 1;
    }
    if Strlen(buf[..]) > 2 && buf[0] == '0' {
      t := 1;
    }
    if Strlen(buf[..]) == 2 && buf[0] == '-' && buf[1] == '0' {
      t := 1;
    }
    r := buf[t..Strlen(buf[..])];
    assert |u| > 2 && u[0] == '-' && u[1] == '0' ==> r == ['-'] + u[2..];
  }

  /** Nice's first loop on the buffer: while the C string is longer than 1 and ends in '0', a NUL
      overwrites that last '0'. */
  method CutZeros(buf: array<char>)
    requires '\0' in buf[..]
    modifies buf
    ensures '\0' in buf[..] && CString(buf[..]) == TrimZeros(old(CString(buf[..])))
  {
    ghost var s := CString(buf[..]);
    while Strlen(buf[..]) > 1 && buf[Strlen(buf[..]) - 1] == '0'
      invariant '\0' in buf[..]
      invariant TrimZeros(CString(buf[..])) == TrimZeros(s)
      decreases Strlen(buf[..])
    {
      CutLast(buf[..], '\0');
      buf[Strlen(buf[..]) - 1] := '\0';
    }
  }

  /** Nice's dot test on the buffer: a C string longer than 1 that ends in '.' has a NUL
      written over that '.'. */
  method CutDot(buf: array<char>)
    requires '\0' in buf[..]
    modifies buf
    ensures '\0' in buf[..] && CString(buf[..]) == TrimDot(old(CString(buf[..])))
  {
    if Strlen(buf[..]) > 1 && buf[Strlen(buf[..]) - 1] == '.' {
      CutLast(buf[..], '\0');
      buf[Strlen(buf[..]) - 1] := '\0';
    }
  }

  // ---------------------------------------------------------------- width without FreeType

  /** The formatted text as it lands in char text[500]: vsnprintf keeps at most 499 characters. */
  function InBuffer(formatted: string): (t: string)
    ensures |t| <= 499 && t <= formatted
    ensures |formatted| <= 499 ==> t == formatted
  {
    if |formatted| <= 499 then formatted else formatted[..499]
  }

  /** TextWidth(float scale, format, ...) without FreeType: scale times the number of
      characters in the buffer. */
  function FixedTextWidth(scale: real, formatted: string): (w: real)
  {
    scale * (|InBuffer(formatted)| as real)
  }

  /** Every character is scale wide: the width of a concatenation that fits the buffer is the
      sum of the widths, and the empty text has width 0. */
  lemma FixedTextWidthAdds(scale: real, a: string, b: string)
    requires |a + b| <= 499
    ensures FixedTextWidth(scale, a + b) == FixedTextWidth(scale, a) + FixedTextWidth(scale, b)
    ensures FixedTextWidth(scale, "") == 0.0
  {
    assert (|a + b| as real) == (|a| as real) + (|b| as real);
  }

  /** A text longer than the buffer is measured as its first 499 characters. */
  lemma FixedTextWidthIsBounded(scale: real, formatted: string)
    requires scale >= 0.0
    ensures 0.0 <= FixedTextWidth(scale, formatted) <= scale * 499.0
  {
  }

  /** The conversion (int) x of a float: truncation toward zero. */
  function Truncate(x: real): (n: int)
    ensures x >= 0.0 ==> n as real <= x < n as real + 1.0
    ensures x < 0.0 ==> n as real - 1.0 < x <= n as real
  {
    if x >= 0.0 then x.Floor else -((-x).Floor)
  }

  /** TextWidth(int scale, format, ...) without FreeType: the float width, truncated. */
  function FixedTextWidthInt(scale: int, formatted: string): (w: int)
  {
    Truncate(FixedTextWidth(scale as real, formatted))
  }

  /** With an integer scale the float width is already whole, so the int overload returns it
      exactly: scale times the number of characters. */
  lemma FixedTextWidthIntIsExact(scale: int, formatted: string)
    ensures FixedTextWidthInt(scale, formatted) == scale * |InBuffer(formatted)|
  {
    var n := |InBuffer(formatted)|;
    assert FixedTextWidth(scale as real, formatted) == (scale * n) as real;
  }

  // ---------------------------------------------------------------- FreeType width and pen

  /** The loaded font: charRes and, for each character code, the glyph's advance in 1/64 pixel. */
  datatype Font = Font(charRes: int, advance: seq<int>)

  datatype Option<T> = None | Some(value: T)

  /** The text is a whole C string, with no NUL inside it where the loops over it would stop,
      and the font has a glyph for every character code of it. */
  predicate Covers(font: Font, text: string)
  {
    forall i :: 0 <= i < |text| ==> text[i] != '\0' && text[i] as int < |font.advance|
  }

  /** advance >> 6 on an int: an arithmetic shift, so the floor of advance / 64. */
  function Shr6(a: int): (r: int)
    ensures r * 64 <= a < r * 64 + 64
  {
    a / 64
  }

  /** The whole pixels of advance of the text, summed character by character. */
  function Advance(font: Font, text: string): int
    requires Covers(font, text)
  {
    if text == [] then 0
    else Advance(font, text[..|text| - 1]) + Shr6(font.advance[text[|text| - 1] as int])
  }

  /** Advances add up over a concatenation. */
  lemma {:induction false} AdvanceAdds(font: Font, a: string, b: string)
    requires Covers(font, a + b)
    ensures Covers(font, a) && Covers(font, b)
    ensures Advance(font, a + b) == Advance(font, a) + Advance(font, b)
  {
    assert forall i :: 0 <= i < |a| ==> a[i] == (a + b)[i];
    assert forall i :: 0 <= i < |b| ==> b[i] == (a + b)[|a| + i];
    if b != [] {
      var b' := b[..|b| - 1];
      assert (a + b)[..|a + b| - 1] == a + b';
      AdvanceAdds(font, a, b');
    } else {
      assert a + b == a;
    }
  }

  /** One more character adds its advance. */
  lemma AdvanceStep(font: Font, text: string, i: nat)
    requires i < |text| && Covers(font, text)
    ensures Covers(font, text[..i]) && Covers(font, text[..i + 1])
    ensures Advance(font, text[..i + 1]) == Advance(font, text[..i]) + Shr6(font.advance[text[i] as int])
  {
    assert text[..i + 1][..i] == text[..i];
  }

  /** One step of the width loop: the next character's scaled advance extends the scaled
      advance of the prefix. */
  lemma WidthStep(font: Font, text: string, i: nat, s: real)
    requires i < |text| && Covers(font, text)
    ensures text[i] as int < |font.advance| && Covers(font, text[..i]) && Covers(font, text[..i + 1])
    ensures (Advance(font, text[..i + 1]) as real) * s
         == (Advance(font, text[..i]) as real) * s + (Shr6(font.advance[text[i] as int]) as real) * s
  {
    AdvanceStep(font, text, i);
    Distributes(Advance(font, text[..i]), Shr6(font.advance[text[i] as int]), s);
  }

  /** (a + b) s == a s + b s, on the conversions of integers to floats. */
  lemma Distributes(a: int, b: int, s: real)
    ensures ((a + b) as real) * s == (a as real) * s + (b as real) * s
  {
  }

  /** The FreeType TextWidth: 0 with no font; otherwise, with scale divided by charRes, the sum
      of (advance >> 6) * scale over the characters of the buffer. */
  method FreeTypeTextWidth(scale: real, formatted: string, currentFont: Option<Font>) returns (w: real)
    requires currentFont.Some? ==> currentFont.value.charRes != 0 && Covers(currentFont.value, InBuffer(formatted))
    ensures currentFont.None? ==> w == 0.0
    ensures currentFont.Some? ==>
      w == (Advance(currentFont.value, InBuffer(formatted)) as real) * (scale / (currentFont.value.charRes as real))
  {
    w := 0.0;
    var text := InBuffer(formatted);
    if currentFont.Some? {
      var font := currentFont.value;
      var s := scale / (font.charRes as real);
      for i := 0 to |text|
        invariant w == (Advance(font, text[..i]) as real) * s
      {
        WidthStep(font, text, i, s);
        w := w + (Shr6(font.advance[text[i] as int]) as real) * s;
      }
      assert text[..|text|] == text;
    }
  }

  /** The pen after the glyphs of text, starting at (x, y) with the divided scale s: each glyph
      moves it 24 s down when vertical, and otherwise (advance >> 6) s to the right. */
  function Pen(font: Font, text: string, x: real, y: real, s: real, vertical: bool): Vec2
    requires Covers(font, text)
  {
    if text == [] then Vec2(x, y)
    else
      var p := Pen(font, text[..|text| - 1], x, y, s, vertical);
      if vertical then Vec2(p.x, p.y - 24.0 * s)
      else Vec2(p.x + (Shr6(font.advance[text[|text| - 1] as int]) as real) * s, p.y)
  }

  /** Vertically the pen drops 24 s per character; horizontally it moves right by the text's
      advance times s, that is, by the FreeType width of the text. */
  lemma {:induction false} PenTravels(font: Font, text: string, x: real, y: real, s: real, vertical: bool)
    requires Covers(font, text)
    ensures vertical ==> Pen(font, text, x, y, s, vertical) == Vec2(x, y - (|text| as real) * (24.0 * s))
    ensures !vertical ==> Pen(font, text, x, y, s, vertical) == Vec2(x + (Advance(font, text) as real) * s, y)
  {
    if text != [] {
      var n := |text| - 1;
      PenTravels(font, text[..n], x, y, s, vertical);
      if vertical {
        Distributes(n, 1, 24.0 * s);
      } else {
        Distributes(Advance(font, text[..n]), Shr6(font.advance[text[n] as int]), s);
      }
    }
  }

  /** RenderText's pen: with scale divided by charRes, the loop over the characters moves (x, y)
      glyph by glyph, and the final position is returned. */
  method RenderText(text: string, x: real, y: real, scale: real, currentFont: Font, vertical: bool)
    returns (pen: Vec2)
    requires currentFont.charRes != 0 && Covers(currentFont, text)
    ensures pen == Pen(currentFont, text, x, y, scale / (currentFont.charRes as real), vertical)
  {
    var s := scale / (currentFont.charRes as real);
    var px, py := x, y;
    for i := 0 to |text|
      invariant Vec2(px, py) == Pen(currentFont, text[..i], x, y, s, vertical)
    {
      assert text[..i + 1][..i] == text[..i];
      if vertical {
        py := py - 24.0 * s;
      } else {
        px := px + (Shr6(currentFont.advance[text[i] as int]) as real) * s;
      }
    }
    assert text[..|text|] == text;
    pen := Vec2(px, py);
  }

  /** Horizontally, the pen moves exactly the FreeType width of the text: RenderText and TextWidth
      measure with the same advances and scale. */
  method PenMovesByWidth(text: string, x: real, y: real, scale: real, font: Font)
    returns (pen: Vec2, w: real)
    requires font.charRes != 0 && Covers(font, text) && |text| <= 499
    ensures pen.x - x == w && pen.y == y
  {
    pen := RenderText(text, x, y, scale, font, false);
    w := FreeTypeTextWidth(scale, text, Some(font));
    PenTravels(font, text, x, y, scale / (font.charRes as real), false);
  }
}
