/** The cursor logic of BlitItemText::Blit: where each glyph of a text run
    goes. The cursor is the pair (length_so_far, yLevel), both starting at 0,
    relative to the run's position. */
module TextLayout {
  import opened RenderTypes

  /** length_so_far and yLevel. */
  datatype Cursor = Cursor(advance: int, line: int)

  /** One glyph to draw: its rectangle in the font texture and on screen. */
  datatype Placement = Placement(src: Rect, dst: Rect)

  /** `yLevel += size * 1.5`: the product is exact in floating point and the
      sum is truncated back to an int; for non-negative yLevel and size that
      is size + size / 2 more. */
  function LineHeight(size: nat): nat
  {
    size + size / 2
  }

  /** A byte drawn as a glyph: not a newline, not a space, and mapped by the
      font (the order of the tests in the loop). */
  predicate IsGlyph(font: Font, c: char)
  {
    c != '\n' && c != ' ' && c in font.mapping
  }

  /** The cursor after one byte: a newline returns to the line start and moves
      one line down, a space advances half the font size, a glyph advances its
      width, anything else is skipped. */
  function Step(font: Font, c: char, cur: Cursor): Cursor
  {
    if c == '\n' then Cursor(0, cur.line + LineHeight(font.size))
    else if c == ' ' then Cursor(cur.advance + font.size / 2, cur.line)
    else if c in font.mapping then Cursor(cur.advance + font.mapping[c].w, cur.line)
    else cur
  }

  /** The cursor after the bytes of `s`, starting from (0, 0). */
  function CursorAfter(font: Font, s: string): Cursor
  {
    if s == [] then Cursor(0, 0)
    else Step(font, s[|s| - 1], CursorAfter(font, s[..|s| - 1]))
  }

  /** The glyphs of a run drawn at (x, y), in text order, before the camera is
      asked about any of them: each glyph sits at (x + advance, y + line) of
      the cursor reached just before it. */
  function Layout(font: Font, x: int, y: int, s: string): seq<Placement>
  {
    if s == [] then []
    else
      var pre, c := s[..|s| - 1], s[|s| - 1];
      var cur := CursorAfter(font, pre);
      Layout(font, x, y, pre) +
        if IsGlyph(font, c) then
          [Placement(font.mapping[c], Rect(x + cur.advance, y + cur.line, font.mapping[c].w, font.mapping[c].h))]
        else []
  }

  /** Number of glyph bytes in `s`. */
  function GlyphCount(font: Font, s: string): nat
  {
    if s == [] then 0
    else GlyphCount(font, s[..|s| - 1]) + if IsGlyph(font, s[|s| - 1]) then 1 else 0
  }

  function NewlineCount(s: string): nat
  {
    if s == [] then 0
    else NewlineCount(s[..|s| - 1]) + if s[|s| - 1] == '\n' then 1 else 0
  }

  /** The bytes after the last newline of `s` (all of `s` if it has none). */
  function LastLine(s: string): string
  {
    if s == [] then []
    else if s[|s| - 1] == '\n' then []
    else LastLine(s[..|s| - 1]) + [s[|s| - 1]]
  }

  /** How far one byte moves the cursor along a line. */
  function CharWidth(font: Font, c: char): int
  {
    if c == ' ' then font.size / 2
    else if c != '\n' && c in font.mapping then font.mapping[c].w
    else 0
  }

  function LineWidth(font: Font, s: string): int
  {
    if s == [] then 0 else LineWidth(font, s[..|s| - 1]) + CharWidth(font, s[|s| - 1])
  }

  /** `s` without the bytes the loop skips (neither newline, space nor mapped). */
  function DropUnmapped(font: Font, s: string): string
  {
    if s == [] then []
    else
      var c := s[|s| - 1];
      DropUnmapped(font, s[..|s| - 1]) +
        if c == '\n' || c == ' ' || c in font.mapping then [c] else []
  }

  /** The line offset is the number of newlines so far times the truncated
      line height. */
  lemma {:induction false} LineOffsetCountsNewlines(font: Font, s: string)
    ensures CursorAfter(font, s).line == NewlineCount(s) * LineHeight(font.size)
  {
    if s != [] {
      LineOffsetCountsNewlines(font, s[..|s| - 1]);
      var n := NewlineCount(s[..|s| - 1]);
      assert (n + 1) * LineHeight(font.size) == n * LineHeight(font.size) + LineHeight(font.size);
    }
  }

  /** The advance is the width of the bytes since the last newline: a newline
      resets it, spaces add size / 2, glyphs add their width. */
  lemma {:induction false} AdvanceIsLastLineWidth(font: Font, s: string)
    ensures CursorAfter(font, s).advance == LineWidth(font, LastLine(s))
  {
    if s != [] {
      var pre, c := s[..|s| - 1], s[|s| - 1];
      AdvanceIsLastLineWidth(font, pre);
      if c != '\n' {
        var t := LastLine(pre) + [c];
        assert t[..|t| - 1] == LastLine(pre);
      }
    }
  }

  /** Appending a byte appends at most its own glyph to the layout. */
  lemma LayoutSnoc(font: Font, x: int, y: int, s: string, c: char)
    ensures (s + [c])[..|s|] == s
    ensures Layout(font, x, y, s + [c]) == Layout(font, x, y, s) +
      if IsGlyph(font, c) then
        [Placement(font.mapping[c], Rect(x + CursorAfter(font, s).advance, y + CursorAfter(font, s).line,
                                         font.mapping[c].w, font.mapping[c].h))]
      else []
    ensures !IsGlyph(font, c) ==> Layout(font, x, y, s + [c]) == Layout(font, x, y, s)
    ensures CursorAfter(font, s + [c]) == Step(font, c, CursorAfter(font, s))
    ensures GlyphCount(font, s + [c]) == GlyphCount(font, s) + if IsGlyph(font, c) then 1 else 0
  {
    assert (s + [c])[..|s|] == s;
    assert Layout(font, x, y, s) + [] == Layout(font, x, y, s);
  }

  /** The layout has one placement per glyph byte. */
  lemma {:induction false} LayoutLength(font: Font, x: int, y: int, s: string)
    ensures |Layout(font, x, y, s)| == GlyphCount(font, s)
  {
    if s != [] { LayoutLength(font, x, y, s[..|s| - 1]); }
  }

  /** Each glyph byte s[k] is placed at (x + advance, y + line) of the cursor
      reached after s[..k], with its own rectangle from the font; culling plays
      no part, so a glyph the camera rejects still moves every later glyph. */
  lemma {:induction false} LayoutPlacesEachGlyph(font: Font, x: int, y: int, s: string, k: nat)
    requires k < |s| && IsGlyph(font, s[k])
    ensures GlyphCount(font, s[..k]) < |Layout(font, x, y, s)|
    ensures Layout(font, x, y, s)[GlyphCount(font, s[..k])] ==
      Placement(font.mapping[s[k]],
                Rect(x + CursorAfter(font, s[..k]).advance, y + CursorAfter(font, s[..k]).line,
                     font.mapping[s[k]].w, font.mapping[s[k]].h))
  {
    var pre := s[..|s| - 1];
    LayoutLength(font, x, y, pre);
    LayoutLength(font, x, y, s);
    assert s == pre + [s[|s| - 1]];
    LayoutSnoc(font, x, y, pre, s[|s| - 1]);
    if k < |s| - 1 {
      assert pre[..k] == s[..k] && pre[k] == s[k];
      LayoutPlacesEachGlyph(font, x, y, pre, k);
    } else {
      assert s[..k] == pre;
    }
  }

  /** Skipped bytes change neither the cursor nor the layout: dropping every
      one of them from the text gives the same glyphs at the same places. */
  lemma {:induction false} UnmappedBytesChangeNothing(font: Font, x: int, y: int, s: string)
    ensures CursorAfter(font, DropUnmapped(font, s)) == CursorAfter(font, s)
    ensures Layout(font, x, y, DropUnmapped(font, s)) == Layout(font, x, y, s)
  {
    if s != [] {
      var pre, c := s[..|s| - 1], s[|s| - 1];
      UnmappedBytesChangeNothing(font, x, y, pre);
      var d := DropUnmapped(font, pre);
      if c == '\n' || c == ' ' || c in font.mapping {
        assert DropUnmapped(font, s) == d + [c];
        LayoutSnoc(font, x, y, d, c);
      } else {
        assert DropUnmapped(font, s) == d;
      }
    }
  }
}
