/** A plain width x height grid of pixels and what drawing does to it. */
module PixelGrid {
  import opened MachineInts

  datatype Screen = Screen(width: nat, height: nat, cells: seq<bool>)
  {
    ghost predicate Valid() {
      |cells| == width * height
    }
  }

  predicate OnScreen(s: Screen, x: int, y: int) {
    0 <= x < s.width && 0 <= y < s.height
  }

  function Index(s: Screen, x: int, y: int): (i: nat)
    requires OnScreen(s, x, y)
    ensures i < s.width * s.height
  {
    IndexInRange(s.width, s.height, x, y);
    Offset(s.width, x, y)
  }

  /** Row by row. */
  function Offset(width: nat, x: nat, y: nat): nat {
    y * width + x
  }

  lemma {:induction false} IndexInRange(w: nat, h: nat, x: nat, y: nat)
    requires x < w && y < h
    ensures 0 <= y * w + x < w * h
  {
    assert (y + 1) * w <= h * w;
  }

  lemma {:induction false} IndexInjective(w: nat, x: nat, y: nat, u: nat, v: nat)
    requires x < w && u < w && y * w + x == v * w + u
    ensures x == u && y == v
  {
    QuotientIs(y * w + x, w, y);
    QuotientIs(v * w + u, w, v);
  }

  /** q is the quotient of d by scale. */
  lemma {:induction false} QuotientIs(d: nat, scale: nat, q: nat)
    requires scale > 0 && q * scale <= d < q * scale + scale
    ensures d / scale == q
  {
    QuotientBounds(d, scale);
    assert (q + 1) * scale == q * scale + scale;
    MulCancel(q, d / scale + 1, scale);
    MulCancel(d / scale, q + 1, scale);
  }

  /** Whether the pixel is lit; nothing off the screen is. */
  predicate At(s: Screen, x: int, y: int)
    requires s.Valid()
  {
    OnScreen(s, x, y) && s.cells[Index(s, x, y)]
  }

  function Blank(width: nat, height: nat): (s: Screen)
    ensures s.Valid() && forall x, y :: !At(s, x, y)
  {
    Screen(width, height, seq(width * height, _ => false))
  }

  function Paint(s: Screen, x: int, y: int, on: bool): (r: Screen)
    requires s.Valid()
    ensures r.Valid() && r.width == s.width && r.height == s.height
  {
    if OnScreen(s, x, y) then s.(cells := s.cells[Index(s, x, y) := on]) else s
  }

  lemma {:induction false} PaintOffScreen(s: Screen, x: int, y: int, on: bool)
    requires s.Valid() && !OnScreen(s, x, y)
    ensures Paint(s, x, y, on) == s
  {
  }

  lemma {:induction false} PaintAt(s: Screen, x: int, y: int, on: bool, u: int, v: int)
    requires s.Valid()
    ensures At(Paint(s, x, y, on), u, v) == if u == x && v == y && OnScreen(s, x, y) then on else At(s, u, v)
  {
    if OnScreen(s, x, y) && OnScreen(s, u, v) && Index(s, x, y) == Index(s, u, v) {
      IndexInjective(s.width, x, y, u, v);
    }
  }

  // ---- Runs, columns and blocks of pixels

  function PaintRun(s: Screen, x: int, y: int, n: nat, on: bool): (r: Screen)
    requires s.Valid()
    ensures r.Valid() && r.width == s.width && r.height == s.height
  {
    if n == 0 then s else Paint(PaintRun(s, x, y, n - 1, on), x + n - 1, y, on)
  }

  function PaintBlock(s: Screen, x: int, y: int, w: nat, h: nat, on: bool): (r: Screen)
    requires s.Valid()
    ensures r.Valid() && r.width == s.width && r.height == s.height
  {
    if h == 0 then s else PaintRun(PaintBlock(s, x, y, w, h - 1, on), x, y + h - 1, w, on)
  }

  function PaintColumn(s: Screen, x: int, y: int, n: nat, on: bool): (r: Screen)
    requires s.Valid()
    ensures r.Valid() && r.width == s.width && r.height == s.height
  {
    if n == 0 then s else Paint(PaintColumn(s, x, y, n - 1, on), x, y + n - 1, on)
  }

  function PaintColumns(s: Screen, x: int, y: int, w: nat, h: nat, on: bool): (r: Screen)
    requires s.Valid()
    ensures r.Valid() && r.width == s.width && r.height == s.height
  {
    if w == 0 then s else PaintColumn(PaintColumns(s, x, y, w - 1, h, on), x + w - 1, y, h, on)
  }

  predicate InBox(u: int, v: int, x: int, y: int, w: int, h: int) {
    x <= u < x + w && y <= v < y + h
  }

  lemma {:induction false} RunAt(s: Screen, x: int, y: int, n: nat, on: bool, u: int, v: int)
    requires s.Valid()
    ensures At(PaintRun(s, x, y, n, on), u, v) == if InBox(u, v, x, y, n, 1) && OnScreen(s, u, v) then on else At(s, u, v)
  {
    hide At, Paint;
    if n > 0 {
      RunAt(s, x, y, n - 1, on, u, v);
      PaintAt(PaintRun(s, x, y, n - 1, on), x + n - 1, y, on, u, v);
    }
  }

  /** A block shows its colour on the screen and leaves all else. */
  lemma {:induction false} BlockAt(s: Screen, x: int, y: int, w: nat, h: nat, on: bool, u: int, v: int)
    requires s.Valid()
    ensures At(PaintBlock(s, x, y, w, h, on), u, v) == if InBox(u, v, x, y, w, h) && OnScreen(s, u, v) then on else At(s, u, v)
  {
    hide At, PaintRun;
    if h > 0 {
      BlockAt(s, x, y, w, h - 1, on, u, v);
      RunAt(PaintBlock(s, x, y, w, h - 1, on), x, y + h - 1, w, on, u, v);
    }
  }

  lemma {:induction false} ColumnAt(s: Screen, x: int, y: int, n: nat, on: bool, u: int, v: int)
    requires s.Valid()
    ensures At(PaintColumn(s, x, y, n, on), u, v) == if InBox(u, v, x, y, 1, n) && OnScreen(s, u, v) then on else At(s, u, v)
  {
    hide At, Paint;
    if n > 0 {
      ColumnAt(s, x, y, n - 1, on, u, v);
      PaintAt(PaintColumn(s, x, y, n - 1, on), x, y + n - 1, on, u, v);
    }
  }

  /** Drawn column by column it is the same block. */
  lemma {:induction false} ColumnsAt(s: Screen, x: int, y: int, w: nat, h: nat, on: bool, u: int, v: int)
    requires s.Valid()
    ensures At(PaintColumns(s, x, y, w, h, on), u, v) == if InBox(u, v, x, y, w, h) && OnScreen(s, u, v) then on else At(s, u, v)
  {
    hide At, PaintColumn;
    if w > 0 {
      ColumnsAt(s, x, y, w - 1, h, on, u, v);
      ColumnAt(PaintColumns(s, x, y, w - 1, h, on), x + w - 1, y, h, on, u, v);
    }
  }

  // ---- Glyphs

  const GLYPH := 16
  const CHAR_SPACING := 3

  const BLANK_GLYPH: seq<bv16> := seq(GLYPH, _ => 0)

  type Glyph = g: seq<bv16> | |g| == GLYPH witness BLANK_GLYPH

  const BLANK_FONT: seq<Glyph> := seq(128, _ => BLANK_GLYPH)

  // One glyph per ASCII code.
  type Font = f: seq<Glyph> | |f| == 128 witness BLANK_FONT

  /** Bit col of row, the lowest bit leftmost. */
  predicate GlyphBit(g: Glyph, row: nat, col: nat)
    requires row < GLYPH && col < GLYPH
  {
    HasBit(g[row], col)
  }

  predicate HasBit(binary: bv16, col: nat)
    requires col < GLYPH
  {
    binary & ((1 as bv16) << col) != 0
  }

  function PaintGlyphRow(s: Screen, x: int, y: int, g: Glyph, row: nat, cols: nat, scale: nat): (r: Screen)
    requires s.Valid() && row < GLYPH && cols <= GLYPH
    ensures r.Valid() && r.width == s.width && r.height == s.height
  {
    if cols == 0 then s
    else
      PaintBlock(PaintGlyphRow(s, x, y, g, row, cols - 1, scale),
                 x + (cols - 1) * scale, y + row * scale, scale, scale, GlyphBit(g, row, cols - 1))
  }

  function PaintGlyph(s: Screen, x: int, y: int, g: Glyph, rows: nat, scale: nat): (r: Screen)
    requires s.Valid() && rows <= GLYPH
    ensures r.Valid() && r.width == s.width && r.height == s.height
  {
    if rows == 0 then s
    else PaintGlyphRow(PaintGlyph(s, x, y, g, rows - 1, scale), x, y, g, rows - 1, GLYPH, scale)
  }

  // One more step of each loop.

  lemma {:induction false} RunSteps(s: Screen, x: int, y: int, n: nat, on: bool)
    requires s.Valid()
    ensures PaintRun(s, x, y, 0, on) == s
    ensures PaintRun(s, x, y, n + 1, on) == Paint(PaintRun(s, x, y, n, on), x + n, y, on)
  {
  }

  lemma {:induction false} BlockSteps(s: Screen, x: int, y: int, w: nat, h: nat, on: bool)
    requires s.Valid()
    ensures PaintBlock(s, x, y, w, 0, on) == s
    ensures PaintBlock(s, x, y, w, h + 1, on) == PaintRun(PaintBlock(s, x, y, w, h, on), x, y + h, w, on)
  {
    hide PaintRun;
  }

  lemma {:induction false} GlyphRowSteps(s: Screen, x: int, y: int, g: Glyph, row: nat, cols: nat, scale: nat)
    requires s.Valid() && row < GLYPH && cols < GLYPH
    ensures PaintGlyphRow(s, x, y, g, row, 0, scale) == s
    ensures PaintGlyphRow(s, x, y, g, row, cols + 1, scale)
         == PaintBlock(PaintGlyphRow(s, x, y, g, row, cols, scale), x + cols * scale, y + row * scale, scale, scale,
                       HasBit(g[row], cols))
  {
    hide PaintBlock, HasBit;
  }

  lemma {:induction false} GlyphSteps(s: Screen, x: int, y: int, g: Glyph, rows: nat, scale: nat)
    requires s.Valid() && rows < GLYPH
    ensures PaintGlyph(s, x, y, g, 0, scale) == s
    ensures PaintGlyph(s, x, y, g, rows + 1, scale)
         == PaintGlyphRow(PaintGlyph(s, x, y, g, rows, scale), x, y, g, rows, GLYPH, scale)
  {
    hide PaintGlyphRow;
  }

  /** n cells are n - 1 cells and one more. */
  lemma {:induction false} LastCell(d: int, scale: nat, n: nat)
    requires scale > 0 && n > 0
    ensures n * scale == (n - 1) * scale + scale
    ensures (n - 1) * scale <= d < n * scale ==> 0 <= d && d / scale == n - 1
  {
    if (n - 1) * scale <= d < (n - 1) * scale + scale {
      QuotientIs(d, scale, n - 1);
    }
  }

  lemma {:induction false} GlyphRowAt(s: Screen, x: int, y: int, g: Glyph, row: nat, cols: nat, scale: nat, u: int, v: int)
    requires s.Valid() && row < GLYPH && cols <= GLYPH && scale > 0
    ensures InBox(u, v, x, y + row * scale, cols * scale, scale) ==> 0 <= (u - x) / scale < cols
    ensures At(PaintGlyphRow(s, x, y, g, row, cols, scale), u, v)
         == if InBox(u, v, x, y + row * scale, cols * scale, scale) && OnScreen(s, u, v)
            then GlyphBit(g, row, (u - x) / scale) else At(s, u, v)
  {
    hide At, PaintBlock, GlyphBit;
    if cols > 0 {
      GlyphRowAt(s, x, y, g, row, cols - 1, scale, u, v);
      BlockAt(PaintGlyphRow(s, x, y, g, row, cols - 1, scale), x + (cols - 1) * scale, y + row * scale,
              scale, scale, GlyphBit(g, row, cols - 1), u, v);
      LastCell(u - x, scale, cols);
    }
  }

  /** A drawn glyph shows, scaled, in its box as far as it is on the screen. */
  lemma {:induction false} GlyphAt(s: Screen, x: int, y: int, g: Glyph, rows: nat, scale: nat, u: int, v: int)
    requires s.Valid() && rows <= GLYPH && scale > 0
    ensures InBox(u, v, x, y, GLYPH * scale, rows * scale) ==> 0 <= (u - x) / scale < GLYPH && 0 <= (v - y) / scale < rows
    ensures At(PaintGlyph(s, x, y, g, rows, scale), u, v)
         == if InBox(u, v, x, y, GLYPH * scale, rows * scale) && OnScreen(s, u, v)
            then GlyphBit(g, (v - y) / scale, (u - x) / scale) else At(s, u, v)
  {
    hide At, PaintGlyphRow, GlyphBit;
    if rows > 0 {
      GlyphAt(s, x, y, g, rows - 1, scale, u, v);
      GlyphRowAt(PaintGlyph(s, x, y, g, rows - 1, scale), x, y, g, rows - 1, GLYPH, scale, u, v);
      LastCell(v - y, scale, rows);
    }
  }

  // ---- Text

  /** Scales outside 1..9 count as 1. */
  function EffectiveScale(scale: nat): (r: nat)
    ensures 1 <= r < 10
  {
    if scale == 0 || scale >= 10 then 1 else scale
  }

  /** The side of a glyph box. */
  function Size(scale: nat): (size: nat)
    ensures size > 0
  {
    GLYPH * EffectiveScale(scale)
  }

  /** From one character to the next: the spacing grows with the scale as it was asked for. */
  function Advance(scale: nat): (a: nat)
    ensures a >= Size(scale) > 0
  {
    GLYPH * EffectiveScale(scale) + CHAR_SPACING * scale
  }

  predicate Ascii(text: string) {
    forall i :: 0 <= i < |text| ==> '\0' < text[i] < 128 as char
  }

  // The font has glyphs for nothing else.
  type AsciiText = text: string | Ascii(text) witness ""

  function PaintText(s: Screen, font: Font, x: int, y: int, text: AsciiText, n: nat, scale: nat): (r: Screen)
    requires s.Valid() && n <= |text|
    ensures r.Valid() && r.width == s.width && r.height == s.height
  {
    if n == 0 then s
    else
      PaintGlyph(PaintText(s, font, x, y, text, n - 1, scale), x + (n - 1) * Advance(scale), y,
                 font[text[n - 1] as nat], GLYPH, EffectiveScale(scale))
  }

  /** The number of the character whose cell covers this offset, and the offset in that cell. */
  function CharAt(scale: nat, dx: nat): nat {
    Quotient(dx, Advance(scale))
  }

  function OffsetInChar(scale: nat, dx: nat): nat {
    dx % Advance(scale)
  }

  function Quotient(d: nat, a: nat): nat
    requires a > 0
  {
    QuotientBounds(d, a);
    MulCancel(0, d / a + 1, a);
    d / a
  }

  /** The glyph row or column that an offset in the box falls into. */
  function GlyphCell(scale: nat, d: nat): (c: nat)
    requires d < Size(scale)
    ensures c < GLYPH
  {
    QuotientBounds(d, EffectiveScale(scale));
    MulCancel(d / EffectiveScale(scale), GLYPH, EffectiveScale(scale));
    d / EffectiveScale(scale)
  }

  /** The pixel lies in the glyph box of one of n characters. */
  predicate InText(n: nat, scale: nat, dx: int, dy: int) {
    0 <= dx && CharAt(scale, dx) < n && OffsetInChar(scale, dx) < Size(scale) && 0 <= dy < Size(scale)
  }

  /** What the text shows at an offset from its start, computed from the offset alone. */
  predicate TextBit(font: Font, text: AsciiText, scale: nat, dx: int, dy: int)
    requires InText(|text|, scale, dx, dy)
  {
    GlyphBit(font[text[CharAt(scale, dx)] as nat], GlyphCell(scale, dy), GlyphCell(scale, OffsetInChar(scale, dx)))
  }

  /** For every text: each glyph box shows its character, scaled, as far as it is on the screen,
      no box is overwritten by a later character, and no other pixel changes. */
  lemma {:induction false} TextAt(s: Screen, font: Font, x: int, y: int, text: AsciiText, scale: nat, u: int, v: int)
    requires s.Valid()
    ensures At(PaintText(s, font, x, y, text, |text|, scale), u, v)
         == if InText(|text|, scale, u - x, v - y) && OnScreen(s, u, v)
            then TextBit(font, text, scale, u - x, v - y) else At(s, u, v)
  {
    TextPrefixAt(s, font, x, y, text, |text|, scale, u, v);
  }

  lemma {:induction false} TextPrefixAt(s: Screen, font: Font, x: int, y: int, text: AsciiText, n: nat, scale: nat, u: int, v: int)
    requires s.Valid() && n <= |text|
    ensures At(PaintText(s, font, x, y, text, n, scale), u, v)
         == if InText(n, scale, u - x, v - y) && OnScreen(s, u, v)
            then TextBit(font, text, scale, u - x, v - y) else At(s, u, v)
  {
    hide At, PaintGlyph, GlyphBit, Advance, EffectiveScale, CharAt, OffsetInChar, GlyphCell;
    if n > 0 {
      TextPrefixAt(s, font, x, y, text, n - 1, scale, u, v);
      NthGlyphAt(PaintText(s, font, x, y, text, n - 1, scale), font, x, y, text, n - 1, scale, u, v);
    }
  }

  lemma {:induction false} NthGlyphAt(s: Screen, font: Font, x: int, y: int, text: AsciiText, k: nat, scale: nat, u: int, v: int)
    requires s.Valid() && k < |text|
    ensures At(PaintGlyph(s, x + k * Advance(scale), y, font[text[k] as nat], GLYPH, EffectiveScale(scale)), u, v)
         == if InText(|text|, scale, u - x, v - y) && CharAt(scale, u - x) == k && OnScreen(s, u, v)
            then TextBit(font, text, scale, u - x, v - y) else At(s, u, v)
  {
    hide At, PaintGlyph, GlyphBit, Advance, EffectiveScale, CharAt, OffsetInChar;
    GlyphAt(s, x + k * Advance(scale), y, font[text[k] as nat], GLYPH, EffectiveScale(scale), u, v);
    NthBox(k, scale, u - x);
  }

  /** An offset is in the k-th box exactly when k is its character and the rest is small. */
  lemma {:induction false} NthBox(k: nat, scale: nat, dx: int)
    ensures k * Advance(scale) <= dx < k * Advance(scale) + Size(scale)
       <==> 0 <= dx && CharAt(scale, dx) == k && OffsetInChar(scale, dx) < Size(scale)
    ensures 0 <= dx && CharAt(scale, dx) == k ==> dx - k * Advance(scale) == OffsetInChar(scale, dx)
  {
    hide Advance, Size;
    if k * Advance(scale) <= dx < k * Advance(scale) + Size(scale) {
      QuotientIs(dx, Advance(scale), k);
    }
    if 0 <= dx {
      Remainder(dx, Advance(scale));
    }
  }

  lemma {:induction false} Remainder(d: nat, a: nat)
    requires a > 0
    ensures d == d / a * a + d % a
  {
  }

  // ---- Text in numbers

  /** Scales 1 to 9 are kept, and any other draws glyphs at scale 1; the spacing of three pixels
      is scaled as it was asked for. */
  lemma {:induction false} PitchLaw(scale: nat)
    ensures if 1 <= scale <= 9
            then EffectiveScale(scale) == scale && Size(scale) == 16 * scale && Advance(scale) == 19 * scale
            else EffectiveScale(scale) == 1 && Size(scale) == 16 && Advance(scale) == 16 + 3 * scale
  {
  }

  /** The side of a dot of a glyph, and the distance from one character to the next. */
  ghost predicate IsPitch(scale: nat, dot: nat, pitch: nat) {
    dot == (if 1 <= scale <= 9 then scale else 1) && pitch == 16 * dot + 3 * scale
  }

  /** Dot (col, row) of the k-th character lies k pitches right of the start, and col dots
      further, and row dots below; every pixel of it is in the text and shows its bit. */
  lemma {:induction false} DotInText(font: Font, text: AsciiText, scale: nat, dot: nat, pitch: nat,
                                     k: nat, row: nat, col: nat, dx: nat, dy: nat)
    requires IsPitch(scale, dot, pitch)
    requires k < |text| && row < 16 && col < 16 && dx < dot && dy < dot
    ensures var right, down := k * pitch + (col * dot + dx), row * dot + dy;
            && InText(|text|, scale, right, down)
            && TextBit(font, text, scale, right, down) == (font[text[k] as nat][row] & ((1 as bv16) << col) != 0)
  {
    hide CharAt, OffsetInChar, GlyphCell, EffectiveScale, Advance, Size;
    PitchLaw(scale);
    var right, down := k * pitch + (col * dot + dx), row * dot + dy;
    DotInGlyph(dot, col, dx);
    DotInGlyph(dot, row, dy);
    NthBox(k, scale, right);
    CellOfDot(scale, dot, col, dx);
    CellOfDot(scale, dot, row, dy);
  }

  lemma {:induction false} DotInGlyph(dot: nat, cell: nat, d: nat)
    requires cell < 16 && d < dot
    ensures 0 <= cell * dot + d < 16 * dot
  {
    assert cell * dot <= 15 * dot;
  }

  lemma {:induction false} CellOfDot(scale: nat, dot: nat, cell: nat, d: nat)
    requires dot == EffectiveScale(scale) && cell < 16 && d < dot && 0 <= cell * dot + d < Size(scale)
    ensures GlyphCell(scale, cell * dot + d) == cell
  {
    QuotientIs(cell * dot + d, dot, cell);
  }

  /** After any text is drawn, every pixel on the screen of every dot of every character shows
      its bit of the font, the lowest bit of a row leftmost. */
  lemma {:induction false} DotIsShown(s: Screen, font: Font, x: int, y: int, text: AsciiText, scale: nat, dot: nat,
                                      pitch: nat, k: nat, row: nat, col: nat, dx: nat, dy: nat)
    requires s.Valid() && IsPitch(scale, dot, pitch)
    requires k < |text| && row < 16 && col < 16 && dx < dot && dy < dot
    requires OnScreen(s, x + (k * pitch + (col * dot + dx)), y + (row * dot + dy))
    ensures At(PaintText(s, font, x, y, text, |text|, scale), x + (k * pitch + (col * dot + dx)), y + (row * dot + dy))
         == (font[text[k] as nat][row] & ((1 as bv16) << col) != 0)
  {
    hide At, PaintText, InText, TextBit, IsPitch, OnScreen;
    DotInText(font, text, scale, dot, pitch, k, row, col, dx, dy);
    TextAt(s, font, x, y, text, scale, x + (k * pitch + (col * dot + dx)), y + (row * dot + dy));
  }

  /** Every pixel outside the boxes of sixteen dots by sixteen is as it was. */
  lemma {:induction false} OtherPixelIsKept(s: Screen, font: Font, x: int, y: int, text: AsciiText, scale: nat,
                                            dot: nat, pitch: nat, u: int, v: int)
    requires s.Valid() && IsPitch(scale, dot, pitch)
    requires forall k: nat :: k < |text| ==> !InBox(u, v, x + k * pitch, y, 16 * dot, 16 * dot)
    ensures At(PaintText(s, font, x, y, text, |text|, scale), u, v) == At(s, u, v)
  {
    hide At, PaintText, TextBit, InText, InBox, IsPitch;
    TextIsInBoxes(|text|, x, y, scale, dot, pitch, u, v);
    TextAt(s, font, x, y, text, scale, u, v);
  }

  lemma {:induction false} TextIsInBoxes(n: nat, x: int, y: int, scale: nat, dot: nat, pitch: nat, u: int, v: int)
    requires IsPitch(scale, dot, pitch)
    ensures InText(n, scale, u - x, v - y) ==>
      exists k: nat :: k < n && InBox(u, v, x + k * pitch, y, 16 * dot, 16 * dot)
  {
    hide EffectiveScale, Advance, Size, CharAt, OffsetInChar;
    PitchLaw(scale);
    if InText(n, scale, u - x, v - y) {
      var k := CharAt(scale, u - x);
      NthBox(k, scale, u - x);
      assert InBox(u, v, x + k * pitch, y, 16 * dot, 16 * dot);
    }
  }
}
