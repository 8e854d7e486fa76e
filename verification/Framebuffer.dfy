/** The display: drawing into the packed buffer, and unpacking it into colours. */
module Framebuffer {
  import opened MachineInts
  import opened PixelGrid
  import opened PackedBits

  /** Writing the packed bit of a pixel paints that pixel. */
  lemma {:induction false} PixelIsPainted(bytes: seq<bv8>, w: nat, h: nat, x: int, y: int, i: int, on: bool)
    requires 0 <= x < w && 0 <= y < h && w * h <= 8 * |bytes| && i == y * w + x
    ensures 0 <= i < w * h && i / 8 < |bytes|
    ensures Screen(w, h, Unpack(bytes[i / 8 := WithBit(bytes[i / 8], i % 8, on)], w * h))
         == Paint(Screen(w, h, Unpack(bytes, w * h)), x, y, on)
  {
    hide WithBit, Unpack;
    IndexInRange(w, h, x, y);
    UnpackWritten(bytes, w * h, i, on);
  }

  class UIContent {
    const width: uint16
    const height: uint16
    const font: Font
    const buffer: array<bv8>

    ghost predicate Valid()
      reads this
    {
      buffer.Length == BytesFor(width * height)
    }

    /** The grid that the packed bits stand for. */
    ghost function View(): (s: Screen)
      reads this, buffer
      requires Valid()
      ensures s.Valid() && s.width == width && s.height == height
    {
      Screen(width, height, Unpack(buffer[..], width * height))
    }

    constructor (displayWidth: uint16, displayHeight: uint16, font: Font)
      ensures Valid() && fresh(buffer)
      ensures width == displayWidth && height == displayHeight && this.font == font
      ensures View() == Blank(width, height)
    {
      width := displayWidth;
      height := displayHeight;
      this.font := font;
      buffer := new bv8[BytesFor(displayWidth * displayHeight)](_ => 0);
      new;
      UnpackZero(buffer[..], width * height);
    }

    method Clear()
      requires Valid()
      modifies buffer
      ensures View() == Blank(width, height)
    {
      for i := 0 to buffer.Length
        invariant forall k :: 0 <= k < i ==> buffer[k] == 0
      {
        buffer[i] := 0;
      }
      UnpackZero(buffer[..], width * height);
    }

    method SetPixel(x: int, y: int, on: bool)
      requires Valid()
      modifies buffer
      ensures View() == Paint(old(View()), x, y, on)
    {
      hide WithBitSet, WithBitCleared, Unpack, Paint, BytesFor;
      if x < 0 || x >= width || y < 0 || y >= height {
        PaintOffScreen(View(), x, y, on);
        return;
      }
      var pixelIndex := y * width + x;
      PixelIsPainted(buffer[..], width, height, x, y, pixelIndex, on);
      var byteIndex := pixelIndex / 8;
      var bitOffset := pixelIndex % 8;
      // The guard against an index past the buffer never fires.
      assert byteIndex < buffer.Length;
      ghost var before := buffer[..];
      if on {
        buffer[byteIndex] := WithBitSet(buffer[byteIndex], bitOffset);
      } else {
        buffer[byteIndex] := WithBitCleared(buffer[byteIndex], bitOffset);
      }
      assert buffer[..] == before[byteIndex := WithBit(before[byteIndex], bitOffset, on)];
    }

    method DrawChar(startX: int, startY: int, glyph: Glyph, scale: nat)
      requires Valid()
      modifies buffer
      ensures View() == PaintGlyph(old(View()), startX, startY, glyph, GLYPH, scale)
    {
      hide View, Paint, HasBit, PaintRun, PaintBlock, PaintGlyphRow, PaintGlyph;
      ghost var blank := View();
      GlyphSteps(blank, startX, startY, glyph, 0, scale);
      for row := 0 to GLYPH
        invariant View() == PaintGlyph(blank, startX, startY, glyph, row, scale)
      {
        var binary := glyph[row];
        ghost var atRow := View();
        GlyphSteps(blank, startX, startY, glyph, row, scale);
        GlyphRowSteps(atRow, startX, startY, glyph, row, 0, scale);
        for col := 0 to GLYPH
          invariant View() == PaintGlyphRow(atRow, startX, startY, glyph, row, col, scale)
        {
          var on := HasBit(binary, col);
          ghost var atCell := View();
          GlyphRowSteps(atRow, startX, startY, glyph, row, col, scale);
          BlockSteps(atCell, startX + col * scale, startY + row * scale, scale, 0, on);
          for dy := 0 to scale
            invariant View() == PaintBlock(atCell, startX + col * scale, startY + row * scale, scale, dy, on)
          {
            ghost var atLine := View();
            BlockSteps(atCell, startX + col * scale, startY + row * scale, scale, dy, on);
            RunSteps(atLine, startX + col * scale, startY + row * scale + dy, 0, on);
            for dx := 0 to scale
              invariant View() == PaintRun(atLine, startX + col * scale, startY + row * scale + dy, dx, on)
            {
              RunSteps(atLine, startX + col * scale, startY + row * scale + dy, dx, on);
              SetPixel(startX + col * scale + dx, startY + row * scale + dy, on);
            }
          }
        }
      }
    }

    method DrawText(startX: int, startY: int, text: AsciiText, scale: uint8)
      requires Valid()
      modifies buffer
      ensures View() == PaintText(old(View()), font, startX, startY, text, |text|, scale)
    {
      hide View, PaintGlyph;
      ghost var start := View();
      var spacingScale := scale;
      var glyphScale := scale;
      if scale <= 0 || scale >= 10 {
        glyphScale := 1;
      }
      var cursorX := startX;
      for i := 0 to |text|
        invariant cursorX == startX + i * Advance(scale)
        invariant View() == PaintText(start, font, startX, startY, text, i, scale)
      {
        DrawChar(cursorX, startY, font[text[i] as nat], glyphScale);
        cursorX := cursorX + GLYPH * glyphScale + CHAR_SPACING * spacingScale;
      }
    }

    method DrawHorizontalLine(startX: int, startY: int, thickness: int, length: int, on: bool)
      requires Valid()
      modifies buffer
      ensures View() == PaintBlock(old(View()), startX, startY, AsNat(length), AsNat(thickness), on)
    {
      hide View, Paint;
      ghost var start := View();
      var y, i := startY, 0;
      while i < thickness
        invariant 0 <= i <= AsNat(thickness) && y == startY + i
        invariant View() == PaintBlock(start, startX, startY, AsNat(length), i, on)
      {
        ghost var atLine := View();
        var x, ii := startX, 0;
        while ii < length
          invariant 0 <= ii <= AsNat(length) && x == startX + ii
          invariant View() == PaintRun(atLine, startX, y, ii, on)
        {
          SetPixel(x, y, on);
          x, ii := x + 1, ii + 1;
        }
        y, i := y + 1, i + 1;
      }
    }

    method DrawVerticalLine(startX: int, startY: int, thickness: int, length: int, on: bool)
      requires Valid()
      modifies buffer
      ensures View() == PaintColumns(old(View()), startX, startY, AsNat(thickness), AsNat(length), on)
    {
      hide View, Paint;
      ghost var start := View();
      var x, i := startX, 0;
      while i < thickness
        invariant 0 <= i <= AsNat(thickness) && x == startX + i
        invariant View() == PaintColumns(start, startX, startY, i, AsNat(length), on)
      {
        ghost var atColumn := View();
        var y, ii := startY, 0;
        while ii < length
          invariant 0 <= ii <= AsNat(length) && y == startY + ii
          invariant View() == PaintColumn(atColumn, x, startY, ii, on)
        {
          SetPixel(x, y, on);
          y, ii := y + 1, ii + 1;
        }
        x, i := x + 1, i + 1;
      }
    }
  }

  /** A count of loop rounds: a negative bound is none. */
  function AsNat(n: int): nat {
    if n < 0 then 0 else n
  }

  // ---- The adapter

  const WHITE: uint32 := 0xFFFFFFFF
  const BLACK: uint32 := 0xFF000000

  function Colour(on: bool): uint32 {
    if on then WHITE else BLACK
  }

  function Colours(cells: seq<bool>): (c: seq<uint32>)
    ensures |c| == |cells|
  {
    seq(|cells|, i requires 0 <= i < |cells| => Colour(cells[i]))
  }

  class ARGBAdapter {
    const width: nat
    const height: nat
    const argb: array<uint32>

    ghost predicate Valid()
      reads this
    {
      argb.Length == width * height
    }

    constructor (width: nat, height: nat)
      ensures Valid() && fresh(argb) && this.width == width && this.height == height
      ensures forall i :: 0 <= i < argb.Length ==> argb[i] == BLACK
    {
      this.width := width;
      this.height := height;
      argb := new uint32[width * height](_ => BLACK);
    }

    /** False where the source returns no image: too few bytes. */
    method Convert(packed: seq<bv8>) returns (converted: bool)
      requires Valid()
      modifies argb
      ensures converted <==> |packed| >= BytesFor(width * height)
      ensures argb[..] == if converted then Colours(Unpack(packed, width * height)) else old(argb[..])
      ensures converted ==> forall i :: 0 <= i < argb.Length ==>
        argb[i] == if Lit(packed[i / 8], i % 8) then 0xFFFF_FFFF else 0xFF00_0000
    {
      var pixelCount := argb.Length;
      var requiredPackedBytes := (pixelCount + 7) / 8;
      if |packed| < requiredPackedBytes {
        return false;
      }
      for i := 0 to pixelCount
        invariant forall k :: 0 <= k < i ==> argb[k] == Colour(Unpack(packed, pixelCount)[k])
      {
        var byte := packed[i / 8];
        var bitIndex := 7 - i % 8;
        var on := (byte >> bitIndex) & 1 != 0;
        argb[i] := if on then WHITE else BLACK;
      }
      converted := true;
    }
  }

  // ---- Whole pictures

  datatype Command =
    | Erase
    | Text(x: int, y: int, text: AsciiText, scale: uint8)
    | HorizontalLine(x: int, y: int, thickness: int, length: int, on: bool)
    | VerticalLine(x: int, y: int, thickness: int, length: int, on: bool)

  /** Whether a command decides what a pixel shows. */
  predicate Covers(c: Command, u: int, v: int) {
    match c
    case Erase => true
    case Text(x, y, text, scale) => InText(|text|, scale, u - x, v - y)
    case HorizontalLine(x, y, thickness, length, _) => InBox(u, v, x, y, length, thickness)
    case VerticalLine(x, y, thickness, length, _) => InBox(u, v, x, y, thickness, length)
  }

  predicate Shows(font: Font, c: Command, u: int, v: int)
    requires Covers(c, u, v)
  {
    match c
    case Erase => false
    case Text(x, y, text, scale) => TextBit(font, text, scale, u - x, v - y)
    case HorizontalLine(_, _, _, _, on) => on
    case VerticalLine(_, _, _, _, on) => on
  }

  /** The last command that covers a pixel decides; a pixel that none covers is dark. */
  predicate Shown(font: Font, commands: seq<Command>, u: int, v: int) {
    if commands == [] then false
    else
      var last := commands[|commands| - 1];
      if Covers(last, u, v) then Shows(font, last, u, v)
      else Shown(font, commands[..|commands| - 1], u, v)
  }

  function PaintCommand(s: Screen, font: Font, c: Command): (r: Screen)
    requires s.Valid()
    ensures r.Valid() && r.width == s.width && r.height == s.height
  {
    match c
    case Erase => Blank(s.width, s.height)
    case Text(x, y, text, scale) => PaintText(s, font, x, y, text, |text|, scale)
    case HorizontalLine(x, y, thickness, length, on) => PaintBlock(s, x, y, AsNat(length), AsNat(thickness), on)
    case VerticalLine(x, y, thickness, length, on) => PaintColumns(s, x, y, AsNat(thickness), AsNat(length), on)
  }

  function Picture(width: nat, height: nat, font: Font, commands: seq<Command>): (r: Screen)
    ensures r.Valid() && r.width == width && r.height == height
  {
    if commands == [] then Blank(width, height)
    else PaintCommand(Picture(width, height, font, commands[..|commands| - 1]), font, commands[|commands| - 1])
  }

  lemma {:induction false} CommandAt(s: Screen, font: Font, c: Command, u: int, v: int)
    requires s.Valid() && OnScreen(s, u, v)
    ensures At(PaintCommand(s, font, c), u, v) == if Covers(c, u, v) then Shows(font, c, u, v) else At(s, u, v)
  {
    hide At, PaintText, PaintBlock, PaintColumns, InText, TextBit, Blank;
    match c
    case Erase =>
    case Text(x, y, text, scale) => TextAt(s, font, x, y, text, scale, u, v);
    case HorizontalLine(x, y, thickness, length, on) => BlockAt(s, x, y, AsNat(length), AsNat(thickness), on, u, v);
    case VerticalLine(x, y, thickness, length, on) => ColumnsAt(s, x, y, AsNat(thickness), AsNat(length), on, u, v);
  }

  lemma {:induction false} PictureAt(width: nat, height: nat, font: Font, commands: seq<Command>, u: nat, v: nat)
    requires u < width && v < height
    ensures At(Picture(width, height, font, commands), u, v) == Shown(font, commands, u, v)
  {
    hide At, PaintCommand, Covers, Shows, Blank;
    if commands != [] {
      var front := commands[..|commands| - 1];
      PictureAt(width, height, font, front, u, v);
      CommandAt(Picture(width, height, font, front), font, commands[|commands| - 1], u, v);
    }
  }

  /** Draws any list of commands into the packed buffer and unpacks it: every pixel has the
      colour that the last command covering it gives it. */
  method Render(width: uint16, height: uint16, font: Font, commands: seq<Command>) returns (image: seq<uint32>)
    ensures |image| == width * height
    ensures forall u: nat, v: nat :: u < width && v < height ==>
      && 0 <= Offset(width, u, v) < |image|
      && image[Offset(width, u, v)] == if Shown(font, commands, u, v) then 0xFFFF_FFFF else 0xFF00_0000
  {
    hide Picture, Shown, Unpack, Colours, BytesFor, Offset;
    var content := new UIContent(width, height, font);
    DrawAll(content, commands);
    var adapter := new ARGBAdapter(width, height);
    var converted := adapter.Convert(content.buffer[..]);
    image := adapter.argb[..];
    PictureIsColoured(width, height, font, commands);
  }

  // ---- What one more command shows, in numbers

  lemma {:induction false} EraseShows(font: Font, commands: seq<Command>, u: int, v: int)
    ensures !Shown(font, commands + [Erase], u, v)
  {
    LastCommand(font, commands, Erase, u, v);
  }

  lemma {:induction false} HorizontalLineShows(font: Font, commands: seq<Command>, x: int, y: int, thickness: int,
                                               length: int, on: bool, u: int, v: int)
    ensures Shown(font, commands + [HorizontalLine(x, y, thickness, length, on)], u, v)
         == if x <= u < x + length && y <= v < y + thickness then on else Shown(font, commands, u, v)
  {
    hide Shown;
    LastCommand(font, commands, HorizontalLine(x, y, thickness, length, on), u, v);
  }

  lemma {:induction false} VerticalLineShows(font: Font, commands: seq<Command>, x: int, y: int, thickness: int,
                                             length: int, on: bool, u: int, v: int)
    ensures Shown(font, commands + [VerticalLine(x, y, thickness, length, on)], u, v)
         == if x <= u < x + thickness && y <= v < y + length then on else Shown(font, commands, u, v)
  {
    hide Shown;
    LastCommand(font, commands, VerticalLine(x, y, thickness, length, on), u, v);
  }

  lemma {:induction false} TextShows(font: Font, commands: seq<Command>, x: int, y: int, text: AsciiText, scale: uint8,
                                     dot: nat, pitch: nat, k: nat, row: nat, col: nat, dx: nat, dy: nat)
    requires IsPitch(scale, dot, pitch)
    requires k < |text| && row < 16 && col < 16 && dx < dot && dy < dot
    ensures Shown(font, commands + [Text(x, y, text, scale)], x + (k * pitch + (col * dot + dx)), y + (row * dot + dy))
         == (font[text[k] as nat][row] & ((1 as bv16) << col) != 0)
  {
    hide Shown, InText, TextBit, IsPitch;
    DotInText(font, text, scale, dot, pitch, k, row, col, dx, dy);
    LastCommand(font, commands, Text(x, y, text, scale), x + (k * pitch + (col * dot + dx)), y + (row * dot + dy));
  }

  lemma {:induction false} LastCommand(font: Font, commands: seq<Command>, c: Command, u: int, v: int)
    ensures Shown(font, commands + [c], u, v)
         == if Covers(c, u, v) then Shows(font, c, u, v) else Shown(font, commands, u, v)
  {
    hide Covers, Shows;
    assert (commands + [c])[..|commands|] == commands;
  }

  method DrawAll(content: UIContent, commands: seq<Command>)
    requires content.Valid() && content.View() == Blank(content.width, content.height)
    modifies content.buffer
    ensures content.View() == Picture(content.width, content.height, content.font, commands)
  {
    hide PaintCommand, Blank;
    for i := 0 to |commands|
      invariant content.View() == Picture(content.width, content.height, content.font, commands[..i])
    {
      assert commands[..i + 1][..i] == commands[..i];
      Execute(content, commands[i]);
    }
    assert commands[..|commands|] == commands;
  }

  lemma {:induction false} PictureIsColoured(width: nat, height: nat, font: Font, commands: seq<Command>)
    ensures var image := Colours(Picture(width, height, font, commands).cells);
            forall u: nat, v: nat :: u < width && v < height ==>
              0 <= Offset(width, u, v) < |image| && image[Offset(width, u, v)] == Colour(Shown(font, commands, u, v))
  {
    hide Picture, Shown, Colours, Colour, At, Offset;
    var picture := Picture(width, height, font, commands);
    forall u: nat, v: nat | u < width && v < height
      ensures 0 <= Offset(width, u, v) < |Colours(picture.cells)|
      ensures Colours(picture.cells)[Offset(width, u, v)] == Colour(Shown(font, commands, u, v))
    {
      PixelIsColoured(picture, u, v);
      PictureAt(width, height, font, commands, u, v);
    }
  }

  lemma {:induction false} PixelIsColoured(s: Screen, u: nat, v: nat)
    requires s.Valid() && u < s.width && v < s.height
    ensures 0 <= Offset(s.width, u, v) < s.width * s.height
    ensures Colours(s.cells)[Offset(s.width, u, v)] == Colour(At(s, u, v))
  {
    IndexInRange(s.width, s.height, u, v);
  }

  method Execute(content: UIContent, c: Command)
    requires content.Valid()
    modifies content.buffer
    ensures content.View() == PaintCommand(old(content.View()), content.font, c)
  {
    match c
    case Erase => content.Clear();
    case Text(x, y, text, scale) => content.DrawText(x, y, text, scale);
    case HorizontalLine(x, y, thickness, length, on) => content.DrawHorizontalLine(x, y, thickness, length, on);
    case VerticalLine(x, y, thickness, length, on) => content.DrawVerticalLine(x, y, thickness, length, on);
  }
}
