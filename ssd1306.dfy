/**
 * The screen buffer and state of `SSD1306_Device_t`, the I2C OLED driver of
 * the ESP-IDF firmware.  The drawing code is the framebuffer's with 8-bit
 * coordinates; it is proved against the same pixel writes.  The I2C command
 * traffic (`ssd1306_WriteCommand`, `ssd1306_UpdateScreen`) is not modelled.
 */
module Ssd1306 {
  import opened Pixels
  import opened Framebuf

  /** `SSD1306_Error_t`. */
  datatype Status = Ok | Err

  /** `ssd1306_i2c_init`'s buffer of `width * height / 8` bytes holds every pixel when the height is a whole number of pages. */
  lemma PagedBufferFits(width: nat, height: nat)
    requires height % 8 == 0
    ensures Fits(width, height, width * height / 8)
  {
    var k := height / 8;
    assert height == 8 * k;
    assert width * height == 8 * (width * k);
    assert (height + 7) / 8 == k;
  }

  /** The character `*str` after the first `n` characters of the C string `s`: NUL at its end. */
  function CharAt(s: string, n: nat): char {
    if n < |s| then s[n] else '\0'
  }

  /** The length of the C string `s`: the index of its first NUL, or all of `s`. */
  function CLength(s: string): (n: nat)
    ensures n <= |s| && (n < |s| ==> s[n] == '\0') && forall k :: 0 <= k < n ==> s[k] != '\0'
  {
    if s == [] then 0 else if s[0] == '\0' then 0 else 1 + CLength(s[1..])
  }

  /**
   * `ssd1306_WriteString` answers NUL exactly when it wrote the whole C
   * string; otherwise it answers the character it stopped at, which is not
   * printable or does not fit at the cursor.
   */
  lemma WriteStringResult(width: nat, height: nat, cx: nat, cy: nat, s: string, f: Font)
    ensures var n := WriteCount(width, height, cx, cy, s, f);
      n <= CLength(s)
      && (CharAt(s, n) == '\0' <==> n == CLength(s))
      && (CharAt(s, n) != '\0' ==> !Printable(CharAt(s, n) as int) || !CharFits(width, height, cx + n * f.width, cy, f))
  {
    WriteTextStops(width, height, cx, cy, s, f);
  }

  class Device {
    const width: nat
    const height: nat
    const bufferSize: nat
    const buffer: array<bv8>
    var currentX: nat
    var currentY: nat
    var initialized: nat
    var displayOn: nat

    /**
     * The supported panels are 8-pixel pages high, and every coordinate of
     * the panel fits the driver's `uint8_t` coordinates.
     */
    ghost predicate Valid()
    {
      buffer.Length == bufferSize && bufferSize == width * height / 8
      && height % 8 == 0 && width < 256 && height < 256 && Fits(width, height, bufferSize)
    }

    /** `Initialized` and `DisplayOn` are flags: 0 or 1. */
    ghost predicate Flags()
      reads this
    {
      initialized <= 1 && displayOn <= 1
    }

    /** `ssd1306_i2c_init`: the buffer is zeroed, the cursor is at the origin, the panel is neither initialized nor on. */
    constructor (width: nat, height: nat)
      requires height % 8 == 0 && width < 256 && height < 256
      ensures Valid() && Flags() && this.width == width && this.height == height && bufferSize == width * height / 8
      ensures currentX == 0 && currentY == 0 && initialized == 0 && displayOn == 0 && fresh(buffer)
      ensures forall i :: 0 <= i < bufferSize ==> buffer[i] == 0
    {
      PagedBufferFits(width, height);
      this.width, this.height, bufferSize := width, height, width * height / 8;
      buffer := new bv8[width * height / 8](_ => 0);
      currentX, currentY, initialized, displayOn := 0, 0, 0, 0;
    }

    /**
     * `ssd1306_Init`, as far as the state goes: the panel is switched on,
     * the buffer is cleared to black, the cursor returns to the origin and
     * the panel counts as initialized.
     */
    method Init()
      requires Valid()
      modifies this, buffer
      ensures Flags()
      ensures currentX == 0 && currentY == 0 && initialized == 1 && displayOn == 1
      ensures forall i :: 0 <= i < buffer.Length ==> buffer[i] == 0
    {
      SetDisplayOn(0);
      SetDisplayOn(1);
      Fill(Black);
      currentX, currentY := 0, 0;
      initialized := 1;
    }

    /** `ssd1306_FillBuffer`: copies `buf` to the front of the buffer and answers OK if it fits, else answers ERR. */
    method FillBuffer(buf: seq<bv8>) returns (status: Status)
      requires Valid()
      modifies buffer
      ensures status == Ok <==> |buf| <= bufferSize
      ensures status == Ok ==> buffer[..] == buf + old(buffer[..])[|buf|..]
      ensures status == Err ==> buffer[..] == old(buffer[..])
    {
      hide Fits;
      status := Err;
      if |buf| <= bufferSize {
        var i := 0;
        while i < |buf|
          invariant i <= |buf|
          invariant forall k :: 0 <= k < i ==> buffer[k] == buf[k]
          invariant forall k :: i <= k < buffer.Length ==> buffer[k] == old(buffer[k])
        {
          buffer[i] := buf[i];
          i := i + 1;
        }
        assert buffer[..] == buf + old(buffer[..])[|buf|..];
        status := Ok;
      }
    }

    /** `ssd1306_Fill`: every byte 0x00 for black, 0xFF for white. */
    method Fill(c: Color)
      requires Valid()
      modifies buffer
      ensures forall i :: 0 <= i < buffer.Length ==> buffer[i] == if c == Black then 0x00 else 0xFF
    {
      var i := 0;
      while i < bufferSize
        invariant i <= bufferSize
        invariant forall k :: 0 <= k < i ==> buffer[k] == if c == Black then 0x00 else 0xFF
      {
        buffer[i] := if c == Black then 0x00 else 0xFF;
        i := i + 1;
      }
    }

    /** `ssd1306_DrawPixel` on the 8-bit coordinates (x, y). */
    method DrawPixel(x: nat, y: nat, c: Color)
      requires Valid() && x < 256 && y < 256
      modifies buffer
      ensures buffer[..] == SetPixel(old(buffer[..]), width, height, x, y, c)
    {
      hide Mask, PixelAt, SetPixel, PixelIndex;
      SetPixelIs(buffer[..], width, height, x, y, c);
      if x >= width || y >= height {
        return;
      }
      var i := PixelIndex(width, x, y);
      ghost var b := buffer[..];
      if c == White {
        buffer[i] := buffer[i] | Mask(y);
      } else {
        buffer[i] := buffer[i] & !Mask(y);
      }
      assert buffer[..] == b[i := buffer[i]];
    }

    /**
     * `ssd1306_WriteChar`: a printable character that fits at the cursor is
     * drawn there, the cursor moves right and the character is returned;
     * otherwise nothing changes and NUL is returned.
     */
    method WriteChar(ch: char, f: Font, c: Color) returns (r: char)
      requires Valid() && FontOk(f)
      modifies this, buffer
      ensures r == (if Printable(ch as int) && CharFits(width, height, old(currentX), old(currentY), f) then ch else '\0')
      ensures currentY == old(currentY) && initialized == old(initialized) && displayOn == old(displayOn)
      ensures r != '\0' ==> (currentX == old(currentX) + f.width
                             && buffer[..] == PaintAll(old(buffer[..]), width, height, GlyphOps(f, ch, old(currentX), old(currentY), c)))
      ensures r == '\0' ==> currentX == old(currentX) && buffer[..] == old(buffer[..])
    {
      if ch as int < 32 || ch as int > 126 {
        return '\0';
      }
      if width < currentX + f.width || height < currentY + f.height {
        return '\0';
      }
      DrawGlyph(ch, f, currentX, currentY, c);
      currentX := currentX + f.width;
      r := ch;
    }

    /** The two loops of `ssd1306_WriteChar`: the glyph of `ch`, row by row, with its top left corner at (x, y). */
    method DrawGlyph(ch: char, f: Font, x: nat, y: nat, c: Color)
      requires Valid() && FontOk(f) && Printable(ch as int) && CharFits(width, height, x, y, f)
      modifies buffer
      ensures buffer[..] == PaintAll(old(buffer[..]), width, height, GlyphOps(f, ch, x, y, c))
    {
      hide PaintAll, Grid, Row, Cell, GlyphOps, FontBit, CellColor;
      var st := Glyph(f, ch as int, x, y, c);
      ghost var b0 := buffer[..];
      GlyphStart(b0, width, height, f, ch, x, y, c);
      var i := 0;
      while i < f.height
        invariant i <= f.height && buffer[..] == PaintAll(b0, width, height, Grid(st, i, f.width))
      {
        GlyphRow(st, i, f.width, b0);
        i := i + 1;
      }
    }

    /**
     * `ssd1306_WriteString`: characters are written up to the terminating
     * NUL; the result is the first character that could not be written, or
     * NUL when the whole string was.
     */
    method WriteString(s: string, f: Font, c: Color) returns (r: char)
      requires Valid() && FontOk(f)
      modifies this, buffer
      ensures var n := WriteCount(width, height, old(currentX), old(currentY), s, f);
        r == CharAt(s, n)
        && buffer[..] == WriteText(old(buffer[..]), width, height, old(currentX), old(currentY), s, f, c)
        && currentX == old(currentX) + n * f.width
      ensures currentY == old(currentY) && initialized == old(initialized) && displayOn == old(displayOn)
    {
      hide PaintAll, GlyphOps, Grid, SetPixel, Fits;
      ghost var b0, cx0, cy0 := buffer[..], currentX, currentY;
      var n := 0;
      while n < |s| && s[n] != '\0'
        invariant n <= |s| && currentY == cy0 && initialized == old(initialized) && displayOn == old(displayOn) && currentX == cx0 + n * f.width
        invariant WriteCount(width, height, cx0, cy0, s, f) == n + WriteCount(width, height, currentX, cy0, s[n..], f)
        invariant WriteText(b0, width, height, cx0, cy0, s, f, c) == WriteText(buffer[..], width, height, currentX, cy0, s[n..], f, c)
        decreases |s| - n
      {
        assert s[n..][1..] == s[n + 1..];
        var written := WriteChar(s[n], f, c);
        if written != s[n] {
          return s[n];
        }
        MulSucc(n, f.width);
        n := n + 1;
      }
      r := CharAt(s, n);
    }

    /** `ssd1306_SetCursor`. */
    method SetCursor(x: nat, y: nat)
      requires x < 256 && y < 256
      modifies this
      ensures currentX == x && currentY == y && initialized == old(initialized) && displayOn == old(displayOn)
    {
      currentX, currentY := x, y;
    }

    /** `ssd1306_FillRectangle`: every pixel between the corners, row by row, clipped to the screen. */
    method FillRectangle(x1: nat, y1: nat, x2: nat, y2: nat, c: Color)
      requires Valid() && x1 < 256 && y1 < 256 && x2 < 256 && y2 < 256
      modifies buffer
      ensures var xs, xe, ys, ye := Min(x1, x2), Max(x1, x2), Min(y1, y2), Max(y1, y2);
        buffer[..] == PaintAll(old(buffer[..]), width, height, Grid(Rect(xs, ys, c), Span(ys, ye, height), Span(xs, xe, width)))
    {
      hide SetPixel, Mask, PixelAt, Row, Cell, CellColor, FontBit, BitmapBit, Fits;
      var xStart := if x1 <= x2 then x1 else x2;
      var xEnd := if x1 <= x2 then x2 else x1;
      var yStart := if y1 <= y2 then y1 else y2;
      var yEnd := if y1 <= y2 then y2 else y1;
      var st := Rect(xStart, yStart, c);
      ghost var n := Span(xStart, xEnd, width);
      ghost var b0 := buffer[..];
      assert PaintAll(b0, width, height, Grid(st, 0, n)) == b0;
      hide PaintAll, Grid;
      var y := yStart;
      while y <= yEnd && y < height
        invariant yStart <= y && y - yStart <= Span(yStart, yEnd, height)
        invariant buffer[..] == PaintAll(b0, width, height, Grid(st, y - yStart, n))
        decreases height - y
      {
        RectRow(st, y - yStart, xEnd, b0);
        y := y + 1;
      }
      assert y - yStart == Span(yStart, yEnd, height);
      assert xStart == Min(x1, x2) && xEnd == Max(x1, x2) && yStart == Min(y1, y2) && yEnd == Max(y1, y2);
    }

    /** The inner loop of `ssd1306_FillRectangle`: row `j` from `x0` up to `xEnd`, clipped to the screen. */
    method RectRow(st: Stencil, j: nat, xEnd: nat, ghost b0: seq<bv8>)
      requires Valid() && st.Rect? && st.y0 + j < height && |b0| == bufferSize
      requires buffer[..] == PaintAll(b0, width, height, Grid(st, j, Span(st.x0, xEnd, width)))
      modifies buffer
      ensures buffer[..] == PaintAll(b0, width, height, Grid(st, j + 1, Span(st.x0, xEnd, width)))
    {
      hide SetPixel, Mask, PixelAt, Fits, BitmapBit, FontBit, CellColor, Cell;
      ghost var n := Span(st.x0, xEnd, width);
      assert Grid(st, j, n) + Row(st, j, n)[..0] == Grid(st, j, n);
      assert buffer[..] == RowSoFar(b0, width, height, st, j, n, 0);
      var x := st.x0;
      while x <= xEnd && x < width
        invariant st.x0 <= x && x - st.x0 <= n
        invariant buffer[..] == RowSoFar(b0, width, height, st, j, n, x - st.x0)
      {
        DrawCell(st, j, x - st.x0, n, b0);
        x := x + 1;
      }
      GridRow(st, j, n);
      assert RowSoFar(b0, width, height, st, j, n, n) == PaintAll(b0, width, height, Grid(st, j + 1, n));
    }

    /** Row `j` of `ssd1306_WriteChar`'s glyph, left to right. */
    method GlyphRow(st: Stencil, j: nat, w: nat, ghost b0: seq<bv8>)
      requires Valid() && st.Glyph? && BlockOk(st, j + 1, w) && |b0| == bufferSize
      requires st.x0 + w <= width && st.y0 + j < height
      requires buffer[..] == PaintAll(b0, width, height, Grid(st, j, w))
      modifies buffer
      ensures buffer[..] == PaintAll(b0, width, height, Grid(st, j + 1, w))
    {
      hide SetPixel, Mask, PixelAt, Fits, BitmapBit, FontBit, CellColor, Cell;
      assert Grid(st, j, w) + Row(st, j, w)[..0] == Grid(st, j, w);
      assert buffer[..] == RowSoFar(b0, width, height, st, j, w, 0);
      var i := 0;
      while i < w
        invariant i <= w && buffer[..] == RowSoFar(b0, width, height, st, j, w, i)
      {
        DrawCell(st, j, i, w, b0);
        i := i + 1;
      }
      GridRow(st, j, w);
      assert RowSoFar(b0, width, height, st, j, w, w) == PaintAll(b0, width, height, Grid(st, j + 1, w));
    }

    /** One pixel of a glyph (the color where the font's bit is set, the other color elsewhere) or of a filled rectangle. */
    method DrawCell(st: Stencil, j: nat, i: nat, ghost w: nat, ghost b0: seq<bv8>)
      requires Valid() && !st.Bitmap? && BlockOk(st, j + 1, w) && i < w && |b0| == bufferSize
      requires st.x0 + i < width && st.y0 + j < height
      requires buffer[..] == RowSoFar(b0, width, height, st, j, w, i)
      modifies buffer
      ensures buffer[..] == RowSoFar(b0, width, height, st, j, w, i + 1)
    {
      CellStep(b0, width, height, st, j, i, w);
      hide RowSoFar, FontBit, CellColor;
      if st.Glyph? {
        if FontBit(st.font, st.code, j, i) {
          DrawPixel(st.x0 + i, st.y0 + j, st.c);
        } else {
          DrawPixel(st.x0 + i, st.y0 + j, Flip(st.c));
        }
      } else {
        DrawPixel(st.x0 + i, st.y0 + j, st.c);
      }
    }

    /** `ssd1306_SetDisplayOn`: any nonzero `on` switches the panel on. */
    method SetDisplayOn(on: nat)
      modifies this
      ensures displayOn == (if on != 0 then 1 else 0)
      ensures currentX == old(currentX) && currentY == old(currentY) && initialized == old(initialized)
      ensures old(Flags()) ==> Flags()
    {
      if on != 0 {
        displayOn := 1;
      } else {
        displayOn := 0;
      }
    }

    /** `ssd1306_GetDisplayOn`: 1 when the panel is on, 0 when it is off. */
    method GetDisplayOn() returns (on: nat)
      requires Flags()
      ensures on == displayOn && on <= 1
    {
      on := displayOn;
    }
  }
}
