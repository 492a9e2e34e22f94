/**
 * `framebuf_t` of the ESP-IDF firmware: a monochrome buffer of `buffer_size`
 * bytes for a `width` x `height` screen, and a text cursor.  The drawing
 * operations are proved against the pixel writes of `Pixels`: each method
 * leaves the buffer that its sequence of `draw_pixel` calls leaves.
 */
module Framebuf {
  import opened Pixels

  /** A line from (x1, y1) to (x2, y2), with `fb_line`'s deltas and steps. */
  datatype Seg = Seg(x1: nat, y1: nat, x2: nat, y2: nat) {
    function DX(): int { if x1 <= x2 then x2 - x1 else x1 - x2 }
    function DY(): int { if y1 <= y2 then y2 - y1 else y1 - y2 }
    function SX(): int { if x1 < x2 then 1 else -1 }
    function SY(): int { if y1 < y2 then 1 else -1 }

    /** The column `a` steps before the end column. */
    function X(a: nat): nat
      requires a <= DX()
    {
      if x1 < x2 then x2 - a else x2 + a
    }

    function Y(b: nat): nat
      requires b <= DY()
    {
      if y1 < y2 then y2 - b else y2 + b
    }

    /** Whether a step with error `e` moves along x (`error2 > -deltaY`), and along y (`error2 < deltaX`). */
    function StepX(e: int): nat { if 2 * e > -DY() then 1 else 0 }
    function StepY(e: int): nat { if 2 * e < DX() then 1 else 0 }

    /** The error after the step: `error -= deltaY` with the x move, `error += deltaX` with the y move. */
    function NextError(e: int): int {
      e - (if 2 * e > -DY() then DY() else 0) + (if 2 * e < DX() then DX() else 0)
    }

    /** Bresenham's error term when `a` columns and `b` rows remain. */
    predicate Track(a: nat, b: nat, e: int) {
      a <= DX() && b <= DY() && e == DX() - DY() + a * DY() - b * DX()
    }
  }

  /** Both coordinates differ by at most one. */
  predicate Adjacent(x: nat, y: nat, x': nat, y': nat) {
    -1 <= x - x' <= 1 && -1 <= y - y' <= 1
  }

  /** The pixel lies in the bounding box of the line. */
  predicate InBox(s: Seg, x: nat, y: nat) {
    (s.x1 <= x <= s.x2 || s.x2 <= x <= s.x1) && (s.y1 <= y <= s.y2 || s.y2 <= y <= s.y1)
  }

  /**
   * A step of `fb_line`'s loop: the x test and the y test both read the
   * error before the step; at least one of them passes, and neither passes
   * beyond the end point.
   */
  lemma LineStep(s: Seg, a: nat, b: nat, e: int)
    requires s.Track(a, b, e) && (a != 0 || b != 0)
    ensures 2 * e > -s.DY() ==> a >= 1
    ensures 2 * e < s.DX() ==> b >= 1
    ensures 2 * e > -s.DY() || 2 * e < s.DX()
  {
    var dx, dy := s.DX(), s.DY();
    if a == 0 {
      MulLe(1, b, dx);
      assert b * dx >= dx;
    }
    if b == 0 {
      MulLe(1, a, dy);
      assert a * dy >= dy;
    }
  }

  /** `fb_line` starts with the whole distance left and the error `deltaX - deltaY`. */
  lemma TrackStart(s: Seg)
    ensures s.Track(s.DX(), s.DY(), s.DX() - s.DY())
  {
    assert s.DX() * s.DY() == s.DY() * s.DX();
  }

  /** The error after a step keeps its relation to the distances left. */
  lemma TrackStep(s: Seg, a: nat, b: nat, e: int, ia: nat, ib: nat)
    requires s.Track(a, b, e) && ia <= a && ib <= b && ia <= 1 && ib <= 1
    ensures s.Track(a - ia, b - ib, e - ia * s.DY() + ib * s.DX())
    ensures e - ia * s.DY() + ib * s.DX() == e - (if ia == 1 then s.DY() else 0) + (if ib == 1 then s.DX() else 0)
  {
    var dx, dy := s.DX(), s.DY();
    assert (a - ia) * dy == a * dy - ia * dy;
    assert (b - ib) * dx == b * dx - ib * dx;
  }

  /**
   * The pixels `fb_line`'s loop draws from the point `a` columns and `b`
   * rows before the end: they stay in the bounding box, each is next to the
   * one before, and the last is next to the end point.
   */
  function Walk(s: Seg, a: nat, b: nat, e: int, c: Color): (r: seq<Op>)
    requires s.Track(a, b, e)
    ensures (a == 0 && b == 0) == (r == [])
    ensures r != [] ==> r[0] == Dot(s.X(a), s.Y(b), c)
    ensures forall k :: 0 <= k < |r| ==> r[k].Dot? && r[k].c == c && InBox(s, r[k].x, r[k].y)
    ensures forall k :: 0 <= k < |r| - 1 ==> Adjacent(r[k].x, r[k].y, r[k + 1].x, r[k + 1].y)
    ensures r != [] ==> Adjacent(r[|r| - 1].x, r[|r| - 1].y, s.x2, s.y2)
    decreases a + b
  {
    if a == 0 && b == 0 then []
    else
      LineStep(s, a, b, e);
      TrackStep(s, a, b, e, s.StepX(e), s.StepY(e));
      [Dot(s.X(a), s.Y(b), c)] + Walk(s, a - s.StepX(e), b - s.StepY(e), s.NextError(e), c)
  }

  /** One trip of `fb_line`'s loop: the current pixel, then the walk from the next one. */
  lemma WalkStep(s: Seg, a: nat, b: nat, e: int, c: Color)
    requires s.Track(a, b, e) && (a != 0 || b != 0)
    ensures s.StepX(e) <= a && s.StepY(e) <= b && s.StepX(e) + s.StepY(e) >= 1
    ensures s.Track(a - s.StepX(e), b - s.StepY(e), s.NextError(e))
    ensures Walk(s, a, b, e, c) == [Dot(s.X(a), s.Y(b), c)] + Walk(s, a - s.StepX(e), b - s.StepY(e), s.NextError(e), c)
  {
    StepKeepsTrack(s, a, b, e);
    hide Seg.Track, Seg.StepX, Seg.StepY, Seg.NextError;
  }

  /** A step moves at least one way, never past the end point, and keeps the error's relation. */
  lemma StepKeepsTrack(s: Seg, a: nat, b: nat, e: int)
    requires s.Track(a, b, e) && (a != 0 || b != 0)
    ensures s.StepX(e) <= a && s.StepY(e) <= b && s.StepX(e) + s.StepY(e) >= 1
    ensures s.Track(a - s.StepX(e), b - s.StepY(e), s.NextError(e))
  {
    LineStep(s, a, b, e);
    TrackStep(s, a, b, e, s.StepX(e), s.StepY(e));
  }

  /** `fb_line`: the end point first, then the walk from the start point. */
  function LineOps(s: Seg, c: Color): seq<Op> {
    [Dot(s.x2, s.y2, c)] + Walk(s, s.DX(), s.DY(), s.DX() - s.DY(), c)
  }

  /** The walk starts with the whole distance left on both axes. */
  lemma LineStart(s: Seg, c: Color)
    ensures s.Track(s.DX(), s.DY(), s.DX() - s.DY())
    ensures LineOps(s, c) == [Dot(s.x2, s.y2, c)] + Walk(s, s.DX(), s.DY(), s.DX() - s.DY(), c)
  {
    TrackStart(s);
  }

  /**
   * The line draws both end points and nothing outside their bounding box,
   * and its pixels after the first form a chain of neighbours ending next
   * to the end point.
   */
  lemma LineShape(s: Seg, c: Color)
    ensures var ops := LineOps(s, c);
      ops[0] == Dot(s.x2, s.y2, c)
      && ((s.x1, s.y1) != (s.x2, s.y2) ==> |ops| >= 2 && ops[1] == Dot(s.x1, s.y1, c))
      && (forall k :: 0 <= k < |ops| ==> ops[k].Dot? && ops[k].c == c && InBox(s, ops[k].x, ops[k].y))
      && (forall k :: 1 <= k < |ops| - 1 ==> Adjacent(ops[k].x, ops[k].y, ops[k + 1].x, ops[k + 1].y))
  {
    var w := Walk(s, s.DX(), s.DY(), s.DX() - s.DY(), c);
    var ops := LineOps(s, c);
    assert forall k :: 1 <= k < |ops| ==> ops[k] == w[k - 1];
  }

  /** How many of `lo`, `lo + 1`, …, `hi` lie below `limit`: the trips of `fb_fill_rectangle`'s loops. */
  function Span(lo: nat, hi: nat, limit: nat): nat {
    if lo < limit && lo <= hi then (if hi + 1 < limit then hi + 1 else limit) - lo else 0
  }

  function Min(a: nat, b: nat): nat { if a <= b then a else b }
  function Max(a: nat, b: nat): nat { if a <= b then b else a }

  /** The text the framebuffer can write: a glyph fits at the cursor. */
  predicate CharFits(width: nat, height: nat, cx: nat, cy: nat, f: Font) {
    cx + f.width <= width && cy + f.height <= height
  }

  /** The writes of one glyph at the cursor. */
  function GlyphOps(f: Font, ch: char, cx: nat, cy: nat, c: Color): seq<Op>
    requires FontOk(f) && Printable(ch as int)
  {
    Grid(Glyph(f, ch as int, cx, cy, c), f.height, f.width)
  }

  /** The glyph block is within the font, and no row of it is drawn yet. */
  lemma GlyphStart(b: seq<bv8>, width: nat, height: nat, f: Font, ch: char, cx: nat, cy: nat, c: Color)
    requires Fits(width, height, |b|) && FontOk(f) && Printable(ch as int)
    ensures var st := Glyph(f, ch as int, cx, cy, c);
      BlockOk(st, f.height, f.width) && PaintAll(b, width, height, Grid(st, 0, f.width)) == b
      && GlyphOps(f, ch, cx, cy, c) == Grid(st, f.height, f.width)
  {
  }

  /**
   * How many characters of `s` `fb_write_string` writes from the cursor
   * (cx, cy): it stops at the first character that is not printable or
   * does not fit at the cursor.
   */
  function WriteCount(width: nat, height: nat, cx: nat, cy: nat, s: string, f: Font): (n: nat)
    ensures n <= |s|
    decreases |s|
  {
    if s == [] || !Printable(s[0] as int) || !CharFits(width, height, cx, cy, f) then 0
    else WriteCount(width, height, cx + f.width, cy, s[1..], f) + 1
  }

  /** The buffer after `fb_write_string`: the glyphs of the written characters, one after the other. */
  function WriteText(b: seq<bv8>, width: nat, height: nat, cx: nat, cy: nat, s: string, f: Font, c: Color): (r: seq<bv8>)
    requires Fits(width, height, |b|) && FontOk(f)
    ensures |r| == |b|
    decreases |s|
  {
    if s == [] || !Printable(s[0] as int) || !CharFits(width, height, cx, cy, f) then b
    else WriteText(PaintAll(b, width, height, GlyphOps(f, s[0], cx, cy, c)), width, height, cx + f.width, cy, s[1..], f, c)
  }

  /** The first character of the text: written when printable and fitting, else the end of the writing. */
  lemma WriteUnfold(b: seq<bv8>, width: nat, height: nat, cx: nat, cy: nat, s: string, f: Font, c: Color)
    requires Fits(width, height, |b|) && FontOk(f)
    ensures s == [] || !Printable(s[0] as int) || !CharFits(width, height, cx, cy, f) ==>
      WriteCount(width, height, cx, cy, s, f) == 0 && WriteText(b, width, height, cx, cy, s, f, c) == b
    ensures s != [] && Printable(s[0] as int) && CharFits(width, height, cx, cy, f) ==>
      WriteCount(width, height, cx, cy, s, f) == WriteCount(width, height, cx + f.width, cy, s[1..], f) + 1
      && WriteText(b, width, height, cx, cy, s, f, c)
         == WriteText(PaintAll(b, width, height, GlyphOps(f, s[0], cx, cy, c)), width, height, cx + f.width, cy, s[1..], f, c)
  {
  }

  /**
   * The characters before the stopping point were printable and fitted one
   * after the other; the one at the stopping point, if any, is not
   * printable or does not fit at the cursor it was to be written at.
   */
  lemma {:induction false} WriteTextStops(width: nat, height: nat, cx: nat, cy: nat, s: string, f: Font)
    ensures var n := WriteCount(width, height, cx, cy, s, f);
      (forall k :: 0 <= k < n ==> Printable(s[k] as int) && CharFits(width, height, cx + k * f.width, cy, f))
      && (n < |s| ==> !Printable(s[n] as int) || !CharFits(width, height, cx + n * f.width, cy, f))
    decreases |s|
  {
    if s != [] && Printable(s[0] as int) && CharFits(width, height, cx, cy, f) {
      WriteTextStops(width, height, cx + f.width, cy, s[1..], f);
      var n := WriteCount(width, height, cx, cy, s, f);
      assert n == WriteCount(width, height, cx + f.width, cy, s[1..], f) + 1;
      hide WriteCount;
      forall k | 1 <= k <= n
        ensures cx + k * f.width == (cx + f.width) + (k - 1) * f.width
      {
        MulSucc(k - 1, f.width);
      }
      forall k | 1 <= k < |s|
        ensures s[k] == s[1..][k - 1]
      {
      }
    }
  }

  lemma MulSucc(k: nat, w: nat)
    ensures (k + 1) * w == w + k * w
  {
  }

  /** Fill is byte-wise: every pixel reads the fill color. */
  lemma FilledPixels(b: seq<bv8>, width: nat, height: nat, c: Color, x: nat, y: nat)
    requires Fits(width, height, |b|) && InBounds(width, height, x, y)
    requires forall i :: 0 <= i < |b| ==> b[i] == if c == Black then 0x00 else 0xFF
    ensures PixelAt(b, width, height, x, y) == (c == White)
  {
    IndexInBuffer(width, height, |b|, x, y);
    var v := b[PixelIndex(width, x, y)];
    assert v == 0 || v == 0xFF;
    assert Mask(y) != 0 by { MaskNonzero(y); }
  }

  lemma MaskNonzero(y: nat)
    ensures Mask(y) != 0
  {
  }

  /**
   * A filled rectangle: pixels of the screen between the corners read the
   * color, every other pixel is unchanged.
   */
  lemma RectPixels(b: seq<bv8>, width: nat, height: nat, x1: nat, y1: nat, x2: nat, y2: nat, c: Color, x: nat, y: nat)
    requires Fits(width, height, |b|) && InBounds(width, height, x, y)
    ensures var xs, xe, ys, ye := Min(x1, x2), Max(x1, x2), Min(y1, y2), Max(y1, y2);
      PixelAt(PaintAll(b, width, height, Grid(Rect(xs, ys, c), Span(ys, ye, height), Span(xs, xe, width))), width, height, x, y)
        == if xs <= x <= xe && ys <= y <= ye then c == White else PixelAt(b, width, height, x, y)
  {
    var xs, xe, ys, ye := Min(x1, x2), Max(x1, x2), Min(y1, y2), Max(y1, y2);
    assert xs <= x < xs + Span(xs, xe, width) <==> xs <= x <= xe;
    assert ys <= y < ys + Span(ys, ye, height) <==> ys <= y <= ye;
    GridPixel(b, width, height, Rect(xs, ys, c), Span(ys, ye, height), Span(xs, xe, width), x, y);
  }

  /**
   * A glyph written at the cursor: the pixels of its cell read the glyph
   * bit (in the color where the font's bit is set, in the other color
   * elsewhere) and every other pixel is unchanged.
   */
  lemma GlyphPixels(b: seq<bv8>, width: nat, height: nat, f: Font, ch: char, cx: nat, cy: nat, c: Color, x: nat, y: nat)
    requires Fits(width, height, |b|) && FontOk(f) && Printable(ch as int) && InBounds(width, height, x, y)
    ensures PixelAt(PaintAll(b, width, height, GlyphOps(f, ch, cx, cy, c)), width, height, x, y)
      == if cx <= x < cx + f.width && cy <= y < cy + f.height
         then (if FontBit(f, ch as int, y - cy, x - cx) then c else Flip(c)) == White
         else PixelAt(b, width, height, x, y)
  {
    GridPixel(b, width, height, Glyph(f, ch as int, cx, cy, c), f.height, f.width, x, y);
  }

  /** A bitmap: the set bits of its rows read the color; every other pixel is unchanged. */
  lemma BitmapPixels(b: seq<bv8>, width: nat, height: nat, bits: seq<bv8>, x0: nat, y0: nat, w: nat, h: nat, c: Color, x: nat, y: nat)
    requires Fits(width, height, |b|) && InBounds(width, height, x, y) && BlockOk(Bitmap(bits, (w + 7) / 8, x0, y0, c), h, w)
    ensures PixelAt(PaintAll(b, width, height, Grid(Bitmap(bits, (w + 7) / 8, x0, y0, c), h, w)), width, height, x, y)
      == if x0 <= x < x0 + w && y0 <= y < y0 + h && Cell(Bitmap(bits, (w + 7) / 8, x0, y0, c), y - y0, x - x0).Dot?
         then c == White
         else PixelAt(b, width, height, x, y)
  {
    GridPixel(b, width, height, Bitmap(bits, (w + 7) / 8, x0, y0, c), h, w, x, y);
  }

  /** A bitmap of `h` rows of `(w + 7) / 8` bytes has a byte for every pixel. */
  lemma BitmapBlock(bits: seq<bv8>, x0: nat, y0: nat, w: nat, h: nat, c: Color)
    requires h * ((w + 7) / 8) <= |bits|
    ensures BlockOk(Bitmap(bits, (w + 7) / 8, x0, y0, c), h, w)
  {
    var bw := (w + 7) / 8;
    forall r, q | 0 <= r < h && 0 <= q < w
      ensures r * bw + q / 8 < |bits|
    {
      MulLe(r + 1, h, bw);
    }
  }

  class Framebuf {
    const width: nat
    const height: nat
    const bufferSize: nat
    const buffer: array<bv8>
    var currentX: nat
    var currentY: nat

    ghost predicate Valid()
    {
      buffer.Length == bufferSize && Fits(width, height, bufferSize)
    }

    /** The static `framebuf_t` of `oled.c`: zeroed memory, cursor at the origin. */
    constructor (width: nat, height: nat, bufferSize: nat)
      requires Fits(width, height, bufferSize)
      ensures Valid() && this.width == width && this.height == height && this.bufferSize == bufferSize
      ensures currentX == 0 && currentY == 0 && fresh(buffer)
      ensures forall i :: 0 <= i < bufferSize ==> buffer[i] == 0
    {
      this.width, this.height, this.bufferSize := width, height, bufferSize;
      buffer := new bv8[bufferSize](_ => 0);
      currentX, currentY := 0, 0;
    }

    /** `fb_fill`: every byte 0x00 for black, 0xFF for white. */
    method Fill(c: Color)
      requires Valid()
      modifies buffer
      ensures forall i :: 0 <= i < buffer.Length ==> buffer[i] == if c == Black then 0x00 else 0xFF
    {
      var i := 0;
      while i < bufferSize
        invariant i <= bufferSize
        invariant forall k :: 0 <= k < i ==> buffer[k] == if c == Black then 0x00 else 0xFF
      {
        buffer[i] := if c == Black then 0x00 else 0xFF;
        i := i + 1;
      }
    }

    /** `fb_fill_buffer`: copies `buf` to the front of the buffer if it fits, else does nothing. */
    method FillBuffer(buf: seq<bv8>)
      requires Valid()
      modifies buffer
      ensures |buf| <= bufferSize ==> buffer[..] == buf + old(buffer[..])[|buf|..]
      ensures |buf| > bufferSize ==> buffer[..] == old(buffer[..])
    {
      if |buf| <= bufferSize {
        var i := 0;
        while i < |buf|
          invariant i <= |buf|
          invariant forall k :: 0 <= k < i ==> buffer[k] == buf[k]
          invariant forall k :: i <= k < buffer.Length ==> buffer[k] == old(buffer[k])
        {
          buffer[i] := buf[i];
          i := i + 1;
        }
        assert buffer[..] == buf + old(buffer[..])[|buf|..];
      }
    }

    /** `fb_draw_pixel`. */
    method DrawPixel(x: nat, y: nat, c: Color)
      requires Valid()
      modifies buffer
      ensures buffer[..] == SetPixel(old(buffer[..]), width, height, x, y, c)
    {
      hide Mask, PixelAt, SetPixel, PixelIndex;
      SetPixelIs(buffer[..], width, height, x, y, c);
      if x >= width || y >= height {
        return;
      }
      var i := PixelIndex(width, x, y);
      ghost var b := buffer[..];
      if c == White {
        buffer[i] := buffer[i] | Mask(y);
      } else {
        buffer[i] := buffer[i] & !Mask(y);
      }
      assert buffer[..] == b[i := buffer[i]];
    }

    /** `fb_draw_bitmap`: rows of `(w + 7) / 8` bytes, most significant bit leftmost; set bits are drawn. */
    method DrawBitmap(x: nat, y: nat, bits: seq<bv8>, w: nat, h: nat, c: Color)
      requires Valid() && h * ((w + 7) / 8) <= |bits|
      modifies buffer
      ensures BlockOk(Bitmap(bits, (w + 7) / 8, x, y, c), h, w)
      ensures buffer[..] == if x >= width || y >= height then old(buffer[..])
                      else PaintAll(old(buffer[..]), width, height, Grid(Bitmap(bits, (w + 7) / 8, x, y, c), h, w))
    {
      hide SetPixel, Mask, PixelAt, Row, Cell, CellColor, FontBit, BitmapBit, Loaded, TopBit;
      var byteWidth := (w + 7) / 8;
      var st := Bitmap(bits, byteWidth, x, y, c);
      BitmapBlock(bits, x, y, w, h, c);
      if x >= width || y >= height {
        return;
      }
      ghost var b0 := buffer[..];
      var j := 0;
      while j < h
        invariant j <= h && buffer[..] == PaintAll(b0, width, height, Grid(st, j, w))
      {
        BitmapRow(st, j, w, b0);
        j := j + 1;
      }
    }

    /** `fb_write_char`: a printable character that fits at the cursor is drawn there and the cursor moves right. */
    method WriteChar(ch: char, f: Font, c: Color) returns (ok: bool)
      requires Valid() && FontOk(f)
      modifies this, buffer
      ensures ok == (Printable(ch as int) && CharFits(width, height, old(currentX), old(currentY), f))
      ensures currentY == old(currentY)
      ensures ok ==> (currentX == old(currentX) + f.width
                      && buffer[..] == PaintAll(old(buffer[..]), width, height, GlyphOps(f, ch, old(currentX), old(currentY), c)))
      ensures !ok ==> currentX == old(currentX) && buffer[..] == old(buffer[..])
    {
      hide PaintAll, Grid, Row, Cell, GlyphOps, FontBit, CellColor;
      if ch as int < 32 || ch as int > 126 {
        return false;
      }
      if width < currentX + f.width || height < currentY + f.height {
        return false;
      }
      var st := Glyph(f, ch as int, currentX, currentY, c);
      ghost var b0 := buffer[..];
      GlyphStart(b0, width, height, f, ch, currentX, currentY, c);
      var i := 0;
      while i < f.height
        invariant i <= f.height && buffer[..] == PaintAll(b0, width, height, Grid(st, i, f.width))
        invariant currentX == old(currentX) && currentY == old(currentY)
      {
        GlyphRow(st, i, f.width, b0);
        i := i + 1;
      }
      currentX := currentX + f.width;
      ok := true;
    }

    /**
     * `fb_write_string`: characters are written until the terminating NUL, or
     * until one cannot be written; the result is the index of the first
     * character not written.
     */
    method WriteString(s: string, f: Font, c: Color) returns (n: nat)
      requires Valid() && FontOk(f)
      modifies this, buffer
      ensures n == WriteCount(width, height, old(currentX), old(currentY), s, f)
      ensures buffer[..] == WriteText(old(buffer[..]), width, height, old(currentX), old(currentY), s, f, c)
      ensures currentX == old(currentX) + n * f.width && currentY == old(currentY)
    {
      hide WriteCount, WriteText, PaintAll, GlyphOps;
      ghost var b0, cx0, cy0 := buffer[..], currentX, currentY;
      n := 0;
      while n < |s| && s[n] != '\0'
        invariant n <= |s| && currentY == cy0 && currentX == cx0 + n * f.width
        invariant WriteCount(width, height, cx0, cy0, s, f) == n + WriteCount(width, height, currentX, cy0, s[n..], f)
        invariant WriteText(b0, width, height, cx0, cy0, s, f, c) == WriteText(buffer[..], width, height, currentX, cy0, s[n..], f, c)
        decreases |s| - n
      {
        WriteUnfold(buffer[..], width, height, currentX, cy0, s[n..], f, c);
        assert s[n..][0] == s[n] && s[n..][1..] == s[n + 1..];
        var ok := WriteChar(s[n], f, c);
        if !ok {
          return;
        }
        MulSucc(n, f.width);
        n := n + 1;
      }
      WriteUnfold(buffer[..], width, height, currentX, cy0, s[n..], f, c);
    }

    /** `fb_set_cursor`. */
    method SetCursor(x: nat, y: nat)
      modifies this
      ensures currentX == x && currentY == y
    {
      currentX, currentY := x, y;
    }

    /**
     * `fb_line`, Bresenham's algorithm: the end point is drawn first, then
     * the walk from the start point up to, not including, the end point.
     */
    method Line(x1: nat, y1: nat, x2: nat, y2: nat, c: Color)
      requires Valid()
      modifies buffer
      ensures buffer[..] == PaintAll(old(buffer[..]), width, height, LineOps(Seg(x1, y1, x2, y2), c))
    {
      ghost var s := Seg(x1, y1, x2, y2);
      var deltaX: int := if x1 <= x2 then x2 - x1 else x1 - x2;
      var deltaY: int := if y1 <= y2 then y2 - y1 else y1 - y2;
      var signX := if x1 < x2 then 1 else -1;
      var signY := if y1 < y2 then 1 else -1;
      var error := deltaX - deltaY;
      ghost var b0 := buffer[..];
      DrawPixel(x2, y2, c);
      assert PaintAll(b0, width, height, []) == b0;
      assert buffer[..] == PaintAll(b0, width, height, [Dot(x2, y2, c)]);
      LineLoop(s, x1, y1, x2, y2, deltaX, deltaY, signX, signY, error, c, b0);
    }

    /** The loop of `fb_line`: from the start point up to, not including, the end point. */
    method LineLoop(ghost s: Seg, x1: nat, y1: nat, x2: nat, y2: nat, deltaX: int, deltaY: int, signX: int, signY: int,
                    error0: int, c: Color, ghost b0: seq<bv8>)
      requires Valid() && |b0| == bufferSize && s == Seg(x1, y1, x2, y2)
      requires deltaX == s.DX() && deltaY == s.DY() && signX == s.SX() && signY == s.SY() && error0 == deltaX - deltaY
      requires buffer[..] == PaintAll(b0, width, height, [Dot(x2, y2, c)])
      modifies buffer
      ensures buffer[..] == PaintAll(b0, width, height, LineOps(s, c))
    {
      hide Walk, SetPixel, Mask, PixelAt, PaintAll, LineOps, Seg.Track;
      LineStart(s, c);
      ghost var done := [Dot(x2, y2, c)];
      var x: int, y: int, error := x1, y1, error0;
      ghost var a: nat, b: nat := deltaX, deltaY;
      while x != x2 || y != y2
        invariant a <= s.DX() && b <= s.DY() && s.Track(a, b, error) && x == s.X(a) && y == s.Y(b)
        invariant buffer[..] == PaintAll(b0, width, height, done)
        invariant LineOps(s, c) == done + Walk(s, a, b, error, c)
        decreases a + b
      {
        ghost var op, e0 := Dot(x, y, c), error;
        x, y, error := LineTrip(s, x, y, error, deltaX, deltaY, signX, signY, a, b, done, b0, c);
        a, b := a - s.StepX(e0), b - s.StepY(e0);
        done := done + [op];
      }
      assert a == 0 && b == 0;
      assert Walk(s, a, b, error, c) == [];
      assert done + [] == done;
    }

    /** One trip of `fb_line`'s loop: draw the current pixel, then step along x, y or both. */
    method LineTrip(ghost s: Seg, x: int, y: int, error: int, deltaX: int, deltaY: int, signX: int, signY: int,
                    ghost a: nat, ghost b: nat, ghost done: seq<Op>, ghost b0: seq<bv8>, c: Color)
      returns (x': int, y': int, error': int)
      requires Valid() && |b0| == bufferSize && (a != 0 || b != 0)
      requires deltaX == s.DX() && deltaY == s.DY() && signX == s.SX() && signY == s.SY()
      requires s.Track(a, b, error) && x == s.X(a) && y == s.Y(b)
      requires buffer[..] == PaintAll(b0, width, height, done)
      requires LineOps(s, c) == done + Walk(s, a, b, error, c)
      modifies buffer
      ensures error' == s.NextError(error) && s.StepX(error) <= a && s.StepY(error) <= b
      ensures s.StepX(error) + s.StepY(error) >= 1
      ensures s.Track(a - s.StepX(error), b - s.StepY(error), error')
      ensures x' == s.X(a - s.StepX(error)) && y' == s.Y(b - s.StepY(error))
      ensures buffer[..] == PaintAll(b0, width, height, done + [Dot(x, y, c)])
      ensures LineOps(s, c) == (done + [Dot(x, y, c)]) + Walk(s, a - s.StepX(error), b - s.StepY(error), error', c)
    {
      hide PaintAll, Walk, LineOps, SetPixel, Mask, PixelAt, Seg.Track;
      WalkStep(s, a, b, error, c);
      PaintSnoc(b0, width, height, done, Dot(x, y, c));
      assert done + Walk(s, a, b, error, c)
        == (done + [Dot(x, y, c)]) + Walk(s, a - s.StepX(error), b - s.StepY(error), s.NextError(error), c);
      DrawPixel(x, y, c);
      x', y', error' := x, y, error;
      var error2 := error * 2;
      if error2 > -deltaY {
        error' := error' - deltaY;
        x' := x' + signX;
      }
      if error2 < deltaX {
        error' := error' + deltaX;
        y' := y' + signY;
      }
    }

    /** `fb_fill_rectangle`: every pixel between the corners, row by row, clipped to the screen. */
    method FillRectangle(x1: nat, y1: nat, x2: nat, y2: nat, c: Color)
      requires Valid()
      modifies buffer
      ensures var xs, xe, ys, ye := Min(x1, x2), Max(x1, x2), Min(y1, y2), Max(y1, y2);
        buffer[..] == PaintAll(old(buffer[..]), width, height, Grid(Rect(xs, ys, c), Span(ys, ye, height), Span(xs, xe, width)))
    {
      hide SetPixel, Mask, PixelAt, Row, Cell, CellColor, FontBit, BitmapBit;
      var xStart := if x1 <= x2 then x1 else x2;
      var xEnd := if x1 <= x2 then x2 else x1;
      var yStart := if y1 <= y2 then y1 else y2;
      var yEnd := if y1 <= y2 then y2 else y1;
      var st := Rect(xStart, yStart, c);
      ghost var n := Span(xStart, xEnd, width);
      ghost var b0 := buffer[..];
      assert PaintAll(b0, width, height, Grid(st, 0, n)) == b0;
      hide PaintAll, Grid;
      var y := yStart;
      while y <= yEnd && y < height
        invariant yStart <= y && y - yStart <= Span(yStart, yEnd, height)
        invariant buffer[..] == PaintAll(b0, width, height, Grid(st, y - yStart, n))
        decreases height - y
      {
        RectRow(st, y - yStart, xEnd, b0);
        y := y + 1;
      }
      assert y - yStart == Span(yStart, yEnd, height);
      assert xStart == Min(x1, x2) && xEnd == Max(x1, x2) && yStart == Min(y1, y2) && yEnd == Max(y1, y2);
    }

    /** The inner loop of `fb_fill_rectangle`: row `j` from `x0` up to `xEnd`, clipped to the screen. */
    method RectRow(st: Stencil, j: nat, xEnd: nat, ghost b0: seq<bv8>)
      requires Valid() && st.Rect? && |b0| == bufferSize
      requires buffer[..] == PaintAll(b0, width, height, Grid(st, j, Span(st.x0, xEnd, width)))
      modifies buffer
      ensures buffer[..] == PaintAll(b0, width, height, Grid(st, j + 1, Span(st.x0, xEnd, width)))
    {
      ghost var n := Span(st.x0, xEnd, width);
      assert Grid(st, j, n) + Row(st, j, n)[..0] == Grid(st, j, n);
      assert buffer[..] == RowSoFar(b0, width, height, st, j, n, 0);
      var x := st.x0;
      while x <= xEnd && x < width
        invariant st.x0 <= x && x - st.x0 <= n
        invariant buffer[..] == RowSoFar(b0, width, height, st, j, n, x - st.x0)
      {
        DrawCell(st, j, x - st.x0, n, b0);
        x := x + 1;
      }
      GridRow(st, j, n);
      assert RowSoFar(b0, width, height, st, j, n, n) == PaintAll(b0, width, height, Grid(st, j + 1, n));
    }

    /** Row `j` of `fb_write_char`'s glyph, left to right. */
    method GlyphRow(st: Stencil, j: nat, w: nat, ghost b0: seq<bv8>)
      requires Valid() && st.Glyph? && BlockOk(st, j + 1, w) && |b0| == bufferSize
      requires buffer[..] == PaintAll(b0, width, height, Grid(st, j, w))
      modifies buffer
      ensures buffer[..] == PaintAll(b0, width, height, Grid(st, j + 1, w))
    {
      hide SetPixel, Mask, PixelAt, Fits, BitmapBit, FontBit, CellColor, Cell, PaintAll, Grid;
      assert Grid(st, j, w) + Row(st, j, w)[..0] == Grid(st, j, w);
      assert buffer[..] == RowSoFar(b0, width, height, st, j, w, 0);
      var i := 0;
      while i < w
        invariant i <= w && buffer[..] == RowSoFar(b0, width, height, st, j, w, i)
      {
        DrawCell(st, j, i, w, b0);
        i := i + 1;
      }
      GridRow(st, j, w);
      assert RowSoFar(b0, width, height, st, j, w, w) == PaintAll(b0, width, height, Grid(st, j + 1, w));
    }

    /** One pixel of a glyph (the color where the font's bit is set, the other color elsewhere) or of a filled rectangle. */
    method DrawCell(st: Stencil, j: nat, i: nat, ghost w: nat, ghost b0: seq<bv8>)
      requires Valid() && !st.Bitmap? && BlockOk(st, j + 1, w) && i < w && |b0| == bufferSize
      requires buffer[..] == RowSoFar(b0, width, height, st, j, w, i)
      modifies buffer
      ensures buffer[..] == RowSoFar(b0, width, height, st, j, w, i + 1)
    {
      CellStep(b0, width, height, st, j, i, w);
      hide RowSoFar, FontBit, CellColor;
      if st.Glyph? {
        if FontBit(st.font, st.code, j, i) {
          DrawPixel(st.x0 + i, st.y0 + j, st.c);
        } else {
          DrawPixel(st.x0 + i, st.y0 + j, Flip(st.c));
        }
      } else {
        DrawPixel(st.x0 + i, st.y0 + j, st.c);
      }
    }

    /** Column `i` of row `j` of `fb_draw_bitmap`: the pixel is drawn when the top bit of `byte` is set. */
    method BitmapCell(st: Stencil, j: nat, i: nat, w: nat, ghost b0: seq<bv8>, byte: bv8)
      requires Valid() && st.Bitmap? && BlockOk(st, j + 1, w) && i < w && |b0| == bufferSize
      requires buffer[..] == RowSoFar(b0, width, height, st, j, w, i)
      requires CellOk(st, j, i) && byte == Loaded(st, j, i)
      modifies buffer
      ensures buffer[..] == RowSoFar(b0, width, height, st, j, w, i + 1)
    {
      BitmapStep(b0, width, height, st, j, i, w);
      hide RowSoFar, Loaded, TopBit;
      if TopBit(byte) {
        DrawPixel(st.x0 + i, st.y0 + j, st.c);
      }
    }

    /** Row `j` of `fb_draw_bitmap`: a byte is loaded every eighth column and shifted left in between. */
    method BitmapRow(st: Stencil, j: nat, w: nat, ghost b0: seq<bv8>)
      requires Valid() && st.Bitmap? && BlockOk(st, j + 1, w) && |b0| == bufferSize
      requires buffer[..] == PaintAll(b0, width, height, Grid(st, j, w))
      modifies buffer
      ensures buffer[..] == PaintAll(b0, width, height, Grid(st, j + 1, w))
    {
      var bw := st.byteWidth;
      var i := 0;
      var byte: bv8 := 0;
      assert Grid(st, j, w) + Row(st, j, w)[..0] == Grid(st, j, w);
      assert buffer[..] == RowSoFar(b0, width, height, st, j, w, 0);
      while i < w
        invariant i <= w
        invariant buffer[..] == RowSoFar(b0, width, height, st, j, w, i)
        invariant 0 < i ==> CellOk(st, j, i - 1) && byte == Loaded(st, j, i - 1)
      {
        assert CellOk(st, j, i);
        byte := NextByte(st, j, i, byte);
        BitmapCell(st, j, i, w, b0, byte);
        i := i + 1;
      }
      GridRow(st, j, w);
      assert RowSoFar(b0, width, height, st, j, w, w) == PaintAll(b0, width, height, Grid(st, j + 1, w));
    }
  }

  /** The byte for column `i`: loaded every eighth column, shifted left once in between. */
  method NextByte(st: Stencil, j: nat, i: nat, byte: bv8) returns (next: bv8)
    requires st.Bitmap? && CellOk(st, j, i)
    requires 0 < i ==> CellOk(st, j, i - 1) && byte == Loaded(st, j, i - 1)
    ensures next == Loaded(st, j, i)
  {
    if i % 8 != 0 {
      LoadedShift(st, j, i);
      next := byte << 1;
    } else {
      LoadedFirst(st, j, i);
      next := st.bits[j * st.byteWidth + i / 8];
    }
  }

  /** The buffer once row `j` of a bitmap is drawn up to column `i`. */
  function RowSoFar(b: seq<bv8>, width: nat, height: nat, st: Stencil, j: nat, w: nat, i: nat): seq<bv8>
    requires Fits(width, height, |b|) && BlockOk(st, j + 1, w) && i <= w
  {
    PaintAll(b, width, height, Grid(st, j, w) + Row(st, j, w)[..i])
  }

  lemma RowSoFarStep(b: seq<bv8>, width: nat, height: nat, st: Stencil, j: nat, i: nat, w: nat)
    requires Fits(width, height, |b|) && BlockOk(st, j + 1, w) && i < w
    ensures CellOk(st, j, i) && |RowSoFar(b, width, height, st, j, w, i)| == |b|
    ensures RowSoFar(b, width, height, st, j, w, i + 1) == Apply(RowSoFar(b, width, height, st, j, w, i), width, height, Cell(st, j, i))
  {
    assert CellOk(st, j, i);
    GridStep(b, width, height, st, j, i, w);
  }

  /** One column of a glyph or rectangle row: the pixel is written in the cell's color. */
  lemma CellStep(b: seq<bv8>, width: nat, height: nat, st: Stencil, j: nat, i: nat, w: nat)
    requires Fits(width, height, |b|) && !st.Bitmap? && BlockOk(st, j + 1, w) && i < w
    ensures CellOk(st, j, i) && |RowSoFar(b, width, height, st, j, w, i)| == |b|
    ensures CellColor(st, j, i) == if st.Glyph? && !FontBit(st.font, st.code, j, i) then Flip(st.c) else st.c
    ensures RowSoFar(b, width, height, st, j, w, i + 1)
      == SetPixel(RowSoFar(b, width, height, st, j, w, i), width, height, st.x0 + i, st.y0 + j, CellColor(st, j, i))
  {
    hide RowSoFar, PaintAll, Grid, Row, FontBit, BitmapBit;
    RowSoFarStep(b, width, height, st, j, i, w);
    assert Cell(st, j, i) == Dot(st.x0 + i, st.y0 + j, CellColor(st, j, i));
  }

  /** One column of a bitmap row: the pixel is written exactly when its loaded bit is set. */
  lemma BitmapStep(b: seq<bv8>, width: nat, height: nat, st: Stencil, j: nat, i: nat, w: nat)
    requires Fits(width, height, |b|) && st.Bitmap? && BlockOk(st, j + 1, w) && i < w
    ensures CellOk(st, j, i) && |RowSoFar(b, width, height, st, j, w, i)| == |b|
    ensures RowSoFar(b, width, height, st, j, w, i + 1)
      == if TopBit(Loaded(st, j, i)) then SetPixel(RowSoFar(b, width, height, st, j, w, i), width, height, st.x0 + i, st.y0 + j, st.c)
         else RowSoFar(b, width, height, st, j, w, i)
  {
    hide RowSoFar, PaintAll, Grid, Row, Loaded, TopBit, Cell, BitmapBit;
    RowSoFarStep(b, width, height, st, j, i, w);
    LoadedBit(st, j, i);
    var op := Cell(st, j, i);
    if TopBit(Loaded(st, j, i)) {
      assert op == Dot(st.x0 + i, st.y0 + j, st.c);
    } else {
      assert op == Skip;
    }
  }

  /** The leftmost pixel of a bitmap byte is set. */
  predicate TopBit(byte: bv8) {
    byte & 0x80 != 0
  }

  /** `fb_draw_bitmap`'s `byte` at column `q` of row `r`: its top bit is the pixel's. */
  function Loaded(st: Stencil, r: nat, q: nat): bv8
    requires st.Bitmap? && CellOk(st, r, q)
  {
    st.bits[r * st.byteWidth + q / 8] << (q % 8)
  }

  lemma LoadedBit(st: Stencil, r: nat, q: nat)
    requires st.Bitmap? && CellOk(st, r, q)
    ensures Cell(st, r, q) == if TopBit(Loaded(st, r, q)) then Dot(st.x0 + q, st.y0 + r, st.c) else Skip
  {
  }

  /** Every eighth column the byte is loaded afresh. */
  lemma LoadedFirst(st: Stencil, r: nat, q: nat)
    requires st.Bitmap? && CellOk(st, r, q) && q % 8 == 0
    ensures Loaded(st, r, q) == st.bits[r * st.byteWidth + q / 8]
  {
    assert st.bits[r * st.byteWidth + q / 8] << 0 == st.bits[r * st.byteWidth + q / 8];
  }

  /** In between, the byte of the column before is shifted left once. */
  lemma LoadedShift(st: Stencil, r: nat, q: nat)
    requires st.Bitmap? && CellOk(st, r, q) && q % 8 != 0
    ensures CellOk(st, r, q - 1) && Loaded(st, r, q) == Loaded(st, r, q - 1) << 1
  {
    assert (q - 1) / 8 == q / 8 && (q - 1) % 8 + 1 == q % 8;
    ShiftMore(st.bits[r * st.byteWidth + q / 8], (q - 1) % 8);
  }

  lemma ShiftMore(v: bv8, k: nat)
    requires k < 7
    ensures (v << k) << 1 == v << (k + 1)
  {
  }
}
