/**
 * The monochrome page layout shared by the framebuffer of `framebuf.c` and
 * the SSD1306 driver: pixel (x, y) of a `width`-wide screen is bit `y % 8`
 * of byte `x + (y / 8) * width`.  Drawing operations are described as
 * sequences of single-pixel writes (`Op`), applied first to last by
 * `PaintAll`; `LastColor` says what a pixel reads afterwards.
 */
module Pixels {
  /** `fb_color_t` / `SSD1306_COLOR`: black is 0, white is 1. */
  datatype Color = Black | White

  /** `color ^ 1` in `fb_write_char`, `!color` in `ssd1306_WriteChar`. */
  function Flip(c: Color): (r: Color)
    ensures r != c
  {
    if c == Black then White else Black
  }

  /** The byte holding pixel (x, y). */
  function PixelIndex(width: nat, x: nat, y: nat): nat {
    x + (y / 8) * width
  }

  /** The bit of that byte, `1 << (y % 8)`. */
  function Mask(y: nat): bv8 {
    (1 as bv8) << (y % 8)
  }

  predicate InBounds(width: nat, height: nat, x: nat, y: nat) {
    x < width && y < height
  }

  /** A buffer of `size` bytes holds every page of a `width` x `height` screen. */
  predicate Fits(width: nat, height: nat, size: nat) {
    width * ((height + 7) / 8) <= size
  }

  /** Every pixel on the screen lives inside a buffer that fits. */
  lemma IndexInBuffer(width: nat, height: nat, size: nat, x: nat, y: nat)
    requires Fits(width, height, size) && InBounds(width, height, x, y)
    ensures PixelIndex(width, x, y) < size
  {
    var p := y / 8;
    assert p + 1 <= (height + 7) / 8;
    MulLe(p + 1, (height + 7) / 8, width);
    assert x + p * width < (p + 1) * width;
  }

  lemma MulLe(a: nat, b: nat, w: nat)
    requires a <= b
    ensures a * w <= b * w
  {
  }

  /**
   * The buffer size the framebuffer header asks for, `ceil(width*height/8)`
   * bytes, which `oled.c` allocates.
   */
  function HeaderSize(width: nat, height: nat): nat {
    (width * height + 7) / 8
  }

  /**
   * With the header's size, the 100 x 100 framebuffer of `oled.c` is too
   * small: pixel (99, 99) lives at byte 1299 of a 1250-byte buffer.
   */
  lemma HeaderSizeTooSmall()
    ensures InBounds(100, 100, 99, 99) && HeaderSize(100, 100) == 1250
    ensures PixelIndex(100, 99, 99) == 1299 && !Fits(100, 100, HeaderSize(100, 100))
  {
  }

  /** Whether pixel (x, y) is set. */
  function PixelAt(b: seq<bv8>, width: nat, height: nat, x: nat, y: nat): bool
    requires Fits(width, height, |b|) && InBounds(width, height, x, y)
  {
    IndexInBuffer(width, height, |b|, x, y);
    b[PixelIndex(width, x, y)] & Mask(y) != 0
  }

  /**
   * `fb_draw_pixel` / `ssd1306_DrawPixel` on a buffer value: outside the
   * screen nothing changes; inside, white sets and black clears bit `y % 8`
   * of byte `x + (y / 8) * width`, and no other bit changes.
   */
  function SetPixel(b: seq<bv8>, width: nat, height: nat, x: nat, y: nat, c: Color): (r: seq<bv8>)
    requires Fits(width, height, |b|)
    ensures |r| == |b|
  {
    if !InBounds(width, height, x, y) then b
    else
      var i := PixelIndex(width, x, y);
      IndexInBuffer(width, height, |b|, x, y);
      b[i := if c == White then b[i] | Mask(y) else b[i] & !Mask(y)]
  }

  /** The write in terms of the byte it changes, as the drawing methods perform it. */
  lemma SetPixelIs(b: seq<bv8>, width: nat, height: nat, x: nat, y: nat, c: Color)
    requires Fits(width, height, |b|)
    ensures !InBounds(width, height, x, y) ==> SetPixel(b, width, height, x, y, c) == b
    ensures InBounds(width, height, x, y) ==>
      var i := PixelIndex(width, x, y);
      i < |b| && SetPixel(b, width, height, x, y, c) == b[i := if c == White then b[i] | Mask(y) else b[i] & !Mask(y)]
  {
    if InBounds(width, height, x, y) {
      IndexInBuffer(width, height, |b|, x, y);
    }
  }

  /**
   * What a pixel write changes: outside the screen nothing; inside, the
   * pixel reads the color, and of its byte only its bit may differ.
   */
  lemma SetPixelBits(b: seq<bv8>, width: nat, height: nat, x: nat, y: nat, c: Color)
    requires Fits(width, height, |b|)
    ensures var r := SetPixel(b, width, height, x, y, c);
      (!InBounds(width, height, x, y) ==> r == b)
      && (InBounds(width, height, x, y) ==>
            var i := PixelIndex(width, x, y);
            i < |b| && (forall k :: 0 <= k < |b| && k != i ==> r[k] == b[k])
            && r[i] & !Mask(y) == b[i] & !Mask(y)
            && PixelAt(r, width, height, x, y) == (c == White))
  {
    if InBounds(width, height, x, y) {
      IndexInBuffer(width, height, |b|, x, y);
      MaskBits(b[PixelIndex(width, x, y)], y);
    }
  }

  lemma MaskBits(v: bv8, y: nat)
    ensures (v | Mask(y)) & !Mask(y) == v & !Mask(y) && (v | Mask(y)) & Mask(y) != 0
    ensures (v & !Mask(y)) & !Mask(y) == v & !Mask(y) && (v & !Mask(y)) & Mask(y) == 0
  {
  }

  /** Two pixels of the same byte sit on different bits. */
  lemma MaskApart(y: nat, y': nat)
    requires y / 8 == y' / 8 && y != y'
    ensures Mask(y) & Mask(y') == 0
  {
    assert y % 8 != y' % 8;
  }

  /** Two different pixels of the screen never share a bit. */
  lemma PixelsApart(width: nat, x: nat, y: nat, x': nat, y': nat)
    requires x < width && x' < width && (x, y) != (x', y')
    ensures PixelIndex(width, x, y) != PixelIndex(width, x', y') || Mask(y) & Mask(y') == 0
  {
    var p, p' := y / 8, y' / 8;
    if p < p' {
      MulLe(p + 1, p', width);
    } else if p' < p {
      MulLe(p' + 1, p, width);
    } else if y != y' {
      MaskApart(y, y');
    }
  }

  /** Writing one pixel leaves every other pixel of the screen as it was. */
  lemma SetPixelFrame(b: seq<bv8>, width: nat, height: nat, x: nat, y: nat, c: Color, x': nat, y': nat)
    requires Fits(width, height, |b|) && InBounds(width, height, x', y') && (x, y) != (x', y')
    ensures PixelAt(SetPixel(b, width, height, x, y, c), width, height, x', y') == PixelAt(b, width, height, x', y')
  {
    hide SetPixel, Mask, PixelIndex, Fits, PixelAt, Bit;
    IndexInBuffer(width, height, |b|, x', y');
    SetPixelBits(b, width, height, x, y, c);
    var r := SetPixel(b, width, height, x, y, c);
    var i' := PixelIndex(width, x', y');
    PixelAtIs(r, width, height, x', y');
    PixelAtIs(b, width, height, x', y');
    if InBounds(width, height, x, y) {
      PixelsApart(width, x, y, x', y');
      var i := PixelIndex(width, x, y);
      if i == i' {
        FrameBit(b[i], r[i], Mask(y), Mask(y'));
      } else {
        assert r[i'] == b[i'];
      }
    }
  }

  /** Whether the bits of mask `m` are set in `v`. */
  predicate Bit(v: bv8, m: bv8) {
    v & m != 0
  }

  lemma PixelAtIs(b: seq<bv8>, width: nat, height: nat, x: nat, y: nat)
    requires Fits(width, height, |b|) && InBounds(width, height, x, y)
    ensures PixelIndex(width, x, y) < |b|
    ensures PixelAt(b, width, height, x, y) == Bit(b[PixelIndex(width, x, y)], Mask(y))
  {
    IndexInBuffer(width, height, |b|, x, y);
  }

  lemma FrameBit(v: bv8, v': bv8, m: bv8, m': bv8)
    requires v' & !m == v & !m && m & m' == 0
    ensures Bit(v', m') == Bit(v, m')
  {
  }

  // ------------------------------------------------------------ sequences of pixel writes

  /** One `draw_pixel` call of a drawing loop, or a loop step that draws nothing. */
  datatype Op = Dot(x: nat, y: nat, c: Color) | Skip

  function Apply(b: seq<bv8>, width: nat, height: nat, op: Op): (r: seq<bv8>)
    requires Fits(width, height, |b|)
    ensures |r| == |b|
  {
    match op
    case Dot(x, y, c) => SetPixel(b, width, height, x, y, c)
    case Skip => b
  }

  /** The writes `ops`, first to last. */
  function PaintAll(b: seq<bv8>, width: nat, height: nat, ops: seq<Op>): (r: seq<bv8>)
    requires Fits(width, height, |b|)
    ensures |r| == |b|
    decreases |ops|
  {
    if ops == [] then b
    else Apply(PaintAll(b, width, height, ops[..|ops| - 1]), width, height, ops[|ops| - 1])
  }

  /** One more write. */
  lemma PaintSnoc(b: seq<bv8>, width: nat, height: nat, ops: seq<Op>, op: Op)
    requires Fits(width, height, |b|)
    ensures PaintAll(b, width, height, ops + [op]) == Apply(PaintAll(b, width, height, ops), width, height, op)
  {
    assert (ops + [op])[..|ops|] == ops;
  }

  /** What pixel (x, y) reads after the writes `ops`, if it read `d` before: the last write to it wins. */
  function LastColor(ops: seq<Op>, x: nat, y: nat, d: bool): bool
    decreases |ops|
  {
    if ops == [] then d
    else
      var op := ops[|ops| - 1];
      if op.Dot? && op.x == x && op.y == y then op.c == White
      else LastColor(ops[..|ops| - 1], x, y, d)
  }

  /** Each pixel of the screen reads what its last write wrote, or what it read before. */
  lemma {:induction false} PaintPixel(b: seq<bv8>, width: nat, height: nat, ops: seq<Op>, x: nat, y: nat)
    requires Fits(width, height, |b|) && InBounds(width, height, x, y)
    ensures PixelAt(PaintAll(b, width, height, ops), width, height, x, y) == LastColor(ops, x, y, PixelAt(b, width, height, x, y))
    decreases |ops|
  {
    IndexInBuffer(width, height, |b|, x, y);
    if ops != [] {
      var front := ops[..|ops| - 1];
      PaintPixel(b, width, height, front, x, y);
      var op := ops[|ops| - 1];
      if op.Dot? && (op.x, op.y) != (x, y) {
        SetPixelFrame(PaintAll(b, width, height, front), width, height, op.x, op.y, op.c, x, y);
      } else if op.Dot? {
        SetPixelBits(PaintAll(b, width, height, front), width, height, x, y, op.c);
      }
    }
  }

  /** The writes of `a` then those of `c`. */
  lemma {:induction false} LastColorAppend(a: seq<Op>, c: seq<Op>, x: nat, y: nat, d: bool)
    ensures LastColor(a + c, x, y, d) == LastColor(c, x, y, LastColor(a, x, y, d))
    decreases |c|
  {
    if c == [] {
      assert a + c == a;
    } else {
      assert (a + c)[..|a + c| - 1] == a + c[..|c| - 1];
      LastColorAppend(a, c[..|c| - 1], x, y, d);
    }
  }

  /** Writes elsewhere leave a pixel alone. */
  lemma {:induction false} LastColorNone(ops: seq<Op>, x: nat, y: nat, d: bool)
    requires forall k :: 0 <= k < |ops| && ops[k].Dot? ==> (ops[k].x, ops[k].y) != (x, y)
    ensures LastColor(ops, x, y, d) == d
    decreases |ops|
  {
    if ops != [] {
      LastColorNone(ops[..|ops| - 1], x, y, d);
    }
  }

  // ------------------------------------------------------------ rectangular stencils

  /**
   * The three drawing loops that walk a block of pixels row by row: a glyph
   * of a font (`fb_write_char`), a bitmap (`fb_draw_bitmap`) and a filled
   * rectangle (`fb_fill_rectangle`).  Row `r`, column `q` of the block is
   * pixel (x0 + q, y0 + r).
   */
  datatype Stencil =
    | Glyph(font: Font, code: nat, x0: nat, y0: nat, c: Color)
    | Bitmap(bits: seq<bv8>, byteWidth: nat, x0: nat, y0: nat, c: Color)
    | Rect(x0: nat, y0: nat, c: Color)

  /** `FontDef`: glyphs of `height` rows of 16-bit row patterns, for the characters 32..126. */
  datatype Font = Font(width: nat, height: nat, data: seq<bv16>)

  predicate FontOk(f: Font) {
    95 * f.height <= |f.data|
  }

  /** The printable characters a font has glyphs for. */
  predicate Printable(code: int) {
    32 <= code <= 126
  }

  /** `(b << j) & 0x8000` on the 32-bit row pattern `b`: bit 15 - j, and nothing beyond column 15. */
  function FontBit(f: Font, code: nat, r: nat, q: nat): bool
    requires FontOk(f) && Printable(code) && r < f.height
  {
    var i := (code - 32) * f.height + r;
    assert i < 95 * f.height by {
      MulLe(code - 32 + 1, 95, f.height);
    }
    q < 16 && (f.data[i] >> (15 - q)) & 1 != 0
  }

  /** `byte & 0x80` after `byte <<= 1` for each column since the byte was loaded: bit 7 - q % 8. */
  function BitmapBit(bits: seq<bv8>, byteWidth: nat, r: nat, q: nat): bool
    requires r * byteWidth + q / 8 < |bits|
  {
    (bits[r * byteWidth + q / 8] << (q % 8)) & 0x80 != 0
  }

  predicate CellOk(st: Stencil, r: nat, q: nat) {
    match st
    case Glyph(f, code, _, _, _) => FontOk(f) && Printable(code) && r < f.height
    case Bitmap(bits, bw, _, _, _) => r * bw + q / 8 < |bits|
    case Rect(_, _, _) => true
  }

  /** The write of row `r`, column `q`. */
  function Cell(st: Stencil, r: nat, q: nat): (op: Op)
    requires CellOk(st, r, q)
    ensures op.Dot? ==> op.x == st.x0 + q && op.y == st.y0 + r && op.c == CellColor(st, r, q)
  {
    match st
    case Glyph(f, code, x0, y0, c) => Dot(x0 + q, y0 + r, CellColor(st, r, q))
    case Bitmap(bits, bw, x0, y0, c) => if BitmapBit(bits, bw, r, q) then Dot(x0 + q, y0 + r, c) else Skip
    case Rect(x0, y0, c) => Dot(x0 + q, y0 + r, c)
  }

  /** The color a cell is written in: glyph bits in the color, the rest in the other one. */
  function CellColor(st: Stencil, r: nat, q: nat): Color
    requires CellOk(st, r, q)
  {
    match st
    case Glyph(f, code, _, _, c) => if FontBit(f, code, r, q) then c else Flip(c)
    case Bitmap(_, _, _, _, c) => c
    case Rect(_, _, c) => c
  }

  /** The block of `m` rows by `n` columns fits what the stencil knows about. */
  predicate BlockOk(st: Stencil, m: nat, n: nat) {
    forall r, q :: 0 <= r < m && 0 <= q < n ==> CellOk(st, r, q)
  }

  /** Row `r` of the block, left to right. */
  function Row(st: Stencil, r: nat, n: nat): (row: seq<Op>)
    requires forall q :: 0 <= q < n ==> CellOk(st, r, q)
    ensures |row| == n && forall q :: 0 <= q < n ==> row[q] == Cell(st, r, q)
  {
    seq(n, q requires 0 <= q < n && CellOk(st, r, q) => Cell(st, r, q))
  }

  /** The first `m` rows, top to bottom: the order of the nested drawing loops. */
  function Grid(st: Stencil, m: nat, n: nat): seq<Op>
    requires BlockOk(st, m, n)
    decreases m
  {
    if m == 0 then [] else Grid(st, m - 1, n) + Row(st, m - 1, n)
  }

  /** Inside the block a pixel reads its cell's color if the cell is written; nothing outside is written. */
  lemma {:induction false} GridColor(st: Stencil, m: nat, n: nat, x: nat, y: nat, d: bool)
    requires BlockOk(st, m, n)
    ensures var inside := st.x0 <= x < st.x0 + n && st.y0 <= y < st.y0 + m;
      LastColor(Grid(st, m, n), x, y, d)
        == if inside && Cell(st, y - st.y0, x - st.x0).Dot? then CellColor(st, y - st.y0, x - st.x0) == White else d
    decreases m
  {
    hide Grid, LastColor, Cell, CellColor;
    GridUnfold(st, m, n);
    if m == 0 {
      LastColorNone([], x, y, d);
    } else {
      GridColor(st, m - 1, n, x, y, d);
      var g, row := Grid(st, m - 1, n), Row(st, m - 1, n);
      var before := LastColor(g, x, y, d);
      LastColorAppend(g, row, x, y, d);
      if st.x0 <= x < st.x0 + n && y == st.y0 + m - 1 {
        RowColor(row, x - st.x0, x, y, before);
      } else {
        LastColorNone(row, x, y, before);
      }
    }
  }

  lemma GridUnfold(st: Stencil, m: nat, n: nat)
    requires BlockOk(st, m, n)
    ensures Grid(st, m, n) == if m == 0 then [] else Grid(st, m - 1, n) + Row(st, m - 1, n)
  {
  }

  /** Within a row, only the write at column `q` touches its pixel. */
  lemma RowColor(row: seq<Op>, q: nat, x: nat, y: nat, d: bool)
    requires q < |row| && (forall k :: 0 <= k < |row| && row[k].Dot? ==> row[k].x == x - q + k && row[k].y == y)
    requires row[q].Dot? ==> row[q].x == x
    ensures LastColor(row, x, y, d) == if row[q].Dot? then row[q].c == White else d
  {
    LastColorAppend(row[..q + 1], row[q + 1..], x, y, d);
    assert row[..q + 1] + row[q + 1..] == row;
    LastColorNone(row[q + 1..], x, y, LastColor(row[..q + 1], x, y, d));
    assert row[..q + 1][..q] == row[..q];
    LastColorNone(row[..q], x, y, d);
  }

  /**
   * The pixels after a block is drawn: inside the block and the screen, a
   * written cell reads its color and a skipped one keeps its old value;
   * every other pixel keeps its old value.
   */
  lemma GridPixel(b: seq<bv8>, width: nat, height: nat, st: Stencil, m: nat, n: nat, x: nat, y: nat)
    requires Fits(width, height, |b|) && InBounds(width, height, x, y) && BlockOk(st, m, n)
    ensures var inside := st.x0 <= x < st.x0 + n && st.y0 <= y < st.y0 + m;
      PixelAt(PaintAll(b, width, height, Grid(st, m, n)), width, height, x, y)
        == if inside && Cell(st, y - st.y0, x - st.x0).Dot? then CellColor(st, y - st.y0, x - st.x0) == White
           else PixelAt(b, width, height, x, y)
  {
    IndexInBuffer(width, height, |b|, x, y);
    PaintPixel(b, width, height, Grid(st, m, n), x, y);
    GridColor(st, m, n, x, y, PixelAt(b, width, height, x, y));
  }

  /** One more write within row `r`: the loop step of the nested drawing loops. */
  lemma GridStep(b: seq<bv8>, width: nat, height: nat, st: Stencil, r: nat, q: nat, n: nat)
    requires Fits(width, height, |b|) && q < n && BlockOk(st, r + 1, n)
    ensures PaintAll(b, width, height, Grid(st, r, n) + Row(st, r, n)[..q + 1])
         == Apply(PaintAll(b, width, height, Grid(st, r, n) + Row(st, r, n)[..q]), width, height, Cell(st, r, q))
  {
    var row := Row(st, r, n);
    assert row[..q + 1] == row[..q] + [Cell(st, r, q)];
    assert Grid(st, r, n) + row[..q + 1] == (Grid(st, r, n) + row[..q]) + [Cell(st, r, q)];
    PaintSnoc(b, width, height, Grid(st, r, n) + row[..q], Cell(st, r, q));
  }

  /** A finished row is the next row of the block. */
  lemma GridRow(st: Stencil, r: nat, n: nat)
    requires BlockOk(st, r + 1, n)
    ensures Grid(st, r, n) + Row(st, r, n)[..n] == Grid(st, r + 1, n)
  {
    assert Row(st, r, n)[..n] == Row(st, r, n);
  }

  /** A smaller block is still within what the stencil knows about. */
  lemma BlockOkLess(st: Stencil, m: nat, n: nat, m': nat)
    requires BlockOk(st, m, n) && m' <= m
    ensures BlockOk(st, m', n)
  {
  }
}
