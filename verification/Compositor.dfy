/**
 The window's compositor (`crates/seed-desktop-test/src/window.rs`, with the text drawing
 of `crates/seed-gop-ui/src/font/mod.rs`): two permanent watermark bands above and below a
 copy of the ceremony's canvas, in one flat row-major buffer.

 The glyph table is a parameter: which pixels of a byte's cell are set. Row sums wrap at 32 bits.
 */
module Compositor {
  import opened Arithmetic
  import opened Bits
  import opened Utf8Strings
  import opened Drawing

  const GLYPH_WIDTH: nat := 8
  const GLYPH_HEIGHT: nat := 16
  const MAX_TEXT_LEN: nat := 128
  const CANVAS_WIDTH: nat := 1024
  const CANVAS_HEIGHT: nat := 768
  const WATERMARK_BAND_HEIGHT: nat := GLYPH_HEIGHT * 2 + 8
  const WATERMARK_FG: U32 := 0x00FF_FF00
  const WATERMARK_BG: U32 := 0x0040_0000

  const WATERMARK_TOP: string := "ALEA TEST (DESKTOP) -- PUBLIC TEST PHRASE, NEVER USE WITH FUNDS"
  const WATERMARK_BOTTOM: string :=
    "Every phrase here comes from a FIXED PUBLIC test transcript -- your keys never change it."

  /** Whether pixel (row, column) of a byte's cell is set; none is for a byte without a glyph. */
  type Font = (Byte, nat, nat) -> bool

  // ------------------------------------------------------- the flat buffer

  /** Where pixel `(x, y)` of a `w` by `h` buffer is stored. */
  function Idx(w: nat, h: nat, x: nat, y: nat): (k: nat)
    requires x < w && y < h
    ensures k < w * h
  {
    RowFits(w, h, y);
    y * w + x
  }

  lemma RowFits(w: nat, h: nat, y: nat)
    requires y < h
    ensures y * w + w <= w * h
  {
    MulDist(y, 1, w);
    MulDist(y + 1, h - (y + 1), w);
    assert (h - (y + 1)) * w >= 0;
  }

  lemma RowEnd(w: nat, h: nat, row: nat)
    requires w > 0
    ensures row * w + w <= w * h <==> row < h
  {
    if row < h {
      RowFits(w, h, row);
    } else {
      MulDist(h, row - h, w);
      assert (row - h) * w >= 0;
    }
  }

  /** The stretch `n` long from `(x0, row)` holds exactly the pixels of that row in those columns. */
  lemma InRow(w: nat, h: nat, x: nat, y: nat, x0: nat, row: nat, n: nat)
    requires x < w && y < h && x0 + n <= w
    ensures row * w + x0 <= Idx(w, h, x, y) < row * w + x0 + n <==> y == row && x0 <= x < x0 + n
  {
    if y < row {
      MulDist(y, row - y, w);
      MulAtLeast(row - y, w);
    } else if row < y {
      MulDist(row, y - row, w);
      MulAtLeast(y - row, w);
    }
  }

  /** `copy_from_slice` of the first `n` pixels. */
  method CopySlice(pixels: array<U32>, start: nat, px: seq<U32>, n: nat)
    requires start + n <= pixels.Length && n <= |px|
    modifies pixels
    ensures forall k :: 0 <= k < pixels.Length ==>
              pixels[k] == if start <= k < start + n then px[k - start] else old(pixels[k])
  {
    for i := 0 to n
      invariant forall k :: 0 <= k < pixels.Length ==>
                  pixels[k] == if start <= k < start + i then px[k - start] else old(pixels[k])
    {
      pixels[start + i] := px[i];
    }
  }

  /** `CopySlice` within one row, said for pixels. */
  method CopyRow(pixels: array<U32>, w: nat, ghost h: nat, x0: nat, row: nat, px: seq<U32>, n: nat)
    requires pixels.Length == w * h && x0 + n <= w && n <= |px| && row * w + x0 + n <= w * h
    modifies pixels
    ensures forall x, y :: 0 <= x < w && 0 <= y < h ==>
              pixels[Idx(w, h, x, y)]
              == if y == row && x0 <= x < x0 + n then px[x - x0] else old(pixels[Idx(w, h, x, y)])
  {
    CopySlice(pixels, row * w + x0, px, n);
    forall x, y | 0 <= x < w && 0 <= y < h
      ensures pixels[Idx(w, h, x, y)]
              == if y == row && x0 <= x < x0 + n then px[x - x0] else old(pixels[Idx(w, h, x, y)])
    {
      InRow(w, h, x, y, x0, row, n);
    }
  }

  /** Rows `y0` on, `bandH` of them, as far as the buffer reaches. */
  method FillRows(pixels: array<U32>, w: nat, ghost h: nat, y0: nat, bandH: nat, color: U32)
    requires pixels.Length == w * h
    modifies pixels
    ensures forall x, y :: 0 <= x < w && 0 <= y < h ==>
              pixels[Idx(w, h, x, y)] == if y0 <= y < y0 + bandH then color else old(pixels[Idx(w, h, x, y)])
  {
    for row := y0 to y0 + bandH
      invariant forall x, y :: 0 <= x < w && 0 <= y < h ==>
                  pixels[Idx(w, h, x, y)] == if y0 <= y < row then color else old(pixels[Idx(w, h, x, y)])
    {
      var end := row * w + w;
      if w > 0 { RowEnd(w, h, row); }
      if end > pixels.Length {
        break;
      }
      CopyRow(pixels, w, h, 0, row, seq(w, _ => color), w);
    }
  }

  // --------------------------------------------------------- text in a band

  function WrapAdd(a: U32, b: U32): U32 { (a + b) % (MAX_U32 + 1) }

  /** A buffer seen as one band from row `yOffset` on. */
  class BandRow {
    const pixels: array<U32>
    const width: U32
    const yOffset: U32
    ghost const height: nat

    /** The rows of a line of text have 32-bit numbers. */
    ghost predicate Valid() { pixels.Length == width * height && yOffset + GLYPH_HEIGHT <= MAX_U32 + 1 }

    constructor (pixels: array<U32>, width: U32, ghost height: nat, yOffset: U32)
      requires pixels.Length == width * height && yOffset + GLYPH_HEIGHT <= MAX_U32 + 1
      ensures Valid() && this.pixels == pixels && this.width == width && this.height == height
      ensures this.yOffset == yOffset
    {
      this.pixels, this.width, this.height, this.yOffset := pixels, width, height, yOffset;
    }

    method PutRow(x: U32, y: U32, px: seq<U32>)
      requires Valid()
      modifies pixels
      ensures forall i, j :: 0 <= i < width && 0 <= j < height ==>
                pixels[Idx(width, height, i, j)]
                == if j == WrapAdd(yOffset, y) && x <= i < x + |px| then px[i - x]
                   else old(pixels[Idx(width, height, i, j)])
    {
      var dstY := WrapAdd(yOffset, y);
      var start := dstY * width + x;
      var n := Min(|px|, SatSub(width, x));
      if width > 0 { RowEnd(width, height, dstY); }
      if n == 0 || start + n > pixels.Length {
        return;
      }
      CopyRow(pixels, width, height, x, dstY, px, n);
    }
  }

  lemma NoWrap(a: U32, b: U32)
    requires a + b <= MAX_U32
    ensures WrapAdd(a, b) == a + b
  {
  }

  function Ink(lit: bool): U32 { if lit then WATERMARK_FG else WATERMARK_BG }

  /** `draw_glyph` at the top of the band: the cell's pixels, clipped at the right edge. */
  method DrawGlyph(band: BandRow, x: nat, ch: Byte, font: Font)
    requires band.Valid()
    modifies band.pixels
    ensures forall i, j :: 0 <= i < band.width && 0 <= j < band.height ==>
              band.pixels[Idx(band.width, band.height, i, j)]
              == if band.yOffset <= j < band.yOffset + GLYPH_HEIGHT && x <= i < x + GLYPH_WIDTH
                 then (if font(ch, j - band.yOffset, i - x) then WATERMARK_FG else WATERMARK_BG)
                 else old(band.pixels[Idx(band.width, band.height, i, j)])
  {
    hide Idx, WrapAdd;
    var visible := if x >= band.width then 0 else Min(GLYPH_WIDTH, band.width - x);
    for row := 0 to GLYPH_HEIGHT
      invariant forall i, j :: 0 <= i < band.width && 0 <= j < band.height ==>
                  band.pixels[Idx(band.width, band.height, i, j)]
                  == if band.yOffset <= j < band.yOffset + row && x <= i < x + GLYPH_WIDTH
                     then Ink(font(ch, j - band.yOffset, i - x)) else old(band.pixels[Idx(band.width, band.height, i, j)])
    {
      var px := seq<U32>(visible, col requires 0 <= col < visible => Ink(font(ch, row, col)));
      if visible > 0 {
        NoWrap(band.yOffset, row);
        band.PutRow(x, row, px);
      }
    }
  }

  /** The bytes of a text that are drawn, one cell each. */
  function Shown(text: string): (t: seq<Byte>)
    ensures |t| <= MAX_TEXT_LEN
  {
    var bytes := Utf8(text);
    if |bytes| > MAX_TEXT_LEN then bytes[..MAX_TEXT_LEN] else bytes
  }

  /** The colour of a text's pixel, counted from the top left corner of its first cell. */
  function TextInk(text: seq<Byte>, font: Font, row: nat, col: nat): U32
    requires col < GLYPH_WIDTH * |text|
  {
    if font(text[col / GLYPH_WIDTH], row, col % GLYPH_WIDTH) then WATERMARK_FG else WATERMARK_BG
  }

  /** `draw_text` at the top of the band; a text beyond 128 bytes is cut off. */
  method DrawText(band: BandRow, x: nat, text: string, font: Font)
    requires band.Valid()
    modifies band.pixels
    ensures forall i, j :: 0 <= i < band.width && 0 <= j < band.height ==>
              band.pixels[Idx(band.width, band.height, i, j)]
              == if band.yOffset <= j < band.yOffset + GLYPH_HEIGHT && x <= i < x + GLYPH_WIDTH * |Shown(text)|
                 then TextInk(Shown(text), font, j - band.yOffset, i - x)
                 else old(band.pixels[Idx(band.width, band.height, i, j)])
  {
    hide Idx;
    var shown := Shown(text);
    for c := 0 to |shown|
      invariant forall i, j :: 0 <= i < band.width && 0 <= j < band.height ==>
                  band.pixels[Idx(band.width, band.height, i, j)]
                  == if band.yOffset <= j < band.yOffset + GLYPH_HEIGHT && x <= i < x + GLYPH_WIDTH * c
                     then TextInk(shown, font, j - band.yOffset, i - x)
                     else old(band.pixels[Idx(band.width, band.height, i, j)])
    {
      DrawGlyph(band, x + c * GLYPH_WIDTH, shown[c], font);
    }
  }

  // ---------------------------------------------------------- the whole frame

  /** The text of a band covers the pixel `row` rows below the band's top. */
  predicate InText(text: string, row: int, col: int) {
    8 <= row < 8 + GLYPH_HEIGHT && GLYPH_WIDTH <= col < GLYPH_WIDTH + GLYPH_WIDTH * |Shown(text)|
  }

  function BandInk(text: string, font: Font, row: int, col: int): U32
    requires InText(text, row, col)
  {
    TextInk(Shown(text), font, row - 8, col - GLYPH_WIDTH)
  }

  function CanvasRows(height: nat): nat { Min(SatSub(height, WATERMARK_BAND_HEIGHT * 2), CANVAS_HEIGHT) }

  /** The first row of the bottom band. */
  function BottomY(height: nat): nat { SatSub(height, WATERMARK_BAND_HEIGHT) }

  /** The pixel lies in one of the bands; on a low frame they overlap. */
  predicate InBands(height: nat, y: nat) { y < WATERMARK_BAND_HEIGHT || y >= BottomY(height) }

  /** A pixel of the bands: the bottom text over the top one over their colour. */
  function BandPixel(font: Font, height: nat, x: nat, y: nat): U32 {
    if InText(WATERMARK_BOTTOM, y - BottomY(height), x) then BandInk(WATERMARK_BOTTOM, font, y - BottomY(height), x)
    else if InText(WATERMARK_TOP, y, x) then BandInk(WATERMARK_TOP, font, y, x)
    else WATERMARK_BG
  }

  /** What the presented frame holds at `(x, y)`; `before` is what the buffer held. */
  function FramePixel(canvas: seq<U32>, font: Font, height: nat, x: nat, y: nat, before: U32): U32
    requires |canvas| == CANVAS_WIDTH * CANVAS_HEIGHT
  {
    if InBands(height, y) then BandPixel(font, height, x, y)
    else if y < WATERMARK_BAND_HEIGHT + CanvasRows(height) && x < CANVAS_WIDTH then
      canvas[(y - WATERMARK_BAND_HEIGHT) * CANVAS_WIDTH + x]
    else before
  }

  /**
   `present_frame`, for every size of the frame: the bands show the watermark whatever the
   canvas holds, the canvas lands between them, and no slice goes out of range.
   */
  method PresentFrame(pixels: array<U32>, canvas: seq<U32>, font: Font, width: U32, height: U32)
    requires |canvas| == CANVAS_WIDTH * CANVAS_HEIGHT
    requires pixels.Length == width * height
    modifies pixels
    ensures forall x, y :: 0 <= x < width && 0 <= y < height ==>
              pixels[Idx(width, height, x, y)]
              == FramePixel(canvas, font, height, x, y, old(pixels[Idx(width, height, x, y)]))
  {
    hide Idx, TextInk, Shown;
    FillRows(pixels, width, height, 0, WATERMARK_BAND_HEIGHT, WATERMARK_BG);
    var canvasH := CanvasRows(height);
    var copyW := Min(CANVAS_WIDTH, width);
    for y := 0 to canvasH
      invariant forall i, j :: 0 <= i < width && 0 <= j < height ==>
                  pixels[Idx(width, height, i, j)]
                  == if j < WATERMARK_BAND_HEIGHT then WATERMARK_BG
                     else if j < WATERMARK_BAND_HEIGHT + y && i < CANVAS_WIDTH
                     then canvas[(j - WATERMARK_BAND_HEIGHT) * CANVAS_WIDTH + i]
                     else old(pixels[Idx(width, height, i, j)])
    {
      var srcStart := y * CANVAS_WIDTH;
      RowFits(width, height, y + WATERMARK_BAND_HEIGHT);
      CopyRow(pixels, width, height, 0, y + WATERMARK_BAND_HEIGHT, canvas[srcStart..srcStart + copyW], copyW);
    }
    var bottomY := SatSub(height, WATERMARK_BAND_HEIGHT);
    FillRows(pixels, width, height, bottomY, WATERMARK_BAND_HEIGHT, WATERMARK_BG);
    var topRow := new BandRow(pixels, width, height, 8);
    DrawText(topRow, GLYPH_WIDTH, WATERMARK_TOP, font);
    var bottomRow := new BandRow(pixels, width, height, bottomY + 8);
    DrawText(bottomRow, GLYPH_WIDTH, WATERMARK_BOTTOM, font);
  }

  /** Whatever two canvases hold, the frames' bands are the same; between them the canvas shows unchanged. */
  lemma BandsIgnoreCanvas(one: seq<U32>, two: seq<U32>, font: Font, height: nat, x: nat, y: nat,
                          before: U32, before': U32)
    requires |one| == |two| == CANVAS_WIDTH * CANVAS_HEIGHT
    ensures InBands(height, y) ==>
              FramePixel(one, font, height, x, y, before) == FramePixel(two, font, height, x, y, before')
    ensures height == CANVAS_HEIGHT + 2 * WATERMARK_BAND_HEIGHT && x < CANVAS_WIDTH && y < CANVAS_HEIGHT ==>
              FramePixel(one, font, height, x, y + WATERMARK_BAND_HEIGHT, before) == one[y * CANVAS_WIDTH + x]
  {
  }

  /**
   The watermark, in numbers. On a frame with room for both bands, sixteen rows from the eighth
   of each hold its text, eight columns a byte from the eighth on and at most 128 bytes, yellow
   where the byte's cell is set and dark red where it is not; all the rest is dark red.
   */
  lemma WatermarkStands(font: Font, height: nat, x: nat, y: nat, row: nat)
    requires height >= 80 && row < 40 && (y == row || y == height - 40 + row)
    ensures InBands(height, y)
    ensures var bytes := Utf8(if y == row then WATERMARK_TOP else WATERMARK_BOTTOM);
            BandPixel(font, height, x, y) ==
            if 8 <= row < 24 && 8 <= x < 8 + 8 * (if |bytes| > 128 then 128 else |bytes|)
               && font(bytes[(x - 8) / 8], row - 8, (x - 8) % 8)
            then 0x00FF_FF00 else 0x0040_0000
  {
    hide Utf8, WATERMARK_TOP, WATERMARK_BOTTOM;
    BandsApart(font, height, x, row);
  }

  /** On a frame with room for both, the bands do not overlap: each shows its own text alone. */
  lemma BandsApart(font: Font, height: nat, x: nat, y: nat)
    requires height >= 2 * WATERMARK_BAND_HEIGHT && y < WATERMARK_BAND_HEIGHT
    ensures BandPixel(font, height, x, y)
            == if InText(WATERMARK_TOP, y, x) then BandInk(WATERMARK_TOP, font, y, x) else WATERMARK_BG
    ensures BandPixel(font, height, x, BottomY(height) + y)
            == if InText(WATERMARK_BOTTOM, y, x) then BandInk(WATERMARK_BOTTOM, font, y, x) else WATERMARK_BG
  {
  }
}
