/**
 Rectangles, panels and QR symbols on a framebuffer (`crates/seed-gop-ui/src/panel.rs`,
 `qr.rs`, over `crates/seed-desktop-test/src/shared_screen.rs`).

 The code clips, chunks, saturates and merges runs of modules; the specifications are
 per pixel, over unbounded integers: what `(i, j)` is after the call and nothing else.
 */
module Drawing {
  import opened Arithmetic

  const MAX_U32: nat := 0xFFFF_FFFF

  type U32 = n: int | 0 <= n <= MAX_U32

  const ROW_CHUNK := 256
  const QUIET_MODULES := 4
  const MAX_SIDE := 69

  const PANEL: U32 := 0x000D_1319
  const QR_LIGHT: U32 := 0x00FF_FFFF
  const QR_DARK: U32 := 0x0000_0000

  function SatAdd(a: nat, b: nat): U32 { if a + b > MAX_U32 then MAX_U32 else a + b }
  function SatSub(a: nat, b: nat): nat { if a < b then 0 else a - b }
  function SatMul(a: nat, b: nat): U32 { if a * b > MAX_U32 then MAX_U32 else a * b }
  function Min(a: nat, b: nat): nat { if a < b then a else b }

  /** Pixel `(i, j)` lies in the rectangle: columns from `x` and rows from `y`, no bound on either. */
  predicate InRect(i: int, j: int, x: int, y: int, w: int, h: int) {
    x <= i < x + w && y <= j < y + h
  }

  class Framebuffer {
    const width: U32
    const height: U32
    /** Row-major: `buf[j, i]` is the pixel in column `i` of row `j`. */
    const buf: array2<U32>

    ghost predicate Valid() { buf.Length0 == height && buf.Length1 == width }

    constructor (width: U32, height: U32)
      ensures Valid() && this.width == width && this.height == height && fresh(buf)
      ensures forall i, j :: 0 <= j < height && 0 <= i < width ==> buf[j, i] == 0
    {
      this.width, this.height := width, height;
      buf := new U32[height, width]((_, _) => 0);
    }

    method PutRow(x: U32, y: U32, px: seq<U32>)
      requires Valid()
      modifies buf
      ensures forall i, j :: 0 <= j < height && 0 <= i < width ==>
                buf[j, i] == if j == y && x <= i < x + |px| then px[i - x] else old(buf[j, i])
    {
      if y >= height || x >= width {
        return;
      }
      var visible := Min(|px|, width - x);
      if visible == 0 {
        return;
      }
      for k := 0 to visible
        invariant forall i, j :: 0 <= j < height && 0 <= i < width ==>
                    buf[j, i] == if j == y && x <= i < x + k then px[i - x] else old(buf[j, i])
      {
        buf[y, x + k] := px[k];
      }
    }
  }

  /** The rectangle's pixels take the color; every other pixel keeps its own. */
  method FillRect(fb: Framebuffer, x: U32, y: U32, w: U32, h: U32, color: U32)
    requires fb.Valid()
    modifies fb.buf
    ensures forall i, j :: 0 <= j < fb.height && 0 <= i < fb.width ==>
              fb.buf[j, i] == if InRect(i, j, x, y, w, h) then color else old(fb.buf[j, i])
  {
    if w == 0 || h == 0 {
      return;
    }
    if x >= fb.width || y >= fb.height {
      return;
    }
    var visibleW := Min(w, fb.width - x);
    var visibleH := Min(h, fb.height - y);
    var row := seq(ROW_CHUNK, _ => color);
    for rowY := y to y + visibleH
      invariant forall i, j :: 0 <= j < fb.height && 0 <= i < fb.width ==>
                  fb.buf[j, i] == if InRect(i, j, x, y, visibleW, rowY - y) then color else old(fb.buf[j, i])
    {
      var end := x + visibleW;
      var cx := x;
      while cx < end
        invariant x <= cx <= end
        invariant forall i, j :: 0 <= j < fb.height && 0 <= i < fb.width ==>
                    fb.buf[j, i] == if InRect(i, j, x, y, visibleW, rowY - y) || (j == rowY && x <= i < cx)
                                    then color else old(fb.buf[j, i])
      {
        var n := Min(ROW_CHUNK, end - cx);
        fb.PutRow(cx, rowY, row[..n]);
        cx := cx + n;
      }
    }
  }

  // ------------------------------------------------------------------ panels

  /** Where the code draws the last column (or row) of a border. */
  function FarEdge(x: nat, w: nat): nat { SatSub(SatAdd(x, w), 1) }

  /** On the one-pixel border of the rectangle whose far column and row are `x1` and `y1`. */
  predicate OnBorder(i: int, j: int, x: int, y: int, w: int, h: int, x1: int, y1: int) {
    || InRect(i, j, x, y, w, 1) || InRect(i, j, x, y1, w, 1)
    || InRect(i, j, x, y, 1, h) || InRect(i, j, x1, y, 1, h)
  }

  /**
   A panel: fill, then border over it. The far edges are the ones the saturating code
   computes; `FarEdgeIsExact` says when those are the rectangle's own.
   */
  method DrawPanel(fb: Framebuffer, x: U32, y: U32, w: U32, h: U32, border: U32)
    requires fb.Valid()
    modifies fb.buf
    ensures forall i, j :: 0 <= j < fb.height && 0 <= i < fb.width ==>
              fb.buf[j, i] == if w > 0 && h > 0 && OnBorder(i, j, x, y, w, h, FarEdge(x, w), FarEdge(y, h)) then border
                              else if InRect(i, j, x, y, w, h) then 0x000D_1319 else old(fb.buf[j, i])
  {
    FillRect(fb, x, y, w, h, PANEL);
    if w == 0 || h == 0 {
      return;
    }
    var x1 := SatSub(SatAdd(x, w), 1);
    var y1 := SatSub(SatAdd(y, h), 1);
    FillRect(fb, x, y, w, 1, border);
    FillRect(fb, x, y1, w, 1, border);
    FillRect(fb, x, y, 1, h, border);
    FillRect(fb, x1, y, 1, h, border);
  }

  /**
   On a framebuffer `size` pixels across, the computed far edge marks the same visible
   pixels as the unbounded one exactly when the sum does not overflow 32 bits, or the
   framebuffer is narrower than the largest 32-bit size. Otherwise one extra pixel line,
   the last but one representable, is taken for an edge.
   */
  lemma FarEdgeIsExact(x: U32, w: U32, size: U32)
    requires w > 0
    ensures (forall i :: 0 <= i < size ==> AtEdge(i, FarEdge(x, w)) == AtEdge(i, x + w - 1))
            <==> x + w <= MAX_U32 || size < MAX_U32
  {
    if x + w > MAX_U32 && size == MAX_U32 {
      assert AtEdge(MAX_U32 - 1, FarEdge(x, w)) && !AtEdge(MAX_U32 - 1, x + w - 1);
    }
  }

  predicate AtEdge(i: int, edge: int) { i == edge }

  /** On the rectangle's own border: in it, but not one pixel further in on every side. */
  predicate OnTrueBorder(i: int, j: int, x: int, y: int, w: int, h: int) {
    InRect(i, j, x, y, w, h) && !InRect(i, j, x + 1, y + 1, w - 2, h - 2)
  }

  /** Some inner row of the panel can be seen on a framebuffer `size` pixels high. */
  predicate InnerLine(y: int, h: int, size: int) { h > 2 && y + 1 < size }

  /**
   The far line across the panel is drawn where it belongs, as far as can be seen. The sum
   does not overflow, or the framebuffer is not of the largest size; or the line lands on
   the near one, the panel's first pixel being the last but one representable; or nothing
   shows the difference: no inner line, and for a panel that begins past every visible
   pixel, no line at all.
   */
  predicate LineOk(x: U32, w: U32, size: U32, y: U32, h: U32, other: U32) {
    || x + w <= MAX_U32 || size < MAX_U32 || x == MAX_U32 - 1
    || (if x == MAX_U32 then y >= other else !InnerLine(y, h, other))
  }

  /** Pixel `(i, j)` is on the drawn border exactly when it is on the rectangle's own. */
  ghost predicate Agrees(x: U32, y: U32, w: U32, h: U32, i: int, j: int) {
    OnBorder(i, j, x, y, w, h, FarEdge(x, w), FarEdge(y, h)) <==> OnTrueBorder(i, j, x, y, w, h)
  }

  /** The drawn border is the rectangle's own, at every visible pixel, exactly under both conditions. */
  lemma PanelBorderIsExact(x: U32, y: U32, w: U32, h: U32, width: U32, height: U32)
    requires w > 0 && h > 0
    ensures (forall i, j :: 0 <= i < width && 0 <= j < height ==> Agrees(x, y, w, h, i, j))
            <==> LineOk(x, w, width, y, h, height) && LineOk(y, h, height, x, w, width)
  {
    if !LineOk(x, w, width, y, h, height) {
      BadColumn(x, y, w, h, width, height);
    } else if !LineOk(y, h, height, x, w, width) {
      BadColumn(y, x, h, w, height, width);
      var j := MAX_U32 - 1;
      var i := if y == MAX_U32 then x else x + 1;
      Transposed(x, y, w, h, i, j);
    }
  }

  /** A pixel of the last but one representable column where the drawn border is wrong. */
  lemma BadColumn(x: U32, y: U32, w: U32, h: U32, width: U32, height: U32)
    requires w > 0 && h > 0 && !LineOk(x, w, width, y, h, height)
    ensures var i, j := MAX_U32 - 1, if x == MAX_U32 then y else y + 1;
            i < width && j < height && !Agrees(x, y, w, h, i, j)
  {
  }

  lemma Transposed(x: U32, y: U32, w: U32, h: U32, i: int, j: int)
    ensures Agrees(x, y, w, h, i, j) <==> Agrees(y, x, h, w, j, i)
  {
  }

  // -------------------------------------------------------------- QR symbols

  datatype Matrix = Matrix(side: nat, bits: seq<seq<bool>>) {
    ghost predicate Valid() {
      side <= MAX_SIDE && |bits| == side && forall y :: 0 <= y < side ==> |bits[y]| == side
    }

    /** Is the module at column `x`, row `y` dark? Outside the symbol every module is light. */
    predicate Get(x: int, y: int)
      requires Valid()
    {
      0 <= x < side && 0 <= y < side && bits[y][x]
    }
  }

  function BlockModules(side: nat): U32 { SatAdd(side % (MAX_U32 + 1), SatMul(QUIET_MODULES, 2)) }

  function BlockPx(side: nat, modulePx: U32): U32 { SatMul(BlockModules(side), modulePx) }

  /** The largest module size whose block fits the width, zero if not even one pixel does. */
  function ModulePxForWidth(side: nat, widthPx: U32): (p: U32)
    requires side <= MAX_SIDE
    ensures (side + 8) * p <= widthPx < (side + 8) * (p + 1)
    ensures BlockPx(side, p) <= widthPx
  {
    var modules := BlockModules(side);
    assert modules == side + 8;
    var p := widthPx / modules;
    QuotientFits(widthPx, modules);
    p
  }

  lemma QuotientFits(a: nat, m: nat)
    requires m > 0
    ensures m * (a / m) <= a < m * (a / m + 1)
    ensures a / m <= a
  {
    var q := a / m;
    assert a == m * q + a % m;
    MulDist(q, 1, m);
    MulAtLeast(m, q);
  }

  /** Which `p`-wide cell `i` falls in, counting from `o`. */
  function Cell(i: int, o: int, p: int): int
    requires p > 0
  {
    (i - o) / p
  }

  /** Pixel `(i, j)` lies in a dark module of the symbol drawn at `(x, y)`. */
  ghost predicate InDark(m: Matrix, x: int, y: int, p: int, i: int, j: int)
    requires m.Valid() && p > 0
  {
    var ox, oy := x + 4 * p, y + 4 * p;
    i >= ox && j >= oy && m.Get(Cell(i, ox, p), Cell(j, oy, p))
  }

  /** Pixel `(i, j)` lies in the block: symbol and quiet zone. */
  ghost predicate InBlock(m: Matrix, x: int, y: int, p: int, i: int, j: int) {
    InRect(i, j, x, y, (m.side + 8) * p, (m.side + 8) * p)
  }

  /** Module `(mx, my)` is dark and pixel `(i, j)` lies in its `p`-pixel square, inset by the quiet zone. */
  ghost predicate InModule(m: Matrix, x: int, y: int, p: int, mx: int, my: int, i: int, j: int)
    requires m.Valid()
  {
    && 0 <= mx < m.side && 0 <= my < m.side && m.bits[my][mx]
    && InRect(i, j, x + (4 + mx) * p, y + (4 + my) * p, p, p)
  }

  lemma InModuleIsCell(m: Matrix, x: int, y: int, p: int, mx: int, my: int, i: int, j: int)
    requires m.Valid() && p > 0
    ensures InModule(m, x, y, p, mx, my, i, j)
            <==> m.Get(mx, my) && Cell(i, x + 4 * p, p) == mx && Cell(j, y + 4 * p, p) == my
    ensures m.Get(mx, my) ==> mx * p >= 0 && my * p >= 0
  {
    MulDist(4, mx, p);
    MulDist(4, my, p);
    CellRange(i, x + 4 * p, p, mx);
    CellRange(j, y + 4 * p, p, my);
  }

  /** The same, module by module; and a dark module is always inside the block. */
  lemma DarkIsSomeModule(m: Matrix, x: int, y: int, p: int, i: int, j: int)
    requires m.Valid() && p > 0
    ensures InDark(m, x, y, p, i, j) <==> exists mx, my :: InModule(m, x, y, p, mx, my, i, j)
    ensures InDark(m, x, y, p, i, j) ==> InBlock(m, x, y, p, i, j)
  {
    var cx, cy := Cell(i, x + 4 * p, p), Cell(j, y + 4 * p, p);
    InModuleIsCell(m, x, y, p, cx, cy, i, j);
    if m.Get(cx, cy) {
      BelowSide(cx, m.side, p);
      BelowSide(cy, m.side, p);
      CellRange(i, x + 4 * p, p, cx);
      CellRange(j, y + 4 * p, p, cy);
    }
    forall mx, my | InModule(m, x, y, p, mx, my, i, j) ensures mx == cx && my == cy {
      InModuleIsCell(m, x, y, p, mx, my, i, j);
    }
  }

  lemma BelowSide(c: int, side: int, p: int)
    requires 0 <= c < side && p > 0
    ensures 0 <= c * p && c * p + p <= side * p
    ensures (side + 8) * p == side * p + 8 * p
  {
    MulDist(c, side - c, p);
    MulAtLeast(side - c, p);
    MulDist(side, 8, p);
    if c > 0 { MulAtLeast(c, p); }
  }

  lemma CellRange(i: int, o: int, p: int, c: int)
    requires p > 0
    ensures Cell(i, o, p) == c <==> o + c * p <= i < o + c * p + p
  {
    var d := i - o;
    assert d == p * (d / p) + d % p;
    if o + c * p <= i < o + c * p + p {
      DivModUnique(d, c, p, d - c * p);
    }
  }

  // ---- drawing ----

  /** In `InDark`, only counting the rows of modules above `my` and, in row `my`, the columns left of `mx`. */
  ghost predicate Painted(m: Matrix, ox: int, oy: int, p: int, my: int, mx: int, i: int, j: int)
    requires m.Valid() && p > 0
  {
    && i >= ox && j >= oy && m.Get(Cell(i, ox, p), Cell(j, oy, p))
    && (Cell(j, oy, p) < my || (Cell(j, oy, p) == my && Cell(i, ox, p) < mx))
  }

  /** Saturating does not matter below the largest 32-bit value. */
  lemma SaturatedSpan(i: nat, o: nat, offset: nat, extent: nat)
    requires i < MAX_U32
    ensures SatAdd(SatAdd(0, o), SatAdd(0, offset)) <= i < SatAdd(SatAdd(0, o), SatAdd(0, offset)) + SatAdd(0, extent)
            <==> o + offset <= i < o + offset + extent
  {
  }

  /** The cells from `s` up to `e` cover the pixels from `o + s * p` up to `o + e * p`. */
  lemma CellSpan(i: int, o: int, p: int, s: int, e: int)
    requires p > 0 && s <= e
    ensures s <= Cell(i, o, p) < e <==> o + s * p <= i < o + s * p + (e - s) * p
  {
    var c := Cell(i, o, p);
    CellRange(i, o, p, c);
    MulDist(s, e - s, p);
    if c < s {
      MulDist(c, s - c, p);
      MulAtLeast(s - c, p);
    } else if c >= e {
      MulDist(e, c - e, p);
      if c > e { MulAtLeast(c - e, p); }
    } else {
      MulDist(s, c - s, p);
      if c > s { MulAtLeast(c - s, p); }
      MulDist(c, e - c, p);
      MulAtLeast(e - c, p);
    }
  }

  /** One filled run paints exactly the modules of the run. */
  lemma RunPainted(m: Matrix, x: U32, y: U32, p: U32, my: nat, start: nat, mx: nat, i: nat, j: nat)
    requires m.Valid() && p > 0 && i < MAX_U32 && j < MAX_U32
    requires my < m.side && start < mx <= m.side && forall c :: start <= c < mx ==> m.Get(c, my)
    ensures var ox, oy := x + 4 * p, y + 4 * p;
            Painted(m, ox, oy, p, my, mx, i, j)
            <==> Painted(m, ox, oy, p, my, start, i, j)
                 || InRect(i, j, SatAdd(SatAdd(x, SatMul(4, p)), SatMul(start, p)),
                           SatAdd(SatAdd(y, SatMul(4, p)), SatMul(my, p)), SatMul(mx - start, p), p)
  {
    var ox, oy := x + 4 * p, y + 4 * p;
    MulAtLeastZero(start, p);
    MulAtLeastZero(my, p);
    MulAtLeastZero(mx - start, p);
    CellSpan(i, ox, p, start, mx);
    CellSpan(j, oy, p, my, my + 1);
    SaturatedSpan(i, ox, start * p, (mx - start) * p);
    SaturatedSpan(j, oy, my * p, p);
  }

  lemma MulAtLeastZero(a: nat, p: nat)
    ensures a * p >= 0
  {
  }

  lemma BlockRect(m: Matrix, x: U32, y: U32, p: U32, i: nat, j: nat)
    requires m.Valid() && p > 0 && i < MAX_U32 && j < MAX_U32
    ensures InRect(i, j, x, y, BlockPx(m.side, p), BlockPx(m.side, p)) <==> InBlock(m, x, y, p, i, j)
  {
    MulAtLeastZero(m.side + 8, p);
  }

  /**
   For every position, module size and symbol: a visible pixel is dark in a dark module,
   light elsewhere in the block, untouched outside it. An empty symbol or a zero module
   size draws nothing.
   */
  method DrawQr(fb: Framebuffer, x: U32, y: U32, m: Matrix, modulePx: U32)
    requires fb.Valid() && m.Valid()
    modifies fb.buf
    ensures m.side == 0 || modulePx == 0 ==>
              forall i, j :: 0 <= j < fb.height && 0 <= i < fb.width ==> fb.buf[j, i] == old(fb.buf[j, i])
    ensures m.side > 0 && modulePx > 0 ==>
              forall i, j :: 0 <= j < fb.height && 0 <= i < fb.width ==>
                fb.buf[j, i] == if InDark(m, x, y, modulePx, i, j) then 0x0000_0000
                                else if InBlock(m, x, y, modulePx, i, j) then 0x00FF_FFFF
                                else old(fb.buf[j, i])
  {
    if m.side == 0 || modulePx == 0 {
      return;
    }
    var block := BlockPx(m.side, modulePx);
    FillRect(fb, x, y, block, block, QR_LIGHT);
    forall i, j | 0 <= j < fb.height && 0 <= i < fb.width
      ensures InRect(i, j, x, y, block, block) <==> InBlock(m, x, y, modulePx, i, j)
    {
      BlockRect(m, x, y, modulePx, i, j);
    }
    var quiet := SatMul(QUIET_MODULES, modulePx);
    var originX := SatAdd(x, quiet);
    var originY := SatAdd(y, quiet);
    ghost var ox, oy := x + 4 * modulePx, y + 4 * modulePx;
    label filled:
    for my := 0 to m.side
      invariant forall i, j :: 0 <= j < fb.height && 0 <= i < fb.width ==>
                  fb.buf[j, i] == if Painted(m, ox, oy, modulePx, my, 0, i, j) then QR_DARK else old@filled(fb.buf[j, i])
    {
      var rowY := SatAdd(originY, SatMul(my, modulePx));
      var mx := 0;
      while mx < m.side
        invariant 0 <= mx <= m.side
        invariant forall i, j :: 0 <= j < fb.height && 0 <= i < fb.width ==>
                    fb.buf[j, i] == if Painted(m, ox, oy, modulePx, my, mx, i, j) then QR_DARK else old@filled(fb.buf[j, i])
      {
        if !m.Get(mx, my) {
          mx := mx + 1;
          continue;
        }
        var start := mx;
        while mx < m.side && m.Get(mx, my)
          invariant start <= mx <= m.side
          invariant mx == start ==> m.Get(mx, my) && mx < m.side
          invariant forall c :: start <= c < mx ==> m.Get(c, my)
        {
          mx := mx + 1;
        }
        forall i, j | 0 <= j < fb.height && 0 <= i < fb.width
          ensures Painted(m, ox, oy, modulePx, my, mx, i, j)
                  <==> Painted(m, ox, oy, modulePx, my, start, i, j)
                       || InRect(i, j, SatAdd(originX, SatMul(start, modulePx)), rowY,
                                 SatMul(mx - start, modulePx), modulePx)
        {
          RunPainted(m, x, y, modulePx, my, start, mx, i, j);
        }
        FillRect(fb, SatAdd(originX, SatMul(start, modulePx)), rowY, SatMul(mx - start, modulePx), modulePx, QR_DARK);
      }
    }
  }
}
