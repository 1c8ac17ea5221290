/** `TextureStyle`: a style that draws a texture region, either clipped to
    the target rectangle or tiled across it. */
module TextureStyles {
  import opened JavaNumerics
  import opened ColorStyles

  /** One call to the texture-drawing primitive: target position, source
      origin in the texture, and extent. The style's file size, scale,
      texture and tint are passed along unchanged and are not repeated here. */
  datatype TextureCall = TextureCall(x: real, y: real, left: int, top: int, width: int, height: int)

  /** White, the default tint. */
  const White := Color(1.0, 1.0, 1.0, 1.0)

  /** The inputs on which the tiling loop ends: nothing to draw, or every
      row ends (positive tile width, or a target narrower than the tile
      width) and rows advance by a positive tile height. */
  predicate TilingTerminates(drawWidth: int, drawHeight: int, width: int, height: int)
  {
    height <= 0 || (drawHeight > 0 && (drawWidth > 0 || width < drawWidth))
  }

  /** The number of tiles the loop draws in one row. */
  function TilesPerRow(width: int, drawWidth: int): (n: nat)
    requires drawWidth > 0 || width < drawWidth
    ensures n >= 1
    decreases if width < drawWidth then 0 else width
  {
    if width - drawWidth < 0 then 1 else 1 + TilesPerRow(width - drawWidth, drawWidth)
  }

  /** The number of rows the loop draws. */
  function RowCount(height: int, drawHeight: int): nat
    requires drawHeight > 0 || height <= 0
    decreases if height <= 0 then 0 else height
  {
    if height <= 0 then 0 else 1 + RowCount(height - drawHeight, drawHeight)
  }

  /** The arguments of one `drawTiled` call: target origin, texture origin,
      tile size and target size. */
  datatype TileGrid = TileGrid(x: real, y: real, left: int, top: int,
                               drawWidth: int, drawHeight: int, width: int, height: int)

  predicate Terminates(g: TileGrid)
  {
    TilingTerminates(g.drawWidth, g.drawHeight, g.width, g.height)
  }

  /** The tile in row `r` and column `c`: it starts `c` tile widths right and
      `r` tile heights down from the origin and is cut to what remains. */
  function TileAt(g: TileGrid, r: int, c: int): TextureCall
  {
    TextureCall(g.x + (c * g.drawWidth) as real, g.y + (r * g.drawHeight) as real, g.left, g.top,
                Min(g.width - c * g.drawWidth, g.drawWidth), Min(g.height - r * g.drawHeight, g.drawHeight))
  }

  /** Row `r`: its `cols` tiles from left to right. */
  function Row(g: TileGrid, r: int, cols: nat): (row: seq<TextureCall>)
    ensures |row| == cols
  {
    seq(cols, c requires 0 <= c < cols => TileAt(g, r, c))
  }

  /** Rows `0` to `n - 1`, one after another. */
  function RowsBefore(g: TileGrid, n: nat, cols: nat): seq<TextureCall>
  {
    if n == 0 then [] else RowsBefore(g, n - 1, cols) + Row(g, n - 1, cols)
  }

  /** Every tile covering the target, row by row. */
  function Tiling(g: TileGrid): seq<TextureCall>
    requires Terminates(g)
  {
    if g.height <= 0 then [] else RowsBefore(g, RowCount(g.height, g.drawHeight), TilesPerRow(g.width, g.drawWidth))
  }

  lemma MulStrict(r: int, n: int, cols: int, c: int)
    requires 0 <= r < n && 0 <= c < cols
    ensures r * cols + c < n * cols
  {
    assert (n - r) * cols >= cols by {
      assert n - r >= 1;
    }
    assert n * cols - r * cols == (n - r) * cols;
  }

  /** `RowsBefore` in row-major index form: `n * cols` tiles, the one at
      index `r * cols + c` being the tile in row `r`, column `c`. */
  lemma {:induction false} RowMajor(g: TileGrid, n: nat, cols: nat, r: nat, c: nat)
    requires r < n && c < cols
    ensures |RowsBefore(g, n, cols)| == n * cols
    ensures r * cols + c < n * cols && RowsBefore(g, n, cols)[r * cols + c] == TileAt(g, r, c)
  {
    MulStrict(r, n, cols, c);
    RowsBeforeLength(g, n - 1, cols);
    assert n * cols == (n - 1) * cols + cols;
    if r < n - 1 {
      RowMajor(g, n - 1, cols, r, c);
    } else {
      assert r * cols + c == (n - 1) * cols + c;
    }
  }

  lemma {:induction false} RowsBeforeLength(g: TileGrid, n: nat, cols: nat)
    ensures |RowsBefore(g, n, cols)| == n * cols
  {
    if n > 0 {
      RowsBeforeLength(g, n - 1, cols);
      assert n * cols == (n - 1) * cols + cols;
    }
  }

  /** A row ends exactly after its last tile: subtracting one more tile
      width makes the remaining width negative only at column `TilesPerRow - 1`. */
  lemma {:induction false} RowEndsAtLastColumn(width: int, drawWidth: int, c: nat)
    requires drawWidth > 0 || width < drawWidth
    requires c < TilesPerRow(width, drawWidth)
    ensures (width - (c + 1) * drawWidth < 0) <==> (c + 1 == TilesPerRow(width, drawWidth))
  {
    if c > 0 {
      RowEndsAtLastColumn(width - drawWidth, drawWidth, c - 1);
      assert width - (c + 1) * drawWidth == (width - drawWidth) - c * drawWidth;
    }
  }

  /** The loop condition holds exactly before the last row has been drawn. */
  lemma {:induction false} RowsEndAtRowCount(height: int, drawHeight: int, r: nat)
    requires drawHeight > 0
    requires r <= RowCount(height, drawHeight)
    ensures (height - r * drawHeight > 0) <==> (r < RowCount(height, drawHeight))
  {
    if r > 0 {
      RowsEndAtRowCount(height - drawHeight, drawHeight, r - 1);
      assert height - r * drawHeight == (height - drawHeight) - (r - 1) * drawHeight;
    }
  }

  /** With a non-negative target width every row has `width / drawWidth + 1`
      tiles, and the last one is `width % drawWidth` wide: zero wide when the
      width is a multiple of the tile width. */
  lemma {:induction false} RowShape(width: int, drawWidth: int)
    requires width >= 0 && drawWidth > 0
    ensures TilesPerRow(width, drawWidth) == width / drawWidth + 1
    ensures width - (TilesPerRow(width, drawWidth) - 1) * drawWidth == width % drawWidth
    decreases width
  {
    if width >= drawWidth {
      RowShape(width - drawWidth, drawWidth);
      DivStep(width, drawWidth);
      var p := TilesPerRow(width - drawWidth, drawWidth);
      assert width - p * drawWidth == (width - drawWidth) - (p - 1) * drawWidth;
    } else {
      DivSmall(width, drawWidth);
    }
  }

  lemma DivSmall(width: int, drawWidth: int)
    requires 0 <= width < drawWidth
    ensures width / drawWidth == 0 && width % drawWidth == width
  {
    DivUnique(width, drawWidth, 0, width);
  }

  /** One tile width fewer is one fewer in the quotient, same remainder. */
  lemma DivStep(width: int, drawWidth: int)
    requires width >= drawWidth > 0
    ensures (width - drawWidth) / drawWidth == width / drawWidth - 1
    ensures (width - drawWidth) % drawWidth == width % drawWidth
  {
    var q, m := width / drawWidth, width % drawWidth;
    assert width == drawWidth * q + m && 0 <= m < drawWidth;
    assert width - drawWidth == drawWidth * (q - 1) + m;
    DivUnique(width - drawWidth, drawWidth, q - 1, m);
  }

  /** Quotient and remainder are determined by `n == d * q + m, 0 <= m < d`. */
  lemma DivUnique(n: int, d: int, q: int, m: int)
    requires d > 0 && 0 <= m < d && n == d * q + m
    ensures n / d == q && n % d == m
  {
    var q', m' := n / d, n % d;
    assert n == d * q' + m' && 0 <= m' < d;
    assert d * (q - q') == m' - m;
    MulSign(d, q - q');
  }

  lemma MulSign(d: int, k: int)
    requires d > 0
    ensures k >= 1 ==> d * k >= d
    ensures k <= -1 ==> d * k <= -d
  {
  }

  /** No row of zero height is emitted: every tile of a tiling is at least
      one pixel high. */
  lemma TileHeightsPositive(g: TileGrid, r: nat, c: int)
    requires Terminates(g) && g.height > 0
    requires r < RowCount(g.height, g.drawHeight)
    ensures TileAt(g, r, c).height > 0
  {
    RowsEndAtRowCount(g.height, g.drawHeight, r);
  }

  /** One iteration of the tiling loop on (remainingWidth, remainingHeight). */
  function LoopStep(drawWidth: int, drawHeight: int, width: int, rw: int, rh: int): (int, int)
  {
    if rw - drawWidth < 0 then (width, rh - drawHeight) else (rw - drawWidth, rh)
  }

  /** The loop state after `n` iterations from (width, height), ignoring the loop condition. */
  function Iterate(drawWidth: int, drawHeight: int, width: int, height: int, n: nat): (int, int)
  {
    if n == 0 then (width, height)
    else
      var s := Iterate(drawWidth, drawHeight, width, height, n - 1);
      LoopStep(drawWidth, drawHeight, width, s.0, s.1)
  }

  /** Outside `TilingTerminates` the source's loop never ends: after any
      number of iterations the remaining height is still positive. */
  lemma {:induction false} TilingDiverges(drawWidth: int, drawHeight: int, width: int, height: int, n: nat)
    requires !TilingTerminates(drawWidth, drawHeight, width, height)
    ensures Iterate(drawWidth, drawHeight, width, height, n).1 > 0
    ensures drawHeight > 0 ==> Iterate(drawWidth, drawHeight, width, height, n).0 >= width
  {
    if n > 0 {
      TilingDiverges(drawWidth, drawHeight, width, height, n - 1);
    }
  }

  class TextureStyle {
    const textureID: string
    var drawLeft: int
    var drawTop: int
    var tiled: bool
    var textureWidth: int
    var textureHeight: int
    var tint: Color
    var fileWidth: real
    var fileHeight: real
    var scale: real

    /** Defaults: origin (0, 0), not tiled, zero sizes, white tint, scale 2. */
    constructor (path: string)
      ensures textureID == path && drawLeft == 0 && drawTop == 0 && !tiled
      ensures textureWidth == 0 && textureHeight == 0 && fileWidth == 0.0 && fileHeight == 0.0
      ensures tint == White && scale == 2.0
    {
      textureID := path;
      drawLeft, drawTop := 0, 0;
      tiled := false;
      textureWidth, textureHeight := 0, 0;
      tint := White;
      fileWidth, fileHeight := 0.0, 0.0;
      scale := 2.0;
    }

    method DrawOrigin(left: int, top: int)
      modifies this`drawLeft, this`drawTop
      ensures drawLeft == left && drawTop == top
    {
      drawLeft := left;
      drawTop := top;
    }

    method SetTiled(value: bool)
      modifies this`tiled
      ensures tiled == value
    {
      tiled := value;
    }

    method TextureSize(w: int, h: int)
      modifies this`textureWidth, this`textureHeight
      ensures textureWidth == w && textureHeight == h
    {
      textureWidth := w;
      textureHeight := h;
    }

    method FileDimensions(w: real, h: real)
      modifies this`fileWidth, this`fileHeight
      ensures fileWidth == w && fileHeight == h
    {
      fileWidth := w;
      fileHeight := h;
    }

    method Tint(value: Color)
      modifies this`tint
      ensures tint == value
    {
      tint := value;
    }

    method Scale(value: real)
      modifies this`scale
      ensures scale == value
    {
      scale := value;
    }

    /** `draw`: untiled, the region is clipped to both the target and the
        texture size and handed to the primitive twice; tiled, the target is
        covered with texture-sized tiles. */
    method Draw(x: int, y: int, width: int, height: int) returns (calls: seq<TextureCall>)
      requires tiled ==> TilingTerminates(textureWidth, textureHeight, width, height)
      ensures !tiled ==> |calls| == 2 && calls[0] == calls[1]
      ensures !tiled ==> calls[0] == TextureCall(x as real, y as real, drawLeft, drawTop,
                                                 Min(width, textureWidth), Min(height, textureHeight))
      ensures tiled ==> calls == Tiling(TileGrid(x as real, y as real, drawLeft, drawTop,
                                                 textureWidth, textureHeight, width, height))
    {
      if !tiled {
        var drawWidth := Min(width, textureWidth);
        var drawHeight := Min(height, textureHeight);
        var call := TextureCall(x as real, y as real, drawLeft, drawTop, drawWidth, drawHeight);
        calls := [call];
        calls := calls + [call];
      } else {
        calls := DrawTiled(x as real, y as real, drawLeft, drawTop, textureWidth, textureHeight, width, height);
      }
    }

    /** `drawTiled`: the source's loop over the remaining width and height
        emits exactly the row-major tiling of the target. */
    method DrawTiled(x: real, y: real, left: int, top: int, drawWidth: int, drawHeight: int,
                     width: int, height: int) returns (tiles: seq<TextureCall>)
      requires TilingTerminates(drawWidth, drawHeight, width, height)
      ensures tiles == Tiling(TileGrid(x, y, left, top, drawWidth, drawHeight, width, height))
    {
      ghost var g := TileGrid(x, y, left, top, drawWidth, drawHeight, width, height);
      var remainingWidth := width;
      var remainingHeight := height;
      tiles := [];
      ghost var rows := if height > 0 then RowCount(height, drawHeight) else 0;
      ghost var cols := if height > 0 then TilesPerRow(width, drawWidth) else 1;
      ghost var r: nat, c: nat := 0, 0;
      if height > 0 {
        RowsEndAtRowCount(height, drawHeight, 0);
      }

      while remainingHeight > 0
        invariant r <= rows && c < cols && (r == rows ==> c == 0)
        invariant remainingWidth == width - c * drawWidth
        invariant remainingHeight == height - r * drawHeight
        invariant remainingHeight > 0 <==> r < rows
        invariant tiles == RowsBefore(g, r, cols) + Row(g, r, cols)[..c]
        decreases rows - r, cols - c
      {
        var currentX := x + (width - remainingWidth) as real;
        var currentY := y + (height - remainingHeight) as real;
        var minWidth := Min(remainingWidth, drawWidth);
        var minHeight := Min(remainingHeight, drawHeight);
        assert width - remainingWidth == c * drawWidth;
        assert height - remainingHeight == r * drawHeight;
        assert TextureCall(currentX, currentY, left, top, minWidth, minHeight) == TileAt(g, r, c);
        assert Row(g, r, cols)[..c + 1] == Row(g, r, cols)[..c] + [TileAt(g, r, c)];
        tiles := tiles + [TextureCall(currentX, currentY, left, top, minWidth, minHeight)];

        RowEndsAtLastColumn(width, drawWidth, c);
        assert remainingWidth - drawWidth == width - (c + 1) * drawWidth;
        remainingWidth := remainingWidth - drawWidth;
        if remainingWidth < 0 {
          remainingWidth := width;
          remainingHeight := remainingHeight - drawHeight;
          assert Row(g, r, cols)[..c + 1] == Row(g, r, cols);
          r, c := r + 1, 0;
          assert (r - 1) * drawHeight + drawHeight == r * drawHeight;
          RowsEndAtRowCount(height, drawHeight, r);
        } else {
          c := c + 1;
        }
      }
    }
  }
}
