/**
  The quantizer as it runs: the accumulator, the quantized image and the
  block canvas are arrays updated in place, pixel by pixel, in the serpentine
  order. Each step is proved to keep the arrays equal to the value-level run
  of module Dither.

  The lookup table and the texture fetch are given functions: `table(r, g, b)`
  is the precomputed block name, `texel(name, y, x)` the colour of pixel (y, x)
  of that block's 16 x 16 texture.
 */
module Quantizer {
  import opened Colors
  import opened Dither
  import opened Decimation

  type Table = (int, int, int) -> string
  type Texture = (string, int, int) -> Rgb

  const Black := Rgb(0, 0, 0)

  /** The quantized colour of pixel (i, j) in state s: its palette colour once chosen, black before. */
  ghost function WoolAt(s: State, palette: Palette, i: int, j: int): Rgb {
    if (i, j) in s.names && ColorOf(palette, s.names[(i, j)]).Some? then ColorOf(palette, s.names[(i, j)]).value else Black
  }

  /** Canvas pixel (y, x) in state s: texel (y % 16, x % 16) of its tile's block once chosen, black before. */
  ghost function CanvasAt(s: State, texel: Texture, y: int, x: int): Rgb {
    if (y / 16, x / 16) in s.names then texel(s.names[(y / 16, x / 16)], y % 16, x % 16) else Black
  }

  /** c is the colour of some palette entry. */
  ghost predicate IsPaletteColor(palette: Palette, c: Rgb) {
    exists k :: 0 <= k < |palette| && palette[k].color == c
  }

  ghost predicate AccIs(acc: array3<real>, g: Grid)
    reads acc
  {
    acc.Length2 == 3 && Shaped(g, acc.Length0, acc.Length1) &&
    forall i, j, ch :: 0 <= i < acc.Length0 && 0 <= j < acc.Length1 && 0 <= ch < 3 ==> acc[i, j, ch] == g[i][j][ch]
  }

  /** The three arrays hold exactly what state s of the value-level run describes. */
  ghost predicate Mirrors(acc: array3<real>, wools: array2<Rgb>, canvas: array2<Rgb>, s: State,
                          rows: nat, cols: nat, palette: Palette, texel: Texture)
    reads acc, wools, canvas
  {
    wools != canvas &&
    acc.Length0 == rows && acc.Length1 == cols && AccIs(acc, s.acc) &&
    wools.Length0 == rows && wools.Length1 == cols &&
    canvas.Length0 == 16 * rows && canvas.Length1 == 16 * cols &&
    (forall i, j :: 0 <= i < rows && 0 <= j < cols ==> wools[i, j] == WoolAt(s, palette, i, j)) &&
    (forall y, x :: 0 <= y < 16 * rows && 0 <= x < 16 * cols ==> canvas[y, x] == CanvasAt(s, texel, y, x))
  }

  /**
    The finished output for a run that ended in state s: the quantized image
    holds, at every pixel, the palette colour of the block chosen for it, and
    every 16 x 16 tile of the canvas that block's texture.
   */
  ghost predicate Renders(wools: array2<Rgb>, canvas: array2<Rgb>, s: State, rows: nat, cols: nat, palette: Palette, texel: Texture)
    reads wools, canvas
  {
    wools.Length0 == rows && wools.Length1 == cols &&
    canvas.Length0 == 16 * rows && canvas.Length1 == 16 * cols &&
    (forall i, j :: 0 <= i < rows && 0 <= j < cols ==>
      (i, j) in s.names && ColorOf(palette, s.names[(i, j)]).Some? && wools[i, j] == ColorOf(palette, s.names[(i, j)]).value) &&
    (forall y, x :: 0 <= y < 16 * rows && 0 <= x < 16 * cols ==>
      (y / 16, x / 16) in s.names && canvas[y, x] == texel(s.names[(y / 16, x / 16)], y % 16, x % 16))
  }

  /**
    One guarded `+=` block: when target t resolves, each channel of its cell
    gains err / 8; when it raises, nothing is written.
   */
  method DiffuseTo(acc: array3<real>, t: Pos, err: seq<real>, ghost g: Grid)
    requires |err| == 3 && AccIs(acc, g)
    modifies acc
    ensures AccIs(acc, DiffuseOne(g, acc.Length0, acc.Length1, t, err))
  {
    var i := NpIndex(t.0, acc.Length0);
    var j := NpIndex(t.1, acc.Length1);
    if i.Some? && j.Some? {
      acc[i.value, j.value, 0] := acc[i.value, j.value, 0] + err[0] / 8.0;
      acc[i.value, j.value, 1] := acc[i.value, j.value, 1] + err[1] / 8.0;
      acc[i.value, j.value, 2] := acc[i.value, j.value, 2] + err[2] / 8.0;
    }
  }

  /** The slice assignment of a block's texture to tile (row, col); every other canvas pixel keeps its value. */
  method PlaceTile(canvas: array2<Rgb>, row: nat, col: nat, name: string, texel: Texture)
    requires 16 * row + 16 <= canvas.Length0 && 16 * col + 16 <= canvas.Length1
    modifies canvas
    ensures forall y, x :: 0 <= y < canvas.Length0 && 0 <= x < canvas.Length1 ==>
      canvas[y, x] == if y / 16 == row && x / 16 == col then texel(name, y % 16, x % 16) else old(canvas[y, x])
  {
    forall y, x | 16 * row <= y < 16 * row + 16 && 16 * col <= x < 16 * col + 16 {
      canvas[y, x] := texel(name, y - 16 * row, x - 16 * col);
    }
  }

  /** DiffuseAll over six targets is the six guarded blocks one after another. */
  lemma DiffuseAllOfSix(g: Grid, rows: nat, cols: nat, ts: seq<Pos>, err: seq<real>)
    requires Shaped(g, rows, cols) && |err| == 3 && |ts| == 6
    ensures DiffuseAll(g, rows, cols, ts, err) ==
      var g1 := DiffuseOne(g, rows, cols, ts[0], err);
      var g2 := DiffuseOne(g1, rows, cols, ts[1], err);
      var g3 := DiffuseOne(g2, rows, cols, ts[2], err);
      var g4 := DiffuseOne(g3, rows, cols, ts[3], err);
      var g5 := DiffuseOne(g4, rows, cols, ts[4], err);
      DiffuseOne(g5, rows, cols, ts[5], err)
  {
    assert ts[..0] == [];
    DiffuseAllStep(g, rows, cols, ts, 0, err);
    DiffuseAllStep(g, rows, cols, ts, 1, err);
    DiffuseAllStep(g, rows, cols, ts, 2, err);
    DiffuseAllStep(g, rows, cols, ts, 3, err);
    DiffuseAllStep(g, rows, cols, ts, 4, err);
    DiffuseAllStep(g, rows, cols, ts, 5, err);
    assert ts[..6] == ts;
  }

  /** DiffuseAll over a prefix one target longer is one more guarded block. */
  lemma DiffuseAllStep(g: Grid, rows: nat, cols: nat, ts: seq<Pos>, k: nat, err: seq<real>)
    requires Shaped(g, rows, cols) && |err| == 3 && k < |ts|
    ensures DiffuseAll(g, rows, cols, ts[..k + 1], err) == DiffuseOne(DiffuseAll(g, rows, cols, ts[..k], err), rows, cols, ts[k], err)
  {
    assert ts[..k + 1][..k] == ts[..k];
  }

  /**
    The six guarded blocks of one pixel, in the source's order (even rows
    first ahead to the right, odd rows to the left).
   */
  method DiffuseError(acc: array3<real>, row: int, col: int, err: seq<real>, ghost g: Grid)
    requires |err| == 3 && AccIs(acc, g)
    modifies acc
    ensures AccIs(acc, DiffuseAll(g, acc.Length0, acc.Length1, Targets(row, col), err))
  {
    ghost var rows, cols, ts := acc.Length0, acc.Length1, Targets(row, col);
    DiffuseAllOfSix(g, rows, cols, ts, err);
    ghost var g1 := DiffuseOne(g, rows, cols, ts[0], err);
    ghost var g2 := DiffuseOne(g1, rows, cols, ts[1], err);
    ghost var g3 := DiffuseOne(g2, rows, cols, ts[2], err);
    ghost var g4 := DiffuseOne(g3, rows, cols, ts[3], err);
    ghost var g5 := DiffuseOne(g4, rows, cols, ts[4], err);
    if row % 2 == 0 {
      DiffuseTo(acc, (row, col + 1), err, g);
      DiffuseTo(acc, (row, col + 2), err, g1);
      DiffuseTo(acc, (row + 1, col - 1), err, g2);
      DiffuseTo(acc, (row + 1, col), err, g3);
      DiffuseTo(acc, (row + 1, col + 1), err, g4);
      DiffuseTo(acc, (row + 2, col), err, g5);
    } else {
      DiffuseTo(acc, (row, col - 1), err, g);
      DiffuseTo(acc, (row, col - 2), err, g1);
      DiffuseTo(acc, (row + 1, col + 1), err, g2);
      DiffuseTo(acc, (row + 1, col), err, g3);
      DiffuseTo(acc, (row + 1, col - 1), err, g4);
      DiffuseTo(acc, (row + 2, col), err, g5);
    }
  }

  /**
    The body of the scan loop for pixel (row, col): clip and round the
    accumulated pixel, look its block up, place the tile, record the palette
    colour and diffuse the error.
   */
  method ProcessPixel(acc: array3<real>, wools: array2<Rgb>, canvas: array2<Rgb>, row: nat, col: nat,
                      palette: Palette, table: Table, texel: Texture, ghost s: State)
    requires Mirrors(acc, wools, canvas, s, acc.Length0, acc.Length1, palette, texel)
    requires row < acc.Length0 && col < acc.Length1
    requires TableNamesPalette(table, palette)
    modifies acc, wools, canvas
    ensures Mirrors(acc, wools, canvas, PixelStep(s, (row, col), acc.Length0, acc.Length1, palette, table),
                    acc.Length0, acc.Length1, palette, texel)
  {
    ghost var rows, cols := acc.Length0, acc.Length1;
    ghost var t := PixelStep(s, (row, col), rows, cols, palette, table);
    assert [acc[row, col, 0], acc[row, col, 1], acc[row, col, 2]] == s.acc[row][col];
    var pixel := ClipPixel([acc[row, col, 0], acc[row, col, 1], acc[row, col, 2]]);
    var r, g, b := RoundHalfEven(pixel[0]), RoundHalfEven(pixel[1]), RoundHalfEven(pixel[2]);
    var leastKey := table(r, g, b);
    KeyIsPaletteName(s.acc[row][col], table, palette);
    assert leastKey == t.names[(row, col)];

    PlaceTile(canvas, row, col, leastKey, texel);

    var color := ColorOf(palette, leastKey).value;
    wools[row, col] := color;
    var error := ErrorOf(pixel, color);

    DiffuseError(acc, row, col, error, s.acc);
    assert AccIs(acc, t.acc);
    assert forall i, j :: 0 <= i < rows && 0 <= j < cols ==> wools[i, j] == WoolAt(t, palette, i, j);
    assert forall y, x :: 0 <= y < 16 * rows && 0 <= x < 16 * cols ==> canvas[y, x] == CanvasAt(t, texel, y, x);
  }

  ghost predicate AllInGrid(order: seq<Pos>, rows: nat, cols: nat) {
    forall k :: 0 <= k < |order| ==> InGrid(order[k], rows, cols)
  }

  /**
    Processing pixel k of a row after the pixels before it extends the
    value-level run by one step.
   */
  lemma RowStep(s0: State, done: seq<Pos>, line: seq<Pos>, k: nat, rows: nat, cols: nat, palette: Palette, table: Table)
    requires Shaped(s0.acc, rows, cols) && TableNamesPalette(table, palette)
    requires k < |line| && InGrid(line[k], rows, cols) && AllInGrid(done + line[..k], rows, cols)
    ensures AllInGrid(done + line[..k + 1], rows, cols)
    ensures Fold(s0, done + line[..k + 1], rows, cols, palette, table) ==
      PixelStep(Fold(s0, done + line[..k], rows, cols, palette, table), line[k], rows, cols, palette, table)
  {
    assert done + line[..k + 1] == (done + line[..k]) + [line[k]];
    SnocInGrid(done + line[..k], line[k], rows, cols);
    FoldSnoc(s0, done + line[..k], line[k], rows, cols, palette, table);
  }

  lemma SnocInGrid(order: seq<Pos>, p: Pos, rows: nat, cols: nat)
    requires AllInGrid(order, rows, cols) && InGrid(p, rows, cols)
    ensures AllInGrid(order + [p], rows, cols)
  {
    assert forall i :: 0 <= i < |order| ==> (order + [p])[i] == order[i];
  }

  /** One more pixel at the end of the order is one more step of the run. */
  lemma FoldSnoc(s: State, order: seq<Pos>, p: Pos, rows: nat, cols: nat, palette: Palette, table: Table)
    requires Shaped(s.acc, rows, cols) && InGrid(p, rows, cols)
    requires AllInGrid(order, rows, cols) && AllInGrid(order + [p], rows, cols)
    requires TableNamesPalette(table, palette)
    ensures Fold(s, order + [p], rows, cols, palette, table) ==
      PixelStep(Fold(s, order, rows, cols, palette, table), p, rows, cols, palette, table)
  {
    assert (order + [p])[..|order|] == order;
  }

  /**
    Visit pixel k of a row, (row, col): the arrays move from the run over
    `done` and the first k pixels of the row to the run over the first k + 1.
   */
  method VisitPixel(acc: array3<real>, wools: array2<Rgb>, canvas: array2<Rgb>, row: nat, col: nat,
                    palette: Palette, table: Table, texel: Texture,
                    ghost s0: State, ghost done: seq<Pos>, ghost line: seq<Pos>, ghost k: nat)
    requires row < acc.Length0 && col < acc.Length1
    requires Shaped(s0.acc, acc.Length0, acc.Length1) && TableNamesPalette(table, palette)
    requires k < |line| && line[k] == (row, col) && AllInGrid(done + line[..k], acc.Length0, acc.Length1)
    requires Mirrors(acc, wools, canvas, Fold(s0, done + line[..k], acc.Length0, acc.Length1, palette, table),
                     acc.Length0, acc.Length1, palette, texel)
    modifies acc, wools, canvas
    ensures AllInGrid(done + line[..k + 1], acc.Length0, acc.Length1)
    ensures Mirrors(acc, wools, canvas, Fold(s0, done + line[..k + 1], acc.Length0, acc.Length1, palette, table),
                    acc.Length0, acc.Length1, palette, texel)
  {
    RowStep(s0, done, line, k, acc.Length0, acc.Length1, palette, table);
    ProcessPixel(acc, wools, canvas, row, col, palette, table, texel, Fold(s0, done + line[..k], acc.Length0, acc.Length1, palette, table));
  }

  /** The left-to-right loop over an even row. */
  method ScanEvenRow(acc: array3<real>, wools: array2<Rgb>, canvas: array2<Rgb>, row: nat,
                     palette: Palette, table: Table, texel: Texture, ghost s0: State, ghost done: seq<Pos>)
    requires row < acc.Length0 && row % 2 == 0
    requires Shaped(s0.acc, acc.Length0, acc.Length1) && TableNamesPalette(table, palette)
    requires AllInGrid(done, acc.Length0, acc.Length1)
    requires Mirrors(acc, wools, canvas, Fold(s0, done, acc.Length0, acc.Length1, palette, table),
                     acc.Length0, acc.Length1, palette, texel)
    modifies acc, wools, canvas
    ensures AllInGrid(done + RowOrder(row, acc.Length1), acc.Length0, acc.Length1)
    ensures Mirrors(acc, wools, canvas, Fold(s0, done + RowOrder(row, acc.Length1), acc.Length0, acc.Length1, palette, table),
                    acc.Length0, acc.Length1, palette, texel)
  {
    var cols := acc.Length1;
    ghost var line := RowOrder(row, cols);
    assert done + line[..0] == done;
    for col := 0 to cols
      invariant AllInGrid(done + line[..col], acc.Length0, cols)
      invariant Mirrors(acc, wools, canvas, Fold(s0, done + line[..col], acc.Length0, cols, palette, table),
                        acc.Length0, cols, palette, texel)
    {
      VisitPixel(acc, wools, canvas, row, col, palette, table, texel, s0, done, line, col);
    }
    assert line[..cols] == line;
  }

  /** On an odd row, column col is visited at step cols - 1 - col. */
  lemma OddRowAt(row: nat, cols: nat, col: nat)
    requires row % 2 == 1 && col < cols
    ensures RowOrder(row, cols)[cols - 1 - col] == (row, col)
  {
  }

  /** The right-to-left loop over an odd row. */
  method ScanOddRow(acc: array3<real>, wools: array2<Rgb>, canvas: array2<Rgb>, row: nat,
                    palette: Palette, table: Table, texel: Texture, ghost s0: State, ghost done: seq<Pos>)
    requires row < acc.Length0 && row % 2 == 1
    requires Shaped(s0.acc, acc.Length0, acc.Length1) && TableNamesPalette(table, palette)
    requires AllInGrid(done, acc.Length0, acc.Length1)
    requires Mirrors(acc, wools, canvas, Fold(s0, done, acc.Length0, acc.Length1, palette, table),
                     acc.Length0, acc.Length1, palette, texel)
    modifies acc, wools, canvas
    ensures AllInGrid(done + RowOrder(row, acc.Length1), acc.Length0, acc.Length1)
    ensures Mirrors(acc, wools, canvas, Fold(s0, done + RowOrder(row, acc.Length1), acc.Length0, acc.Length1, palette, table),
                    acc.Length0, acc.Length1, palette, texel)
  {
    var cols := acc.Length1;
    ghost var line := RowOrder(row, cols);
    assert done + line[..0] == done;
    ghost var k := 0;
    for col := cols downto 0
      invariant k == cols - col
      invariant AllInGrid(done + line[..k], acc.Length0, cols)
      invariant Mirrors(acc, wools, canvas, Fold(s0, done + line[..k], acc.Length0, cols, palette, table),
                        acc.Length0, cols, palette, texel)
    {
      OddRowAt(row, cols, col);
      VisitPixel(acc, wools, canvas, row, col, palette, table, texel, s0, done, line, k);
      k := k + 1;
    }
    assert line[..cols] == line;
  }

  /** Row `row` of the scan, in its direction: the run so far grows by that row. */
  method ScanRow(acc: array3<real>, wools: array2<Rgb>, canvas: array2<Rgb>, row: nat,
                 palette: Palette, table: Table, texel: Texture, ghost s0: State)
    requires row < acc.Length0
    requires Shaped(s0.acc, acc.Length0, acc.Length1) && TableNamesPalette(table, palette)
    requires Mirrors(acc, wools, canvas, Fold(s0, ScanOrder(row, acc.Length1), acc.Length0, acc.Length1, palette, table),
                     acc.Length0, acc.Length1, palette, texel)
    modifies acc, wools, canvas
    ensures Mirrors(acc, wools, canvas, Fold(s0, ScanOrder(row + 1, acc.Length1), acc.Length0, acc.Length1, palette, table),
                    acc.Length0, acc.Length1, palette, texel)
  {
    ghost var done := ScanOrder(row, acc.Length1);
    assert AllInGrid(done, acc.Length0, acc.Length1);
    if row % 2 == 0 {
      ScanEvenRow(acc, wools, canvas, row, palette, table, texel, s0, done);
    } else {
      ScanOddRow(acc, wools, canvas, row, palette, table, texel, s0, done);
    }
    assert ScanOrder(row + 1, acc.Length1) == done + RowOrder(row, acc.Length1);
  }

  /** The accumulator's start: the decimated image as reals. */
  method InitialAccumulator(dec: seq<seq<Rgb>>, rows: nat, cols: nat) returns (acc: array3<real>)
    requires IsGrid(dec, rows, cols)
    ensures fresh(acc)
    ensures acc.Length0 == rows && acc.Length1 == cols
    ensures AccIs(acc, Initial(dec, rows, cols).acc)
  {
    acc := new real[rows, cols, 3];
    forall i, j, ch | 0 <= i < rows && 0 <= j < cols && 0 <= ch < 3 {
      acc[i, j, ch] := (if ch == 0 then dec[i][j].red else if ch == 1 then dec[i][j].green else dec[i][j].blue) as real;
    }
  }

  /**
    The serpentine Atkinson loop over the decimated image. The quantized image
    and the block canvas it leaves are those of the value-level run: each
    pixel holds the palette colour of its chosen block, and each 16 x 16 tile
    of the canvas that block's texture.
   */
  method Quantize(dec: seq<seq<Rgb>>, rows: nat, cols: nat, palette: Palette, table: Table, texel: Texture)
    returns (wools: array2<Rgb>, canvas: array2<Rgb>)
    requires IsGrid(dec, rows, cols) && TableNamesPalette(table, palette)
    ensures fresh(wools) && fresh(canvas)
    ensures Renders(wools, canvas, Dithered(dec, rows, cols, palette, table), rows, cols, palette, texel)
  {
    ghost var s0 := Initial(dec, rows, cols);
    var acc := InitialAccumulator(dec, rows, cols);
    wools := new Rgb[rows, cols]((_, _) => Black);
    canvas := new Rgb[16 * rows, 16 * cols]((_, _) => Black);

    assert Mirrors(acc, wools, canvas, Fold(s0, ScanOrder(0, cols), rows, cols, palette, table), rows, cols, palette, texel) by {
      assert ScanOrder(0, cols) == [];
    }
    for row := 0 to rows
      invariant Mirrors(acc, wools, canvas, Fold(s0, ScanOrder(row, cols), rows, cols, palette, table),
                        rows, cols, palette, texel)
    {
      ScanRow(acc, wools, canvas, row, palette, table, texel, s0);
    }
    MirrorsDithered(acc, wools, canvas, dec, rows, cols, palette, table, texel);
  }

  /** Arrays that mirror the finished run hold the chosen colours and textures of every pixel. */
  lemma MirrorsDithered(acc: array3<real>, wools: array2<Rgb>, canvas: array2<Rgb>, dec: seq<seq<Rgb>>, rows: nat, cols: nat,
                        palette: Palette, table: Table, texel: Texture)
    requires IsGrid(dec, rows, cols) && TableNamesPalette(table, palette)
    requires Mirrors(acc, wools, canvas, Dithered(dec, rows, cols, palette, table), rows, cols, palette, texel)
    ensures Renders(wools, canvas, Dithered(dec, rows, cols, palette, table), rows, cols, palette, texel)
  {
    var s := Dithered(dec, rows, cols, palette, table);
    forall i, j | 0 <= i < rows && 0 <= j < cols
      ensures (i, j) in s.names && ColorOf(palette, s.names[(i, j)]).Some? && wools[i, j] == ColorOf(palette, s.names[(i, j)]).value
    {
      assert wools[i, j] == WoolAt(s, palette, i, j);
    }
    forall y, x | 0 <= y < 16 * rows && 0 <= x < 16 * cols
      ensures (y / 16, x / 16) in s.names && canvas[y, x] == texel(s.names[(y / 16, x / 16)], y % 16, x % 16)
    {
      assert 0 <= y / 16 < rows && 0 <= x / 16 < cols;
      assert canvas[y, x] == CanvasAt(s, texel, y, x);
    }
  }

  /**
    The path from the filtered integer image to the quantized image and the
    canvas, for a decimation factor of 2 or more: clip, decimate, quantize.
    None stands for the ValueError the decimation loop raises on an image
    narrower than M; otherwise the two new arrays are those of the run over
    the clipped, decimated image.
   */
  method Process(m: nat, filt: seq<seq<Rgb>>, nRows: nat, nCols: nat, palette: Palette, table: Table, texel: Texture)
    returns (out: Option<(array2<Rgb>, array2<Rgb>)>)
    requires m >= 2 && IsGrid(filt, nRows, nCols) && TableNamesPalette(table, palette)
    ensures out.None? <==> DecimationRaises(m, nRows, nCols)
    ensures out.Some? ==> fresh(out.value.0) && fresh(out.value.1)
    ensures out.Some? ==>
      Renders(out.value.0, out.value.1, Dithered(DecimateOf(m, ClipImage(filt), nRows, nCols), nRows / m, nCols / m, palette, table),
              nRows / m, nCols / m, palette, texel)
    ensures out.Some? ==>
      forall i, j :: 0 <= i < nRows / m && 0 <= j < nCols / m ==> IsPaletteColor(palette, out.value.0[i, j])
  {
    var clipped := ClipImage(filt);
    var dec := Decimate(m, clipped, nRows, nCols);
    if dec.None? {
      return None;
    }
    DecimateOfPicks(m, clipped, nRows, nCols);
    var wools, canvas := Quantize(dec.value, nRows / m, nCols / m, palette, table, texel);
    forall i, j | 0 <= i < nRows / m && 0 <= j < nCols / m
      ensures IsPaletteColor(palette, wools[i, j])
    {
      var name := Dithered(dec.value, nRows / m, nCols / m, palette, table).names[(i, j)];
      assert ColorOf(palette, name).Some? && wools[i, j] == ColorOf(palette, name).value;
    }
    return Some((wools, canvas));
  }
}
