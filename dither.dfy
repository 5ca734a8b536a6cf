/**
  A value-level model of the serpentine Atkinson quantizer.

  The error accumulator is a rows x cols x 3 grid of exact reals. Pixels are
  visited row by row, even rows left to right and odd rows right to left. Each
  pixel is clipped to 0..255, rounded half to even, looked up in the
  precomputed table, and 1/8 of its error goes to each of six targets placed
  ahead of the scan.

  Targets are resolved the way numpy resolves an index into an axis of length
  n: an index in -n..n-1 is valid, a negative one counting from the end; any
  other index raises IndexError, which the quantizer catches, skipping that
  target. Column offsets -1 and -2 on the first columns therefore wrap to the
  end of the row instead of being skipped.
 */
module Dither {
  import opened Colors
  import ColorPrecomputation

  type Pos = (int, int)

  /** Accumulator values: grid[row][col][channel]. */
  type Grid = seq<seq<seq<real>>>

  ghost predicate Shaped(g: Grid, rows: nat, cols: nat) {
    |g| == rows &&
    (forall i :: 0 <= i < rows ==> |g[i]| == cols) &&
    (forall i, j :: 0 <= i < rows && 0 <= j < cols ==> |g[i][j]| == 3)
  }

  predicate InGrid(p: Pos, rows: nat, cols: nat) {
    0 <= p.0 < rows && 0 <= p.1 < cols
  }

  /** The precomputed table maps every valid index triple to a palette name. */
  ghost predicate TableNamesPalette(table: (int, int, int) -> string, palette: Palette) {
    forall r, g, b :: 0 <= r < 256 && 0 <= g < 256 && 0 <= b < 256 ==>
      ColorOf(palette, table(r, g, b)).Some?
  }

  // ----- Scan order -----

  /** The column visited at step j of row `row`: forward on even rows, backward on odd ones. */
  function ColAt(row: int, j: int, cols: int): int {
    if row % 2 == 0 then j else cols - 1 - j
  }

  function RowOrder(row: nat, cols: nat): (o: seq<Pos>)
    ensures |o| == cols
    ensures forall j :: 0 <= j < cols ==> o[j] == (row, ColAt(row, j, cols))
  {
    seq(cols, j requires 0 <= j < cols => (row, ColAt(row, j, cols)))
  }

  /** The order in which the quantizer visits the pixels of a rows x cols image. */
  function ScanOrder(rows: nat, cols: nat): (o: seq<Pos>)
    ensures |o| == rows * cols
    ensures forall k :: 0 <= k < |o| ==> InGrid(o[k], rows, cols)
  {
    if rows == 0 then []
    else
      assert rows * cols == (rows - 1) * cols + cols;
      ScanOrder(rows - 1, cols) + RowOrder(rows - 1, cols)
  }

  /**
    The scan is serpentine: no pixel is visited twice, rows are visited in
    increasing order, and within a row the column increases on even rows and
    decreases on odd ones.
   */
  lemma {:induction false} ScanOrderIsSerpentine(rows: nat, cols: nat)
    ensures forall k1, k2 :: 0 <= k1 < k2 < rows * cols ==> ScanOrder(rows, cols)[k1] != ScanOrder(rows, cols)[k2]
    ensures forall k1, k2 :: 0 <= k1 <= k2 < rows * cols ==> ScanOrder(rows, cols)[k1].0 <= ScanOrder(rows, cols)[k2].0
    ensures forall k1, k2 :: 0 <= k1 < k2 < rows * cols && ScanOrder(rows, cols)[k1].0 == ScanOrder(rows, cols)[k2].0 ==>
      if ScanOrder(rows, cols)[k1].0 % 2 == 0 then ScanOrder(rows, cols)[k1].1 < ScanOrder(rows, cols)[k2].1
      else ScanOrder(rows, cols)[k1].1 > ScanOrder(rows, cols)[k2].1
  {
    if rows > 0 {
      ScanOrderIsSerpentine(rows - 1, cols);
      var o, prefix, last := ScanOrder(rows, cols), ScanOrder(rows - 1, cols), RowOrder(rows - 1, cols);
      assert o == prefix + last;
      assert forall k :: 0 <= k < |prefix| ==> o[k] == prefix[k] && o[k].0 < rows - 1;
      assert forall k :: |prefix| <= k < |o| ==> o[k] == last[k - |prefix|];
    }
  }

  /** Step row * cols + j of the scan is pixel (row, ColAt(row, j)). */
  lemma {:induction false} ScanOrderAt(rows: nat, cols: nat, row: nat, j: nat)
    requires row < rows && j < cols
    ensures row * cols + j < rows * cols
    ensures ScanOrder(rows, cols)[row * cols + j] == (row, ColAt(row, j, cols))
  {
    var prefix := ScanOrder(rows - 1, cols);
    assert |prefix| == (rows - 1) * cols;
    MulMonotone(cols, row + 1, rows);
    if row < rows - 1 {
      ScanOrderAt(rows - 1, cols, row, j);
    } else {
      assert row * cols + j == |prefix| + j;
    }
  }

  /** Every pixel of the image is visited. */
  lemma ScanOrderVisitsAll(rows: nat, cols: nat)
    ensures forall r, c :: 0 <= r < rows && 0 <= c < cols ==> (r, c) in ScanOrder(rows, cols)
  {
    forall r, c | 0 <= r < rows && 0 <= c < cols
      ensures (r, c) in ScanOrder(rows, cols)
    {
      var j := if r % 2 == 0 then c else cols - 1 - c;
      ScanOrderAt(rows, cols, r, j);
    }
  }

  // ----- Clipping and rounding -----

  /** Distance between two reals on the number line. */
  function RealDist(a: real, b: real): real { if a < b then b - a else a - b }

  /** `np.clip(x, 0, 255)` on one channel: the point of [0, 255] nearest to x. */
  function ClipReal(x: real): (r: real)
    ensures 0.0 <= r <= 255.0
    ensures forall y :: 0.0 <= y <= 255.0 ==> RealDist(r, x) <= RealDist(y, x)
  {
    if x < 0.0 then 0.0 else if x > 255.0 then 255.0 else x
  }

  /**
    Python's `round` on a float: the integer nearest to x, a tie going to the
    even neighbour.
   */
  function RoundHalfEven(x: real): (n: int)
    ensures x - 0.5 <= n as real <= x + 0.5
    ensures (n as real - x == 0.5 || x - n as real == 0.5) ==> n % 2 == 0
  {
    var f := (x + 0.5).Floor;
    if f as real == x + 0.5 && f % 2 != 0 then f - 1 else f
  }

  /** A rounded clipped channel is always a valid table index. */
  lemma RoundedClipIsIndex(x: real)
    ensures 0 <= RoundHalfEven(ClipReal(x)) <= 255
  {
    var c := ClipReal(x);
    var n := RoundHalfEven(c);
    assert -0.5 <= n as real <= 255.5;
  }

  /** The clipped pixel `np.clip(dec_error[row, col], 0, 255)`. */
  function ClipPixel(px: seq<real>): (q: seq<real>)
    requires |px| == 3
    ensures |q| == 3 && forall ch :: 0 <= ch < 3 ==> 0.0 <= q[ch] <= 255.0
  {
    [ClipReal(px[0]), ClipReal(px[1]), ClipReal(px[2])]
  }

  /** The table cell for a pixel, looked up at its clipped and rounded channels. */
  function KeyOf(px: seq<real>, table: (int, int, int) -> string): (k: string)
    requires |px| == 3
    ensures exists r, g, b :: 0 <= r < 256 && 0 <= g < 256 && 0 <= b < 256 && k == table(r, g, b)
  {
    RoundedClipIsIndex(px[0]);
    RoundedClipIsIndex(px[1]);
    RoundedClipIsIndex(px[2]);
    var pixel := ClipPixel(px);
    table(RoundHalfEven(pixel[0]), RoundHalfEven(pixel[1]), RoundHalfEven(pixel[2]))
  }

  /** The looked-up name is a palette key, so `blocks[least_key]` never fails. */
  lemma KeyIsPaletteName(px: seq<real>, table: (int, int, int) -> string, palette: Palette)
    requires |px| == 3 && TableNamesPalette(table, palette)
    ensures ColorOf(palette, KeyOf(px, table)).Some?
  {
    RoundedClipIsIndex(px[0]);
    RoundedClipIsIndex(px[1]);
    RoundedClipIsIndex(px[2]);
  }

  /** The quantization error `pixel - img_wools[row, col]`, per channel. */
  function ErrorOf(pixel: seq<real>, color: Rgb): (e: seq<real>)
    requires |pixel| == 3
    ensures |e| == 3
    ensures e == [0.0, 0.0, 0.0] <==> pixel == [color.red as real, color.green as real, color.blue as real]
    ensures InGamut(color) && (forall ch :: 0 <= ch < 3 ==> 0.0 <= pixel[ch] <= 255.0) ==>
      forall ch :: 0 <= ch < 3 ==> -255.0 <= e[ch] <= 255.0
  {
    [pixel[0] - color.red as real, pixel[1] - color.green as real, pixel[2] - color.blue as real]
  }

  // ----- Diffusion -----

  /** numpy's resolution of index i on an axis of length n; None is an IndexError. */
  function NpIndex(i: int, n: nat): (r: Option<int>)
    ensures r.Some? <==> -(n as int) <= i < n
    ensures r.Some? ==> 0 <= r.value < n && r.value == (if i < 0 then i + n else i)
  {
    if 0 <= i < n then Some(i) else if -(n as int) <= i < 0 then Some(i + n) else None
  }

  function Resolve(t: Pos, rows: nat, cols: nat): (r: Option<Pos>)
    ensures r.Some? ==> InGrid(r.value, rows, cols)
  {
    var i, j := NpIndex(t.0, rows), NpIndex(t.1, cols);
    if i.Some? && j.Some? then Some((i.value, j.value)) else None
  }

  /**
    The alternative reading in which every out-of-range target, negative ones
    included, is skipped. The quantizer does not behave this way; it is kept
    to state exactly where the two differ.
   */
  function SkipResolve(t: Pos, rows: nat, cols: nat): (r: Option<Pos>)
    ensures r.Some? <==> InGrid(t, rows, cols)
    ensures r.Some? ==> r.value == t
  {
    if InGrid(t, rows, cols) then Some(t) else None
  }

  /**
    numpy's resolution and the skip reading disagree exactly on targets with a
    negative index that numpy accepts, i.e. one in -n..-1.
   */
  lemma ResolveDiffersFromSkipOnlyOnWrap(t: Pos, rows: nat, cols: nat)
    ensures Resolve(t, rows, cols) != SkipResolve(t, rows, cols) <==>
      (-(rows as int) <= t.0 < rows && -(cols as int) <= t.1 < cols && (t.0 < 0 || t.1 < 0))
  {
  }

  /**
    The six diffusion targets of pixel (row, col), in the order they are
    written: two ahead in the scan direction, three on the next row, one two
    rows down. Odd rows mirror the column offsets.
   */
  function Targets(row: int, col: int): (ts: seq<Pos>)
    ensures |ts| == 6
    ensures forall i, j :: 0 <= i < j < 6 ==> ts[i] != ts[j]
    ensures forall k :: 0 <= k < 6 ==> row <= ts[k].0 <= row + 2
    ensures forall k :: 0 <= k < 6 && ts[k].0 == row ==> if row % 2 == 0 then ts[k].1 > col else ts[k].1 < col
  {
    if row % 2 == 0 then
      [(row, col + 1), (row, col + 2), (row + 1, col - 1), (row + 1, col), (row + 1, col + 1), (row + 2, col)]
    else
      [(row, col - 1), (row, col - 2), (row + 1, col + 1), (row + 1, col), (row + 1, col - 1), (row + 2, col)]
  }

  /** Add err / 8 to all three channels of cell (i, j). */
  function Bump(g: Grid, rows: nat, cols: nat, i: int, j: int, err: seq<real>): (h: Grid)
    requires Shaped(g, rows, cols) && InGrid((i, j), rows, cols) && |err| == 3
    ensures Shaped(h, rows, cols)
    ensures forall ch :: 0 <= ch < 3 ==> h[i][j][ch] == g[i][j][ch] + err[ch] / 8.0
    ensures forall i', j' :: 0 <= i' < rows && 0 <= j' < cols && (i', j') != (i, j) ==> h[i'][j'] == g[i'][j']
  {
    g[i := g[i][j := [g[i][j][0] + err[0] / 8.0, g[i][j][1] + err[1] / 8.0, g[i][j][2] + err[2] / 8.0]]]
  }

  /** One guarded `+=` block: the whole target is skipped when its index raises. */
  function DiffuseOne(g: Grid, rows: nat, cols: nat, t: Pos, err: seq<real>): (h: Grid)
    requires Shaped(g, rows, cols) && |err| == 3
    ensures Shaped(h, rows, cols)
  {
    var q := Resolve(t, rows, cols);
    if q.Some? then Bump(g, rows, cols, q.value.0, q.value.1, err) else g
  }

  /** The guarded blocks for all the targets, in order. */
  function DiffuseAll(g: Grid, rows: nat, cols: nat, ts: seq<Pos>, err: seq<real>): (h: Grid)
    requires Shaped(g, rows, cols) && |err| == 3
    ensures Shaped(h, rows, cols)
  {
    if |ts| == 0 then g
    else DiffuseOne(DiffuseAll(g, rows, cols, ts[..|ts| - 1], err), rows, cols, ts[|ts| - 1], err)
  }

  /** n * e, as n repeated additions of e. */
  function Times(n: nat, e: real): real {
    if n == 0 then 0.0 else Times(n - 1, e) + e
  }

  /** How many of the targets resolve to the given cell. */
  function Hits(ts: seq<Pos>, rows: nat, cols: nat, cell: Pos): nat {
    if |ts| == 0 then 0
    else Hits(ts[..|ts| - 1], rows, cols, cell) + (if Resolve(ts[|ts| - 1], rows, cols) == Some(cell) then 1 else 0)
  }

  /**
    Diffusion adds err / 8 to a cell once per target that resolves to it and
    changes nothing else; all three channels move together.
   */
  lemma {:induction false} DiffuseAllAdds(g: Grid, rows: nat, cols: nat, ts: seq<Pos>, err: seq<real>)
    requires Shaped(g, rows, cols) && |err| == 3
    ensures forall i, j, ch :: 0 <= i < rows && 0 <= j < cols && 0 <= ch < 3 ==>
      DiffuseAll(g, rows, cols, ts, err)[i][j][ch] == g[i][j][ch] + Times(Hits(ts, rows, cols, (i, j)), err[ch] / 8.0)
  {
    if |ts| > 0 {
      var init, last := ts[..|ts| - 1], ts[|ts| - 1];
      var prev := DiffuseAll(g, rows, cols, init, err);
      var next := DiffuseAll(g, rows, cols, ts, err);
      assert next == DiffuseOne(prev, rows, cols, last, err);
      DiffuseAllAdds(g, rows, cols, init, err);
      DiffuseOneAdds(prev, rows, cols, last, err);
      forall i, j, ch | 0 <= i < rows && 0 <= j < cols && 0 <= ch < 3
        ensures next[i][j][ch] == g[i][j][ch] + Times(Hits(ts, rows, cols, (i, j)), err[ch] / 8.0)
      {
        var h := Hits(init, rows, cols, (i, j));
        var e := err[ch] / 8.0;
        assert prev[i][j][ch] == g[i][j][ch] + Times(h, e);
        if Resolve(last, rows, cols) == Some((i, j)) {
          assert Hits(ts, rows, cols, (i, j)) == h + 1;
        } else {
          assert Hits(ts, rows, cols, (i, j)) == h;
        }
      }
    }
  }

  /** One guarded block adds err / 8 to the cell its target resolves to, if any. */
  lemma DiffuseOneAdds(g: Grid, rows: nat, cols: nat, t: Pos, err: seq<real>)
    requires Shaped(g, rows, cols) && |err| == 3
    ensures forall i, j, ch :: 0 <= i < rows && 0 <= j < cols && 0 <= ch < 3 ==>
      DiffuseOne(g, rows, cols, t, err)[i][j][ch] == g[i][j][ch] + (if Resolve(t, rows, cols) == Some((i, j)) then err[ch] / 8.0 else 0.0)
  {
    var q := Resolve(t, rows, cols);
    if q.Some? {
      var h := Bump(g, rows, cols, q.value.0, q.value.1, err);
      assert DiffuseOne(g, rows, cols, t, err) == h;
      forall i, j, ch | 0 <= i < rows && 0 <= j < cols && 0 <= ch < 3
        ensures h[i][j][ch] == g[i][j][ch] + (if q == Some((i, j)) then err[ch] / 8.0 else 0.0)
      {
        if (i, j) != q.value {
          assert h[i][j] == g[i][j];
        }
      }
    } else {
      assert DiffuseOne(g, rows, cols, t, err) == g;
    }
  }

  /** Targets none of which resolves leave the accumulator as it was. */
  lemma {:induction false} DiffuseAllUnresolvable(g: Grid, rows: nat, cols: nat, ts: seq<Pos>, err: seq<real>)
    requires Shaped(g, rows, cols) && |err| == 3
    requires forall k :: 0 <= k < |ts| ==> Resolve(ts[k], rows, cols).None?
    ensures DiffuseAll(g, rows, cols, ts, err) == g
  {
    if |ts| > 0 {
      DiffuseAllUnresolvable(g, rows, cols, ts[..|ts| - 1], err);
    }
  }

  /** Hits gains one step per target. */
  lemma HitsStep(ts: seq<Pos>, k: nat, rows: nat, cols: nat, cell: Pos)
    requires k < |ts|
    ensures Hits(ts[..k + 1], rows, cols, cell) ==
      Hits(ts[..k], rows, cols, cell) + (if Resolve(ts[k], rows, cols) == Some(cell) then 1 else 0)
  {
    assert ts[..k + 1][..k] == ts[..k];
  }

  /** Hits over any list of six targets, written out. */
  lemma HitsUnrolled(ts: seq<Pos>, rows: nat, cols: nat, cell: Pos)
    requires |ts| == 6
    ensures Hits(ts, rows, cols, cell) ==
      (if Resolve(ts[0], rows, cols) == Some(cell) then 1 else 0) + (if Resolve(ts[1], rows, cols) == Some(cell) then 1 else 0) +
      (if Resolve(ts[2], rows, cols) == Some(cell) then 1 else 0) + (if Resolve(ts[3], rows, cols) == Some(cell) then 1 else 0) +
      (if Resolve(ts[4], rows, cols) == Some(cell) then 1 else 0) + (if Resolve(ts[5], rows, cols) == Some(cell) then 1 else 0)
  {
    HitsStep(ts, 0, rows, cols, cell);
    HitsStep(ts, 1, rows, cols, cell);
    HitsStep(ts, 2, rows, cols, cell);
    HitsStep(ts, 3, rows, cols, cell);
    HitsStep(ts, 4, rows, cols, cell);
    HitsStep(ts, 5, rows, cols, cell);
    assert ts[..0] == [];
    assert ts[..6] == ts;
  }

  /** A cell that exactly one of six targets resolves to receives err / 8 once. */
  lemma SingleHit(g: Grid, rows: nat, cols: nat, ts: seq<Pos>, err: seq<real>, k: nat, cell: Pos)
    requires Shaped(g, rows, cols) && |err| == 3 && |ts| == 6 && k < 6
    requires Resolve(ts[k], rows, cols) == Some(cell)
    requires forall k' :: 0 <= k' < 6 && k' != k ==> Resolve(ts[k'], rows, cols) != Some(cell)
    ensures InGrid(cell, rows, cols)
    ensures forall ch :: 0 <= ch < 3 ==>
      DiffuseAll(g, rows, cols, ts, err)[cell.0][cell.1][ch] == g[cell.0][cell.1][ch] + err[ch] / 8.0
  {
    DiffuseAllAdds(g, rows, cols, ts, err);
    HitsUnrolled(ts, rows, cols, cell);
    assert Hits(ts, rows, cols, cell) == 1;
    forall ch | 0 <= ch < 3
      ensures Times(1, err[ch] / 8.0) == err[ch] / 8.0
    {
    }
  }

  /** A cell that none of six targets resolves to is unchanged. */
  lemma NoHit(g: Grid, rows: nat, cols: nat, ts: seq<Pos>, err: seq<real>, cell: Pos)
    requires Shaped(g, rows, cols) && |err| == 3 && |ts| == 6 && InGrid(cell, rows, cols)
    requires forall k :: 0 <= k < 6 ==> Resolve(ts[k], rows, cols) != Some(cell)
    ensures forall ch :: 0 <= ch < 3 ==>
      DiffuseAll(g, rows, cols, ts, err)[cell.0][cell.1][ch] == g[cell.0][cell.1][ch]
  {
    DiffuseAllAdds(g, rows, cols, ts, err);
    HitsUnrolled(ts, rows, cols, cell);
    assert Hits(ts, rows, cols, cell) == 0;
    forall ch | 0 <= ch < 3
      ensures DiffuseAll(g, rows, cols, ts, err)[cell.0][cell.1][ch] == g[cell.0][cell.1][ch]
    {
      assert Times(0, err[ch] / 8.0) == 0.0;
    }
  }

  /**
    Away from the edges all six targets exist and are distinct, so each of
    them receives exactly err / 8 (6/8 of the error in all) and every other
    cell is unchanged.
   */
  lemma InteriorSpreadsSixEighths(g: Grid, rows: nat, cols: nat, row: nat, col: nat, err: seq<real>)
    requires Shaped(g, rows, cols) && |err| == 3
    requires row + 2 < rows
    requires if row % 2 == 0 then 1 <= col && col + 2 < cols else 2 <= col && col + 1 < cols
    ensures forall k :: 0 <= k < 6 ==> InGrid(Targets(row, col)[k], rows, cols)
    ensures forall k, ch :: 0 <= k < 6 && 0 <= ch < 3 ==>
      var t := Targets(row, col)[k];
      InGrid(t, rows, cols) && DiffuseAll(g, rows, cols, Targets(row, col), err)[t.0][t.1][ch] == g[t.0][t.1][ch] + err[ch] / 8.0
    ensures forall i, j, ch :: 0 <= i < rows && 0 <= j < cols && 0 <= ch < 3 && (i, j) !in Targets(row, col) ==>
      DiffuseAll(g, rows, cols, Targets(row, col), err)[i][j][ch] == g[i][j][ch]
  {
    var ts := Targets(row, col);
    assert forall k :: 0 <= k < 6 ==> Resolve(ts[k], rows, cols) == Some(ts[k]);
    forall k | 0 <= k < 6
      ensures forall ch :: 0 <= ch < 3 ==>
        DiffuseAll(g, rows, cols, ts, err)[ts[k].0][ts[k].1][ch] == g[ts[k].0][ts[k].1][ch] + err[ch] / 8.0
    {
      SingleHit(g, rows, cols, ts, err, k, ts[k]);
    }
    forall i, j | 0 <= i < rows && 0 <= j < cols && (i, j) !in ts
      ensures forall ch :: 0 <= ch < 3 ==> DiffuseAll(g, rows, cols, ts, err)[i][j][ch] == g[i][j][ch]
    {
      assert forall k :: 0 <= k < 6 ==> ts[k] != (i, j);
      NoHit(g, rows, cols, ts, err, (i, j));
    }
  }

  /**
    On an even row at column 0 the target (row + 1, col - 1) is column -1,
    which numpy resolves to the last column: with three or more columns that
    cell gets err / 8 instead of being skipped.
   */
  lemma EvenRowLeftEdgeWraps(g: Grid, rows: nat, cols: nat, row: nat, err: seq<real>)
    requires Shaped(g, rows, cols) && |err| == 3
    requires row % 2 == 0 && row + 1 < rows && cols >= 3
    ensures forall ch :: 0 <= ch < 3 ==>
      DiffuseAll(g, rows, cols, Targets(row, 0), err)[row + 1][cols - 1][ch] == g[row + 1][cols - 1][ch] + err[ch] / 8.0
  {
    var ts := Targets(row, 0);
    var cell := (row + 1, cols - 1);
    assert ts[2] == (row + 1, -1);
    assert Resolve(ts[2], rows, cols) == Some(cell);
    assert forall k :: 0 <= k < 6 && k != 2 ==> ts[k].0 != row + 1 || 0 <= ts[k].1 < cols - 1;
    SingleHit(g, rows, cols, ts, err, 2, cell);
  }

  /** Where the six targets of (row, 0) on an odd row resolve. */
  lemma OddRowLeftEdgeTargets(rows: nat, cols: nat, row: nat)
    requires row % 2 == 1 && row + 1 < rows && cols >= 3
    ensures Resolve(Targets(row, 0)[0], rows, cols) == Some((row, cols - 1))
    ensures Resolve(Targets(row, 0)[1], rows, cols) == Some((row, cols - 2))
    ensures Resolve(Targets(row, 0)[2], rows, cols) == Some((row + 1, 1))
    ensures Resolve(Targets(row, 0)[3], rows, cols) == Some((row + 1, 0))
    ensures Resolve(Targets(row, 0)[4], rows, cols) == Some((row + 1, cols - 1))
    ensures Resolve(Targets(row, 0)[5], rows, cols).Some? ==> Resolve(Targets(row, 0)[5], rows, cols).value.0 == row + 2
  {
    assert Targets(row, 0) == [(row, -1), (row, -2), (row + 1, 1), (row + 1, 0), (row + 1, -1), (row + 2, 0)];
  }

  /**
    On an odd row at column 0 the targets (row, -1), (row, -2) and
    (row + 1, -1) wrap to columns cols - 1, cols - 2 and cols - 1: with three
    or more columns each of those cells gets err / 8.
    Target k (0, 1 or 4) is the only one of the six that reaches its cell.
   */
  lemma OddRowLeftEdgeWraps(g: Grid, rows: nat, cols: nat, row: nat, err: seq<real>, k: nat)
    requires Shaped(g, rows, cols) && |err| == 3
    requires row % 2 == 1 && row + 1 < rows && cols >= 3
    requires k == 0 || k == 1 || k == 4
    ensures var cell := if k == 0 then (row, cols - 1) else if k == 1 then (row, cols - 2) else (row + 1, cols - 1);
      forall ch :: 0 <= ch < 3 ==>
        DiffuseAll(g, rows, cols, Targets(row, 0), err)[cell.0][cell.1][ch] == g[cell.0][cell.1][ch] + err[ch] / 8.0
  {
    var cell := if k == 0 then (row, cols - 1) else if k == 1 then (row, cols - 2) else (row + 1, cols - 1);
    OddRowLeftEdgeTargets(rows, cols, row);
    SingleHit(g, rows, cols, Targets(row, 0), err, k, cell);
  }

  /** On a single-pixel image every target raises, so diffusion changes nothing. */
  lemma SinglePixelDiffusesNothing(g: Grid, err: seq<real>)
    requires Shaped(g, 1, 1) && |err| == 3
    ensures DiffuseAll(g, 1, 1, Targets(0, 0), err) == g
  {
    var ts := Targets(0, 0);
    assert forall k :: 0 <= k < 6 ==> Resolve(ts[k], 1, 1).None?;
    DiffuseAllUnresolvable(g, 1, 1, ts, err);
  }

  // ----- The whole run -----

  /** The accumulator and the names chosen so far (a name per processed pixel). */
  datatype State = State(acc: Grid, names: map<Pos, string>)

  /**
    Process one pixel: clip it, look up its name, record it, and diffuse
    (clipped pixel - palette colour) / 8 to its targets.
   */
  function PixelStep(s: State, p: Pos, rows: nat, cols: nat, palette: Palette, table: (int, int, int) -> string): (t: State)
    requires Shaped(s.acc, rows, cols) && InGrid(p, rows, cols)
    requires TableNamesPalette(table, palette)
    ensures Shaped(t.acc, rows, cols)
    ensures t.names.Keys == s.names.Keys + {p}
    ensures ColorOf(palette, t.names[p]).Some?
    ensures forall q :: q in s.names && q != p ==> t.names[q] == s.names[q]
  {
    KeyIsPaletteName(s.acc[p.0][p.1], table, palette);
    var pixel := ClipPixel(s.acc[p.0][p.1]);
    var key := KeyOf(s.acc[p.0][p.1], table);
    var color := ColorOf(palette, key).value;
    State(DiffuseAll(s.acc, rows, cols, Targets(p.0, p.1), ErrorOf(pixel, color)), s.names[p := key])
  }

  /** Process the pixels of `order` one after another. */
  function Fold(s: State, order: seq<Pos>, rows: nat, cols: nat, palette: Palette, table: (int, int, int) -> string): (t: State)
    requires Shaped(s.acc, rows, cols)
    requires forall k :: 0 <= k < |order| ==> InGrid(order[k], rows, cols)
    requires TableNamesPalette(table, palette)
    ensures Shaped(t.acc, rows, cols)
    ensures forall q :: q in t.names <==> q in s.names || q in order
  {
    if |order| == 0 then s
    else
      var prev := Fold(s, order[..|order| - 1], rows, cols, palette, table);
      assert forall q :: q in order <==> q in order[..|order| - 1] || q == order[|order| - 1];
      PixelStep(prev, order[|order| - 1], rows, cols, palette, table)
  }

  /** Every name recorded by a run is a palette key. */
  lemma {:induction false} FoldNamesArePaletteKeys(s: State, order: seq<Pos>, rows: nat, cols: nat, palette: Palette, table: (int, int, int) -> string)
    requires Shaped(s.acc, rows, cols)
    requires forall k :: 0 <= k < |order| ==> InGrid(order[k], rows, cols)
    requires TableNamesPalette(table, palette)
    requires forall q :: q in s.names ==> ColorOf(palette, s.names[q]).Some?
    ensures forall q :: q in Fold(s, order, rows, cols, palette, table).names ==>
      ColorOf(palette, Fold(s, order, rows, cols, palette, table).names[q]).Some?
  {
    if |order| > 0 {
      FoldNamesArePaletteKeys(s, order[..|order| - 1], rows, cols, palette, table);
    }
  }

  /** The accumulator starts as the decimated image, as reals; no name is chosen yet. */
  function Initial(dec: seq<seq<Rgb>>, rows: nat, cols: nat): (s: State)
    requires IsGrid(dec, rows, cols)
    ensures Shaped(s.acc, rows, cols) && s.names == map[]
    ensures forall i, j :: 0 <= i < rows && 0 <= j < cols ==>
      s.acc[i][j] == [dec[i][j].red as real, dec[i][j].green as real, dec[i][j].blue as real]
  {
    State(seq(rows, i requires 0 <= i < rows =>
            seq(cols, j requires 0 <= j < cols => [dec[i][j].red as real, dec[i][j].green as real, dec[i][j].blue as real])),
          map[])
  }

  /**
    The whole run: the state after every pixel of the image has been visited
    in serpentine order, starting from `dec_error` equal to the decimated
    image. Every pixel then has exactly one chosen name, a palette key, and
    nothing outside the image is named.
   */
  function Dithered(dec: seq<seq<Rgb>>, rows: nat, cols: nat, palette: Palette, table: (int, int, int) -> string): (s: State)
    requires IsGrid(dec, rows, cols) && TableNamesPalette(table, palette)
    ensures forall r, c :: 0 <= r < rows && 0 <= c < cols ==> (r, c) in s.names && ColorOf(palette, s.names[(r, c)]).Some?
    ensures forall q :: q in s.names ==> InGrid(q, rows, cols)
  {
    ScanOrderVisitsAll(rows, cols);
    FoldNamesArePaletteKeys(Initial(dec, rows, cols), ScanOrder(rows, cols), rows, cols, palette, table);
    Fold(Initial(dec, rows, cols), ScanOrder(rows, cols), rows, cols, palette, table)
  }

  /** The table built by the lookup builder satisfies what the quantizer needs of it. */
  lemma BuiltTableNamesPalette(palette: Palette)
    requires |palette| >= 1 && WellFormed(palette)
    ensures TableNamesPalette((r, g, b) => ColorPrecomputation.Nearest(palette, Rgb(r, g, b)), palette)
  {
    forall r, g, b | 0 <= r < 256 && 0 <= g < 256 && 0 <= b < 256
      ensures ColorOf(palette, ColorPrecomputation.Nearest(palette, Rgb(r, g, b))).Some?
    {
      ColorPrecomputation.NearestIsFirstMinimum(palette, Rgb(r, g, b));
    }
  }
}
