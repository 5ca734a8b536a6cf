# Minecraft block quantizer — a Dafny model

This project models the two computational cores of the JPG-to-Minecraft-Textures tool.

1. **The nearest-palette lookup builder** (`color_precomputation.py`). For every integer point of the 256 × 256 × 256 RGB cube, it stores the name of the palette block at the smallest squared Euclidean distance.
   - It scans the palette in dictionary order and keeps the first minimum it meets.
   - The cube is split along the red axis into `m` shards, where `m` divides 256.
   - Each shard is computed on its own. The merge writes each slab at the rows given by its shard index, whatever order the slabs arrive in.
2. **The image pipeline** (`img_to_mc.py`), in order:
   - the clip of the filtered image to 0..255;
   - decimation by an integer factor `M`;
   - the serpentine Atkinson quantizer, which diffuses 1/8 of the quantization error to each of six neighbours ahead of the scan;
   - placement of each pixel's 16 × 16 block texture into the output canvas.

Modules:

- `Colors` (colors.dfy):
  - colours and palettes;
  - dictionary lookup;
  - squared distance;
  - the concrete 52-entry block palette.
- `ColorPrecomputation` (color_precomputation.dfy):
  - `norm`;
  - the per-point palette scan;
  - the shard computation `c_array_comp`;
  - the slab merge `color_comp`.

  `norm` and the per-point scan are methods with loops over values. The shard computation and the merge are imperative over `array3<string>`. `norm` is specified by `SumSquares`; the per-point scan, the shard computation and the merge by the pure scan function `Scan`/`Nearest`.
- `Decimation` (decimation.dfy): `np.clip`, `downsample` and the decimation loop.
- `Dither` (dither.dfy): the value-level run of the quantizer:
  - the scan order;
  - round-half-to-even of the clipped pixel;
  - numpy's resolution of a target index;
  - the six targets;
  - the diffusion;
  - the whole run as a left fold over the scan order.
- `Quantizer` (quantizer.dfy): the quantizer as it runs. The accumulator (`array3<real>`), the quantized image and the canvas (`array2<Rgb>`) are updated in place.
  - Every pixel step is proved to keep the arrays equal to the state of the value-level run.
  - `Quantize` is proved to leave the arrays that the run over the whole serpentine order describes.

Index semantics follow numpy, as the code does:

- A row or column index past the end raises `IndexError`. The surrounding `try` skips the whole three-channel block, and no channel is written.
- A negative column index i with −cols ≤ i does not raise. It wraps to column cols + i, so −1 is the last column and, on an image of two or more columns, −2 the second-to-last. On a one-column image −2 raises like any other out-of-range index.

So on the first columns of a row, error flows to the far end of the same row or of the next row (img_to_mc.py:190, 242, 248, 266). Skipping every out-of-range target, negative ones included, is not what the code does. That reading is kept as `Dither.SkipResolve`, and `Dither.ResolveDiffersFromSkipOnlyOnWrap` states where the two differ.

The accumulator holds exact reals: every update is `+`, `−` or `× 1/8`. Python's `round` on the clipped pixel is modelled as round-half-to-even.

The lookup table and the texture fetch are parameters:

- `table(r, g, b)` is the table's cell.
- `texel(name, y, x)` is pixel (y, x) of the named block's texture.

`Dither.BuiltTableNamesPalette` connects the two halves. The table the builder produces satisfies what the quantizer needs, namely that every cell names a palette entry.

## Model

| member | source | states |
|---|---|---|
| Colors.ColorOf | img_to_mc.py:171 | `blocks[key]`: Some exactly when some entry has that name, and then the value is that entry's colour |
| Colors.ColorOfEntry | color_precomputation.py:33-86 | with unique keys, looking up entry i's name yields entry i's colour |
| Colors.SumSquaresNonNegative | color_precomputation.py:20-25 | a sum of squares is never negative |
| Colors.SqDistFormula | color_precomputation.py:103 | the distance used is (Δr)² + (Δg)² + (Δb)² |
| Colors.BlocksInGamut | color_precomputation.py:33-86 | the block dictionary has 52 entries and every colour in it is an 8-bit colour, each channel in 0..255 |
| Colors.SqDistBound | color_precomputation.py:100 | two in-gamut colours are at squared distance at most 3·255², below the sentinel 256³ |
| ColorPrecomputation.Norm | color_precomputation.py:20-25 | the loop's result is the sum of the squared components, hence ≥ 0 |
| ColorPrecomputation.DefaultIsFirstBlock | color_precomputation.py:33-99 | the scan's initial guess `white_wool` is the first key of the block dictionary, with colour (233, 236, 236) |
| ColorPrecomputation.Nearest | color_precomputation.py:99-108 | the name stored for a point is the default `white_wool` or the name of some palette entry; which entry is fixed by `NearestIsFirstMinimum` |
| ColorPrecomputation.Scan | color_precomputation.py:99-106 | the best distance after k entries is at most the sentinel and at most every distance scanned so far; the best name is the default or one of the first k names |
| ColorPrecomputation.ScanFindsFirstNearest | color_precomputation.py:99-106 | for a non-empty in-gamut prefix, the scan holds the name and distance of the first entry whose distance is minimal; every earlier entry is strictly farther |
| ColorPrecomputation.NearestIsFirstMinimum | color_precomputation.py:96-108 | for a non-empty palette of unique keys, the stored name is a palette key; its colour is no farther than any entry's; it is the first entry at that distance |
| ColorPrecomputation.EmptyPaletteGivesDefault | color_precomputation.py:99 | with no palette entries, the default `white_wool` is stored |
| ColorPrecomputation.TieGoesToFirstEntry | color_precomputation.py:104 | of two entries at equal distance, whichever comes first wins, in both orders |
| ColorPrecomputation.TwoEntryScan | color_precomputation.py:101-106 | with two entries, the second replaces the first exactly when strictly closer |
| ColorPrecomputation.MidGreyGoesToBlack | color_precomputation.py:101-106 | a concrete instance: (127,127,127) between black and white goes to black |
| ColorPrecomputation.NearestBlock | color_precomputation.py:99-106 | the imperative scan over the palette (strict `<` replacement) stores the same name as the specification `Nearest` |
| ColorPrecomputation.ShardTable | color_precomputation.py:90-109 | slab n is a new array of div = 256/m rows × 256 × 256, and cell (red, green, blue) holds the nearest block to (red + div·n, green, blue) |
| ColorPrecomputation.ShardOfRed | color_precomputation.py:136 | red value r lies in rows div·x .. div·x+div−1 exactly when r / div = x |
| ColorPrecomputation.RedHasShard | color_precomputation.py:134-136 | with m slabs of div rows covering 256, every red value lies in one of the m slabs |
| ColorPrecomputation.PlaceSlab | color_precomputation.py:136 | the slice assignment copies the slab into rows base .. base+div−1 and leaves every other cell as it was |
| ColorPrecomputation.MergeSlabs | color_precomputation.py:127-138 | taking the m slabs from the queue in completion order and writing each at the rows of its own index gives a new 256³ table whose every cell is the nearest block to that cell's colour |
| ColorPrecomputation.ColorComp | color_precomputation.py:111-138 | no table when 256 % m ≠ 0; otherwise, for every arrival order of the slabs, a new 256³ table whose every cell is the nearest block to that cell's colour |
| ColorPrecomputation.ShardCountIrrelevant | color_precomputation.py:111-138 | the table built with divisor m and the table built with m = 1 agree cell for cell, and both give the nearest block at every cell |
| Decimation.ClipChannel | img_to_mc.py:113 | the clipped value lies in 0..255 and is the point of 0..255 nearest to the input |
| Decimation.ClipImage | img_to_mc.py:113 | the clip keeps the image's shape, and every channel of every pixel is `ClipChannel` of the input channel: in 0..255, nearest to the input, unchanged when already in range |
| Decimation.Downsample | img_to_mc.py:29-32 | the result has ⌊len/D⌋ elements and element i is x[D·i] |
| Decimation.DecimateOf | img_to_mc.py:116-125 | the decimated image has ⌊rows/M⌋ rows, and row r is the downsampled input row M·r |
| Decimation.DecimateOfPicks | img_to_mc.py:116-125 | the decimated image is ⌊rows/M⌋ × ⌊cols/M⌋, and pixel (r, c) is input pixel (M·r, M·c) |
| Decimation.Decimate | img_to_mc.py:116-125 | the loop fails (the ValueError of the row assignment) exactly when there are at least M rows but fewer than M columns; otherwise it builds the decimated image `DecimateOf` |
| Dither.RowOrder | img_to_mc.py:152-217 | step j of a row visits column j on even rows and column cols−1−j on odd rows |
| Dither.ScanOrder | img_to_mc.py:151-217 | the order has rows·cols entries, all inside the image |
| Dither.ScanOrderIsSerpentine | img_to_mc.py:151-217 | no pixel is visited twice; rows are visited in increasing order; within a row the column increases on even rows and decreases on odd rows |
| Dither.ScanOrderAt | img_to_mc.py:151-217 | step row·cols + j of the scan is (row, ColAt(row, j)) |
| Dither.ScanOrderVisitsAll | img_to_mc.py:151-217 | every pixel of the image is visited |
| Dither.ClipReal | img_to_mc.py:154 | the per-channel clip of the accumulator lies in [0, 255] and is the nearest point of [0, 255] |
| Dither.RoundHalfEven | img_to_mc.py:155-157 | `round` gives an integer within 1/2 of x, and an exact tie goes to the even neighbour |
| Dither.RoundedClipIsIndex | img_to_mc.py:154-158 | a clipped and rounded channel is a valid table index 0..255 |
| Dither.KeyOf | img_to_mc.py:154-158 | the looked-up `least_key` is the table's entry at some index (r, g, b) with every channel in 0..255, so the lookup never goes out of range |
| Dither.ErrorOf | img_to_mc.py:173 | the quantization error is zero exactly when the pixel equals the chosen colour, and for a pixel clipped to [0, 255] and an 8-bit colour every channel of the error lies in [−255, 255] |
| Dither.ClipPixel | img_to_mc.py:154 | every channel of the clipped pixel lies in [0, 255] |
| Dither.KeyIsPaletteName | img_to_mc.py:158-171 | when the table names palette entries, the looked-up `least_key` is a palette key, so `blocks[least_key]` does not fail |
| Dither.Targets | img_to_mc.py:177-276 | the six targets of a pixel are distinct, lie in its row or the two rows below, and those in its own row lie ahead in the scan direction: to the right on even rows, to the left on odd rows |
| Dither.NpIndex | img_to_mc.py:177-212 | numpy accepts index i on an axis of length n exactly when −n ≤ i < n, and then resolves it to i, or to i + n when negative |
| Dither.Resolve | img_to_mc.py:177-276 | a resolved target lies inside the image |
| Dither.ResolveDiffersFromSkipOnlyOnWrap | img_to_mc.py:189-270 | numpy's resolution and the skip reading differ exactly on targets with an accepted negative index |
| Dither.Bump | img_to_mc.py:178-180 | the three channels of the target cell gain err/8 and every other cell is unchanged |
| Dither.DiffuseAllAdds | img_to_mc.py:177-276 | after the six guarded blocks, every cell has gained err/8 per target resolving to it, in all three channels, and nothing else |
| Dither.DiffuseOneAdds | img_to_mc.py:177-182 | one guarded block adds err/8 to the cell its target resolves to and nothing to any other cell; a raising target changes nothing |
| Dither.DiffuseAllUnresolvable | img_to_mc.py:181-182 | targets that all raise leave the accumulator unchanged |
| Dither.SingleHit | img_to_mc.py:177-276 | a cell that exactly one of the six targets resolves to gains err/8 once |
| Dither.NoHit | img_to_mc.py:177-276 | a cell that none of the six targets resolves to is unchanged |
| Dither.InteriorSpreadsSixEighths | img_to_mc.py:177-276 | away from the edges, all six targets of either row parity are in the image; each gets exactly err/8; no other cell changes |
| Dither.EvenRowLeftEdgeWraps | img_to_mc.py:190 | at column 0 of an even row, (row+1, −1) wraps: cell (row+1, cols−1) gets err/8 |
| Dither.OddRowLeftEdgeWraps | img_to_mc.py:241-270 | at column 0 of an odd row, targets 0, 1 and 4, namely (row, −1), (row, −2) and (row+1, −1), wrap: for each k, its cell (row, cols−1), (row, cols−2) or (row+1, cols−1) gets err/8 |
| Dither.SinglePixelDiffusesNothing | img_to_mc.py:177-212 | on a 1 × 1 image every target raises and the accumulator is unchanged |
| Dither.PixelStep | img_to_mc.py:154-276 | one pixel step records a palette name for that pixel and changes no other pixel's name |
| Dither.Fold | img_to_mc.py:151-283 | after a run, exactly the processed pixels (and those named before) have a name |
| Dither.FoldNamesArePaletteKeys | img_to_mc.py:158-235 | every name recorded during a run is a palette key |
| Dither.Initial | img_to_mc.py:143-145 | the accumulator starts as the decimated image converted to floats |
| Dither.Dithered | img_to_mc.py:151-283 | the whole serpentine run from `dec_error` = the decimated image: afterwards every pixel of the image has a name, it is a palette key, and nothing outside the image is named |
| Dither.BuiltTableNamesPalette | color_precomputation.py:96-108 | the builder's table names a palette entry at every valid index, as the quantizer's lookup needs |
| Quantizer.DiffuseTo | img_to_mc.py:177-182 | one `try` block: when the target resolves, the three channels of its cell each gain err/8; when it raises, nothing is written |
| Quantizer.PlaceTile | img_to_mc.py:168 | the block [16·row, 16·row+16) × [16·col, 16·col+16) of the canvas receives the texture; every other canvas pixel is unchanged |
| Quantizer.DiffuseError | img_to_mc.py:177-276 | the six blocks, even-row and odd-row offsets as written, leave the accumulator equal to the diffusion over Targets(row, col) |
| Quantizer.DiffuseAllOfSix | img_to_mc.py:177-212 | the diffusion over six targets is the six single blocks in order |
| Quantizer.ProcessPixel | img_to_mc.py:154-276 | one loop body keeps the accumulator, quantized image and canvas equal to one more step of the value-level run |
| Quantizer.ScanEvenRow | img_to_mc.py:152-215 | the left-to-right loop over an even row extends the run by that row's pixels in increasing column order |
| Quantizer.ScanOddRow | img_to_mc.py:216-283 | the right-to-left loop over an odd row extends the run by that row's pixels in decreasing column order |
| Quantizer.ScanRow | img_to_mc.py:151-217 | each row iteration extends the run from the first `row` rows of the serpentine order to the first `row + 1` |
| Quantizer.RowStep | img_to_mc.py:151-283 | processing the next pixel of a row is one more step of the run |
| Quantizer.InitialAccumulator | img_to_mc.py:143-145 | the new accumulator holds the decimated image's channels as reals |
| Quantizer.Quantize | img_to_mc.py:134-283 | two new arrays: `img_wools` is rows × cols and holds at every pixel the palette colour of its chosen block; `img_blocks` is 16·rows × 16·cols and holds at every tile that block's texture; the choices are those of the serpentine run `Dithered` |
| Quantizer.MirrorsDithered | img_to_mc.py:151-283 | arrays that mirror the finished run hold the chosen colour and texture for every pixel |
| Quantizer.Process | img_to_mc.py:113-283 | clip, decimate and quantize: no output exactly when the decimation loop raises; otherwise two new arrays holding the colours and textures of the serpentine run over the clipped, decimated image, so every quantized pixel is a palette colour |

## Left out

- Argument parsing, interactive prompts and `main` (img_to_mc.py:35-62): command-line and user I/O.
- Reading and writing files: `plt.imread`, `np.load`, `PIL.Image.open`, `plt.imsave`, `np.save`. The texture fetch is the parameter `texel`, and the lookup table is the parameter `table`.
- The Remez low-pass filter, `signal.convolve` and the float-to-int conversion of the filtered channels (img_to_mc.py:69-111): floating-point calls into scipy. The model starts from the filtered integer image.
- The `M == 1` branch (img_to_mc.py:127-131), which copies the raw decoded image: its values depend on the image decoder's dtype and range.
  - Quantizer.Process: requires M ≥ 2 for this reason.
  - The quantizer itself (`Quantize`) takes any decimated integer image.
- Decimation.Decimate and Decimation.Downsample: require a factor ≥ 1.
  - A factor of 0 raises `ZeroDivisionError` in the source.
  - A negative factor raises before decimation: its band edges [0, 1/M, 1/M + 1/(5M), 1] (img_to_mc.py:82) do not rise from 0, and `signal.remez` at img_to_mc.py:86 rejects them. The filter stage is not part of this model.
- Decimation.Decimate: the ValueError at img_to_mc.py:125 is modelled only as `None`. With at least M rows but fewer than M columns, `downsample` returns an empty one-dimensional array that numpy cannot broadcast into a row of shape (0, 3). The exception and its message are not modelled.
- The `multiprocessing` workers, the manager queue and `join` (color_precomputation.py:118-126): the shards run one after another. Completion order is the parameter `arrival`, a permutation of 0..m−1. A worker that fails is not modelled.
- ColorPrecomputation.ColorComp: requires m > 0. For m = 0 the source raises `ZeroDivisionError` at `256 % m`, and negative m is not meaningful for a worker count.
- The second quantized copy `img_wools2` (img_to_mc.py:135, 172, 236): it holds the same palette colours as `img_wools`, as `uint8`.
- Progress printing (img_to_mc.py:213-215, 277-283).
- IEEE floating-point effects in `dec_error`: the model uses exact reals, so rounding drift of the float accumulator is not captured.
- The canvas's `uint8` type: canvas pixels are whatever `texel` returns. Textures are taken to be 16 × 16. numpy would broadcast a 1 × 1, 1 × 16 or 16 × 1 texture across the block, and raise on other shapes; neither is modelled.
- The `blocks` dictionary (color_precomputation.py:33-86) is reproduced as `Colors.Blocks`. `Colors.BlocksInGamut` proves its colours are in 0..255. That its 52 names are distinct is not proved: they are dictionary keys, and the 1326 string comparisons are beyond what the verifier does here. So the general theorems take a palette with unique names as a precondition.
- The `KeyError` of `blocks[least_key]` (img_to_mc.py:171) is ruled out by the precondition `TableNamesPalette` of the quantizer. `Dither.BuiltTableNamesPalette` shows that the table the builder produces meets it for any non-empty palette with unique names and in-gamut colours. A table that names something else is not modelled.
