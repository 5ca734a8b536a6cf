/**
  Clipping and decimation of the filtered image.

  The low-pass filter itself is not part of this model: the input here is the
  filtered image after its conversion to integers. It is clipped to 0..255 and
  then every M-th row and, within it, every M-th column is kept; a trailing
  partial block of rows or columns is dropped.
 */
module Decimation {
  import opened Colors

  /** Distance between two integers on the number line. */
  function IntDist(a: int, b: int): int { if a < b then b - a else a - b }

  /** `np.clip(v, 0, 255)`: the point of 0..255 nearest to v. */
  function ClipChannel(v: int): (r: int)
    ensures 0 <= r <= 255
    ensures forall y :: 0 <= y <= 255 ==> IntDist(r, v) <= IntDist(y, v)
  {
    if v < 0 then 0 else if v > 255 then 255 else v
  }

  /** The channel-wise clip of one integer pixel. */
  function ClipRgb(c: Rgb): Rgb {
    Rgb(ClipChannel(c.red), ClipChannel(c.green), ClipChannel(c.blue))
  }

  /** The clip applied to the whole filtered image: same shape, every channel in 0..255. */
  function ClipImage(img: seq<seq<Rgb>>): (r: seq<seq<Rgb>>)
    ensures |r| == |img|
    ensures forall i :: 0 <= i < |img| ==> |r[i]| == |img[i]|
    ensures forall i, j :: 0 <= i < |img| && 0 <= j < |img[i]| ==> InGamut(r[i][j])
    ensures forall i, j :: 0 <= i < |img| && 0 <= j < |img[i]| && InGamut(img[i][j]) ==> r[i][j] == img[i][j]
    ensures forall i, j :: 0 <= i < |img| && 0 <= j < |img[i]| ==>
      r[i][j].red == ClipChannel(img[i][j].red) &&
      r[i][j].green == ClipChannel(img[i][j].green) &&
      r[i][j].blue == ClipChannel(img[i][j].blue)
  {
    seq(|img|, i requires 0 <= i < |img| => seq(|img[i]|, j requires 0 <= j < |img[i]| => ClipRgb(img[i][j])))
  }

  /** Stride d, index i below n / d: the sample d * i lies inside 0..n-1. */
  lemma StrideInBounds(d: nat, i: nat, n: nat)
    requires d > 0 && i < n / d
    ensures d * i < n
  {
    assert n == d * (n / d) + n % d;
    MulMonotone(d, i + 1, n / d);
  }

  /** `downsample(D, x)`: keeps x[0], x[D], x[2D], ..., floor(|x| / D) elements. */
  function Downsample<T>(d: nat, x: seq<T>): (r: seq<T>)
    requires d > 0
    ensures |r| == |x| / d
    ensures forall i :: 0 <= i < |r| ==> d * i < |x| && r[i] == x[d * i]
  {
    seq(|x| / d, i requires 0 <= i < |x| / d => StrideInBounds(d, i, |x|); x[d * i])
  }

  /**
    The decimated image as a value: row r is the downsampled row M * r, so the
    result is floor(rows / M) x floor(cols / M) and pixel (r, c) is input
    pixel (M * r, M * c).
   */
  function DecimateOf(m: nat, img: seq<seq<Rgb>>, nRows: nat, nCols: nat): (dec: seq<seq<Rgb>>)
    requires m > 0 && IsGrid(img, nRows, nCols)
    ensures |dec| == nRows / m
    ensures forall r :: 0 <= r < nRows / m ==> m * r < nRows && dec[r] == Downsample(m, img[m * r])
  {
    StridesInBounds(m, nRows);
    seq(nRows / m, r requires 0 <= r < nRows / m => Downsample(m, img[m * r]))
  }

  lemma StridesInBounds(d: nat, n: nat)
    requires d > 0
    ensures forall i :: 0 <= i < n / d ==> d * i < n
  {
    forall i | 0 <= i < n / d {
      StrideInBounds(d, i, n);
    }
  }

  /** The decimated image is floor(rows / M) x floor(cols / M), and pixel (r, c) is input pixel (M * r, M * c). */
  lemma DecimateOfPicks(m: nat, img: seq<seq<Rgb>>, nRows: nat, nCols: nat)
    requires m > 0 && IsGrid(img, nRows, nCols)
    ensures IsGrid(DecimateOf(m, img, nRows, nCols), nRows / m, nCols / m)
    ensures forall r, c :: 0 <= r < nRows / m && 0 <= c < nCols / m ==>
      m * r < nRows && m * c < nCols && DecimateOf(m, img, nRows, nCols)[r][c] == img[m * r][m * c]
  {
    var dec := DecimateOf(m, img, nRows, nCols);
    forall r | 0 <= r < nRows / m
      ensures |dec[r]| == nCols / m
      ensures forall c :: 0 <= c < nCols / m ==> m * c < nCols && dec[r][c] == img[m * r][m * c]
    {
      var line := img[m * r];
      assert |line| == nCols;
      assert dec[r] == Downsample(m, line);
    }
  }

  /**
    Whether assigning a downsampled row into the preallocated decimated image
    raises. With fewer than M columns, `downsample` returns an empty
    one-dimensional array, which numpy cannot broadcast into a row of shape
    (0, 3); so the first iteration of the loop raises, and it runs at all only
    when there are M or more rows.
   */
  predicate DecimationRaises(m: nat, nRows: nat, nCols: nat)
    requires m > 0
  {
    nRows / m > 0 && nCols / m == 0
  }

  /**
    The decimation loop. None stands for the ValueError of the first row
    assignment on an image narrower than M; otherwise the rows built one by
    one are the decimated image.
   */
  method Decimate(m: nat, img: seq<seq<Rgb>>, nRows: nat, nCols: nat) returns (dec: Option<seq<seq<Rgb>>>)
    requires m > 0
    requires IsGrid(img, nRows, nCols)
    ensures dec.None? <==> DecimationRaises(m, nRows, nCols)
    ensures dec.Some? ==> dec.value == DecimateOf(m, img, nRows, nCols)
  {
    var redNRows := nRows / m;
    var redNCols := nCols / m;
    var rows := [];
    for row := 0 to redNRows
      invariant |rows| == row
      invariant forall r :: 0 <= r < row ==> m * r < nRows && rows[r] == Downsample(m, img[m * r])
      invariant row > 0 ==> redNCols > 0
    {
      StrideInBounds(m, row, nRows);
      var line := Downsample(m, img[m * row]);
      if |line| == 0 {
        // A (0,)-shaped row does not broadcast into the (0, 3) slot.
        return None;
      }
      rows := rows + [line];
    }
    assert rows == DecimateOf(m, img, nRows, nCols);
    return Some(rows);
  }
}
