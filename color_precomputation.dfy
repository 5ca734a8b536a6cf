/**
  The nearest-palette lookup builder.

  For every integer point of the 256 x 256 x 256 colour cube the builder finds
  the palette entry with the smallest squared Euclidean distance, scanning the
  palette in order and keeping the first minimum it meets. The cube is split
  along the red axis into m shards (m must divide 256); each shard is computed
  on its own and the slabs are stitched into one table by their shard index,
  whatever order they finish in.
 */
module ColorPrecomputation {
  import opened Colors

  /** The name a scan starts from before any palette entry is looked at. */
  const DefaultName: string := "white_wool"

  /** The distance a scan starts from: 256^3, above every in-gamut distance. */
  const Sentinel: int := 256 * 256 * 256

  /** `norm`: the squared norm of a vector, accumulated component by component. */
  method Norm(x: seq<int>) returns (sqSum: int)
    ensures sqSum == SumSquares(x)
    ensures sqSum >= 0
  {
    sqSum := 0;
    for i := 0 to |x|
      invariant sqSum == SumSquares(x[..i])
    {
      assert x[..i + 1][..i] == x[..i];
      sqSum := sqSum + x[i] * x[i];
    }
    assert x[..|x|] == x;
    SumSquaresNonNegative(x);
  }

  /**
    The state (best name, best distance) of the palette scan after the first k
    entries: a later entry replaces the best one only when strictly closer.
   */
  function Scan(p: Palette, point: Rgb, k: nat): (r: (string, int))
    requires k <= |p|
    ensures r.1 <= Sentinel
    ensures forall j :: 0 <= j < k ==> r.1 <= SqDist(point, p[j].color)
    ensures r.0 == DefaultName || exists i :: 0 <= i < k && p[i].name == r.0
  {
    if k == 0 then (DefaultName, Sentinel)
    else
      var best := Scan(p, point, k - 1);
      var dist := SqDist(point, p[k - 1].color);
      if dist < best.1 then (p[k - 1].name, dist) else best
  }

  /** The name the builder stores for one point of the cube. */
  function Nearest(p: Palette, point: Rgb): (name: string)
    ensures name == DefaultName || exists i :: 0 <= i < |p| && p[i].name == name
  {
    Scan(p, point, |p|).0
  }

  /** The scan's initial guess is the first block of the palette, so it is a key of it. */
  lemma DefaultIsFirstBlock()
    ensures |Blocks| == 52 && Blocks[0].name == DefaultName
    ensures ColorOf(Blocks, DefaultName) == Some(Rgb(233, 236, 236))
  {
    assert Blocks[0] == Entry("white_wool", Rgb(233, 236, 236));
  }

  /**
    Entry i is the nearest one to the point, and the first such entry in
    palette order: every earlier entry is strictly farther.
   */
  ghost predicate IsFirstNearest(p: Palette, point: Rgb, i: int) {
    0 <= i < |p| &&
    (forall j :: 0 <= j < |p| ==> SqDist(point, p[i].color) <= SqDist(point, p[j].color)) &&
    (forall j :: 0 <= j < i ==> SqDist(point, p[j].color) > SqDist(point, p[i].color))
  }

  /**
    After k >= 1 in-gamut entries the scan holds the first nearest entry of
    that prefix. The first entry always beats the sentinel, because no
    in-gamut distance reaches 256^3.
   */
  lemma {:induction false} ScanFindsFirstNearest(p: Palette, point: Rgb, k: nat)
    requires 1 <= k <= |p|
    requires InGamut(point) && PaletteInGamut(p)
    ensures exists i :: IsFirstNearest(p[..k], point, i) && Scan(p, point, k) == (p[i].name, SqDist(point, p[i].color))
  {
    var dist := SqDist(point, p[k - 1].color);
    if k == 1 {
      SqDistBound(point, p[0].color);
      assert Scan(p, point, 0) == (DefaultName, Sentinel);
      assert IsFirstNearest(p[..1], point, 0);
    } else {
      ScanFindsFirstNearest(p, point, k - 1);
      var i :| IsFirstNearest(p[..k - 1], point, i) && Scan(p, point, k - 1) == (p[i].name, SqDist(point, p[i].color));
      assert forall j :: 0 <= j < k - 1 ==> p[..k - 1][j] == p[..k][j];
      if dist < SqDist(point, p[i].color) {
        assert IsFirstNearest(p[..k], point, k - 1);
      } else {
        assert IsFirstNearest(p[..k], point, i);
      }
    }
  }

  /**
    Nearest-neighbour correctness with first-minimum tie-breaking: for a
    non-empty in-gamut palette the stored name is that of the first entry at
    minimum squared distance, so it is a palette key, never the default, and,
    names being unique, it maps back to that entry's colour.
   */
  lemma NearestIsFirstMinimum(p: Palette, point: Rgb)
    requires |p| >= 1 && InGamut(point) && WellFormed(p)
    ensures exists i :: IsFirstNearest(p, point, i) && Nearest(p, point) == p[i].name
    ensures ColorOf(p, Nearest(p, point)).Some?
    ensures forall j :: 0 <= j < |p| ==> SqDist(point, ColorOf(p, Nearest(p, point)).value) <= SqDist(point, p[j].color)
  {
    ScanFindsFirstNearest(p, point, |p|);
    assert p[..|p|] == p;
    var i :| IsFirstNearest(p, point, i) && Nearest(p, point) == p[i].name;
    ColorOfEntry(p, i);
  }

  /** An empty palette leaves every cell at the default name. */
  lemma EmptyPaletteGivesDefault(point: Rgb)
    ensures Nearest([], point) == DefaultName
  {
  }

  /**
    Of two equidistant entries the one met first wins, so the answer depends
    on palette order: swapping the entries swaps the answer.
   */
  lemma TieGoesToFirstEntry(e0: Entry, e1: Entry, point: Rgb)
    requires InGamut(point) && InGamut(e0.color) && InGamut(e1.color)
    requires SqDist(point, e0.color) == SqDist(point, e1.color)
    ensures Nearest([e0, e1], point) == e0.name
    ensures Nearest([e1, e0], point) == e1.name
  {
    TwoEntryScan(e0, e1, point);
    TwoEntryScan(e1, e0, point);
  }

  /** The scan over a two-entry palette, for in-gamut colours. */
  lemma TwoEntryScan(e0: Entry, e1: Entry, point: Rgb)
    requires InGamut(point) && InGamut(e0.color) && InGamut(e1.color)
    ensures Nearest([e0, e1], point) == if SqDist(point, e1.color) < SqDist(point, e0.color) then e1.name else e0.name
  {
    var p := [e0, e1];
    SqDistBound(point, e0.color);
    assert Scan(p, point, 0) == (DefaultName, Sentinel);
    assert Scan(p, point, 1) == (e0.name, SqDist(point, e0.color));
  }

  /** Mid-grey (127,127,127) is strictly closer to black than to white: no tie. */
  lemma MidGreyGoesToBlack()
    ensures Nearest([Entry("black", Rgb(0, 0, 0)), Entry("white", Rgb(255, 255, 255))], Rgb(127, 127, 127)) == "black"
  {
    var point := Rgb(127, 127, 127);
    SqDistFormula(point, Rgb(0, 0, 0));
    SqDistFormula(point, Rgb(255, 255, 255));
    TwoEntryScan(Entry("black", Rgb(0, 0, 0)), Entry("white", Rgb(255, 255, 255)), point);
  }

  /** The innermost loop of the shard computation: scan the palette for one point. */
  method NearestBlock(p: Palette, point: Rgb) returns (nearestBlock: string)
    ensures nearestBlock == Nearest(p, point)
  {
    nearestBlock := DefaultName;
    var shortestDist := Sentinel;
    for i := 0 to |p|
      invariant (nearestBlock, shortestDist) == Scan(p, point, i)
    {
      var dist := Norm(Diff(point, p[i].color));
      if dist < shortestDist {
        shortestDist := dist;
        nearestBlock := p[i].name;
      }
    }
  }

  /** Slab n of the table: red offsets 0..div-1 stand for reds n*div .. n*div+div-1. */
  ghost predicate ShardHolds(slab: array3<string>, n: int, div: int, p: Palette)
    reads slab
  {
    slab.Length0 == div && slab.Length1 == 256 && slab.Length2 == 256 &&
    forall red, green, blue :: 0 <= red < div && 0 <= green < 256 && 0 <= blue < 256 ==>
      slab[red, green, blue] == Nearest(p, Rgb(red + div * n, green, blue))
  }

  /**
    `c_array_comp`: the nearest block for every point of shard n of m, i.e.
    every red value n*div .. n*div+div-1 (div = 256/m) with every green and
    blue value 0..255.
   */
  method ShardTable(p: Palette, n: nat, m: nat) returns (slab: array3<string>)
    requires 0 < m
    ensures fresh(slab)
    ensures ShardHolds(slab, n, 256 / m, p)
  {
    var div := 256 / m;
    slab := new string[div, 256, 256];
    for red := 0 to div
      invariant forall r, g, b :: 0 <= r < red && 0 <= g < 256 && 0 <= b < 256 ==>
        slab[r, g, b] == Nearest(p, Rgb(r + div * n, g, b))
    {
      for blue := 0 to 256
        invariant forall r, g, b :: 0 <= r < red && 0 <= g < 256 && 0 <= b < 256 ==>
          slab[r, g, b] == Nearest(p, Rgb(r + div * n, g, b))
        invariant forall g, b :: 0 <= g < 256 && 0 <= b < blue ==>
          slab[red, g, b] == Nearest(p, Rgb(red + div * n, g, b))
      {
        for green := 0 to 256
          invariant forall r, g, b :: 0 <= r < red && 0 <= g < 256 && 0 <= b < 256 ==>
            slab[r, g, b] == Nearest(p, Rgb(r + div * n, g, b))
          invariant forall g, b :: 0 <= g < 256 && 0 <= b < blue ==>
            slab[red, g, b] == Nearest(p, Rgb(red + div * n, g, b))
          invariant forall g :: 0 <= g < green ==>
            slab[red, g, blue] == Nearest(p, Rgb(red + div * n, g, blue))
        {
          var nearestBlock := NearestBlock(p, Rgb(red + div * n, green, blue));
          slab[red, green, blue] := nearestBlock;
        }
      }
    }
  }

  /** Red value r belongs to slab x exactly when r / div == x. */
  lemma ShardOfRed(r: int, div: int, x: int)
    requires div > 0
    ensures (div * x <= r < div * x + div) <==> r / div == x
  {
    var q := r / div;
    assert r == div * q + r % div;
    if x < q {
      assert div * x + div == div * (x + 1) <= div * q by { MulMonotone(div, x + 1, q); }
    } else if x > q {
      assert div * (q + 1) <= div * x by { MulMonotone(div, q + 1, x); }
    }
  }

  /** With m slabs of div rows covering 256 rows, every red value has a slab. */
  lemma RedHasShard(r: int, div: int, m: int)
    requires div > 0 && div * m == 256 && 0 <= r < 256
    ensures 0 <= r / div < m
  {
    ShardOfRed(r, div, r / div);
    if r / div >= m {
      MulMonotone(div, m, r / div);
    }
  }

  /** The index-keyed merge step: copy a slab into rows base .. base + slab rows - 1. */
  method PlaceSlab(table: array3<string>, slab: array3<string>, base: nat)
    requires table != slab
    requires base + slab.Length0 <= table.Length0
    requires slab.Length1 == table.Length1 && slab.Length2 == table.Length2
    modifies table
    ensures forall r, g, b :: 0 <= r < table.Length0 && 0 <= g < table.Length1 && 0 <= b < table.Length2 ==>
      table[r, g, b] == if base <= r < base + slab.Length0 then slab[r - base, g, b] else old(table[r, g, b])
  {
    forall r, g, b | 0 <= r < slab.Length0 && 0 <= g < slab.Length1 && 0 <= b < slab.Length2 {
      table[base + r, g, b] := slab[r, g, b];
    }
  }

  /** Worker completion order: each of the m shard indices arrives exactly once. */
  ghost predicate IsArrivalOrder(arrival: seq<int>, m: int) {
    |arrival| == m &&
    (forall k :: 0 <= k < |arrival| ==> 0 <= arrival[k] < m) &&
    (forall x :: 0 <= x < m ==> x in arrival)
  }

  /**
    The merge loop of `color_comp`: the slabs, taken from the queue in
    completion order, are each written at the rows of their own index, which
    leaves the nearest block name in every cell of the table.
   */
  method MergeSlabs(p: Palette, m: nat, div: nat, arrival: seq<int>, queue: seq<(int, array3<string>)>)
    returns (colorArray: array3<string>)
    requires div * m == 256 && IsArrivalOrder(arrival, m)
    requires |queue| == m
    requires forall j :: 0 <= j < m ==> queue[j].0 == arrival[j] && ShardHolds(queue[j].1, queue[j].0, div, p)
    ensures fresh(colorArray)
    ensures colorArray.Length0 == 256 && colorArray.Length1 == 256 && colorArray.Length2 == 256
    ensures forall r, g, b :: 0 <= r < 256 && 0 <= g < 256 && 0 <= b < 256 ==>
      colorArray[r, g, b] == Nearest(p, Rgb(r, g, b))
  {
    colorArray := new string[256, 256, 256];
    for i := 0 to m
      invariant forall j :: 0 <= j < m ==> queue[j].1 != colorArray && ShardHolds(queue[j].1, queue[j].0, div, p)
      invariant forall r, g, b :: 0 <= r < 256 && 0 <= g < 256 && 0 <= b < 256 && r / div in arrival[..i] ==>
        colorArray[r, g, b] == Nearest(p, Rgb(r, g, b))
    {
      var (x, partialArray) := queue[i];
      assert div * x + div <= 256 by { MulMonotone(div, x + 1, m); }
      PlaceSlab(colorArray, partialArray, div * x);
      forall r | 0 <= r < 256 {
        ShardOfRed(r, div, x);
      }
      assert arrival[..i + 1] == arrival[..i] + [x];
    }
    forall r | 0 <= r < 256 {
      RedHasShard(r, div, m);
    }
    assert arrival[..m] == arrival;
  }

  /**
    `color_comp`: when m does not divide 256 nothing is built. Otherwise the m
    shards are computed, their tagged slabs are queued in completion order
    `arrival`, and each slab is written at rows div*x .. div*x+div-1 of its own
    index x. The table holds Nearest at every cell, which does not depend on m
    or on the completion order.
   */
  method ColorComp(p: Palette, m: nat, arrival: seq<int>) returns (table: Option<array3<string>>)
    requires 0 < m
    requires IsArrivalOrder(arrival, m)
    ensures table.Some? <==> 256 % m == 0
    ensures table.Some? ==> fresh(table.value)
    ensures table.Some? ==>
      table.value.Length0 == 256 && table.value.Length1 == 256 && table.value.Length2 == 256 &&
      forall r, g, b :: 0 <= r < 256 && 0 <= g < 256 && 0 <= b < 256 ==>
        table.value[r, g, b] == Nearest(p, Rgb(r, g, b))
  {
    if 256 % m != 0 {
      return None;
    }
    var div := 256 / m;
    assert div * m == 256;

    // The workers, run one after another in the order they finish.
    var queue: seq<(int, array3<string>)> := [];
    for k := 0 to m
      invariant |queue| == k
      invariant forall j :: 0 <= j < k ==> queue[j].0 == arrival[j] && ShardHolds(queue[j].1, queue[j].0, div, p)
    {
      var slab := ShardTable(p, arrival[k], m);
      queue := queue + [(arrival[k], slab)];
    }

    var colorArray := MergeSlabs(p, m, div, arrival, queue);
    return Some(colorArray);
  }

  /**
    The merged table built with m workers and the one built with a single
    worker (m = 1) agree cell for cell, and both name the nearest block.
   */
  method ShardCountIrrelevant(p: Palette, m: nat, arrival: seq<int>) returns (sharded: array3<string>, single: array3<string>)
    requires 0 < m && 256 % m == 0
    requires IsArrivalOrder(arrival, m)
    ensures sharded.Length0 == single.Length0 == 256
    ensures sharded.Length1 == single.Length1 == 256
    ensures sharded.Length2 == single.Length2 == 256
    ensures forall r, g, b :: 0 <= r < 256 && 0 <= g < 256 && 0 <= b < 256 ==>
      sharded[r, g, b] == single[r, g, b] == Nearest(p, Rgb(r, g, b))
  {
    var t := ColorComp(p, m, arrival);
    assert 0 in [0];
    var t1 := ColorComp(p, 1, [0]);
    sharded, single := t.value, t1.value;
  }
}
