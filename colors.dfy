/**
  Colours and palettes shared by the lookup builder and the quantizer.

  A palette is the ordered list of (block name, representative colour) pairs;
  its order is the insertion order of the dictionary it comes from, which is
  also the order in which the builder scans it.
 */
module Colors {

  datatype Option<T> = None | Some(value: T)

  /** One integer colour, channels in the order red, green, blue. */
  datatype Rgb = Rgb(red: int, green: int, blue: int)

  datatype Entry = Entry(name: string, color: Rgb)

  type Palette = seq<Entry>

  /** A rectangular grid of the given size, row-major. */
  ghost predicate IsGrid<T>(g: seq<seq<T>>, rows: nat, cols: nat) {
    |g| == rows && forall i :: 0 <= i < rows ==> |g[i]| == cols
  }

  predicate InGamut(c: Rgb) {
    0 <= c.red <= 255 && 0 <= c.green <= 255 && 0 <= c.blue <= 255
  }

  /** Names are unique (they are dictionary keys). */
  ghost predicate UniqueNames(p: Palette) {
    forall i, j :: 0 <= i < j < |p| ==> p[i].name != p[j].name
  }

  ghost predicate PaletteInGamut(p: Palette) {
    forall i :: 0 <= i < |p| ==> InGamut(p[i].color)
  }

  ghost predicate WellFormed(p: Palette) {
    UniqueNames(p) && PaletteInGamut(p)
  }

  /** Dictionary lookup `blocks[name]`: None stands for the KeyError. */
  function ColorOf(p: Palette, name: string): (r: Option<Rgb>)
    ensures r.Some? <==> exists i :: 0 <= i < |p| && p[i].name == name
    ensures r.Some? ==> exists i :: 0 <= i < |p| && p[i].name == name && p[i].color == r.value
  {
    if |p| == 0 then None
    else if p[0].name == name then Some(p[0].color)
    else
      var r := ColorOf(p[1..], name);
      assert forall i :: 1 <= i < |p| ==> p[i] == p[1..][i - 1];
      assert r.Some? ==> exists i :: 0 <= i < |p| - 1 && p[1..][i].name == name && p[1..][i].color == r.value;
      r
  }

  /** With unique names, looking up the name of entry i gives entry i's colour. */
  lemma {:induction false} ColorOfEntry(p: Palette, i: nat)
    requires UniqueNames(p) && i < |p|
    ensures ColorOf(p, p[i].name) == Some(p[i].color)
  {
    if i > 0 {
      assert p[0].name != p[i].name;
      assert p[1..][i - 1] == p[i];
      ColorOfEntry(p[1..], i - 1);
    }
  }

  /** Sum of the squares of the components, accumulated left to right. */
  function SumSquares(x: seq<int>): int
  {
    if |x| == 0 then 0 else SumSquares(x[..|x| - 1]) + x[|x| - 1] * x[|x| - 1]
  }

  lemma {:induction false} SumSquaresNonNegative(x: seq<int>)
    ensures SumSquares(x) >= 0
  {
    if |x| > 0 {
      SumSquaresNonNegative(x[..|x| - 1]);
    }
  }

  /** Component-wise difference, the vector `point - blocks[key]`. */
  function Diff(a: Rgb, b: Rgb): (d: seq<int>)
    ensures |d| == 3
  {
    [a.red - b.red, a.green - b.green, a.blue - b.blue]
  }

  /** Squared Euclidean distance between two colours. */
  function SqDist(a: Rgb, b: Rgb): int
  {
    SumSquares(Diff(a, b))
  }

  lemma SumSquaresOfThree(x: seq<int>)
    requires |x| == 3
    ensures SumSquares(x) == x[0] * x[0] + x[1] * x[1] + x[2] * x[2]
  {
    assert x[..2][..1][..0] == [];
    assert SumSquares(x[..2][..1]) == x[0] * x[0];
    assert SumSquares(x[..2]) == x[0] * x[0] + x[1] * x[1];
  }

  /** The squared distance written out channel by channel. */
  lemma SqDistFormula(a: Rgb, b: Rgb)
    ensures SqDist(a, b) == (a.red - b.red) * (a.red - b.red) + (a.green - b.green) * (a.green - b.green) + (a.blue - b.blue) * (a.blue - b.blue)
  {
    SumSquaresOfThree(Diff(a, b));
  }

  lemma MulMonotone(d: int, a: int, b: int)
    requires d > 0 && a <= b
    ensures d * a <= d * b
  {
    assert d * b - d * a == d * (b - a);
  }

  lemma SquareBound(x: int)
    requires -255 <= x <= 255
    ensures 0 <= x * x <= 255 * 255
  {
    var y := if x < 0 then -x else x;
    assert x * x == y * y;
    if y > 0 {
      MulMonotone(y, 0, y);
      MulMonotone(y, y, 255);
      MulMonotone(255, y, 255);
    }
  }

  /** Two in-gamut colours are at squared distance at most 3 * 255^2. */
  lemma SqDistBound(a: Rgb, b: Rgb)
    requires InGamut(a) && InGamut(b)
    ensures 0 <= SqDist(a, b) <= 3 * 255 * 255
  {
    var d := Diff(a, b);
    SumSquaresOfThree(d);
    SquareBound(d[0]);
    SquareBound(d[1]);
    SquareBound(d[2]);
  }

  /**
    The concrete palette of Minecraft blocks, in the dictionary's insertion
    order. It is written as two runs of 26 entries, each short enough for the
    verifier to look its entries up.
   */
  const Blocks: Palette := FirstBlocks + LastBlocks

  const FirstBlocks: Palette := [
    Entry("white_wool", Rgb(233, 236, 236)),
    Entry("orange_wool", Rgb(240, 118, 19)),
    Entry("magenta_wool", Rgb(189, 68, 179)),
    Entry("light_blue_wool", Rgb(58, 175, 217)),
    Entry("yellow_wool", Rgb(248, 198, 39)),
    Entry("lime_wool", Rgb(112, 185, 25)),
    Entry("pink_wool", Rgb(237, 141, 172)),
    Entry("gray_wool", Rgb(62, 68, 71)),
    Entry("light_gray_wool", Rgb(142, 142, 134)),
    Entry("cyan_wool", Rgb(21, 137, 145)),
    Entry("purple_wool", Rgb(121, 42, 172)),
    Entry("blue_wool", Rgb(53, 57, 157)),
    Entry("brown_wool", Rgb(114, 71, 40)),
    Entry("green_wool", Rgb(84, 109, 27)),
    Entry("red_wool", Rgb(161, 39, 34)),
    Entry("black_wool", Rgb(20, 21, 25)),
    Entry("bricks", Rgb(151, 98, 83)),
    Entry("light_blue_concrete", Rgb(36, 137, 199)),
    Entry("blue_concrete", Rgb(45, 47, 143)),
    Entry("lapis_block", Rgb(37, 67, 140)),
    Entry("pink_concrete", Rgb(214, 101, 143)),
    Entry("gray_concrete", Rgb(55, 58, 62)),
    Entry("black_concrete", Rgb(8, 10, 15)),
    Entry("cyan_concrete", Rgb(21, 119, 136)),
    Entry("white_concrete", Rgb(207, 213, 214)),
    Entry("orange_concrete", Rgb(224, 97, 1))
  ]

  const LastBlocks: Palette := [
    Entry("red_concrete", Rgb(142, 33, 33)),
    Entry("yellow_concrete", Rgb(241, 174, 21)),
    Entry("red_terracotta", Rgb(143, 61, 47)),
    Entry("red_sand", Rgb(191, 103, 33)),
    Entry("warped_planks", Rgb(43, 105, 99)),
    Entry("green_concrete", Rgb(73, 91, 36)),
    Entry("end_stone", Rgb(220, 223, 158)),
    Entry("oak_planks", Rgb(162, 131, 79)),
    Entry("spruce_planks", Rgb(115, 85, 49)),
    Entry("birch_planks", Rgb(192, 175, 121)),
    Entry("acacia_planks", Rgb(168, 90, 50)),
    Entry("jungle_planks", Rgb(160, 151, 81)),
    Entry("redstone_block", Rgb(176, 25, 5)),
    Entry("sand", Rgb(219, 207, 163)),
    Entry("iron_block", Rgb(220, 220, 220)),
    Entry("bedrock", Rgb(85, 85, 85)),
    Entry("diamond_block", Rgb(98, 237, 228)),
    Entry("black_terracotta", Rgb(37, 23, 16)),
    Entry("chiseled_stone_bricks", Rgb(120, 119, 120)),
    Entry("magenta_concrete", Rgb(169, 48, 159)),
    Entry("sponge", Rgb(196, 192, 75)),
    Entry("sandstone", Rgb(216, 203, 156)),
    Entry("dirt", Rgb(134, 96, 67)),
    Entry("gold_block", Rgb(246, 208, 61)),
    Entry("orange_terracotta", Rgb(162, 84, 38)),
    Entry("blue_terracotta", Rgb(74, 60, 91))
  ]

  lemma FirstBlocksInGamut()
    ensures PaletteInGamut(FirstBlocks)
  {
  }

  lemma LastBlocksInGamut()
    ensures PaletteInGamut(LastBlocks)
  {
  }

  /** Every colour of the block palette is a valid 8-bit colour. */
  lemma BlocksInGamut()
    ensures |Blocks| == 52 && PaletteInGamut(Blocks)
  {
    FirstBlocksInGamut();
    LastBlocksInGamut();
    forall i | 0 <= i < |Blocks|
      ensures InGamut(Blocks[i].color)
    {
      if i < |FirstBlocks| {
        assert Blocks[i] == FirstBlocks[i];
      } else {
        assert Blocks[i] == LastBlocks[i - |FirstBlocks|];
      }
    }
  }
}
