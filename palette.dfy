/**
 * The twenty preset colours of the paint program's palette and the
 * nearest-preset scan of `paint_preprocess` (src/paint.rs).
 */
module Palette {
  import opened ColorOps

  /** The preset palette in index order, as `Artist::new` lists it. */
  const Presets: seq<Color> := [
    Color(0, 0, 0), Color(127, 127, 127), Color(136, 0, 21),
    Color(237, 28, 36), Color(255, 127, 39), Color(255, 242, 0),
    Color(34, 177, 76), Color(0, 162, 232), Color(63, 72, 204),
    Color(163, 73, 164), Color(255, 255, 255), Color(195, 195, 195),
    Color(185, 122, 87), Color(255, 174, 201), Color(255, 201, 14),
    Color(239, 228, 176), Color(181, 230, 29), Color(153, 217, 234),
    Color(112, 146, 190), Color(200, 191, 231)
  ]

  /**
   * `j` is where a scan over the presets that keeps a candidate only on a
   * strictly smaller distance ends: a preset at minimal distance from `c`,
   * with every earlier preset strictly farther.
   */
  predicate IsNearestPreset(c: Color, j: int)
  {
    IsNearestIn(c, Presets, j)
  }

  /** `j` indexes a colour of `palette` at minimal distance from `c`, every earlier one strictly farther. */
  predicate IsNearestIn(c: Color, palette: seq<Color>, j: int)
  {
    && 0 <= j < |palette|
    && (forall k :: 0 <= k < |palette| ==> Difference(c, palette[j]) <= Difference(c, palette[k]))
    && (forall k :: 0 <= k < j ==> Difference(c, palette[j]) < Difference(c, palette[k]))
  }

  /** The first colour at minimal distance among the first `n` of `palette`, found from the back. */
  function FirstNearest(c: Color, palette: seq<Color>, n: nat): (j: nat)
    requires 1 <= n <= |palette|
    ensures j < n
    ensures forall k :: 0 <= k < n ==> Difference(c, palette[j]) <= Difference(c, palette[k])
    ensures forall k :: 0 <= k < j ==> Difference(c, palette[j]) < Difference(c, palette[k])
  {
    if n == 1 then 0
    else
      var j := FirstNearest(c, palette, n - 1);
      if Difference(c, palette[n - 1]) < Difference(c, palette[j]) then n - 1 else j
  }

  /** The preset index `c` is painted with when it is matched to a preset. */
  function NearestPresetIndex(c: Color): (j: nat)
    ensures IsNearestPreset(c, j)
  {
    FirstNearest(c, Presets, |Presets|)
  }

  /** Ties go to the lowest index: at most one index is the nearest preset. */
  lemma NearestPresetUnique(c: Color, j: int)
    requires IsNearestPreset(c, j)
    ensures j == NearestPresetIndex(c)
  {
  }

  /**
   * The nearest-preset loop of `paint_preprocess`: scan the presets in
   * order, keep a preset when its distance is strictly below the best so far.
   */
  method NearestPreset(c: Color) returns (best: nat, bestValue: nat)
    ensures IsNearestPreset(c, best)
    ensures best == NearestPresetIndex(c)
    ensures bestValue == Difference(c, Presets[best])
  {
    best, bestValue := 0, Unbounded;
    for i := 0 to |Presets|
      invariant best < |Presets|
      invariant i == 0 ==> bestValue == Unbounded && best == 0
      invariant i > 0 ==> best < i && bestValue == Difference(c, Presets[best])
      invariant forall k :: 0 <= k < i ==> bestValue <= Difference(c, Presets[k])
      invariant forall k :: 0 <= k < best ==> bestValue < Difference(c, Presets[k])
    {
      var diff := Difference(c, Presets[i]);
      if diff < bestValue {
        best, bestValue := i, diff;
      }
    }
    NearestPresetUnique(c, best);
  }
}
