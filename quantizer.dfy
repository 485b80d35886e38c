/**
 * The quantizer of `paint_preprocess` (src/paint.rs): background detection,
 * the foreground filter, the preset pass (forced when `color_limit == 0`,
 * within tolerance otherwise), custom-colour discovery on the shrinking
 * remainder, and the truncated-mean overflow colour.
 */
module Quantizer {
  import opened ColorOps
  import opened Palette
  import opened Pixels
  import opened Clusterer

  /** One entry of `custom_draw_batches`: a custom colour and the cells painted with it. */
  datatype CustomBatch = CustomBatch(color: Color, coords: seq<Coord>)

  function CustomCoords(custom: seq<CustomBatch>): (r: seq<seq<Coord>>)
    ensures |r| == |custom|
    ensures forall k :: 0 <= k < |custom| ==> r[k] == custom[k].coords
  {
    seq(|custom|, k requires 0 <= k < |custom| => custom[k].coords)
  }

  /** The pixels to paint: those whose composited colour is farther than `bound` from the background. */
  function Foreground(image: seq<ImagePixel>, background: Color, bound: nat): seq<Pixel>
  {
    FarFrom(Blended(image), background, bound)
  }

  // ---------------------------------------------------------------------
  // Preset pass

  /**
   * Pixel `p` goes to preset `j`: `j` is its nearest preset and, unless the
   * pass is forced (`color_limit == 0`), that preset is within `bound`.
   */
  predicate MatchesPreset(p: Pixel, j: nat, bound: nat, forced: bool)
  {
    NearestPresetIndex(p.color) == j && (forced || NearPreset(p.color, bound))
  }

  /** The nearest preset to `c` lies within `bound` of it. */
  predicate NearPreset(c: Color, bound: nat)
  {
    Difference(c, Presets[NearestPresetIndex(c)]) <= bound
  }

  /** The pixels of `s` that go to preset `j`, in scan order. */
  function PresetGroup(s: seq<Pixel>, j: nat, bound: nat, forced: bool): (r: seq<Pixel>)
    ensures forall p :: p in r ==> MatchesPreset(p, j, bound, forced)
  {
    if s == [] then []
    else (if MatchesPreset(s[0], j, bound, forced) then [s[0]] else []) + PresetGroup(s[1..], j, bound, forced)
  }

  /** The pixels of `s` with no preset within `bound`, in scan order: what the preset pass leaves. */
  function Unmatched(s: seq<Pixel>, bound: nat): (r: seq<Pixel>)
    ensures |r| <= |s|
  {
    if s == [] then []
    else
      (if NearPreset(s[0].color, bound) then [] else [s[0]])
      + Unmatched(s[1..], bound)
  }

  /**
   * The twenty preset batches the pass leaves in `draw_batches`: batch `j`
   * holds the cells of preset `j`'s pixels, last scanned first.
   */
  function PresetBatches(s: seq<Pixel>, bound: nat, forced: bool): (r: seq<seq<Coord>>)
    ensures |r| == |Presets|
  {
    seq(|Presets|, j requires 0 <= j < |Presets| => Coords(Reverse(PresetGroup(s, j, bound, forced))))
  }

  lemma RevCoordsCons(p: Pixel, t: seq<Pixel>)
    ensures Coords(Reverse([p] + t)) == Coords(Reverse(t)) + [(p.x, p.y)]
  {
    assert ([p] + t)[1..] == t;
    CoordsAppend(Reverse(t), [p]);
  }

  lemma GroupCons(p: Pixel, t: seq<Pixel>, j: nat, bound: nat, forced: bool)
    ensures Coords(Reverse(PresetGroup([p] + t, j, bound, forced)))
         == Coords(Reverse(PresetGroup(t, j, bound, forced)))
            + (if MatchesPreset(p, j, bound, forced) then [(p.x, p.y)] else [])
  {
    var s := [p] + t;
    assert s[0] == p && s[1..] == t;
    var g := PresetGroup(t, j, bound, forced);
    if MatchesPreset(p, j, bound, forced) {
      assert PresetGroup(s, j, bound, forced) == [p] + g;
      RevCoordsCons(p, g);
    } else {
      assert PresetGroup(s, j, bound, forced) == [] + g;
      assert [] + g == g;
    }
  }

  lemma UnmatchedCons(p: Pixel, t: seq<Pixel>, bound: nat)
    ensures Unmatched([p] + t, bound)
         == (if NearPreset(p.color, bound) then [] else [p])
            + Unmatched(t, bound)
  {
    var s := [p] + t;
    assert s[0] == p && s[1..] == t;
  }

  /** One more pixel in front of the scan lands at the end of exactly its own preset batch. */
  lemma PresetBatchesCons(p: Pixel, t: seq<Pixel>, bound: nat, forced: bool)
    ensures PresetBatches([p] + t, bound, forced)
         == if MatchesPreset(p, NearestPresetIndex(p.color), bound, forced)
            then PresetBatches(t, bound, forced)[NearestPresetIndex(p.color) :=
                   PresetBatches(t, bound, forced)[NearestPresetIndex(p.color)] + [(p.x, p.y)]]
            else PresetBatches(t, bound, forced)
  {
    var before, after := PresetBatches(t, bound, forced), PresetBatches([p] + t, bound, forced);
    forall j | 0 <= j < |Presets|
      ensures after[j] == before[j] + (if MatchesPreset(p, j, bound, forced) then [(p.x, p.y)] else [])
    {
      GroupCons(p, t, j, bound, forced);
    }
    forall j | 0 <= j < |Presets| && !MatchesPreset(p, j, bound, forced)
      ensures after[j] == before[j]
    {
      assert before[j] + [] == before[j];
    }
  }

  /**
   * The preset pass loses and duplicates no pixel: the batches together
   * with the unmatched remainder are the input, and a forced pass leaves
   * no remainder.
   */
  lemma {:induction false} PresetPartition(s: seq<Pixel>, bound: nat, forced: bool)
    ensures BatchesMultiset(PresetBatches(s, bound, forced)) + Remainder(s, bound, forced)
         == multiset(Coords(s))
  {
    if s == [] {
      EmptyBatches(PresetBatches(s, bound, forced));
    } else {
      var p, t := s[0], s[1..];
      assert s == [p] + t;
      PresetPartition(t, bound, forced);
      PresetPartitionStep(p, t, bound, forced);
    }
  }

  /** What the preset pass leaves for the custom colours, as a multiset of cells. */
  function Remainder(s: seq<Pixel>, bound: nat, forced: bool): multiset<Coord>
  {
    if forced then multiset{} else multiset(Coords(Unmatched(s, bound)))
  }

  lemma PresetPartitionStep(p: Pixel, t: seq<Pixel>, bound: nat, forced: bool)
    requires BatchesMultiset(PresetBatches(t, bound, forced)) + Remainder(t, bound, forced)
          == multiset(Coords(t))
    ensures BatchesMultiset(PresetBatches([p] + t, bound, forced)) + Remainder([p] + t, bound, forced)
         == multiset(Coords([p] + t))
  {
    CoordsCons(p, t);
    PresetBatchesConsMultiset(p, t, bound, forced);
    RemainderCons(p, t, bound, forced);
  }

  /** A pixel in front adds its cell to the batches exactly when it matches its nearest preset. */
  lemma PresetBatchesConsMultiset(p: Pixel, t: seq<Pixel>, bound: nat, forced: bool)
    ensures BatchesMultiset(PresetBatches([p] + t, bound, forced))
         == BatchesMultiset(PresetBatches(t, bound, forced))
            + (if MatchesPreset(p, NearestPresetIndex(p.color), bound, forced) then multiset{(p.x, p.y)} else multiset{})
  {
    PresetBatchesCons(p, t, bound, forced);
    if MatchesPreset(p, NearestPresetIndex(p.color), bound, forced) {
      BatchesMultisetPush(PresetBatches(t, bound, forced), NearestPresetIndex(p.color), (p.x, p.y));
    }
  }

  /** A pixel in front adds its cell to the remainder exactly when it matches no preset. */
  lemma RemainderCons(p: Pixel, t: seq<Pixel>, bound: nat, forced: bool)
    ensures Remainder([p] + t, bound, forced)
         == Remainder(t, bound, forced)
            + (if MatchesPreset(p, NearestPresetIndex(p.color), bound, forced) then multiset{} else multiset{(p.x, p.y)})
  {
    if !forced {
      var u := Unmatched(t, bound);
      UnmatchedCons(p, t, bound);
      if NearPreset(p.color, bound) {
        assert Unmatched([p] + t, bound) == [] + u == u;
      } else {
        CoordsCons(p, u);
      }
    }
  }

  lemma {:induction false} EmptyBatches(batches: seq<seq<Coord>>)
    requires forall j :: 0 <= j < |batches| ==> batches[j] == []
    ensures BatchesMultiset(batches) == multiset{}
  {
    if batches != [] {
      EmptyBatches(batches[..|batches| - 1]);
    }
  }
  /** With a forced pass the tolerance plays no part. */
  lemma ForcedIgnoresBound(s: seq<Pixel>, j: nat, bound: nat)
    ensures PresetGroup(s, j, bound, true) == PresetGroup(s, j, 0, true)
  {
  }

  /** The two preset batches arrays built with different tolerances agree when the pass is forced. */
  lemma ForcedBatchesIgnoreBound(s: seq<Pixel>, bound: nat)
    ensures PresetBatches(s, bound, true) == PresetBatches(s, 0, true)
  {
    forall j | 0 <= j < |Presets|
      ensures PresetGroup(s, j, bound, true) == PresetGroup(s, j, 0, true)
    {
      ForcedIgnoresBound(s, j, bound);
    }
  }

  lemma NoBatchesYet(batches: seq<seq<Coord>>, bound: nat, forced: bool)
    requires |batches| == |Presets|
    requires forall j :: 0 <= j < |batches| ==> batches[j] == []
    ensures batches == PresetBatches([], bound, forced)
  {
  }

  /**
   * The forced preset pass (`color_limit == 0`): walking the pixels from the
   * last to the first, each one's cell is pushed onto the batch of its
   * nearest preset.
   */
  method AssignToNearest(pixels: seq<Pixel>, batches: array<seq<Coord>>)
    requires batches.Length == |Presets|
    requires forall j :: 0 <= j < batches.Length ==> batches[j] == []
    modifies batches
    ensures batches[..] == PresetBatches(pixels, 0, true)
  {
    NoBatchesYet(batches[..], 0, true);
    var i := |pixels|;
    while i > 0
      invariant 0 <= i <= |pixels|
      invariant batches[..] == PresetBatches(pixels[i..], 0, true)
    {
      i := i - 1;
      var p := pixels[i];
      BatchStep(pixels, i, 0, true);
      var best, _ := NearestPreset(p.color);
      batches[best] := batches[best] + [(p.x, p.y)];
    }
  }

  /**
   * The tolerance preset pass: walking the pixels from the last to the
   * first, a pixel whose nearest preset is within `bound` is removed from
   * the list and its cell pushed onto that preset's batch; the list that
   * remains is returned.
   */
  method AssignWithinTolerance(pixels: seq<Pixel>, batches: array<seq<Coord>>, bound: nat)
      returns (rest: seq<Pixel>)
    requires batches.Length == |Presets|
    requires forall j :: 0 <= j < batches.Length ==> batches[j] == []
    modifies batches
    ensures batches[..] == PresetBatches(pixels, bound, false)
    ensures rest == Unmatched(pixels, bound)
  {
    NoBatchesYet(batches[..], bound, false);
    rest := pixels;
    var i := |pixels|;
    assert pixels[i..] == [] && pixels[..i] == pixels;
    while i > 0
      invariant 0 <= i <= |pixels|
      invariant batches[..] == PresetBatches(pixels[i..], bound, false)
      invariant rest == pixels[..i] + Unmatched(pixels[i..], bound)
    {
      i := i - 1;
      var p := pixels[i];
      var best, bestValue := NearestPreset(p.color);
      var take := bestValue <= bound;
      assert take == NearPreset(p.color, bound);
      assert batches[..] == PresetBatches(pixels[i + 1..], bound, false);
      assert PresetBatches(pixels[i..], bound, false)
          == if take then batches[..][best := batches[best] + [(p.x, p.y)]] else batches[..] by {
        BatchStep(pixels, i, bound, false);
      }
      assert i < |rest| && pixels[..i] + Unmatched(pixels[i..], bound)
          == if take then rest[..i] + rest[i + 1..] else rest by {
        SliceAt(pixels, i);
        RestStep(pixels[..i], p, pixels[i + 1..], bound);
      }
      if take {
        rest := rest[..i] + rest[i + 1..];
        batches[best] := batches[best] + [(p.x, p.y)];
      }
    }
    assert pixels[..0] + Unmatched(pixels[0..], bound) == Unmatched(pixels, bound);
  }

  /** One step of the tolerance pass on pixel `p`: near its preset it leaves the remaining list, otherwise it stays. */
  lemma RestStep(a: seq<Pixel>, p: Pixel, t: seq<Pixel>, bound: nat)
    ensures var s := a + [p] + Unmatched(t, bound);
            |a| < |s| &&
            (if NearPreset(p.color, bound) then s[..|a|] + s[|a| + 1..] else s)
              == a + Unmatched([p] + t, bound)
  {
    var u := Unmatched(t, bound);
    UnmatchedCons(p, t, bound);
    if NearPreset(p.color, bound) {
      assert Unmatched([p] + t, bound) == [] + u == u;
      RemoveAt(a, p, u);
    } else {
      assert a + [p] + u == a + ([p] + u);
    }
  }

  /** How one step of a preset pass, at index `i`, changes the batches. */
  lemma BatchStep(pixels: seq<Pixel>, i: nat, bound: nat, forced: bool)
    requires i < |pixels|
    ensures var p, before := pixels[i], PresetBatches(pixels[i + 1..], bound, forced);
            var j := NearestPresetIndex(p.color);
            (PresetBatches(pixels[i..], bound, forced)
              == if MatchesPreset(p, j, bound, forced) then before[j := before[j] + [(p.x, p.y)]] else before)
  {
    assert pixels[i..] == [pixels[i]] + pixels[i + 1..];
    PresetBatchesCons(pixels[i], pixels[i + 1..], bound, forced);
  }

  /** Index `i` splits `s` into what comes before it, its element, and what follows. */
  lemma SliceAt<T>(s: seq<T>, i: nat)
    requires i < |s|
    ensures s[..i + 1] == s[..i] + [s[i]]
    ensures s[i..] == [s[i]] + s[i + 1..]
  {
  }

  /** Removing the element at index `|a|` of `a + [x] + b` leaves `a + b`. */
  lemma RemoveAt<T>(a: seq<T>, x: T, b: seq<T>)
    ensures |a| < |a + [x] + b|
    ensures (a + [x] + b)[..|a|] + (a + [x] + b)[|a| + 1..] == a + b
  {
    var s := a + [x] + b;
    assert s[..|a|] == a;
    assert s[|a| + 1..] == b;
  }

  lemma SplitCons(p: Pixel, t: seq<Pixel>, reference: Color, bound: nat)
    ensures FarFrom([p] + t, reference, bound)
         == (if Difference(p.color, reference) > bound then [p] else []) + FarFrom(t, reference, bound)
    ensures Coords(Reverse(NearTo([p] + t, reference, bound)))
         == Coords(Reverse(NearTo(t, reference, bound)))
            + (if Difference(p.color, reference) <= bound then [(p.x, p.y)] else [])
  {
    var s := [p] + t;
    assert s[0] == p && s[1..] == t;
    var near := NearTo(t, reference, bound);
    if Difference(p.color, reference) <= bound {
      assert NearTo(s, reference, bound) == [p] + near;
      RevCoordsCons(p, near);
    } else {
      assert NearTo(s, reference, bound) == near;
      assert Coords(Reverse(near)) + [] == Coords(Reverse(near));
    }
  }

  /** A step of a custom colour's pass that takes pixel `p` removes it from the remaining list. */
  lemma NearTake(a: seq<Pixel>, p: Pixel, t: seq<Pixel>, reference: Color, bound: nat)
    requires Difference(p.color, reference) <= bound
    ensures var s := a + [p] + FarFrom(t, reference, bound);
            |a| < |s| && s[..|a|] + s[|a| + 1..] == a + FarFrom([p] + t, reference, bound)
  {
    SplitCons(p, t, reference, bound);
    assert FarFrom([p] + t, reference, bound) == [] + FarFrom(t, reference, bound) == FarFrom(t, reference, bound);
    RemoveAt(a, p, FarFrom(t, reference, bound));
  }

  /** A step of a custom colour's pass that leaves pixel `p` keeps it in the remaining list. */
  lemma FarKeep(a: seq<Pixel>, p: Pixel, t: seq<Pixel>, reference: Color, bound: nat)
    requires Difference(p.color, reference) > bound
    ensures (a + [p]) + FarFrom(t, reference, bound) == a + FarFrom([p] + t, reference, bound)
  {
    SplitCons(p, t, reference, bound);
  }

  /**
   * One custom colour's pass: walking the pixels from the last to the
   * first, a pixel within `bound` of `reference` is removed from the list
   * and its cell pushed onto the colour's batch.
   */
  method TakeNear(pixels: seq<Pixel>, reference: Color, bound: nat) returns (rest: seq<Pixel>, batch: seq<Coord>)
    ensures rest == FarFrom(pixels, reference, bound)
    ensures batch == Coords(Reverse(NearTo(pixels, reference, bound)))
  {
    rest, batch := pixels, [];
    var i := |pixels|;
    while i > 0
      invariant 0 <= i <= |pixels|
      invariant rest == pixels[..i] + FarFrom(pixels[i..], reference, bound)
      invariant batch == Coords(Reverse(NearTo(pixels[i..], reference, bound)))
    {
      i := i - 1;
      var p := pixels[i];
      SliceAt(pixels, i);
      SplitCons(p, pixels[i + 1..], reference, bound);
      if Difference(p.color, reference) <= bound {
        NearTake(pixels[..i], p, pixels[i + 1..], reference, bound);
        rest := rest[..i] + rest[i + 1..];
        batch := batch + [(p.x, p.y)];
      } else {
        assert batch + [] == batch;
        FarKeep(pixels[..i], p, pixels[i + 1..], reference, bound);
      }
    }
    assert pixels[..0] + FarFrom(pixels[0..], reference, bound) == FarFrom(pixels, reference, bound);
  }
  // ---------------------------------------------------------------------
  // Overflow colour: the per-channel mean, truncated

  function ChannelOf(c: Color, k: nat): Channel
    requires k < 3
  {
    if k == 0 then c.r else if k == 1 then c.g else c.b
  }

  /** The sum of channel `k` over the pixels of `s`. */
  function ChannelSum(s: seq<Pixel>, k: nat): nat
    requires k < 3
  {
    if s == [] then 0 else ChannelSum(s[..|s| - 1], k) + ChannelOf(s[|s| - 1].color, k)
  }

  /** A sum of `|s|` channel values each between `lo` and `hi` lies between `lo * |s|` and `hi * |s|`. */
  lemma {:induction false} ChannelSumWithin(s: seq<Pixel>, k: nat, lo: nat, hi: nat)
    requires k < 3
    requires forall i :: 0 <= i < |s| ==> lo <= ChannelOf(s[i].color, k) <= hi
    ensures lo * |s| <= ChannelSum(s, k) <= hi * |s|
  {
    if s != [] {
      var n := |s| - 1;
      ChannelSumWithin(s[..n], k, lo, hi);
      assert lo <= ChannelOf(s[n].color, k) <= hi;
      SumStepWithin(ChannelSum(s[..n], k), ChannelOf(s[n].color, k), n, lo, hi);
    }
  }

  /** Adding one more value between `lo` and `hi` to a sum of `n` such values. */
  lemma SumStepWithin(sum: nat, x: nat, n: nat, lo: nat, hi: nat)
    requires lo * n <= sum <= hi * n && lo <= x <= hi
    ensures lo * (n + 1) <= sum + x <= hi * (n + 1)
  {
    assert lo * (n + 1) == lo * n + lo;
    assert hi * (n + 1) == hi * n + hi;
  }

  /** Truncating division keeps a quotient between the bounds the dividend was between. */
  lemma DivWithin(sum: nat, n: nat, lo: nat, hi: nat)
    requires n > 0 && lo * n <= sum <= hi * n
    ensures lo <= sum / n <= hi
  {
    var q, r := sum / n, sum % n;
    assert sum == q * n + r && 0 <= r < n;
    assert (q + 1) * n == q * n + n;
    MulCancel(lo, q + 1, n);
    MulCancel(q, hi + 1, n);
    assert (hi + 1) * n == hi * n + n;
  }

  /** Multiplication by a positive number preserves strict order in reverse: `a * n < b * n` gives `a < b`. */
  lemma MulCancel(a: nat, b: nat, n: nat)
    requires n > 0
    ensures a * n < b * n ==> a < b
  {
    if b <= a {
      MulMonotone(b, a, n);
    }
  }

  lemma MulMonotone(a: nat, b: nat, n: nat)
    requires a <= b
    ensures a * n <= b * n
  {
    assert b * n == a * n + (b - a) * n;
  }

  function MeanChannel(s: seq<Pixel>, k: nat): Channel
    requires s != [] && k < 3
  {
    ChannelSumWithin(s, k, 0, 255);
    DivWithin(ChannelSum(s, k), |s|, 0, 255);
    ChannelSum(s, k) / |s|
  }

  /** The overflow colour: each channel is the mean of that channel over `s`, truncated. */
  function Mean(s: seq<Pixel>): Color
    requires s != []
  {
    Color(MeanChannel(s, 0), MeanChannel(s, 1), MeanChannel(s, 2))
  }

  /** Every channel of the mean lies within the range that channel spans in `s`. */
  lemma MeanWithin(s: seq<Pixel>, k: nat, lo: nat, hi: nat)
    requires s != [] && k < 3
    requires forall i :: 0 <= i < |s| ==> lo <= ChannelOf(s[i].color, k) <= hi
    ensures lo <= ChannelOf(Mean(s), k) <= hi
  {
    ChannelSumWithin(s, k, lo, hi);
    DivWithin(ChannelSum(s, k), |s|, lo, hi);
  }

  /** Pixels that all have one colour average to that colour. */
  lemma MeanOfUniform(s: seq<Pixel>, c: Color)
    requires s != []
    requires forall i :: 0 <= i < |s| ==> s[i].color == c
    ensures Mean(s) == c
  {
    MeanWithin(s, 0, c.r, c.r);
    MeanWithin(s, 1, c.g, c.g);
    MeanWithin(s, 2, c.b, c.b);
  }

  /** The overflow average: the three channel sums, each divided by the count and truncated. */
  method AverageColor(pixels: seq<Pixel>) returns (average: Color)
    requires |pixels| > 0
    ensures average == Mean(pixels)
  {
    var sumR, sumG, sumB := 0, 0, 0;
    for i := 0 to |pixels|
      invariant sumR == ChannelSum(pixels[..i], 0)
      invariant sumG == ChannelSum(pixels[..i], 1)
      invariant sumB == ChannelSum(pixels[..i], 2)
    {
      assert pixels[..i + 1][..i] == pixels[..i];
      sumR := sumR + pixels[i].color.r;
      sumG := sumG + pixels[i].color.g;
      sumB := sumB + pixels[i].color.b;
    }
    assert pixels[..|pixels|] == pixels;
    var len := |pixels|;
    ChannelSumWithin(pixels, 0, 0, 255);
    ChannelSumWithin(pixels, 1, 0, 255);
    ChannelSumWithin(pixels, 2, 0, 255);
    DivWithin(sumR, len, 0, 255);
    DivWithin(sumG, len, 0, 255);
    DivWithin(sumB, len, 0, 255);
    average := Color(sumR / len, sumG / len, sumB / len);
  }
  // ---------------------------------------------------------------------
  // Custom-colour discovery

  /** What remains of `rest0` once each batch of `custom` in turn has taken the pixels within `bound` of its colour. */
  function After(rest0: seq<Pixel>, custom: seq<CustomBatch>, bound: nat): (r: seq<Pixel>)
    ensures |r| <= |rest0|
    decreases |custom|
  {
    if custom == [] then rest0
    else FarFrom(After(rest0, custom[..|custom| - 1], bound), custom[|custom| - 1].color, bound)
  }

  /**
   * One round of the discovery loop on the pixels still `left`: the batch's
   * colour is their dominant colour, and its cells are those of the left
   * pixels within `bound` of that colour, last scanned first.
   */
  ghost predicate Round(left: seq<Pixel>, batch: CustomBatch, bound: nat)
  {
    && left != []
    && IsDominant(Colors(left), batch.color, bound)
    && TookNear(left, batch, bound)
  }

  /** The batch holds the cells of the `left` pixels within `bound` of its colour, last scanned first. */
  predicate TookNear(left: seq<Pixel>, batch: CustomBatch, bound: nat)
  {
    batch.coords == Coords(Reverse(NearTo(left, batch.color, bound)))
  }

  /** Every batch of `custom` is one round of discovery on what the batches before it left of `rest0`. */
  ghost predicate DiscoverySteps(rest0: seq<Pixel>, custom: seq<CustomBatch>, bound: nat)
  {
    forall k :: 0 <= k < |custom| ==> Round(After(rest0, custom[..k], bound), custom[k], bound)
  }

  /** A run of rounds extends by exactly one more round on what it left. */
  lemma DiscoveryStepsSnoc(rest0: seq<Pixel>, custom: seq<CustomBatch>, batch: CustomBatch, bound: nat)
    ensures DiscoverySteps(rest0, custom + [batch], bound)
        <==> DiscoverySteps(rest0, custom, bound) && Round(After(rest0, custom, bound), batch, bound)
  {
    var extended := custom + [batch];
    assert extended[..|custom|] == custom;
    assert forall k :: 0 <= k < |custom| ==> extended[..k] == custom[..k] && extended[k] == custom[k];
  }

  /**
   * The custom batches built from the preset pass's remainder `rest0` with
   * room for `cap` (`color_limit - 1`) discovered colours: either discovery
   * used up every pixel within `cap` rounds, or it stopped after `cap` rounds
   * and the pixels still left went, last scanned first, into one more batch
   * painted with their mean colour.
   */
  ghost predicate Discovered(rest0: seq<Pixel>, custom: seq<CustomBatch>, cap: nat, bound: nat)
  {
    Exhausted(rest0, custom, cap, bound) || Overflowed(rest0, custom, cap, bound)
  }

  /** Discovery used up every pixel of `rest0` within `cap` rounds. */
  ghost predicate Exhausted(rest0: seq<Pixel>, custom: seq<CustomBatch>, cap: nat, bound: nat)
  {
    |custom| <= cap && DiscoverySteps(rest0, custom, bound) && After(rest0, custom, bound) == []
  }

  /**
   * Discovery stopped after `cap` rounds with pixels left, and those went,
   * last scanned first, into one more batch painted with their mean colour.
   */
  ghost predicate Overflowed(rest0: seq<Pixel>, custom: seq<CustomBatch>, cap: nat, bound: nat)
  {
    && |custom| == cap + 1
    && DiscoverySteps(rest0, custom[..cap], bound)
    && var left := After(rest0, custom[..cap], bound);
       left != [] && custom[cap] == CustomBatch(Mean(left), Coords(Reverse(left)))
  }

  lemma CoordsReverse(s: seq<Pixel>)
    ensures Coords(Reverse(s)) == Reverse(Coords(s))
  {
  }

  /** Keeping the far pixels only ever drops pixels. */
  lemma {:induction false} FarFromSubset(s: seq<Pixel>, reference: Color, bound: nat, p: Pixel)
    requires p in FarFrom(s, reference, bound)
    ensures p in s
  {
    if s != [] {
      var far := FarFrom(s[1..], reference, bound);
      assert FarFrom(s, reference, bound) == (if Difference(s[0].color, reference) > bound then [s[0]] else []) + far;
      if p != s[0] {
        FarFromSubset(s[1..], reference, bound, p);
      }
    }
  }

  /** A pixel still left after `n` rounds was still left after any earlier round `m`, and far from round `m`'s colour. */
  lemma {:induction false} AfterShrinks(rest0: seq<Pixel>, custom: seq<CustomBatch>, bound: nat, m: nat, n: nat, p: Pixel)
    requires m < n <= |custom|
    requires p in After(rest0, custom[..n], bound)
    ensures p in After(rest0, custom[..m + 1], bound)
    ensures Difference(p.color, custom[m].color) > bound
    decreases n - m
  {
    var previous := After(rest0, custom[..n - 1], bound);
    assert custom[..n][..n - 1] == custom[..n - 1];
    assert After(rest0, custom[..n], bound) == FarFrom(previous, custom[n - 1].color, bound);
    if m + 1 < n {
      FarFromSubset(previous, custom[n - 1].color, bound, p);
      AfterShrinks(rest0, custom, bound, m, n - 1, p);
    } else {
      assert custom[..m + 1][..m] == custom[..m];
    }
  }

  /**
   * Discovered colours are pairwise more than the tolerance apart: each round
   * removes every pixel within `bound` of its colour, and the next colour is
   * one of the pixels still left.
   */
  lemma DiscoverySeparated(rest0: seq<Pixel>, custom: seq<CustomBatch>, bound: nat)
    requires DiscoverySteps(rest0, custom, bound)
    ensures forall a, b :: 0 <= a < b < |custom| ==> Difference(custom[a].color, custom[b].color) > bound
  {
    forall a, b | 0 <= a < b < |custom|
      ensures Difference(custom[a].color, custom[b].color) > bound
    {
      var left := After(rest0, custom[..b], bound);
      assert Round(left, custom[b], bound);
      var i := DominantIsScanned(Colors(left), custom[b].color, bound);
      assert left[i] in left;
      AfterShrinks(rest0, custom, bound, a, b, left[i]);
      DifferenceSymmetric(custom[a].color, custom[b].color);
    }
  }

  /** Every two discovered colours (the overflow mean aside) are more than the tolerance apart. */
  lemma DiscoveredSeparated(rest0: seq<Pixel>, custom: seq<CustomBatch>, cap: nat, bound: nat)
    requires Discovered(rest0, custom, cap, bound)
    ensures forall a, b :: 0 <= a < b < |custom| && b < cap ==> Difference(custom[a].color, custom[b].color) > bound
  {
    if Exhausted(rest0, custom, cap, bound) {
      DiscoverySeparated(rest0, custom, bound);
    } else {
      var prior := custom[..cap];
      DiscoverySeparated(rest0, prior, bound);
      forall a, b | 0 <= a < b < |custom| && b < cap
        ensures Difference(custom[a].color, custom[b].color) > bound
      {
        PrefixAt(custom, cap, a);
        PrefixAt(custom, cap, b);
      }
    }
  }

  /** A pixel the preset pass leaves is more than the tolerance from every preset, not only the nearest. */
  lemma UnmatchedFarFromPresets(s: seq<Pixel>, bound: nat, p: Pixel, j: nat)
    requires p in Unmatched(s, bound) && j < |Presets|
    ensures Difference(p.color, Presets[j]) > bound
  {
    UnmatchedMember(s, bound, p);
  }

  lemma {:induction false} UnmatchedMember(s: seq<Pixel>, bound: nat, p: Pixel)
    requires p in Unmatched(s, bound)
    ensures !NearPreset(p.color, bound)
  {
    if s != [] {
      UnmatchedCons(s[0], s[1..], bound);
      assert s == [s[0]] + s[1..];
      if p != s[0] || NearPreset(s[0].color, bound) {
        UnmatchedMember(s[1..], bound, p);
      }
    }
  }

  /** Taking the pixels near `reference` and keeping those far from it loses and duplicates no cell. */
  lemma SplitCoords(s: seq<Pixel>, reference: Color, bound: nat)
    ensures multiset(Coords(Reverse(NearTo(s, reference, bound)))) + multiset(Coords(FarFrom(s, reference, bound)))
         == multiset(Coords(s))
  {
    var near := NearTo(s, reference, bound);
    CoordsSplit(s, reference, bound);
    CoordsReverse(near);
    ReverseMultiset(Coords(near));
  }

  lemma {:induction false} CoordsSplit(s: seq<Pixel>, reference: Color, bound: nat)
    ensures multiset(Coords(NearTo(s, reference, bound))) + multiset(Coords(FarFrom(s, reference, bound)))
         == multiset(Coords(s))
  {
    if s != [] {
      var head, t := [s[0]], s[1..];
      CoordsSplit(t, reference, bound);
      assert s == head + t;
      CoordsAppend(head, t);
      var near, far := NearTo(t, reference, bound), FarFrom(t, reference, bound);
      if Difference(s[0].color, reference) <= bound {
        assert NearTo(s, reference, bound) == head + near;
        assert FarFrom(s, reference, bound) == [] + far == far;
        CoordsAppend(head, near);
      } else {
        assert NearTo(s, reference, bound) == [] + near == near;
        assert FarFrom(s, reference, bound) == head + far;
        CoordsAppend(head, far);
      }
    }
  }

  lemma CustomCoordsPrefix(custom: seq<CustomBatch>, n: nat)
    requires n <= |custom|
    ensures CustomCoords(custom)[..n] == CustomCoords(custom[..n])
  {
  }

  /** Every batch of `custom` holds the cells near its colour among what the batches before it left. */
  ghost predicate TakesNear(rest0: seq<Pixel>, custom: seq<CustomBatch>, bound: nat)
  {
    forall k :: 0 <= k < |custom| ==> TookNear(After(rest0, custom[..k], bound), custom[k], bound)
  }

  lemma StepsTakeNear(rest0: seq<Pixel>, custom: seq<CustomBatch>, bound: nat)
    requires DiscoverySteps(rest0, custom, bound)
    ensures TakesNear(rest0, custom, bound)
  {
    forall k | 0 <= k < |custom|
      ensures TookNear(After(rest0, custom[..k], bound), custom[k], bound)
    {
      assert Round(After(rest0, custom[..k], bound), custom[k], bound);
    }
  }

  lemma TakesNearPrefix(rest0: seq<Pixel>, custom: seq<CustomBatch>, bound: nat)
    requires custom != [] && TakesNear(rest0, custom, bound)
    ensures TakesNear(rest0, custom[..|custom| - 1], bound)
  {
    var prior := custom[..|custom| - 1];
    forall k | 0 <= k < |prior|
      ensures TookNear(After(rest0, prior[..k], bound), prior[k], bound)
    {
      PrefixAt(custom, |prior|, k);
      assert TookNear(After(rest0, custom[..k], bound), custom[k], bound);
    }
  }

  lemma PrefixAt<T>(s: seq<T>, n: nat, k: nat)
    requires k < n <= |s|
    ensures s[..n][..k] == s[..k] && s[..n][k] == s[k]
  {
  }

  /** The discovery rounds lose and duplicate no cell: their batches and what is left are `rest0`. */
  lemma DiscoveryPartition(rest0: seq<Pixel>, custom: seq<CustomBatch>, bound: nat)
    requires DiscoverySteps(rest0, custom, bound)
    ensures BatchesMultiset(CustomCoords(custom)) + multiset(Coords(After(rest0, custom, bound)))
         == multiset(Coords(rest0))
  {
    StepsTakeNear(rest0, custom, bound);
    TakesPartition(rest0, custom, bound);
  }

  lemma {:induction false} TakesPartition(rest0: seq<Pixel>, custom: seq<CustomBatch>, bound: nat)
    requires TakesNear(rest0, custom, bound)
    ensures BatchesMultiset(CustomCoords(custom)) + multiset(Coords(After(rest0, custom, bound)))
         == multiset(Coords(rest0))
    decreases |custom|
  {
    if custom != [] {
      var n := |custom| - 1;
      var prior, last := custom[..n], custom[n];
      TakesNearPrefix(rest0, custom, bound);
      TakesPartition(rest0, prior, bound);
      var left := After(rest0, prior, bound);
      assert TookNear(left, last, bound);
      SplitCoords(left, last.color, bound);
      CustomCoordsPrefix(custom, n);
    }
  }

  /** The custom batches hold exactly the cells the preset pass left, each once. */
  lemma DiscoveredPartition(rest0: seq<Pixel>, custom: seq<CustomBatch>, cap: nat, bound: nat)
    requires Discovered(rest0, custom, cap, bound)
    ensures BatchesMultiset(CustomCoords(custom)) == multiset(Coords(rest0))
  {
    if Exhausted(rest0, custom, cap, bound) {
      DiscoveryPartition(rest0, custom, bound);
    } else {
      OverflowPartition(rest0, custom, cap, bound);
    }
  }

  lemma OverflowPartition(rest0: seq<Pixel>, custom: seq<CustomBatch>, cap: nat, bound: nat)
    requires Overflowed(rest0, custom, cap, bound)
    ensures BatchesMultiset(CustomCoords(custom)) == multiset(Coords(rest0))
  {
    var prior, last := custom[..cap], custom[cap];
    var left := After(rest0, prior, bound);
    DiscoveryPartition(rest0, prior, bound);
    CoordsReverse(left);
    ReverseMultiset(Coords(left));
    CustomCoordsPrefix(custom, cap);
  }

  /** Every discovery round takes at least one pixel: the dominant colour's own pixel. */
  lemma DiscoveryStepsNonEmpty(rest0: seq<Pixel>, custom: seq<CustomBatch>, bound: nat)
    requires DiscoverySteps(rest0, custom, bound)
    ensures forall k :: 0 <= k < |custom| ==> custom[k].coords != []
  {
    forall k | 0 <= k < |custom|
      ensures custom[k].coords != []
    {
      LastBatchNonEmpty(After(rest0, custom[..k], bound), custom[k], bound);
    }
  }

  lemma LastBatchNonEmpty(left: seq<Pixel>, last: CustomBatch, bound: nat)
    requires Round(left, last, bound)
    ensures last.coords != []
  {
    var i := DominantIsScanned(Colors(left), last.color, bound);
    ScannedNearNonEmpty(left, last.color, bound, i);
  }

  lemma ScannedNearNonEmpty(left: seq<Pixel>, c: Color, bound: nat, i: nat)
    requires i < |Colors(left)| && Colors(left)[i] == c
    ensures Coords(Reverse(NearTo(left, c, bound))) != []
  {
    NearToPresent(left, c, bound, i);
  }

  /** No custom batch is empty, so each one is worth a colour instruction. */
  lemma DiscoveredNonEmpty(rest0: seq<Pixel>, custom: seq<CustomBatch>, cap: nat, bound: nat)
    requires Discovered(rest0, custom, cap, bound)
    ensures forall k :: 0 <= k < |custom| ==> custom[k].coords != []
  {
    if Exhausted(rest0, custom, cap, bound) {
      DiscoveryStepsNonEmpty(rest0, custom, bound);
    } else {
      OverflowNonEmpty(rest0, custom, cap, bound);
    }
  }

  lemma OverflowNonEmpty(rest0: seq<Pixel>, custom: seq<CustomBatch>, cap: nat, bound: nat)
    requires Overflowed(rest0, custom, cap, bound)
    ensures forall k :: 0 <= k < |custom| ==> custom[k].coords != []
  {
    assert |custom| == cap + 1;
    var prior, last := custom[..cap], custom[cap];
    DiscoveryStepsNonEmpty(rest0, prior, bound);
    assert last.coords != [] by {
      assert |last.coords| == |After(rest0, prior, bound)| > 0;
    }
    forall k | 0 <= k < |custom|
      ensures custom[k].coords != []
    {
      if k < cap {
        assert custom[k] == prior[k];
      } else {
        assert k == cap;
      }
    }
  }
  // ---------------------------------------------------------------------
  // The whole quantizer

  /**
   * What `paint_preprocess` decides before it emits any instruction, for an
   * image, a tolerance bound and a colour limit: the background is the
   * dominant composited colour; the twenty preset batches are those of the
   * preset pass over the foreground (forced when the limit is 0); with a
   * positive limit the custom batches are discovered from what that pass
   * left, with room for `color_limit - 1` discovered colours.
   */
  ghost predicate IsQuantization(image: seq<ImagePixel>, bound: nat, colorLimit: nat,
                                 background: Color, presetBatches: seq<seq<Coord>>, custom: seq<CustomBatch>)
  {
    var foreground := Foreground(image, background, bound);
    && IsDominant(Colors(Blended(image)), background, bound)
    && presetBatches == PresetBatches(foreground, bound, colorLimit == 0)
    && if colorLimit == 0 then custom == []
       else Discovered(Unmatched(foreground, bound), custom, colorLimit - 1, bound)
  }

  /**
   * The quantizer: find the background, keep the pixels farther than the
   * tolerance from it, assign them to presets, then discover custom colours
   * in what is left until it is empty or `color_limit - 1` have been found,
   * and give whatever then remains its mean colour.
   */
  method Quantize(image: seq<ImagePixel>, bound: nat, colorLimit: nat)
      returns (background: Color, presetBatches: seq<seq<Coord>>, custom: seq<CustomBatch>)
    requires |image| > 0
    ensures IsQuantization(image, bound, colorLimit, background, presetBatches, custom)
  {
    var blended := Blended(image);
    background := Dominant(Colors(blended), bound);
    var pixels := FarFrom(blended, background, bound);
    presetBatches, custom := Assign(pixels, bound, colorLimit);
    QuantizationIntro(image, bound, colorLimit, background, presetBatches, custom);
  }

  /**
   * Everything after the foreground filter: the preset pass into a fresh
   * array of twenty batches, forced when `color_limit` is 0 and otherwise
   * followed by custom-colour discovery on what it left.
   */
  method Assign(pixels: seq<Pixel>, bound: nat, colorLimit: nat)
      returns (presetBatches: seq<seq<Coord>>, custom: seq<CustomBatch>)
    ensures presetBatches == PresetBatches(pixels, bound, colorLimit == 0)
    ensures colorLimit == 0 ==> custom == []
    ensures colorLimit > 0 ==> Discovered(Unmatched(pixels, bound), custom, colorLimit - 1, bound)
  {
    var drawBatches := new seq<Coord>[|Presets|](_ => []);
    if colorLimit == 0 {
      AssignToNearest(pixels, drawBatches);
      ForcedBatchesIgnoreBound(pixels, bound);
      presetBatches := drawBatches[..];
      custom := [];
    } else {
      var rest := AssignWithinTolerance(pixels, drawBatches, bound);
      presetBatches := drawBatches[..];
      custom := Discover(rest, bound, colorLimit - 1);
    }
  }

  lemma QuantizationIntro(image: seq<ImagePixel>, bound: nat, colorLimit: nat,
                          background: Color, presetBatches: seq<seq<Coord>>, custom: seq<CustomBatch>)
    requires IsDominant(Colors(Blended(image)), background, bound)
    requires presetBatches == PresetBatches(Foreground(image, background, bound), bound, colorLimit == 0)
    requires colorLimit == 0 ==> custom == []
    requires colorLimit > 0 ==> Discovered(Unmatched(Foreground(image, background, bound), bound), custom, colorLimit - 1, bound)
    ensures IsQuantization(image, bound, colorLimit, background, presetBatches, custom)
  {
  }

  /**
   * The discovery loop over what the preset pass left: while pixels remain
   * and fewer than `cap` colours have been found, cluster the remainder,
   * take its dominant colour and every pixel within `bound` of it; then, if
   * the loop stopped at `cap` with pixels left, paint those in their mean
   * colour.
   */
  method Discover(rest0: seq<Pixel>, bound: nat, cap: nat) returns (custom: seq<CustomBatch>)
    ensures Discovered(rest0, custom, cap, bound)
  {
    custom := [];
    var rest := rest0;
    while rest != [] && |custom| < cap
      invariant |custom| <= cap
      invariant DiscoverySteps(rest0, custom, bound)
      invariant rest == After(rest0, custom, bound)
      decreases |rest|
    {
      var mostCommon := Dominant(Colors(rest), bound);
      var remaining, batch := TakeNear(rest, mostCommon, bound);
      ghost var i := DominantIsScanned(Colors(rest), mostCommon, bound);
      NearToPresent(rest, mostCommon, bound, i);
      var round := CustomBatch(mostCommon, batch);
      DiscoveryStepsSnoc(rest0, custom, round, bound);
      assert (custom + [round])[..|custom|] == custom;
      custom := custom + [round];
      rest := remaining;
    }
    if |custom| == cap && rest != [] {
      var average := AverageColor(rest);
      var overflow := CustomBatch(average, Coords(Reverse(rest)));
      assert (custom + [overflow])[..cap] == custom;
      custom := custom + [overflow];
      assert Overflowed(rest0, custom, cap, bound);
    } else {
      assert Exhausted(rest0, custom, cap, bound);
    }
  }

  /**
   * Every foreground cell is painted exactly once: the preset batches and
   * the custom batches together hold each foreground pixel's cell once.
   */
  lemma QuantizePartition(image: seq<ImagePixel>, bound: nat, colorLimit: nat,
                          background: Color, presetBatches: seq<seq<Coord>>, custom: seq<CustomBatch>)
    requires IsQuantization(image, bound, colorLimit, background, presetBatches, custom)
    ensures BatchesMultiset(presetBatches) + BatchesMultiset(CustomCoords(custom))
         == multiset(Coords(Foreground(image, background, bound)))
  {
    var foreground := Foreground(image, background, bound);
    PresetPartition(foreground, bound, colorLimit == 0);
    if colorLimit == 0 {
      assert CustomCoords(custom) == [];
    } else {
      DiscoveredPartition(Unmatched(foreground, bound), custom, colorLimit - 1, bound);
    }
  }

  /** At most `color_limit` custom batches, none of them empty, and none at all with a zero limit. */
  lemma QuantizeCustomShape(image: seq<ImagePixel>, bound: nat, colorLimit: nat,
                            background: Color, presetBatches: seq<seq<Coord>>, custom: seq<CustomBatch>)
    requires IsQuantization(image, bound, colorLimit, background, presetBatches, custom)
    ensures |custom| <= colorLimit
    ensures forall k :: 0 <= k < |custom| ==> custom[k].coords != []
  {
    if colorLimit > 0 {
      var rest0 := Unmatched(Foreground(image, background, bound), bound);
      assert Discovered(rest0, custom, colorLimit - 1, bound);
      DiscoveredNonEmpty(rest0, custom, colorLimit - 1, bound);
    }
  }
}
