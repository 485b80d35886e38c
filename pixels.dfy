/**
 * Pixels of the drawing grid and the order-preserving filters the
 * quantizer uses to split a pixel list by distance to a colour.
 */
module Pixels {
  import opened ColorOps

  /** A pixel as `self.img.pixels()` yields it: grid position and raw colour. */
  datatype ImagePixel = ImagePixel(x: nat, y: nat, rgba: Rgba)

  /** A pixel after compositing onto white: `(u32, u32, Rgb<u8>)`. */
  datatype Pixel = Pixel(x: nat, y: nat, color: Color)

  /** A grid cell `(x, y)` as the batches store it. */
  type Coord = (int, int)

  /** Every image pixel composited onto white, in scan order. */
  function Blended(image: seq<ImagePixel>): (r: seq<Pixel>)
    ensures |r| == |image|
    ensures forall i :: 0 <= i < |image| ==> r[i] == Pixel(image[i].x, image[i].y, BlendWithWhite(image[i].rgba))
  {
    seq(|image|, i requires 0 <= i < |image| => Pixel(image[i].x, image[i].y, BlendWithWhite(image[i].rgba)))
  }

  /** The colours of the pixels, in scan order (what the clusterer scans). */
  function Colors(s: seq<Pixel>): (r: seq<Color>)
    ensures |r| == |s|
    ensures forall i :: 0 <= i < |s| ==> r[i] == s[i].color
  {
    seq(|s|, i requires 0 <= i < |s| => s[i].color)
  }

  /** The positions of the pixels, in scan order (what a batch holds). */
  function Coords(s: seq<Pixel>): (r: seq<Coord>)
    ensures |r| == |s|
    ensures forall i :: 0 <= i < |s| ==> r[i] == (s[i].x, s[i].y)
  {
    seq(|s|, i requires 0 <= i < |s| => (s[i].x, s[i].y))
  }

  lemma CoordsAppend(a: seq<Pixel>, b: seq<Pixel>)
    ensures Coords(a + b) == Coords(a) + Coords(b)
  {
  }

  /** A pixel in front adds its own cell once to the cells of the rest. */
  lemma CoordsCons(p: Pixel, t: seq<Pixel>)
    ensures multiset(Coords([p] + t)) == multiset{(p.x, p.y)} + multiset(Coords(t))
  {
    CoordsAppend([p], t);
    assert Coords([p]) == [(p.x, p.y)];
  }

  function Reverse<T>(s: seq<T>): (r: seq<T>)
    ensures |r| == |s|
    ensures forall i :: 0 <= i < |s| ==> r[i] == s[|s| - 1 - i]
  {
    if s == [] then [] else Reverse(s[1..]) + [s[0]]
  }

  lemma {:induction false} ReverseMultiset<T>(s: seq<T>)
    ensures multiset(Reverse(s)) == multiset(s)
  {
    if s != [] {
      ReverseMultiset(s[1..]);
      assert s == [s[0]] + s[1..];
    }
  }

  /** The pixels of `s` whose colour is more than `bound` from `reference`, in their original order. */
  function FarFrom(s: seq<Pixel>, reference: Color, bound: nat): (r: seq<Pixel>)
    ensures |r| <= |s|
    ensures forall p :: p in r ==> Difference(p.color, reference) > bound
  {
    if s == [] then []
    else (if Difference(s[0].color, reference) > bound then [s[0]] else []) + FarFrom(s[1..], reference, bound)
  }

  /** The pixels of `s` whose colour is within `bound` of `reference`, in their original order. */
  function NearTo(s: seq<Pixel>, reference: Color, bound: nat): (r: seq<Pixel>)
    ensures |r| <= |s|
    ensures forall p :: p in r ==> Difference(p.color, reference) <= bound
  {
    if s == [] then []
    else (if Difference(s[0].color, reference) <= bound then [s[0]] else []) + NearTo(s[1..], reference, bound)
  }

  /** Splitting by distance loses and duplicates nothing: the two parts together are `s`. */
  lemma {:induction false} SplitByDistance(s: seq<Pixel>, reference: Color, bound: nat)
    ensures multiset(FarFrom(s, reference, bound)) + multiset(NearTo(s, reference, bound)) == multiset(s)
    ensures |FarFrom(s, reference, bound)| + |NearTo(s, reference, bound)| == |s|
  {
    if s != [] {
      SplitByDistance(s[1..], reference, bound);
      assert s == [s[0]] + s[1..];
    }
  }

  /**
   * `FarFrom` keeps exactly the pixels farther than `bound`, each as many
   * times as it occurs in `s`, and drops every other pixel.
   */
  lemma FarFromExact(s: seq<Pixel>, reference: Color, bound: nat, p: Pixel)
    ensures multiset(FarFrom(s, reference, bound))[p]
         == if Difference(p.color, reference) > bound then multiset(s)[p] else 0
  {
    SplitByDistance(s, reference, bound);
    if Difference(p.color, reference) > bound {
      assert p !in NearTo(s, reference, bound);
    } else {
      assert p !in FarFrom(s, reference, bound);
    }
  }

  /** When some pixel has exactly the reference colour, it is near, so the far part is strictly shorter. */
  lemma {:induction false} NearToPresent(s: seq<Pixel>, reference: Color, bound: nat, i: nat)
    requires i < |s| && s[i].color == reference
    ensures NearTo(s, reference, bound) != []
    ensures |FarFrom(s, reference, bound)| < |s|
  {
    SplitByDistance(s, reference, bound);
    if i > 0 {
      NearToPresent(s[1..], reference, bound, i - 1);
    }
  }

  /** All cells of a list of batches, with multiplicity. */
  function BatchesMultiset(batches: seq<seq<Coord>>): multiset<Coord>
  {
    if batches == [] then multiset{}
    else BatchesMultiset(batches[..|batches| - 1]) + multiset(batches[|batches| - 1])
  }

  /** Pushing one cell onto one batch adds exactly that cell once. */
  lemma {:induction false} BatchesMultisetPush(batches: seq<seq<Coord>>, j: nat, c: Coord)
    requires j < |batches|
    ensures BatchesMultiset(batches[j := batches[j] + [c]]) == BatchesMultiset(batches) + multiset{c}
  {
    var n := |batches|;
    var pushed := batches[j := batches[j] + [c]];
    assert BatchesMultiset(pushed) == BatchesMultiset(pushed[..n - 1]) + multiset(pushed[n - 1]);
    if j < n - 1 {
      assert pushed[..n - 1] == batches[..n - 1][j := batches[j] + [c]];
      BatchesMultisetPush(batches[..n - 1], j, c);
      assert pushed[n - 1] == batches[n - 1];
    } else {
      assert pushed[..n - 1] == batches[..n - 1];
      assert multiset(pushed[n - 1]) == multiset(batches[n - 1]) + multiset{c};
    }
  }
}
