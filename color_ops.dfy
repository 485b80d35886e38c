/**
 * Colours, alpha compositing onto white, and the colour distance used by
 * every tolerance test of the painter (src/paint.rs, `color_difference`
 * and `blend_with_white`).
 */
module ColorOps {

  /** One 8-bit colour channel. */
  type Channel = x: int | 0 <= x < 256

  /** An `Rgb<u8>`: compared by exact channel equality and used as a map key. */
  datatype Color = Color(r: Channel, g: Channel, b: Channel)

  /** An `Rgba<u8>` as the image yields it, before compositing. */
  datatype Rgba = Rgba(r: Channel, g: Channel, b: Channel, a: Channel)

  const White: Color := Color(255, 255, 255)

  /** Larger than every `Difference`: plays the part of `f32::INFINITY` as a starting best value. */
  const Unbounded: nat := 766

  function Abs(x: int): nat
  {
    if x < 0 then -x else x
  }

  /**
   * The quantity under the square root of `color_difference`: the summed
   * absolute channel differences. Because the square root is strictly
   * increasing, every comparison the painter makes between two distances,
   * or between a distance and the tolerance, is decided by this sum.
   */
  function Difference(c1: Color, c2: Color): (d: nat)
    ensures d < Unbounded
    ensures d == 0 <==> c1 == c2
  {
    Abs(c1.r - c2.r) + Abs(c1.g - c2.g) + Abs(c1.b - c2.b)
  }

  lemma DifferenceSymmetric(c1: Color, c2: Color)
    ensures Difference(c1, c2) == Difference(c2, c1)
  {
  }

  /** The distance is the sum of per-channel distances, so growing one channel gap grows the distance. */
  lemma DifferenceMonotone(c: Color, a: Color, b: Color)
    requires Abs(c.r - a.r) <= Abs(c.r - b.r)
    requires Abs(c.g - a.g) <= Abs(c.g - b.g)
    requires Abs(c.b - a.b) <= Abs(c.b - b.b)
    ensures Difference(c, a) <= Difference(c, b)
  {
    assert Difference(c, a) == Abs(c.r - a.r) + Abs(c.g - a.g) + Abs(c.b - a.b);
    assert Difference(c, b) == Abs(c.r - b.r) + Abs(c.g - b.g) + Abs(c.b - b.b);
  }

  /**
   * The integer bound on `Difference` that a tolerance `t >= 0` stands for:
   * a summed difference `s` passes `sqrt(s) <= t` exactly when `s <= ToleranceBound(t)`.
   */
  function ToleranceBound(t: real): (n: nat)
    requires t >= 0.0
    ensures n as real <= t * t < (n + 1) as real
  {
    assert t * t >= 0.0;
    (t * t).Floor
  }

  /**
   * `sqrt(s) <= t` (with `root` the exact square root of `s`) holds exactly
   * when `s` is within the integer bound: in exact real arithmetic the
   * model's integer tests decide as the square-root tests do.
   */
  lemma SqrtComparison(s: nat, root: real, t: real)
    requires root >= 0.0 && root * root == s as real && t >= 0.0
    ensures root <= t <==> s <= ToleranceBound(t)
  {
    var n := ToleranceBound(t);
    if root <= t {
      SquareMonotone(root, t);
      assert s < n + 1;
    } else {
      SquareStrictlyMonotone(t, root);
      assert n < s;
    }
  }

  lemma SquareMonotone(x: real, y: real)
    requires 0.0 <= x <= y
    ensures x * x <= y * y
  {
    var xx, xy, yy := x * x, x * y, y * y;
    assert xx <= xy by { assert (y - x) * x >= 0.0; assert (y - x) * x == xy - xx; }
    assert xy <= yy by { assert (y - x) * y >= 0.0; assert (y - x) * y == yy - xy; }
  }

  lemma SquareStrictlyMonotone(x: real, y: real)
    requires 0.0 <= x < y
    ensures x * x < y * y
  {
    var xx, xy, yy := x * x, x * y, y * y;
    assert xx <= xy by { assert (y - x) * x >= 0.0; assert (y - x) * x == xy - xx; }
    assert xy < yy by { assert (y - x) * y > 0.0; assert (y - x) * y == yy - xy; }
  }

  /**
   * One channel composited onto white with opacity `a` out of 255, in exact
   * arithmetic: `floor(c * a/255 + 255 * (1 - a/255))`.
   */
  function BlendChannel(c: Channel, a: Channel): (v: Channel)
    ensures c <= v
    ensures a == 255 ==> v == c
    ensures a == 0 ==> v == 255
  {
    var num := c * a + 255 * (255 - a);
    BlendNumeratorBounds(c, a);
    num / 255
  }

  /** The composited numerator lies between `255 * c` and `255 * 255`. */
  lemma BlendNumeratorBounds(c: Channel, a: Channel)
    ensures 255 * c <= c * a + 255 * (255 - a) <= 255 * 255
  {
    var w, v := 255 - c, 255 - a;
    Distribute(c, w, a);
    Distribute(a, v, w);
    Distribute(a, v, c);
    NonNegativeProduct(w, v);
    NonNegativeProduct(w, a);
  }

  lemma Distribute(x: int, y: int, z: int)
    ensures (x + y) * z == x * z + y * z
  {
  }

  lemma NonNegativeProduct(x: nat, y: nat)
    ensures 0 <= x * y
  {
  }

  /** `blend_with_white`: the colour an `Rgba` pixel shows on a white canvas. */
  function BlendWithWhite(p: Rgba): (c: Color)
    ensures p.a == 255 ==> c == Color(p.r, p.g, p.b)
    ensures p.a == 0 ==> c == White
    ensures p.r <= c.r && p.g <= c.g && p.b <= c.b
  {
    Color(BlendChannel(p.r, p.a), BlendChannel(p.g, p.a), BlendChannel(p.b, p.a))
  }
}
