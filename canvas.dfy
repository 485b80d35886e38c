/**
 * The integer geometry around the painter (src/paint.rs): how two clicked
 * corners become a grid of 5-pixel dots, where a palette cell sits on
 * screen, and the `#RRGGBB` text typed to create a custom colour.
 */
module Canvas {
  import opened ColorOps
  import opened Optional

  /** Screen pixels per drawing dot (`DOT_WIDTH`). */
  const DotWidth: nat := 5

  /** Screen pixels between neighbouring palette cells (`COLOR_SPACING`). */
  const ColorSpacing: int := 24

  /** A screen position as `mouse_location` reports it. */
  datatype Point = Point(x: int, y: int)

  /** The drawing area: its top-left screen corner and its size in dots. */
  datatype Grid = Grid(left: int, top: int, width: nat, height: nat)

  /** The least number of whole dots that covers `n` screen pixels. */
  function DotsCovering(n: nat): (dots: nat)
    ensures dots * DotWidth >= n
    ensures dots == 0 || (dots - 1) * DotWidth < n
  {
    (n + DotWidth - 1) / DotWidth
  }

  /**
   * The two corners are swapped into place where needed, and each side is
   * rounded up to whole dots, so the grid covers the whole clicked area.
   */
  function Calibrate(first: Point, second: Point): (g: Grid)
    ensures g.left == first.x || g.left == second.x
    ensures g.top == first.y || g.top == second.y
    ensures g.left <= first.x && g.left <= second.x
    ensures g.top <= first.y && g.top <= second.y
    ensures g.left + g.width * DotWidth >= first.x && g.left + g.width * DotWidth >= second.x
    ensures g.top + g.height * DotWidth >= first.y && g.top + g.height * DotWidth >= second.y
    ensures g.width == 0 || g.left + (g.width - 1) * DotWidth < first.x || g.left + (g.width - 1) * DotWidth < second.x
    ensures g.height == 0 || g.top + (g.height - 1) * DotWidth < first.y || g.top + (g.height - 1) * DotWidth < second.y
  {
    var (left, right) := if second.x < first.x then (second.x, first.x) else (first.x, second.x);
    var (top, bottom) := if second.y < first.y then (second.y, first.y) else (first.y, second.y);
    Grid(left, top, DotsCovering(right - left), DotsCovering(bottom - top))
  }

  /** Which corner is clicked first does not matter. */
  lemma CalibrateSymmetric(first: Point, second: Point)
    ensures Calibrate(first, second) == Calibrate(second, first)
  {
  }

  /** Rust's `%` on `i32`: the remainder takes the sign of the dividend. */
  function TruncRem(a: int, d: int): (r: int)
    requires d > 0
    ensures Abs(r) < d
    ensures a >= 0 ==> r >= 0
    ensures a < 0 ==> r <= 0
  {
    if a >= 0 then a % d else -((-a) % d)
  }

  /** Rust's `/` on `i32`: the quotient is rounded toward zero. */
  function TruncDiv(a: int, d: int): (q: int)
    requires d > 0
    ensures q * d + TruncRem(a, d) == a
  {
    if a >= 0 then a / d
    else
      var n := -a;
      assert (n / d) * d + n % d == n;
      -(n / d)
  }

  /** A palette index as `(column, row)` in the ten-wide palette. */
  function PaletteCell(index: int): (cell: (int, int))
    ensures cell.1 * 10 + cell.0 == index
    ensures Abs(cell.0) < 10
    ensures 0 <= index ==> 0 <= cell.0 && 0 <= cell.1
    ensures 0 <= index < 30 ==> cell.1 < 3
  {
    var column := TruncRem(index, 10);
    (column, TruncDiv(index - column, 10))
  }

  /** Where `select_color` clicks for a palette index, given the black cell's position. */
  function PaletteClick(index: int, black: Point): Point
  {
    var (column, row) := PaletteCell(index);
    Point(column * ColorSpacing + black.x, row * ColorSpacing + black.y)
  }

  /** The 30 palette entries (20 presets and 10 custom slots) are clicked at 30 different places. */
  lemma PaletteClickInjective(i: int, j: int, black: Point)
    requires 0 <= i < 30 && 0 <= j < 30 && i != j
    ensures PaletteClick(i, black) != PaletteClick(j, black)
  {
    var (ci, ri) := PaletteCell(i);
    var (cj, rj) := PaletteCell(j);
    if ri == rj {
      assert ci != cj;
    }
  }

  const HexDigits: string := "0123456789ABCDEF"

  /** One byte as two upper-case hexadecimal digits (`{:02X?}` of a `u8`). */
  function HexByte(n: Channel): (s: string)
    ensures |s| == 2 && s[0] in HexDigits && s[1] in HexDigits
  {
    [HexDigits[n / 16], HexDigits[n % 16]]
  }

  /** The text typed into the colour dialog: `#RRGGBB`. */
  function HexColor(c: Color): (s: string)
    ensures |s| == 7 && s[0] == '#'
    ensures forall i :: 1 <= i < 7 ==> s[i] in HexDigits
  {
    "#" + HexByte(c.r) + HexByte(c.g) + HexByte(c.b)
  }

  /** The value of one upper-case hexadecimal digit. */
  function DigitValue(ch: char): (v: Option<nat>)
    ensures v.Some? <==> ch in HexDigits
    ensures v.Some? ==> v.value < 16 && HexDigits[v.value] == ch
  {
    if '0' <= ch <= '9' then Some(ch as int - '0' as int)
    else if 'A' <= ch <= 'F' then Some(ch as int - 'A' as int + 10)
    else None
  }

  function ParseByte(hi: char, lo: char): (r: Option<Channel>)
  {
    match (DigitValue(hi), DigitValue(lo))
    case (Some(h), Some(l)) => Some(h * 16 + l)
    case _ => None
  }

  /** Reads `#RRGGBB` back into a colour; anything else is rejected. */
  function ParseHexColor(s: string): (r: Option<Color>)
  {
    if |s| != 7 || s[0] != '#' then None
    else
      match (ParseByte(s[1], s[2]), ParseByte(s[3], s[4]), ParseByte(s[5], s[6]))
      case (Some(r), Some(g), Some(b)) => Some(Color(r, g, b))
      case _ => None
  }

  lemma HexByteRoundTrip(n: Channel)
    ensures ParseByte(HexByte(n)[0], HexByte(n)[1]) == Some(n)
  {
    var hi, lo := n / 16, n % 16;
    assert HexByte(n) == [HexDigits[hi], HexDigits[lo]];
    DigitUnique(HexDigits[hi], hi);
    DigitUnique(HexDigits[lo], lo);
    assert hi * 16 + lo == n;
  }

  lemma DigitUnique(ch: char, v: nat)
    requires v < 16 && HexDigits[v] == ch
    ensures DigitValue(ch) == Some(v)
  {
    var w := DigitValue(ch).value;
    assert HexDigits[w] == HexDigits[v];
  }

  /** The typed text names exactly the colour: reading it back gives the colour again. */
  lemma HexColorRoundTrip(c: Color)
    ensures ParseHexColor(HexColor(c)) == Some(c)
  {
    var s := HexColor(c);
    HexByteRoundTrip(c.r);
    HexByteRoundTrip(c.g);
    HexByteRoundTrip(c.b);
    assert s[1..3] == HexByte(c.r) && s[3..5] == HexByte(c.g) && s[5..7] == HexByte(c.b);
  }

  /** Distinct colours are typed as distinct texts. */
  lemma HexColorInjective(a: Color, b: Color)
    requires HexColor(a) == HexColor(b)
    ensures a == b
  {
    HexColorRoundTrip(a);
    HexColorRoundTrip(b);
  }
}
