/** Alpha blending of user/lib/glyph/draw.c: the packed two-lane blend and the rounded rectangle it is used for. */
module Blending {
  import opened LineDrawing
  import opened BoxBlur
  import opened BlurSurface

  type Alpha = a: int | 0 <= a <= 255

  // ---------------------------------------------------------------------------------------------
  // One pixel
  // ---------------------------------------------------------------------------------------------

  /** `x & 0x00ff00ff`. */
  function RedBlue(x: nat): nat {
    x / 65536 % 256 * 65536 + x % 256
  }

  /** `x & 0x0000ff00`. */
  function GreenOnly(x: nat): nat {
    x / 256 % 256 * 256
  }

  /** Both colours weighted and added to a rounding constant, in 32-bit arithmetic. */
  function Weighted(c: nat, p: nat, a: Alpha, rounding: nat): (x: nat) {
    Scale(c, a);
    Scale(p, 255 - a);
    (c * a + p * (255 - a) + rounding) % 0x1_0000_0000
  }

  lemma Scale(x: nat, k: nat)
    ensures 0 <= x * k && (x <= 255 ==> x * k <= 255 * k)
  {
    if x <= 255 {
      assert 255 * k == x * k + (255 - x) * k;
      Product(255 - x, k);
    }
  }

  /** Two multiplications for three channels; the two masks are disjoint, so their union is a sum. */
  function BlendPacked(px: Pixel, color: Pixel, a: Alpha): Pixel {
    var rb := Weighted(RedBlue(color), RedBlue(px), a, 0x80_0080);
    var g := Weighted(GreenOnly(color), GreenOnly(px), a, 0x8000);
    RedBlue(rb / 256) + GreenOnly(g / 256)
  }

  /** A channel's exact mix, still times 255. */
  function Mix(p: int, c: int, a: int): int {
    c * a + p * (255 - a)
  }

  lemma MixRange(p: int, c: int, a: Alpha)
    requires 0 <= p <= 255 && 0 <= c <= 255
    ensures 0 <= Mix(p, c, a) <= 255 * 255
  {
    Scale(c, a);
    Scale(p, 255 - a);
  }

  lemma LanesApart(hi: nat, lo: nat)
    requires hi < 65536 && lo < 65536
    ensures RedBlue((hi * 65536 + lo) % 0x1_0000_0000 / 256) == hi / 256 * 65536 + lo / 256
  {
    var h, l := hi / 256, lo / 256;
    Split(hi * 256 + l, lo % 256, 256);
    TwoBytes(hi, l);
  }

  lemma TwoBytes(hi: nat, l: nat)
    requires hi < 65536 && l < 256
    ensures RedBlue(hi * 256 + l) == hi / 256 * 65536 + l
  {
    Split(hi, l, 256);
    Split(hi / 256, hi % 256 * 256 + l, 65536);
  }

  lemma GreenLane(g: nat)
    requires g < 65536
    ensures GreenOnly(g * 256 % 0x1_0000_0000 / 256) == g / 256 * 256
  {
  }

  lemma MixLanes(r: int, b: int, r': int, b': int, a: int)
    ensures (r * 65536 + b) * a + (r' * 65536 + b') * (255 - a) + 0x80_0080
      == (Mix(r', r, a) + 128) * 65536 + (Mix(b', b, a) + 128)
    ensures r * 256 * a + r' * 256 * (255 - a) + 0x8000 == (Mix(r', r, a) + 128) * 256
  {
  }

  lemma RedBlueBlend(px: Pixel, color: Pixel, a: Alpha)
    ensures RedBlue(Weighted(RedBlue(color), RedBlue(px), a, 0x80_0080) / 256)
      == (Mix(Level(px, Red), Level(color, Red), a) + 128) / 256 * 65536
         + (Mix(Level(px, Blue), Level(color, Blue), a) + 128) / 256
  {
    hide Mix;
    MixRange(Level(px, Red), Level(color, Red), a);
    MixRange(Level(px, Blue), Level(color, Blue), a);
    MixLanes(Level(color, Red), Level(color, Blue), Level(px, Red), Level(px, Blue), a);
    LanesApart(Mix(Level(px, Red), Level(color, Red), a) + 128, Mix(Level(px, Blue), Level(color, Blue), a) + 128);
  }

  lemma GreenBlend(px: Pixel, color: Pixel, a: Alpha)
    ensures GreenOnly(Weighted(GreenOnly(color), GreenOnly(px), a, 0x8000) / 256)
      == (Mix(Level(px, Green), Level(color, Green), a) + 128) / 256 * 256
  {
    hide Mix;
    MixRange(Level(px, Green), Level(color, Green), a);
    MixLanes(Level(color, Green), 0, Level(px, Green), 0, a);
    GreenLane(Mix(Level(px, Green), Level(color, Green), a) + 128);
  }

  /** The lanes never carry: each channel is its own mix, rounded, over 256. */
  lemma BlendLanes(px: Pixel, color: Pixel, a: Alpha)
    ensures 0 <= BlendPacked(px, color, a) < 0x100_0000
    ensures forall c :: Level(BlendPacked(px, color, a), c) == (Mix(Level(px, c), Level(color, c), a) + 128) / 256
  {
    hide Mix, Weighted, RedBlue, GreenOnly, Level;
    var r, g, b := Mix(Level(px, Red), Level(color, Red), a), Mix(Level(px, Green), Level(color, Green), a),
                   Mix(Level(px, Blue), Level(color, Blue), a);
    MixRange(Level(px, Red), Level(color, Red), a);
    MixRange(Level(px, Green), Level(color, Green), a);
    MixRange(Level(px, Blue), Level(color, Blue), a);
    RedBlueBlend(px, color, a);
    GreenBlend(px, color, a);
    var q := BlendPacked(px, color, a);
    LevelsApart(0, (r + 128) / 256, (g + 128) / 256, (b + 128) / 256);
    forall c ensures Level(q, c) == (Mix(Level(px, c), Level(color, c), a) + 128) / 256 {
      match c case Red => case Green => case Blue =>
    }
  }

  /** The shift by eight is within one of the division by 255. */
  lemma ShiftNearDivision(x: int)
    requires 0 <= x <= 255 * 255
    ensures -1 <= (x + 128) / 256 - x / 255 <= 1
  {
  }

  /** Every channel of the packed blend is within one of the exact mix. */
  lemma BlendNear(px: Pixel, color: Pixel, a: Alpha, c: Channel)
    ensures var exact := Mix(Level(px, c), Level(color, c), a) / 255;
      exact - 1 <= Level(BlendPacked(px, color, a), c) <= exact + 1
  {
    hide Mix, BlendPacked, Level;
    BlendLanes(px, color, a);
    MixRange(Level(px, c), Level(color, c), a);
    ShiftNearDivision(Mix(Level(px, c), Level(color, c), a));
  }

  /** A blend with alpha 0 leaves a channel alone exactly when it is at most 128; a brighter one loses one. */
  lemma InvisibleBlend(px: Pixel, color: Pixel, c: Channel)
    ensures var was, now := Level(px, c), Level(BlendPacked(px, color, 0), c);
      (now == was <==> was <= 128) && (was > 128 ==> now == was - 1)
  {
    BlendLanes(px, color, 0);
    hide BlendPacked, Level;
  }

  /** Full alpha reproduces a channel of the colour exactly when it is at most 128; a brighter one loses one. */
  lemma OpaqueBlend(px: Pixel, color: Pixel, c: Channel)
    ensures var want, now := Level(color, c), Level(BlendPacked(px, color, 255), c);
      (now == want <==> want <= 128) && (want > 128 ==> now == want - 1)
  {
    BlendLanes(px, color, 255);
    hide BlendPacked, Level;
  }

  // ---------------------------------------------------------------------------------------------
  // Rectangles and corners
  // ---------------------------------------------------------------------------------------------

  function Clamped(alpha: int): (a: Alpha)
    ensures (0 <= alpha <= 255 ==> a == alpha) && (alpha < 0 ==> a == 0) && (alpha > 255 ==> a == 255)
  {
    if alpha < 0 then 0 else if alpha > 255 then 255 else alpha
  }

  /** Every pixel of the rectangle blended, once; the others stay. */
  method BlendRect(s: array2<Pixel>, x: int, y: int, w: int, h: int, color: Pixel, alpha: int)
    modifies s
    ensures forall i, j | 0 <= i < s.Length1 && 0 <= j < s.Length0 ::
      s[j, i] == if Within(i, x, w) && Within(j, y, h) then BlendPacked(old(s[j, i]), color, Clamped(alpha))
                 else old(s[j, i])
  {
    hide BlendPacked, Clip, Clamped;
    var (x', w') := Clip(x, w, s.Length1);
    var (y', h') := Clip(y, h, s.Length0);
    if w' <= 0 || h' <= 0 {
      return;
    }
    var a := Clamped(alpha);
    var j := y';
    while j < y' + h'
      invariant y' <= j <= y' + h'
      invariant forall i, k | 0 <= i < s.Length1 && 0 <= k < s.Length0 ::
        s[k, i] == if Within(i, x', w') && y' <= k < j then BlendPacked(old(s[k, i]), color, a) else old(s[k, i])
    {
      var i := x';
      while i < x' + w'
        invariant x' <= i <= x' + w'
        invariant forall q, k | 0 <= q < s.Length1 && 0 <= k < s.Length0 ::
          s[k, q] == if Within(q, x', w') && (y' <= k < j || (k == j && q < i)) then BlendPacked(old(s[k, q]), color, a)
          else old(s[k, q])
      {
        s[j, i] := BlendPacked(s[j, i], color, a);
        i := i + 1;
      }
      j := j + 1;
    }
  }

  /** A channel mixed exactly, rounded down. */
  function Mixed(p: int, c: int, a: Alpha): (v: int)
    requires 0 <= p <= 255 && 0 <= c <= 255
    ensures 0 <= v <= 255
  {
    MixRange(p, c, a);
    Mix(p, c, a) / 255
  }

  function Joined(r: int, g: int, b: int): Pixel
    requires 0 <= r <= 255 && 0 <= g <= 255 && 0 <= b <= 255
  {
    r * 65536 + g * 256 + b
  }

  /** One pixel with a division per channel: off at alpha 0, opaque from 255 on. */
  function BlendExact(px: Pixel, color: Pixel, alpha: int): Pixel {
    if alpha <= 0 then px
    else if alpha >= 255 then color
    else Joined(Mixed(Level(px, Red), Level(color, Red), alpha), Mixed(Level(px, Green), Level(color, Green), alpha),
                Mixed(Level(px, Blue), Level(color, Blue), alpha))
  }

  /** Twice the distance of a pixel's middle from the edge of the corner block that the arc is centred on. */
  function Offset(r: int, near: bool, i: int): int {
    if near then 2 * (i - r) + 1 else 2 * i + 1
  }

  function Square(x: int): int {
    x * x
  }

  /** The alpha of a pixel of a corner block: full inside the arc, nothing outside, in proportion on its rim. */
  function CornerAlpha(r: int, left: bool, top: bool, i: int, j: int, alpha: int): int {
    var inner, outer := Square(2 * r - 1), Square(2 * r + 1);
    var d := Square(Offset(r, left, i)) + Square(Offset(r, top, j));
    if d >= outer then 0
    else if d <= inner then alpha
    else RimWidth(r); alpha * (outer - d) / (outer - inner)
  }

  lemma RimWidth(r: int)
    ensures Square(2 * r + 1) - Square(2 * r - 1) == 8 * r
  {
  }

  /** A corner only takes alpha away. */
  lemma CornerAlphaRange(r: int, left: bool, top: bool, i: int, j: int, alpha: nat)
    ensures 0 <= CornerAlpha(r, left, top, i, j, alpha) <= alpha
  {
    hide Square;
    var inner, outer := Square(2 * r - 1), Square(2 * r + 1);
    var d := Square(Offset(r, left, i)) + Square(Offset(r, top, j));
    if inner < d < outer {
      Portion(alpha, outer - d, outer - inner);
    }
  }

  lemma Portion(a: nat, k: nat, n: nat)
    requires k <= n && n > 0
    ensures 0 <= a * k / n <= a
  {
    assert a * n == a * k + a * (n - k);
    Product(a, n - k);
    Product(a, k);
    if a * k / n > a {
      Farther(a, a * k / n, n);
    }
  }

  /** Every pixel of the corner block blended by its share of the arc, once; the others stay. */
  method AaCorner(s: array2<Pixel>, x: int, y: int, r: int, left: bool, top: bool, color: Pixel, alpha: int)
    modifies s
    ensures forall i, j | 0 <= i < s.Length1 && 0 <= j < s.Length0 ::
      s[j, i] == if Within(i, x, r) && Within(j, y, r)
      then BlendExact(old(s[j, i]), color, CornerAlpha(r, left, top, i - x, j - y, alpha)) else old(s[j, i])
  {
    hide BlendExact, CornerAlpha;
    var j := 0;
    while j < r
      invariant j <= r || r < 0
      invariant 0 <= j
      invariant forall p, q | 0 <= p < s.Length1 && 0 <= q < s.Length0 ::
        s[q, p] == if Within(p, x, r) && Within(q, y, j)
        then BlendExact(old(s[q, p]), color, CornerAlpha(r, left, top, p - x, q - y, alpha)) else old(s[q, p])
    {
      var i := 0;
      while i < r
        invariant 0 <= i <= r
        invariant forall p, q | 0 <= p < s.Length1 && 0 <= q < s.Length0 ::
          s[q, p] == if Within(p, x, r) && (Within(q, y, j) || (q == y + j && p < x + i))
          then BlendExact(old(s[q, p]), color, CornerAlpha(r, left, top, p - x, q - y, alpha)) else old(s[q, p])
      {
        if 0 <= x + i < s.Length1 && 0 <= y + j < s.Length0 {
          s[y + j, x + i] := BlendExact(s[y + j, x + i], color, CornerAlpha(r, left, top, i, j, alpha));
        }
        i := i + 1;
      }
      j := j + 1;
    }
  }

  /** What happens to a pixel `i` right and `j` down from the corner of a rounded box of `w` by `h`. */
  function RoundedPixel(px: Pixel, i: int, j: int, w: int, h: int, r: int, color: Pixel, alpha: Alpha): Pixel {
    if r <= i < w - r || r <= j < h - r then BlendPacked(px, color, alpha)
    else
      var left, top := i < r, j < r;
      BlendExact(px, color,
                 CornerAlpha(r, left, top, if left then i else i - (w - r), if top then j else j - (h - r), alpha))
  }

  /** The radius that fits the box. */
  function FitRadius(r: int, w: int, h: int): (f: int)
    requires w > 0 && h > 0
    ensures 0 <= f && 2 * f <= w && 2 * f <= h && (r <= w / 2 && r <= h / 2 && r >= 0 ==> f == r)
    ensures forall g | 0 <= g <= r && 2 * g <= w && 2 * g <= h :: g <= f
    ensures f == 0 || f <= r
  {
    var a := if r < 0 then 0 else r;
    var b := if a > w / 2 then w / 2 else a;
    if b > h / 2 then h / 2 else b
  }

  /** A translucent rounded box: every pixel of it is blended exactly once, no other pixel changes. */
  method BlendRoundedRect(s: array2<Pixel>, x: int, y: int, w: int, h: int, radius: int, color: Pixel, alpha: int)
    modifies s
    ensures forall i, j | 0 <= i < s.Length1 && 0 <= j < s.Length0 ::
      s[j, i] == if alpha > 0 && Within(i, x, w) && Within(j, y, h)
      then RoundedPixel(old(s[j, i]), i - x, j - y, w, h, FitRadius(radius, w, h), color, Clamped(alpha))
      else old(s[j, i])
  {
    hide BlendPacked, BlendExact, CornerAlpha, FitRadius;
    if alpha <= 0 || w <= 0 || h <= 0 {
      return;
    }
    var a := Clamped(alpha);
    var r := FitRadius(radius, w, h);
    BlendRect(s, x + r, y, w - 2 * r, h, color, a);
    BlendRect(s, x, y + r, r, h - 2 * r, color, a);
    BlendRect(s, x + w - r, y + r, r, h - 2 * r, color, a);
    AaCorner(s, x, y, r, true, true, color, a);
    AaCorner(s, x + w - r, y, r, false, true, color, a);
    AaCorner(s, x, y + h - r, r, true, false, color, a);
    AaCorner(s, x + w - r, y + h - r, r, false, false, color, a);
  }
}
