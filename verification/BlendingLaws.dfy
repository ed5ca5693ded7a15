/**
  What blending by division does to each channel, and the shape of a rounded corner: its alpha depends on nothing but
  the distance from the middle of the arc, falls with it, and is the same in all four corners.
 */
module BlendingLaws {
  import opened LineDrawing
  import opened BoxBlur
  import opened Blending

  // ---------------------------------------------------------------------------------------------
  // One pixel
  // ---------------------------------------------------------------------------------------------

  /** The mix goes from one level to the other in equal steps. */
  lemma MixSteps(p: int, c: int, a: int)
    ensures Mix(p, c, 0) == 255 * p && Mix(p, c, 255) == 255 * c
    ensures Mix(p, c, a + 1) - Mix(p, c, a) == c - p
  {
    assert c * (a + 1) == c * a + c;
    assert p * (255 - a) == p * (255 - (a + 1)) + p;
  }

  /** Every channel of an exact blend is the mix of that channel of the two colours, rounded down. */
  lemma ExactLanes(px: Pixel, color: Pixel, alpha: int, c: Channel)
    requires 0 < alpha < 255
    ensures Level(BlendExact(px, color, alpha), c) == Mix(Level(px, c), Level(color, c), alpha) / 255
    ensures BlendExact(px, color, alpha) < 0x100_0000
  {
    hide Level, Mix;
    var r := Mixed(Level(px, Red), Level(color, Red), alpha);
    var g := Mixed(Level(px, Green), Level(color, Green), alpha);
    var b := Mixed(Level(px, Blue), Level(color, Blue), alpha);
    LevelsApart(0, r, g, b);
    match c case Red => case Green => case Blue =>
  }

  /** Without alpha the pixel stays, with all of it the colour replaces it, and otherwise every channel lies between. */
  lemma ExactBetween(px: Pixel, color: Pixel, alpha: int, c: Channel)
    ensures alpha <= 0 ==> BlendExact(px, color, alpha) == px
    ensures alpha >= 255 ==> BlendExact(px, color, alpha) == color
    ensures var p, q, v := Level(px, c), Level(color, c), Level(BlendExact(px, color, alpha), c);
      if p <= q then p <= v <= q else q <= v <= p
  {
    if 0 < alpha < 255 {
      hide Level, BlendExact;
      ExactLanes(px, color, alpha, c);
      Between(Level(px, c), Level(color, c), alpha);
    }
  }

  lemma Between(p: int, q: int, a: Alpha)
    ensures if p <= q then p <= Mix(p, q, a) / 255 <= q else q <= Mix(p, q, a) / 255 <= p
  {
    assert q * a + p * (255 - a) == 255 * p + (q - p) * a;
    if p <= q {
      Scale(q - p, a);
      assert (q - p) * a <= (q - p) * 255 by {
        Product(q - p, 255 - a);
        assert (q - p) * 255 == (q - p) * a + (q - p) * (255 - a);
      }
    } else {
      assert (q - p) * a == -((p - q) * a);
      Product(p - q, a);
      assert (p - q) * a <= (p - q) * 255 by {
        Product(p - q, 255 - a);
        assert (p - q) * 255 == (p - q) * a + (p - q) * (255 - a);
      }
    }
  }

  // ---------------------------------------------------------------------------------------------
  // Corners
  // ---------------------------------------------------------------------------------------------

  /** Across and down are alike. */
  lemma CornerTransposed(r: int, left: bool, top: bool, i: int, j: int, alpha: int)
    ensures CornerAlpha(r, left, top, i, j, alpha) == CornerAlpha(r, top, left, j, i, alpha)
  {
    hide Square;
  }

  /** A left corner is the mirror image of a right one, and an upper one of a lower one. */
  lemma CornerMirrored(r: int, side: bool, i: int, j: int, alpha: int)
    ensures CornerAlpha(r, true, side, i, j, alpha) == CornerAlpha(r, false, side, r - 1 - i, j, alpha)
    ensures CornerAlpha(r, side, true, i, j, alpha) == CornerAlpha(r, side, false, i, r - 1 - j, alpha)
  {
    hide Square;
    Opposite(Offset(r, true, i));
    Opposite(Offset(r, true, j));
    assert Offset(r, false, r - 1 - i) == -Offset(r, true, i);
    assert Offset(r, false, r - 1 - j) == -Offset(r, true, j);
  }

  lemma Opposite(x: int)
    ensures Square(-x) == Square(x)
  {
  }

  /** The square of the distance from the middle of the arc to the middle of a pixel of the lower right corner. */
  function Distance2(i: int, j: int): real {
    (i as real + 0.5) * (i as real + 0.5) + (j as real + 0.5) * (j as real + 0.5)
  }

  lemma {:induction false} RealProduct(a: nat, b: int)
    ensures (a * b) as real == a as real * b as real
  {
    if a > 0 {
      RealProduct(a - 1, b);
      RealStep(a, b);
    }
  }

  lemma RealStep(a: nat, b: int)
    requires a > 0
    ensures a * b == (a - 1) * b + b && a as real * b as real == (a - 1) as real * b as real + b as real
  {
    var x, y := (a - 1) as real, b as real;
    assert a as real == x + 1.0;
    assert (x + 1.0) * y == x * y + y;
  }

  lemma Doubled(i: nat)
    ensures Square(2 * i + 1) as real == 4.0 * ((i as real + 0.5) * (i as real + 0.5))
  {
    RealProduct(2 * i + 1, 2 * i + 1);
    assert (2 * i + 1) as real == 2.0 * (i as real + 0.5);
    Quadrupled(i as real + 0.5);
  }

  lemma Quadrupled(x: real)
    ensures (2.0 * x) * (2.0 * x) == 4.0 * (x * x)
  {
  }

  /** A pixel is covered in full up to half a pixel inside the radius, and not at all from half a pixel outside. */
  lemma CornerCovers(r: nat, i: nat, j: nat, alpha: int)
    ensures Distance2(i, j) >= (r as real + 0.5) * (r as real + 0.5) ==> CornerAlpha(r, false, false, i, j, alpha) == 0
    ensures r > 0 && Distance2(i, j) <= (r as real - 0.5) * (r as real - 0.5) ==>
      CornerAlpha(r, false, false, i, j, alpha) == alpha
  {
    hide Square;
    Doubled(i);
    Doubled(j);
    Doubled(r);
    RimWidth(r);
    if r > 0 {
      Doubled(r - 1);
      assert (r - 1) as real + 0.5 == r as real - 0.5;
    }
  }

  /** On the rim, one pixel wide, the alpha is the share of the rim that is still ahead, rounded down. */
  lemma CornerRim(r: nat, i: nat, j: nat, alpha: int)
    requires r > 0
    ensures var inner, outer := (2 * r - 1) * (2 * r - 1), (2 * r + 1) * (2 * r + 1);
      var d := (2 * i + 1) * (2 * i + 1) + (2 * j + 1) * (2 * j + 1);
      inner < d < outer ==>
        var a := CornerAlpha(r, false, false, i, j, alpha);
        a * (8 * r) <= alpha * (outer - d) < (a + 1) * (8 * r)
  {
    var inner, outer := Square(2 * r - 1), Square(2 * r + 1);
    var d := Square(2 * i + 1) + Square(2 * j + 1);
    RimWidth(r);
    assert inner == (2 * r - 1) * (2 * r - 1) && outer == (2 * r + 1) * (2 * r + 1);
    assert d == (2 * i + 1) * (2 * i + 1) + (2 * j + 1) * (2 * j + 1);
    hide Square;
    if inner < d < outer {
      Floor(alpha * (outer - d), 8 * r);
      assert CornerAlpha(r, false, false, i, j, alpha) == alpha * (outer - d) / (8 * r);
    }
  }

  lemma Floor(x: int, n: int)
    requires n > 0
    ensures (x / n) * n <= x < (x / n + 1) * n
  {
    assert (x / n + 1) * n == (x / n) * n + n;
  }

  /** Farther out, never more. */
  lemma CornerFalls(r: int, i: int, j: int, i': int, j': int, alpha: nat)
    requires 0 <= i <= i' && 0 <= j <= j'
    ensures CornerAlpha(r, false, false, i', j', alpha) <= CornerAlpha(r, false, false, i, j, alpha)
  {
    Grows(2 * i + 1, 2 * i' + 1);
    Grows(2 * j + 1, 2 * j' + 1);
    hide Square;
    CornerAlphaRange(r, false, false, i, j, alpha);
    CornerAlphaRange(r, false, false, i', j', alpha);
    var inner, outer := Square(2 * r - 1), Square(2 * r + 1);
    var d := Square(2 * i + 1) + Square(2 * j + 1);
    var d' := Square(2 * i' + 1) + Square(2 * j' + 1);
    if inner < d && d' < outer {
      Shares(alpha, outer - d', outer - d, outer - inner);
    }
  }

  lemma Grows(a: nat, b: nat)
    requires a <= b
    ensures Square(a) <= Square(b)
  {
    assert b * b == a * a + a * (b - a) + (b - a) * b;
    Product(a, b - a);
    Product(b - a, b);
  }

  lemma Shares(a: nat, k: nat, m: nat, n: nat)
    requires k <= m && n > 0
    ensures a * k / n <= a * m / n
  {
    assert a * m == a * k + a * (m - k);
    Product(a, m - k);
    Divided(a * k, a * m, n);
  }

  lemma Divided(x: int, y: int, n: int)
    requires x <= y && n > 0
    ensures x / n <= y / n
  {
    if x / n > y / n {
      Farther(y / n, x / n, n);
    }
  }

  // ---------------------------------------------------------------------------------------------
  // Boxes
  // ---------------------------------------------------------------------------------------------

  /** A rounded box is its own mirror image, left to right and top to bottom. */
  lemma BoxMirrored(px: Pixel, i: int, j: int, w: int, h: int, r: int, color: Pixel, alpha: Alpha)
    requires 0 <= r && 2 * r <= w && 2 * r <= h && 0 <= i < w && 0 <= j < h
    ensures RoundedPixel(px, w - 1 - i, j, w, h, r, color, alpha) == RoundedPixel(px, i, j, w, h, r, color, alpha)
    ensures RoundedPixel(px, i, h - 1 - j, w, h, r, color, alpha) == RoundedPixel(px, i, j, w, h, r, color, alpha)
  {
    hide BlendPacked, BlendExact, CornerAlpha;
    if !(r <= i < w - r || r <= j < h - r) {
      var left, top := i < r, j < r;
      var i', j' := if left then i else i - (w - r), if top then j else j - (h - r);
      CornerMirrored(r, top, i', j', alpha);
      CornerMirrored(r, left, i', j', alpha);
      CornerMirrored(r, top, r - 1 - i', j', alpha);
      CornerMirrored(r, left, i', r - 1 - j', alpha);
    }
  }

  /** Without a radius every pixel is blended alike. */
  lemma SquareBox(px: Pixel, i: int, j: int, w: int, h: int, color: Pixel, alpha: Alpha)
    requires 0 <= i < w && 0 <= j < h
    ensures RoundedPixel(px, i, j, w, h, 0, color, alpha) == BlendPacked(px, color, alpha)
  {
  }
}
