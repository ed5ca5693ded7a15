/**
  The box blur of user/lib/glyph/draw.c as a function of an image: the average over a clamped window along
  each row, then along each column, with a fixed-point reciprocal instead of a division.
 */
module BoxBlur {
  import opened LineDrawing

  datatype Channel = Red | Green | Blue

  function Level(p: Pixel, c: Channel): (v: int)
    ensures 0 <= v < 256
  {
    match c
    case Red => p / 65536 % 256
    case Green => p / 256 % 256
    case Blue => p % 256
  }

  function Top(p: Pixel): (t: int)
    ensures 0 <= t < 256
  {
    p / 0x100_0000
  }

  // ---------------------------------------------------------------------------------------------
  // Packing
  // ---------------------------------------------------------------------------------------------

  /** Bitwise or. */
  function Or(a: nat, b: nat): nat {
    if a == 0 then b else if b == 0 then a
    else 2 * Or(a / 2, b / 2) + if a % 2 == 1 || b % 2 == 1 then 1 else 0
  }

  /** Moved left by `k` bits. */
  function Shifted(a: nat, k: nat): nat {
    if k == 0 then a else 2 * Shifted(a, k - 1)
  }

  /** Bits that lie apart add up. */
  lemma {:induction false} OrApart(a: nat, b: nat, k: nat)
    requires b < Shifted(1, k)
    ensures Or(Shifted(a, k), b) == Shifted(a, k) + b
  {
    if k > 0 {
      OrApart(a, b / 2, k - 1);
    }
  }

  lemma {:induction false} OrBound(a: nat, b: nat, k: nat)
    requires a < Shifted(1, k) && b < Shifted(1, k)
    ensures Or(a, b) < Shifted(1, k)
  {
    if k > 0 && a > 0 && b > 0 {
      OrBound(a / 2, b / 2, k - 1);
    }
  }

  lemma Shift8(a: nat)
    ensures Shifted(a, 8) == a * 256
  {
    assert Shifted(a, 1) == a * 2;
    assert Shifted(a, 3) == a * 8;
    assert Shifted(a, 5) == a * 32;
    assert Shifted(a, 7) == a * 128;
  }

  lemma {:induction false} ShiftTwice(a: nat, k: nat, l: nat)
    ensures Shifted(Shifted(a, k), l) == Shifted(a, k + l)
  {
    if l > 0 {
      ShiftTwice(a, k, l - 1);
    }
  }

  lemma Shifts(a: nat)
    ensures Shifted(a, 8) == a * 256 && Shifted(a, 16) == a * 65536
    ensures Shifted(a, 24) == a * 0x100_0000 && Shifted(a, 32) == a * 0x1_0000_0000
  {
    Shift8(a);
    ShiftTwice(a, 8, 8);
    Shift8(a * 256);
    ShiftTwice(a, 16, 8);
    Shift8(a * 65536);
    ShiftTwice(a, 24, 8);
    Shift8(a * 0x100_0000);
  }

  /** A pixel put together from the top byte of `p` and three averages, as it is written: or, not sum. */
  function Packed(p: Pixel, r: nat, g: nat, b: nat): (q: Pixel)
    requires r < 65536 && g < 65536 && b < 65536
  {
    Shifts(1);
    OrBound(Top(p) * 0x100_0000, r * 65536, 32);
    OrBound(Or(Top(p) * 0x100_0000, r * 65536), g * 256, 32);
    OrBound(Or(Or(Top(p) * 0x100_0000, r * 65536), g * 256), b, 32);
    Or(Or(Or(Top(p) * 0x100_0000, r * 65536), g * 256), b)
  }

  lemma PackedApart(p: Pixel, r: nat, g: nat, b: nat)
    requires r < 256 && g < 256 && b < 256
    ensures Packed(p, r, g, b) == Top(p) * 0x100_0000 + r * 65536 + g * 256 + b
  {
    hide Or, Shifted, Top;
    Shifts(1);
    Shifts(Top(p));
    Shifts(Top(p) * 256 + r);
    Shifts(Top(p) * 65536 + r * 256 + g);
    OrApart(Top(p), r * 65536, 24);
    OrApart(Top(p) * 256 + r, g * 256, 16);
    OrApart(Top(p) * 65536 + r * 256 + g, b, 8);
  }

  lemma LevelsApart(t: nat, r: nat, g: nat, b: nat)
    requires t < 256 && r < 256 && g < 256 && b < 256
    ensures var p := t * 0x100_0000 + r * 65536 + g * 256 + b;
      0 <= p < 0x1_0000_0000 && Top(p) == t && Level(p, Red) == r && Level(p, Green) == g && Level(p, Blue) == b
  {
    var p := t * 0x100_0000 + r * 65536 + g * 256 + b;
    Split(t, r * 65536 + g * 256 + b, 0x100_0000);
    Split(t * 256 + r, g * 256 + b, 65536);
    Split(t * 65536 + r * 256 + g, b, 256);
    Split(t, r, 256);
    Split(t * 256 + r, g, 256);
  }

  lemma Split(q: int, r: int, n: int)
    requires 0 <= r < n
    ensures (q * n + r) / n == q && (q * n + r) % n == r
  {
    Quotient(q, r, n, (q * n + r) / n, (q * n + r) % n);
  }

  lemma Quotient(q: int, r: int, n: int, q': int, r': int)
    requires 0 <= r < n && 0 <= r' < n && q * n + r == q' * n + r'
    ensures q == q' && r == r'
  {
    if q < q' {
      Farther(q, q', n);
    } else if q > q' {
      Farther(q', q, n);
    }
  }

  lemma Farther(a: int, b: int, n: int)
    requires a < b && n > 0
    ensures b * n >= a * n + n
  {
    assert b * n == (b - a) * n + a * n;
    assert (b - a) * n == (b - a - 1) * n + n;
    Product(b - a - 1, n);
  }

  lemma Product(a: nat, b: nat)
    ensures a * b >= 0
  {
  }

  lemma LevelsTogether(p: Pixel)
    ensures p == Top(p) * 0x100_0000 + Level(p, Red) * 65536 + Level(p, Green) * 256 + Level(p, Blue)
  {
  }

  // ---------------------------------------------------------------------------------------------
  // Windows and averages
  // ---------------------------------------------------------------------------------------------

  /** The line continued on both sides by its end pixels. */
  function At(line: seq<Pixel>, i: int): Pixel
    requires line != []
  {
    if i < 0 then line[0] else if i >= |line| then line[|line| - 1] else line[i]
  }

  /** The sum of a channel over the positions from `lo` up to `hi`. */
  function Sum(line: seq<Pixel>, c: Channel, lo: int, hi: int): (s: nat)
    requires line != [] && lo <= hi
    ensures s <= 255 * (hi - lo)
    decreases hi - lo
  {
    if lo == hi then 0 else Sum(line, c, lo, hi - 1) + Level(At(line, hi - 1), c)
  }

  lemma {:induction false} SumFront(line: seq<Pixel>, c: Channel, lo: int, hi: int)
    requires line != [] && lo < hi
    ensures Sum(line, c, lo, hi) == Level(At(line, lo), c) + Sum(line, c, lo + 1, hi)
    decreases hi - lo
  {
    if lo + 1 < hi {
      SumFront(line, c, lo, hi - 1);
    } else {
      assert Sum(line, c, lo, hi - 1) == 0;
    }
  }

  /** One step of a window: the pixel that comes in against the one that goes out. */
  lemma Slide(line: seq<Pixel>, c: Channel, lo: int, hi: int)
    requires line != [] && lo < hi
    ensures Sum(line, c, lo + 1, hi + 1) == Sum(line, c, lo, hi) + Level(At(line, hi), c) - Level(At(line, lo), c)
  {
    SumFront(line, c, lo, hi);
  }

  function Span(radius: nat): nat {
    2 * radius + 1
  }

  function Reciprocal(radius: nat): (r: nat)
    ensures r > 0
  {
    (65536 + Span(radius) - 1) / Span(radius)
  }

  /** In 32-bit arithmetic. */
  function Average(sum: nat, recip: nat): (a: nat)
    ensures a < 65536
  {
    sum * recip % 0x1_0000_0000 / 65536
  }

  /** What the blur makes of position `i` of a line. */
  function BlurAt(line: seq<Pixel>, radius: nat, i: nat): Pixel
    requires i < |line|
  {
    var lo, hi := i - radius, i + radius + 1;
    var recip := Reciprocal(radius);
    Packed(line[i], Average(Sum(line, Red, lo, hi), recip), Average(Sum(line, Green, lo, hi), recip),
           Average(Sum(line, Blue, lo, hi), recip))
  }

  function BlurLine(line: seq<Pixel>, radius: nat): (m: seq<Pixel>)
    ensures |m| == |line|
    ensures forall i | 0 <= i < |line| :: m[i] == BlurAt(line, radius, i)
  {
    seq(|line|, i requires 0 <= i < |line| => BlurAt(line, radius, i))
  }

  // ---------------------------------------------------------------------------------------------
  // Images
  // ---------------------------------------------------------------------------------------------

  type Image = seq<seq<Pixel>>

  ghost predicate Rectangle(img: Image, w: nat) {
    forall j | 0 <= j < |img| :: |img[j]| == w
  }

  function Column(img: Image, w: nat, i: nat): (c: seq<Pixel>)
    requires Rectangle(img, w) && i < w
    ensures |c| == |img| && forall j | 0 <= j < |img| :: c[j] == img[j][i]
  {
    seq(|img|, j requires 0 <= j < |img| => img[j][i])
  }

  function BlurRows(img: Image, radius: nat): (m: Image)
    ensures |m| == |img| && forall j | 0 <= j < |img| :: m[j] == BlurLine(img[j], radius)
  {
    seq(|img|, j requires 0 <= j < |img| => BlurLine(img[j], radius))
  }

  /** Every row on its own, then every column of what that gave. */
  function Blurred(img: Image, w: nat, radius: nat): (m: Image)
    requires Rectangle(img, w)
    ensures |m| == |img| && Rectangle(m, w)
    ensures forall i, j | 0 <= i < w && 0 <= j < |img| ::
      m[j][i] == BlurLine(Column(BlurRows(img, radius), w, i), radius)[j]
  {
    var rows := BlurRows(img, radius);
    seq(|img|, j requires 0 <= j < |img| =>
      seq(w, i requires 0 <= i < w => BlurLine(Column(rows, w, i), radius)[j]))
  }

  // ---------------------------------------------------------------------------------------------
  // What the averages are
  // ---------------------------------------------------------------------------------------------

  /** How much the rounded-up reciprocal is too large. */
  function Excess(radius: nat): (e: nat)
    ensures e < Span(radius) && Span(radius) * Reciprocal(radius) == 65536 + e
  {
    var n := Span(radius);
    assert n * ((65536 + n - 1) / n) == 65536 + n - 1 - (65536 + n - 1) % n;
    n * Reciprocal(radius) - 65536
  }
}
