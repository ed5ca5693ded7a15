/** What the box blur's fixed-point averages are worth. */
module BlurLaws {
  import opened LineDrawing
  import opened BoxBlur

  /** The radii for which no average can leave its byte. */
  ghost predicate Fits(radius: nat) {
    255 * Excess(radius) < 65536
  }

  lemma SmallFits(radius: nat)
    requires radius <= 128
    ensures Fits(radius)
  {
    assert Excess(radius) < Span(radius);
  }

  // Products go through a name, so that the proofs below stay linear.

  function Times(a: int, b: int): int {
    a * b
  }

  lemma Distribute(q: int, n: int, r: int, k: int)
    ensures Times(q * n + r, k) == Times(q, n * k) + Times(r, k)
  {
  }

  lemma TimesSum(q: int, a: int, b: int)
    ensures Times(q, a + b) == Times(q, a) + Times(q, b)
  {
  }

  lemma Ordered(a: int, b: int, n: int)
    requires a <= b && n >= 0
    ensures Times(a, n) <= Times(b, n)
  {
    assert b * n == a * n + (b - a) * n;
    Product(b - a, n);
  }

  lemma NonNegative(a: nat, b: nat)
    ensures Times(a, b) >= 0
  {
  }

  lemma AverageIs(sum: nat, recip: nat)
    ensures Average(sum, recip) == Times(sum, recip) % 0x1_0000_0000 / 65536
  {
  }

  lemma SpanTimes(radius: nat)
    ensures Times(Span(radius), Reciprocal(radius)) == 65536 + Excess(radius)
    ensures Times(Span(radius) - 1, Reciprocal(radius)) == 65536 + Excess(radius) - Reciprocal(radius)
    ensures Times(255 * Span(radius), Reciprocal(radius)) == 255 * (65536 + Excess(radius))
  {
    hide Excess, Reciprocal, Span;
    var e := Excess(radius);
    Distribute(255, Span(radius), 0, Reciprocal(radius));
  }

  /** A product with the reciprocal is the quotient in the upper half, plus what the rounding adds. */
  lemma Decompose(sum: nat, radius: nat)
    ensures var q, r := sum / Span(radius), sum % Span(radius);
      Times(sum, Reciprocal(radius)) == q * 65536 + Times(q, Excess(radius)) + Times(r, Reciprocal(radius))
  {
    hide Excess, Reciprocal;
    var n, e, recip := Span(radius), Excess(radius), Reciprocal(radius);
    var q, r := sum / n, sum % n;
    Distribute(q, n, r, recip);
    assert sum == q * n + r;
    TimesSum(q, 65536, e);
  }

  lemma AtMost(sum: nat, radius: nat)
    requires sum <= 255 * Span(radius)
    ensures Times(sum, Reciprocal(radius)) <= 255 * (65536 + Excess(radius))
  {
    hide Span, Reciprocal, Excess, Times;
    SpanTimes(radius);
    Ordered(sum, 255 * Span(radius), Reciprocal(radius));
  }

  lemma Halves(x: nat, q: nat)
    requires q * 65536 <= x < 0x1_0000_0000
    ensures q <= x % 0x1_0000_0000 / 65536
    ensures x < (q + 1) * 65536 ==> x % 0x1_0000_0000 / 65536 == q
    ensures x < (q + 2) * 65536 ==> x % 0x1_0000_0000 / 65536 <= q + 1
  {
  }

  lemma UpperByte(x: nat)
    requires x < 0x100_0000
    ensures x % 0x1_0000_0000 / 65536 <= 255
  {
  }

  /** No average leaves its byte exactly for the radii that fit. */
  lemma NoOverflowExactly(radius: nat)
    ensures Fits(radius) <==> forall sum: nat | sum <= 255 * Span(radius) :: Average(sum, Reciprocal(radius)) <= 255
  {
    if Fits(radius) {
      forall sum: nat | sum <= 255 * Span(radius) ensures Average(sum, Reciprocal(radius)) <= 255 {
        AverageFits(sum, radius);
      }
    } else {
      var _ := OverflowAt(radius);
    }
  }

  lemma AverageFits(sum: nat, radius: nat)
    requires Fits(radius) && sum <= 255 * Span(radius)
    ensures Average(sum, Reciprocal(radius)) <= 255 && 0 <= Times(sum, Reciprocal(radius)) < 0x100_0000
  {
    hide Average, Reciprocal, Excess, Times;
    AtMost(sum, radius);
    NonNegative(sum, Reciprocal(radius));
    AverageIs(sum, Reciprocal(radius));
    UpperByte(Times(sum, Reciprocal(radius)));
  }

  /** The least multiple of `n` from `m` on. */
  lemma MultipleFrom(m: nat, n: nat) returns (k: nat)
    requires n > 0
    ensures m <= Times(k, n) < m + n
  {
    k := (m + n - 1) / n;
    assert m + n - 1 == k * n + (m + n - 1) % n;
  }

  lemma OverflowAt(radius: nat) returns (sum: nat)
    requires !Fits(radius)
    ensures sum <= 255 * Span(radius) && Average(sum, Reciprocal(radius)) > 255
  {
    hide Average, Reciprocal, Excess, Times;
    var recip := Reciprocal(radius);
    sum := MultipleFrom(0x100_0000, recip);
    ReciprocalSmall(radius);
    Halves(Times(sum, recip), 256);
    AverageIs(sum, recip);
    SpanTimes(radius);
    if sum > 255 * Span(radius) {
      Ordered(255 * Span(radius), sum - 1, recip);
      Distribute(1, sum - 1, 1, recip);
      Before(sum, recip);
    }
  }

  lemma Before(a: int, n: int)
    ensures Times(a - 1, n) == Times(a, n) - n
  {
  }

  lemma ReciprocalSmall(radius: nat)
    ensures Reciprocal(radius) <= 65536
  {
    hide Reciprocal, Excess, Times;
    SpanTimes(radius);
    assert Excess(radius) < Span(radius);
    if Reciprocal(radius) > 65536 {
      Ordered(65537, Reciprocal(radius), Span(radius));
      Swap(Reciprocal(radius), Span(radius));
      Literal(65537, Span(radius));
    }
  }

  lemma Swap(a: int, b: int)
    ensures Times(a, b) == Times(b, a)
  {
  }

  lemma Literal(a: int, b: int)
    ensures Times(a, b) == a * b
  {
  }

  lemma NearQuotient(sum: nat, radius: nat, q: nat, r: nat)
    requires radius <= 128 && sum <= 255 * Span(radius) && q <= 255 && r < Span(radius)
    requires Times(sum, Reciprocal(radius)) == q * 65536 + Times(q, Excess(radius)) + Times(r, Reciprocal(radius))
    ensures q <= Average(sum, Reciprocal(radius)) <= q + 1 && Average(sum, Reciprocal(radius)) <= 255
  {
    hide Average, Reciprocal, Excess, Times, Fits;
    var e, recip := Excess(radius), Reciprocal(radius);
    SmallFits(radius);
    AverageFits(sum, radius);
    SpanTimes(radius);
    Ordered(q, 255, e);
    Literal(255, e);
    Ordered(r, Span(radius) - 1, recip);
    NonNegative(q, e);
    NonNegative(r, recip);
    Halves(Times(sum, recip), q);
    AverageIs(sum, recip);
  }

  /** For a radius of up to 128 the average is the quotient or one more, and stays in its byte. */
  lemma AverageNear(sum: nat, radius: nat)
    requires radius <= 128 && sum <= 255 * Span(radius)
    ensures sum / Span(radius) <= Average(sum, Reciprocal(radius)) <= sum / Span(radius) + 1
    ensures Average(sum, Reciprocal(radius)) <= 255
  {
    hide Average, Reciprocal, Excess, Times;
    Decompose(sum, radius);
    QuotientAtMost(sum, Span(radius));
    NearQuotient(sum, radius, sum / Span(radius), sum % Span(radius));
  }

  lemma QuotientAtMost(sum: nat, n: nat)
    requires n > 0 && sum <= 255 * n
    ensures sum / n <= 255
  {
  }

  /** The three averages land in the three channels, and the top byte stays. */
  lemma ChannelsKept(line: seq<Pixel>, radius: nat, i: nat)
    requires i < |line| && Fits(radius)
    ensures Top(BlurAt(line, radius, i)) == Top(line[i])
    ensures forall c ::
      Level(BlurAt(line, radius, i), c) == Average(Sum(line, c, i - radius, i + radius + 1), Reciprocal(radius))
  {
    hide Average, Top, Level, Packed;
    var lo, hi, recip := i - radius, i + radius + 1, Reciprocal(radius);
    var r, g, b := Average(Sum(line, Red, lo, hi), recip), Average(Sum(line, Green, lo, hi), recip),
                   Average(Sum(line, Blue, lo, hi), recip);
    AverageFits(Sum(line, Red, lo, hi), radius);
    AverageFits(Sum(line, Green, lo, hi), radius);
    AverageFits(Sum(line, Blue, lo, hi), radius);
    PackedApart(line[i], r, g, b);
    LevelsApart(Top(line[i]), r, g, b);
    forall c ensures Level(BlurAt(line, radius, i), c) == Average(Sum(line, c, lo, hi), recip) {
      match c case Red => case Green => case Blue =>
    }
  }

  ghost predicate Flat(line: seq<Pixel>, p: Pixel) {
    forall i | 0 <= i < |line| :: line[i] == p
  }

  lemma {:induction false} FlatSum(line: seq<Pixel>, p: Pixel, c: Channel, lo: int, hi: int)
    requires line != [] && Flat(line, p) && lo <= hi
    ensures Sum(line, c, lo, hi) == Times(Level(p, c), hi - lo)
    decreases hi - lo
  {
    hide Level;
    Literal(Level(p, c), hi - lo);
    if lo < hi {
      FlatSum(line, p, c, lo, hi - 1);
      TimesSum(Level(p, c), hi - 1 - lo, 1);
    }
  }

  lemma FlatAverage(v: nat, radius: nat)
    requires v <= 255 && Fits(radius)
    ensures Times(v, Span(radius)) >= 0 && Average(Times(v, Span(radius)), Reciprocal(radius)) == v
  {
    hide Average, Reciprocal, Excess, Span;
    NonNegative(v, Span(radius));
    var e, sum := Excess(radius), Times(v, Span(radius));
    Distribute(v, Span(radius), 0, Reciprocal(radius));
    TimesSum(v, 65536, e);
    Ordered(v, 255, e);
    NonNegative(v, e);
    assert Times(sum, Reciprocal(radius)) == v * 65536 + Times(v, e);
    Halves(Times(sum, Reciprocal(radius)), v);
    AverageIs(sum, Reciprocal(radius));
  }

  /** Where a line has one colour, a blur that fits leaves it alone. */
  lemma FlatStays(line: seq<Pixel>, p: Pixel, radius: nat, i: nat)
    requires i < |line| && Flat(line, p) && Fits(radius)
    ensures BlurAt(line, radius, i) == p
  {
    hide Average, Top, Level, Packed, BlurAt, Sum, Fits;
    ChannelsKept(line, radius, i);
    var q := BlurAt(line, radius, i);
    forall c ensures Level(q, c) == Level(p, c) {
      FlatSum(line, p, c, i - radius, i + radius + 1);
      FlatAverage(Level(p, c), radius);
    }
    LevelsTogether(p);
    LevelsTogether(q);
  }

  lemma {:induction false} OrAtLeast(a: nat, b: nat)
    ensures Or(a, b) >= a && Or(a, b) >= b
  {
    if a != 0 && b != 0 { OrAtLeast(a / 2, b / 2); }
  }

  const WHITE: Pixel := 0xff_ffff

  lemma PackedWhite(p: Pixel, a: nat)
    requires Top(p) == 0 && a < 65536
    ensures Packed(p, a, a, a) == WHITE <==> a == 255
  {
    hide Or, Top;
    if a < 256 {
      PackedApart(p, a, a, a);
    } else {
      var red := Or(0, a * 65536);
      OrAtLeast(0, a * 65536);
      OrAtLeast(red, a * 256);
      OrAtLeast(Or(red, a * 256), a);
    }
  }

  /** What the blur makes of full channels: the product is cut to 32 bits before its upper half is taken. */
  lemma WhiteAverage(radius: nat)
    ensures Average(255 * Span(radius), Reciprocal(radius)) == 255 <==> 255 * Excess(radius) % 0x1_0000_0000 < 65536
  {
    hide Average, Reciprocal, Excess, Span, Times;
    SpanTimes(radius);
    AverageIs(255 * Span(radius), Reciprocal(radius));
    UpperHalf(255 * Excess(radius));
  }

  lemma UpperHalf(x: nat)
    ensures (255 * 65536 + x) % 0x1_0000_0000 / 65536 == 255 <==> x % 0x1_0000_0000 < 65536
  {
    var e := x % 0x1_0000_0000;
    assert (255 * 65536 + x) % 0x1_0000_0000 == (255 * 65536 + e) % 0x1_0000_0000;
  }

  /** A white line stays white for exactly the radii whose rounding, cut to 32 bits, stays below one. */
  lemma WhiteStaysExactly(line: seq<Pixel>, radius: nat, i: nat)
    requires i < |line| && Flat(line, WHITE)
    ensures BlurAt(line, radius, i) == WHITE <==> 255 * Excess(radius) % 0x1_0000_0000 < 65536
    ensures 255 * Excess(radius) < 0x1_0000_0000 ==> (BlurAt(line, radius, i) == WHITE <==> Fits(radius))
  {
    hide Average, Reciprocal, Excess, Packed, Sum;
    var sum, lo, hi := 255 * Span(radius), i - radius, i + radius + 1;
    FlatSum(line, WHITE, Red, lo, hi);
    FlatSum(line, WHITE, Green, lo, hi);
    FlatSum(line, WHITE, Blue, lo, hi);
    WhiteAverage(radius);
    PackedWhite(line[i], Average(sum, Reciprocal(radius)));
  }

  lemma Lanes256(p: Pixel)
    requires Top(p) == 0
    ensures Packed(p, 256, 256, 256) == 0x0101_0100
  {
    hide Or, Shifted;
    Shifts(1);
    Shifts(0x101);
    OrApart(1, 65536, 24);
    OrApart(0x101, 256, 16);
    OrZero(256 * 65536);
  }

  lemma OrZero(b: nat)
    ensures Or(0, b) == b
  {
  }

  /** A radius that does not fit: at 154, white comes out almost black and the top byte changes. */
  lemma WhiteTurnsDark()
    ensures !Fits(154) && BlurAt([0xff_ffff], 154, 0) == 0x0101_0100
  {
    hide Sum, Packed;
    var line: seq<Pixel> := [0xff_ffff];
    assert Span(154) == 309 && Reciprocal(154) == 213 && Excess(154) == 281;
    forall c ensures Sum(line, c, -154, 155) == 255 * 309 {
      FlatSum(line, 0xff_ffff, c, -154, 155);
    }
    assert Average(255 * 309, 213) == 256;
    Lanes256(0xff_ffff);
  }
}
