/** The box blur in place on a surface, with running sums and one scratch line (draw_box_blur). */
module BlurSurface {
  import opened LineDrawing
  import opened BoxBlur

  predicate Within(i: int, x: int, w: int) {
    x <= i < x + w
  }

  /** A range cut to `0..limit`; empty when nothing is left. */
  function Clip(x: int, w: int, limit: nat): (r: (int, int))
    ensures r.1 > 0 ==> 0 <= r.0 && r.0 + r.1 <= limit
    ensures forall i | 0 <= i < limit :: Within(i, x, w) <==> Within(i, r.0, r.1)
  {
    var x', w' := if x < 0 then 0 else x, if x < 0 then w + x else w;
    (x', if x' + w' > limit then limit - x' else w')
  }

  ghost predicate Inside(s: array2<Pixel>, x: nat, y: nat, w: nat, h: nat) {
    x + w <= s.Length1 && y + h <= s.Length0
  }

  ghost function RowOf(s: array2<Pixel>, row: nat, x: nat, w: nat): (line: seq<Pixel>)
    requires Inside(s, x, row, w, 1)
    reads s
    ensures |line| == w && forall i | 0 <= i < w :: line[i] == s[row, x + i]
  {
    seq(w, i requires 0 <= i < w reads s => s[row, x + i])
  }

  ghost function ColumnOf(s: array2<Pixel>, col: nat, y: nat, h: nat): (line: seq<Pixel>)
    requires Inside(s, col, y, 1, h)
    reads s
    ensures |line| == h && forall j | 0 <= j < h :: line[j] == s[y + j, col]
  {
    seq(h, j requires 0 <= j < h reads s => s[y + j, col])
  }

  /** A rectangle of the surface as an image. */
  ghost function Area(s: array2<Pixel>, x: nat, y: nat, w: nat, h: nat): (img: Image)
    requires Inside(s, x, y, w, h)
    reads s
    ensures |img| == h && forall j | 0 <= j < h :: img[j] == RowOf(s, y + j, x, w)
    ensures Rectangle(img, w)
  {
    seq(h, j requires 0 <= j < h reads s => RowOf(s, y + j, x, w))
  }

  /** The running sums at position `i`: the window around it, in each channel. */
  ghost predicate Sums(line: seq<Pixel>, radius: int, i: int, sr: int, sg: int, sb: int) {
    && line != [] && radius > 0
    && sr == Sum(line, Red, i - radius, i + radius + 1)
    && sg == Sum(line, Green, i - radius, i + radius + 1)
    && sb == Sum(line, Blue, i - radius, i + radius + 1)
  }

  lemma SumsBlur(line: seq<Pixel>, radius: int, i: nat, sr: int, sg: int, sb: int)
    requires Sums(line, radius, i, sr, sg, sb) && i < |line|
    ensures sr >= 0 && sg >= 0 && sb >= 0
    ensures var recip := Reciprocal(radius);
      Packed(line[i], Average(sr, recip), Average(sg, recip), Average(sb, recip)) == BlurAt(line, radius, i)
  {
  }

  /** The sums over the first window. */
  method FirstSums(tmp: array<Pixel>, n: nat, radius: int) returns (sr: int, sg: int, sb: int)
    requires 0 < n <= tmp.Length && radius > 0
    ensures Sums(tmp[..n], radius, 0, sr, sg, sb)
  {
    hide Level;
    ghost var line := tmp[..n];
    sr, sg, sb := 0, 0, 0;
    var i: int := -radius;
    while i <= radius
      invariant -radius <= i <= radius + 1
      invariant sr == Sum(line, Red, -radius, i)
      invariant sg == Sum(line, Green, -radius, i)
      invariant sb == Sum(line, Blue, -radius, i)
    {
      var p := if i < 0 then tmp[0] else if i >= n then tmp[n - 1] else tmp[i];
      assert p == At(line, i);
      sr, sg, sb := sr + Level(p, Red), sg + Level(p, Green), sb + Level(p, Blue);
      i := i + 1;
    }
  }

  /** The sums one position further on: the pixel that comes in against the one that goes out. */
  method NextSums(tmp: array<Pixel>, n: nat, radius: int, i: nat, sr: int, sg: int, sb: int)
    returns (sr': int, sg': int, sb': int)
    requires i < n <= tmp.Length && Sums(tmp[..n], radius, i, sr, sg, sb)
    ensures Sums(tmp[..n], radius, i + 1, sr', sg', sb')
  {
    hide Level, Sum;
    ghost var line := tmp[..n];
    var ov := if i - radius < 0 then tmp[0] else tmp[i - radius];
    var nv := if i + radius + 1 >= n then tmp[n - 1] else tmp[i + radius + 1];
    assert ov == At(line, i - radius) && nv == At(line, i + radius + 1);
    Slide(line, Red, i - radius, i + radius + 1);
    Slide(line, Green, i - radius, i + radius + 1);
    Slide(line, Blue, i - radius, i + radius + 1);
    sr' := sr + Level(nv, Red) - Level(ov, Red);
    sg' := sg + Level(nv, Green) - Level(ov, Green);
    sb' := sb + Level(nv, Blue) - Level(ov, Blue);
  }

  /** Nothing off the rectangle has changed. */
  twostate predicate OnlyIn(s: array2<Pixel>, x: nat, y: nat, w: nat, h: nat)
    reads s
  {
    forall i, j | 0 <= i < s.Length1 && 0 <= j < s.Length0 && !(Within(i, x, w) && Within(j, y, h)) ::
      s[j, i] == old(s[j, i])
  }

  method CopyRow(s: array2<Pixel>, row: nat, x: nat, w: nat, tmp: array<Pixel>)
    requires Inside(s, x, row, w, 1) && w <= tmp.Length
    modifies tmp
    ensures tmp[..w] == RowOf(s, row, x, w)
  {
    var i := 0;
    while i < w
      invariant 0 <= i <= w
      invariant forall k | 0 <= k < i :: tmp[k] == s[row, x + k]
    {
      tmp[i] := s[row, x + i];
      i := i + 1;
    }
  }

  /** One row in place; the rest of the surface stays. */
  method BlurRow(s: array2<Pixel>, row: nat, x: nat, w: nat, radius: int, tmp: array<Pixel>)
    requires Inside(s, x, row, w, 1) && 0 < w <= tmp.Length && radius > 0
    modifies s, tmp
    ensures RowOf(s, row, x, w) == BlurLine(old(RowOf(s, row, x, w)), radius)
    ensures OnlyIn(s, x, row, w, 1)
    ensures forall k | 0 <= k < s.Length0 && k != row :: RowOf(s, k, x, w) == old(RowOf(s, k, x, w))
  {
    hide Sums, BlurAt, Average, Packed;
    ghost var line := RowOf(s, row, x, w);
    CopyRow(s, row, x, w, tmp);
    var recip := Reciprocal(radius);
    var sr, sg, sb := FirstSums(tmp, w, radius);
    var i := 0;
    while i < w
      modifies s
      invariant 0 <= i <= w && tmp[..w] == line
      invariant Sums(line, radius, i, sr, sg, sb)
      invariant forall k | 0 <= k < i :: s[row, x + k] == BlurAt(line, radius, k)
      invariant OnlyIn(s, x, row, w, 1)
    {
      SumsBlur(line, radius, i, sr, sg, sb);
      s[row, x + i] := Packed(tmp[i], Average(sr, recip), Average(sg, recip), Average(sb, recip));
      sr, sg, sb := NextSums(tmp, w, radius, i, sr, sg, sb);
      i := i + 1;
    }
  }

  method CopyColumn(s: array2<Pixel>, col: nat, y: nat, h: nat, tmp: array<Pixel>)
    requires Inside(s, col, y, 1, h) && h <= tmp.Length
    modifies tmp
    ensures tmp[..h] == ColumnOf(s, col, y, h)
  {
    var i := 0;
    while i < h
      invariant 0 <= i <= h
      invariant forall k | 0 <= k < i :: tmp[k] == s[y + k, col]
    {
      tmp[i] := s[y + i, col];
      i := i + 1;
    }
  }

  /** One column in place; the rest of the surface stays. */
  method BlurColumn(s: array2<Pixel>, col: nat, y: nat, h: nat, radius: int, tmp: array<Pixel>)
    requires Inside(s, col, y, 1, h) && 0 < h <= tmp.Length && radius > 0
    modifies s, tmp
    ensures ColumnOf(s, col, y, h) == BlurLine(old(ColumnOf(s, col, y, h)), radius)
    ensures OnlyIn(s, col, y, 1, h)
    ensures forall k | 0 <= k < s.Length1 && k != col :: ColumnOf(s, k, y, h) == old(ColumnOf(s, k, y, h))
  {
    hide Sums, BlurAt, Average, Packed;
    ghost var line := ColumnOf(s, col, y, h);
    CopyColumn(s, col, y, h, tmp);
    var recip := Reciprocal(radius);
    var sr, sg, sb := FirstSums(tmp, h, radius);
    var i := 0;
    while i < h
      modifies s
      invariant 0 <= i <= h && tmp[..h] == line
      invariant Sums(line, radius, i, sr, sg, sb)
      invariant forall k | 0 <= k < i :: s[y + k, col] == BlurAt(line, radius, k)
      invariant OnlyIn(s, col, y, 1, h)
    {
      SumsBlur(line, radius, i, sr, sg, sb);
      s[y + i, col] := Packed(tmp[i], Average(sr, recip), Average(sg, recip), Average(sb, recip));
      sr, sg, sb := NextSums(tmp, h, radius, i, sr, sg, sb);
      i := i + 1;
    }
  }

  method BlurAcross(s: array2<Pixel>, x: nat, y: nat, w: nat, h: nat, radius: int, tmp: array<Pixel>)
    requires Inside(s, x, y, w, h) && 0 < w <= tmp.Length && radius > 0
    modifies s, tmp
    ensures Area(s, x, y, w, h) == BlurRows(old(Area(s, x, y, w, h)), radius)
    ensures OnlyIn(s, x, y, w, h)
  {
    hide BlurLine;
    var r := y;
    while r < y + h
      modifies s, tmp
      invariant y <= r <= y + h
      invariant forall k | y <= k < r :: RowOf(s, k, x, w) == BlurLine(old(RowOf(s, k, x, w)), radius)
      invariant forall k | r <= k < y + h :: RowOf(s, k, x, w) == old(RowOf(s, k, x, w))
      invariant OnlyIn(s, x, y, w, h)
    {
      BlurRow(s, r, x, w, radius, tmp);
      r := r + 1;
    }
  }

  method BlurDown(s: array2<Pixel>, x: nat, y: nat, w: nat, h: nat, radius: int, tmp: array<Pixel>)
    requires Inside(s, x, y, w, h) && 0 < h <= tmp.Length && radius > 0
    modifies s, tmp
    ensures forall c | x <= c < x + w :: ColumnOf(s, c, y, h) == BlurLine(old(ColumnOf(s, c, y, h)), radius)
    ensures OnlyIn(s, x, y, w, h)
  {
    hide BlurLine;
    var c := x;
    while c < x + w
      modifies s, tmp
      invariant x <= c <= x + w
      invariant forall k | x <= k < c :: ColumnOf(s, k, y, h) == BlurLine(old(ColumnOf(s, k, y, h)), radius)
      invariant forall k | c <= k < x + w :: ColumnOf(s, k, y, h) == old(ColumnOf(s, k, y, h))
      invariant OnlyIn(s, x, y, w, h)
    {
      BlurColumn(s, c, y, h, radius, tmp);
      c := c + 1;
    }
  }

  /**
    The blur of a rectangle, cut to the surface: in place it is the two-pass blur of what was there, and
    nothing else changes. `granted` is whether the scratch line could be had; without it nothing happens.
   */
  method BlurBox(s: array2<Pixel>, x: int, y: int, w: int, h: int, radius: int, granted: bool)
    modifies s
    ensures var ((x, w), (y, h)) := (Clip(x, w, s.Length1), Clip(y, h, s.Length0));
      if w <= 0 || h <= 0 || radius <= 0 || !granted then
        forall i, j | 0 <= i < s.Length1 && 0 <= j < s.Length0 :: s[j, i] == old(s[j, i])
      else
        Area(s, x, y, w, h) == Blurred(old(Area(s, x, y, w, h)), w, radius) && OnlyIn(s, x, y, w, h)
  {
    hide BlurLine;
    var (x, w) := Clip(x, w, s.Length1);
    var (y, h) := Clip(y, h, s.Length0);
    if w <= 0 || h <= 0 || radius <= 0 || !granted {
      return;
    }
    var tmp := new Pixel[if w > h then w else h];
    ghost var img := Area(s, x, y, w, h);
    BlurAcross(s, x, y, w, h, radius, tmp);
    ghost var rows := Area(s, x, y, w, h);
    forall i | 0 <= i < w ensures ColumnOf(s, x + i, y, h) == Column(rows, w, i) {
    }
    BlurDown(s, x, y, w, h, radius, tmp);
    ghost var done, want := Area(s, x, y, w, h), Blurred(img, w, radius);
    forall j | 0 <= j < h ensures done[j] == want[j] {
      forall i | 0 <= i < w ensures done[j][i] == want[j][i] {
        assert done[j][i] == ColumnOf(s, x + i, y, h)[j];
      }
    }
  }
}
