/**
  Line drawing on a surface (draw_line in user/lib/glyph/draw.c). A surface is an array of rows; pixels off
  the surface are dropped.
 */
module LineDrawing {
  import opened Common

  type Pixel = p: int | 0 <= p < 0x1_0000_0000

  /** Off the surface, nothing. */
  method PutPixel(s: array2<Pixel>, x: int, y: int, color: Pixel)
    modifies s
    ensures forall i, j | 0 <= i < s.Length1 && 0 <= j < s.Length0 ::
      s[j, i] == if i == x && j == y then color else old(s[j, i])
  {
    if 0 <= x < s.Length1 && 0 <= y < s.Length0 {
      s[y, x] := color;
    }
  }

  /** `x` steps from `from`, towards the side that `d` points to. */
  function Toward(from: int, d: int, steps: int): int {
    if d >= 0 then from + steps else from - steps
  }

  /** How far (i, j) is from the line through the origin and (dx, dy): zero on it. */
  function Cross(dx: int, dy: int, i: int, j: int): int {
    dx * j - dy * i
  }

  /**
    Pixel number `k` of a line from (x0, y0) to (x1, y1): `k` steps along the longer axis, and at most half a
    pixel off the ideal line along the shorter one.
   */
  ghost predicate OnLine(x0: int, y0: int, x1: int, y1: int, p: (int, int), k: nat) {
    var dx, dy := x1 - x0, y1 - y0;
    && (if Abs(dx) >= Abs(dy) then p.0 == Toward(x0, dx, k) else p.1 == Toward(y0, dy, k))
    && 2 * Abs(Cross(dx, dy, p.0 - x0, p.1 - y0)) <= Max(Abs(dx), Abs(dy))
  }

  /** The same in steps: `i` taken in x and `j` in y. */
  ghost predicate Track(dx: int, dy: int, i: int, j: int, k: nat) {
    && 0 <= i <= dx && 0 <= j <= dy && k <= Max(dx, dy)
    && (if dx >= dy then i == k else j == k)
    && -Max(dx, dy) <= 2 * Cross(dx, dy, i, j) <= Max(dx, dy)
  }

  lemma CrossOrigin(dx: int, dy: int)
    ensures Cross(dx, dy, 0, 0) == 0
  {
  }

  lemma CrossSteps(dx: int, dy: int, i: int, j: int)
    ensures Cross(dx, dy, i + 1, j) == Cross(dx, dy, i, j) - dy
    ensures Cross(dx, dy, i, j + 1) == Cross(dx, dy, i, j) + dx
    ensures Cross(dx, dy, i + 1, j + 1) == Cross(dx, dy, i, j) + dx - dy
  {
  }

  /** At the end of the longer axis, a whole step short or past on the other is a whole step off the line. */
  lemma CrossEnds(dx: int, dy: int, i: int, j: int)
    requires dx >= 0 && dy >= 0
    ensures i == dx && j < dy ==> Cross(dx, dy, i, j) <= -dx
    ensures 0 <= i <= dx && j > dy ==> Cross(dx, dy, i, j) >= dx
    ensures j == dy && i < dx ==> Cross(dx, dy, i, j) >= dy
    ensures 0 <= j <= dy && i > dx ==> Cross(dx, dy, i, j) <= -dy
  {
    if i == dx && j < dy {
      MulMono(dx, j + 1, dy);
    }
    if 0 <= i <= dx && j > dy {
      MulMono(dx, dy + 1, j);
      MulMono(dy, i, dx);
    }
    if j == dy && i < dx {
      MulMono(dy, i + 1, dx);
    }
    if 0 <= j <= dy && i > dx {
      MulMono(dy, dx + 1, i);
      MulMono(dx, j, dy);
    }
  }

  lemma MulMono(a: nat, b: int, c: int)
    requires b <= c
    ensures a * b <= a * c && a * (b - 1) == a * b - a && a * (b + 1) == a * b + a
  {
  }

  lemma Diagonal(d: int, i: int, j: int)
    requires d >= 0
    ensures i == j ==> Cross(d, d, i, j) == 0
    ensures i < j ==> Cross(d, d, i, j) >= d
    ensures j < i ==> Cross(d, d, i, j) <= -d
  {
    if i < j {
      MulMono(d, i + 1, j);
    } else if j < i {
      MulMono(d, j + 1, i);
    }
  }

  lemma AtEnd(dx: int, dy: int, i: int, j: int, k: nat)
    requires Track(dx, dy, i, j, k)
    ensures (i == dx && j == dy) <==> k == Max(dx, dy)
  {
    hide Cross;
    CrossEnds(dx, dy, i, j);
  }

  lemma StepWide(dx: int, dy: int, i: int, j: int, k: nat, e2: int)
    requires Track(dx, dy, i, j, k) && dx >= dy && k < dx && e2 == 2 * (Cross(dx, dy, i, j) + dx - dy)
    ensures e2 > -dy && Track(dx, dy, i + 1, if e2 < dx then j + 1 else j, k + 1)
  {
    hide Cross;
    Diagonal(dx, i, j);
    CrossSteps(dx, dy, i, j);
    CrossEnds(dx, dy, i + 1, if e2 < dx then j + 1 else j);
  }

  lemma StepTall(dx: int, dy: int, i: int, j: int, k: nat, e2: int)
    requires Track(dx, dy, i, j, k) && dx < dy && k < dy && e2 == 2 * (Cross(dx, dy, i, j) + dx - dy)
    ensures e2 < dx && Track(dx, dy, if e2 > -dy then i + 1 else i, j + 1, k + 1)
  {
    hide Cross;
    CrossSteps(dx, dy, i, j);
    CrossEnds(dx, dy, if e2 > -dy then i + 1 else i, j + 1);
  }

  lemma CrossSigns(dx: int, dy: int, i: int, j: int)
    ensures Cross(dx, -dy, i, -j) == -Cross(dx, dy, i, j)
    ensures Cross(-dx, dy, -i, j) == -Cross(dx, dy, i, j)
    ensures Cross(-dx, -dy, -i, -j) == Cross(dx, dy, i, j)
  {
  }

  lemma TrackOnLine(x0: int, y0: int, x1: int, y1: int, i: int, j: int, k: nat)
    requires Track(Abs(x1 - x0), Abs(y1 - y0), i, j, k)
    ensures OnLine(x0, y0, x1, y1, (Toward(x0, x1 - x0, i), Toward(y0, y1 - y0, j)), k)
  {
    hide Cross;
    CrossSigns(Abs(x1 - x0), Abs(y1 - y0), i, j);
  }

  /**
    The line from (x0, y0) to (x1, y1): exactly one pixel for each step of its longer axis, the ends included,
    none of them more than half a pixel from the ideal line; no other pixel of the surface changes.
   */
  method DrawLine(s: array2<Pixel>, x0: int, y0: int, x1: int, y1: int, color: Pixel)
    returns (ghost drawn: seq<(int, int)>)
    modifies s
    ensures |drawn| == Max(Abs(x1 - x0), Abs(y1 - y0)) + 1
    ensures drawn[0] == (x0, y0) && drawn[|drawn| - 1] == (x1, y1)
    ensures forall k | 0 <= k < |drawn| :: OnLine(x0, y0, x1, y1, drawn[k], k)
    ensures forall x, y | 0 <= x < s.Length1 && 0 <= y < s.Length0 ::
      s[y, x] == if (x, y) in drawn then color else old(s[y, x])
  {
    hide OnLine, Cross;
    var dx: int, dy: int := Abs(x1 - x0), Abs(y1 - y0);
    var sx := if x1 - x0 >= 0 then 1 else -1;
    var sy := if y1 - y0 >= 0 then 1 else -1;
    var err := dx - dy;
    var x, y := x0, y0;
    ghost var i, j := 0, 0;
    drawn := [];
    CrossOrigin(dx, dy);
    while true
      invariant Track(dx, dy, i, j, |drawn|)
      invariant x == Toward(x0, x1 - x0, i) && y == Toward(y0, y1 - y0, j)
      invariant err == Cross(dx, dy, i, j) + dx - dy
      invariant |drawn| > 0 ==> drawn[0] == (x0, y0)
      invariant |drawn| == 0 ==> i == 0 && j == 0
      invariant forall k | 0 <= k < |drawn| :: OnLine(x0, y0, x1, y1, drawn[k], k)
      invariant forall x, y | 0 <= x < s.Length1 && 0 <= y < s.Length0 ::
        s[y, x] == if (x, y) in drawn then color else old(s[y, x])
      decreases Max(dx, dy) - |drawn|
    {
      PutPixel(s, x, y, color);
      AtEnd(dx, dy, i, j, |drawn|);
      TrackOnLine(x0, y0, x1, y1, i, j, |drawn|);
      ghost var k := |drawn|;
      drawn := drawn + [(x, y)];
      if x == x1 && y == y1 {
        break;
      }
      var e2 := 2 * err;
      CrossSteps(dx, dy, i, j);
      if dx >= dy {
        StepWide(dx, dy, i, j, k, e2);
      } else {
        StepTall(dx, dy, i, j, k, e2);
      }
      if e2 > -dy {
        err := err - dy;
        x := x + sx;
        i := i + 1;
      }
      if e2 < dx {
        err := err + dx;
        y := y + sy;
        j := j + 1;
      }
    }
  }
}
