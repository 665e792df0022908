/** The crop box of the avatar cropper: the measured square origin and side
    are clamped into a W x H image and rounded to an integer pixel box.
    Python floats are exact reals here; `round` is Python's round, which
    breaks ties towards the even integer. */
module AvatarCrop {

  /** clamp(v, lo, hi) = max(lo, min(hi, v)). */
  function Clamp(v: real, lo: real, hi: real): (r: real)
    ensures lo <= hi ==> lo <= r <= hi
    ensures lo <= v <= hi ==> r == v
    ensures r == v || r == lo || r == hi
  {
    var m := if hi < v then hi else v;
    if m > lo then m else lo
  }

  /** Python's round(x) of a float: the nearest integer, a tie going to the
      even neighbour. */
  function Round(x: real): (n: int)
    ensures x - 0.5 <= n as real <= x + 0.5
    ensures (n as real - x == 0.5 || x - n as real == 0.5) ==> n % 2 == 0
  {
    var f := x.Floor;
    var d := x - f as real;
    if d < 0.5 then f
    else if d > 0.5 then f + 1
    else if f % 2 == 0 then f else f + 1
  }

  lemma RoundOfInteger(n: int)
    ensures Round(n as real) == n
  {
  }

  /** Rounding never reverses an order. */
  lemma RoundMonotone(x: real, y: real)
    requires x <= y
    ensures Round(x) <= Round(y)
  {
  }

  /** (left, top, right, bottom) as handed to im.crop. */
  datatype Box = Box(left: int, top: int, right: int, bottom: int)

  function Width(b: Box): int { b.right - b.left }
  function Height(b: Box): int { b.bottom - b.top }

  /** The clamped origin and side before rounding. */
  datatype Square = Square(x: real, y: real, s: real)

  function ClampSquare(cx: real, cy: real, size: real, w: nat, h: nat): (q: Square)
    ensures 0.0 <= q.x <= w as real && 0.0 <= q.y <= h as real
    ensures q.x + q.s <= w as real && q.y + q.s <= h as real
    ensures q.s <= size
    ensures q.s == size || q.s == w as real - q.x || q.s == h as real - q.y
  {
    var x := Clamp(cx, 0.0, w as real);
    var y := Clamp(cy, 0.0, h as real);
    var s := if w as real - x < size then w as real - x else size;
    var s' := if h as real - y < s then h as real - y else s;
    Square(x, y, s')
  }

  /** The box as written: every edge rounded on its own. */
  function CropBox(cx: real, cy: real, size: real, w: nat, h: nat): Box {
    var q := ClampSquare(cx, cy, size, w, h);
    Box(Round(q.x), Round(q.y), Round(q.x + q.s), Round(q.y + q.s))
  }

  /** The rounded box stays inside the image, whatever the measurement. */
  lemma CropBoxInsideImage(cx: real, cy: real, size: real, w: nat, h: nat)
    ensures var b := CropBox(cx, cy, size, w, h);
            0 <= b.left <= w && 0 <= b.top <= h && b.right <= w && b.bottom <= h
  {
    var q := ClampSquare(cx, cy, size, w, h);
    RoundOfInteger(0);
    RoundOfInteger(w);
    RoundOfInteger(h);
    RoundMonotone(0.0, q.x);
    RoundMonotone(0.0, q.y);
    RoundMonotone(q.x, w as real);
    RoundMonotone(q.y, h as real);
    RoundMonotone(q.x + q.s, w as real);
    RoundMonotone(q.y + q.s, h as real);
  }

  /** Each side of the rounded box is within one pixel of the clamped side,
      so the two sides differ by at most two pixels. */
  lemma CropBoxNearlySquare(cx: real, cy: real, size: real, w: nat, h: nat)
    requires 0.0 <= size
    ensures var b := CropBox(cx, cy, size, w, h);
            var s := ClampSquare(cx, cy, size, w, h).s;
            && 0.0 <= s
            && s - 1.0 <= Width(b) as real <= s + 1.0
            && s - 1.0 <= Height(b) as real <= s + 1.0
            && 0 <= Width(b) && 0 <= Height(b)
            && -2 <= Width(b) - Height(b) <= 2
  {
    var q := ClampSquare(cx, cy, size, w, h);
    RoundMonotone(q.x, q.x + q.s);
    RoundMonotone(q.y, q.y + q.s);
  }

  /** The measured square at x = 1.5, y = 0.5 with side 405 becomes a
      404 x 406 box: 1.5 rounds up to 2, 406.5 and 405.5 both round to 406,
      and 0.5 rounds down to 0. */
  lemma CropBoxNotSquare()
    ensures var b := CropBox(1.5, 0.5, 405.0, 1000, 1000);
            Width(b) == 404 && Height(b) == 406
  {
    var q := ClampSquare(1.5, 0.5, 405.0, 1000, 1000);
    assert q == Square(1.5, 0.5, 405.0);
    assert Round(1.5) == 2 by { assert (1.5).Floor == 1; }
    assert Round(0.5) == 0 by { assert (0.5).Floor == 0; }
    assert Round(406.5) == 406 by { assert (406.5).Floor == 406; }
    assert Round(405.5) == 406 by { assert (405.5).Floor == 405; }
  }

  /** The square box the cropper means to cut: the origin rounded, one
      rounded side for both directions, cut back where it would leave the
      image. */
  function SquareCropBox(cx: real, cy: real, size: real, w: nat, h: nat): Box {
    var q := ClampSquare(cx, cy, size, w, h);
    var left, top := Round(q.x), Round(q.y);
    var side := Min(Round(q.s), Min(w - left, h - top));
    Box(left, top, left + side, top + side)
  }

  function Min(a: int, b: int): int { if a <= b then a else b }

  /** The corrected box is an exact square inside the image whose side is
      the rounded side, or one pixel less where rounding the origin up would
      push it past the edge. */
  lemma SquareCropBoxIsSquare(cx: real, cy: real, size: real, w: nat, h: nat)
    requires 0.0 <= size
    ensures var b := SquareCropBox(cx, cy, size, w, h);
            var s := ClampSquare(cx, cy, size, w, h).s;
            && Width(b) == Height(b)
            && 0 <= b.left && 0 <= b.top && b.right <= w && b.bottom <= h
            && 0 <= Width(b)
            && Round(s) - 1 <= Width(b) <= Round(s)
  {
    var q := ClampSquare(cx, cy, size, w, h);
    RoundOfInteger(0);
    RoundOfInteger(w);
    RoundOfInteger(h);
    RoundMonotone(0.0, q.x);
    RoundMonotone(0.0, q.y);
    RoundMonotone(0.0, q.s);
    RoundMonotone(q.x, w as real);
    RoundMonotone(q.y, h as real);
  }
}
