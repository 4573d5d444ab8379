/** Pixel coordinates and the drag radius computed while a drum zone is
    being drawn (drum.py:42). */
module Geometry {

  /** A pixel position `(x, y)` as delivered with a pointer event. */
  datatype Point = Point(x: int, y: int)

  function SquaredDistance(p: Point, q: Point): nat {
    (p.x - q.x) * (p.x - q.x) + (p.y - q.y) * (p.y - q.y)
  }

  /** Integer floor square root: the largest `r` with `r * r <= n`. */
  function ISqrt(n: nat): (r: nat)
    ensures r * r <= n < (r + 1) * (r + 1)
  {
    if n == 0 then 0
    else if n < 4 then 1
    else
      var h := 2 * ISqrt(n / 4);
      DoubleRoot(n, ISqrt(n / 4));
      if (h + 1) * (h + 1) <= n then h + 1 else h
  }

  /** A root of `n / 4` doubled brackets the root of `n` within two. */
  lemma DoubleRoot(n: nat, s: nat)
    requires s * s <= n / 4 < (s + 1) * (s + 1)
    ensures (2 * s) * (2 * s) <= n < (2 * s + 2) * (2 * s + 2)
  {
    var q := n / 4;
    assert 4 * q <= n < 4 * q + 4;
    assert (2 * s) * (2 * s) == 4 * (s * s);
    assert (2 * s + 2) * (2 * s + 2) == 4 * ((s + 1) * (s + 1));
    assert (s + 1) * (s + 1) >= q + 1;
  }

  /** `int(sqrt(dx**2 + dy**2))`: the Euclidean distance from the clicked
      centre to the pointer, truncated to whole pixels. */
  function DragRadius(center: Point, p: Point): (r: nat)
    ensures r * r <= SquaredDistance(center, p) < (r + 1) * (r + 1)
    ensures r == 0 <==> p == center
  {
    var d := SquaredDistance(center, p);
    var r := ISqrt(d);
    assert d == 0 ==> p.x == center.x && p.y == center.y;
    r
  }

  /** Dragging 3 to the right and 4 down gives a radius of exactly 5. */
  lemma DragRadiusExample()
    ensures DragRadius(Point(10, 10), Point(13, 14)) == 5
  {
    assert ISqrt(1) == 1;
    assert ISqrt(6) == 2;
    assert ISqrt(25) == 5;
  }
}
