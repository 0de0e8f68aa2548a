/**
 * Where an idle observer is sent (random_location_variance): the first
 * enemy start location, each coordinate moved by k percent of itself for a
 * drawn k in [-20, 19], then clamped to the map.
 */
module Scouting {

  /** A map position (Point2); coordinates are floats in the source, reals here. */
  datatype Point = Point(x: real, y: real)

  /** The playable map's size (game_info.map_size). */
  datatype MapSize = MapSize(width: nat, height: nat)

  /** The percentage draw randrange(-20, 20) can return. */
  predicate IsJitterDraw(k: int) {
    -20 <= k < 20
  }

  /** A coordinate moved by k percent of itself. */
  function Jittered(v: real, k: int): (r: real)
    ensures r == v * (1.0 + k as real / 100.0)
  {
    v + (k as real / 100.0) * v
  }

  /** The nearest point of [0, hi] to v. */
  function ClampAxis(v: real, hi: nat): (r: real)
    ensures 0.0 <= r <= hi as real
    ensures 0.0 <= v <= hi as real ==> r == v
    ensures v < 0.0 ==> r == 0.0
    ensures v > hi as real ==> r == hi as real
  {
    var below := if v < hi as real then v else hi as real;
    if below > 0.0 then below else 0.0
  }

  /**
   * random_location_variance: jitter both coordinates, then the four clamps
   * one after the other. The result is always on the map.
   */
  method RandomLocationVariance(enemyStart: Point, size: MapSize, kx: int, ky: int) returns (goTo: Point)
    requires IsJitterDraw(kx) && IsJitterDraw(ky)
    ensures 0.0 <= goTo.x <= size.width as real && 0.0 <= goTo.y <= size.height as real
    ensures goTo == Point(ClampAxis(Jittered(enemyStart.x, kx), size.width),
                          ClampAxis(Jittered(enemyStart.y, ky), size.height))
  {
    var x := enemyStart.x;
    var y := enemyStart.y;
    x := x + (kx as real / 100.0) * enemyStart.x;
    y := y + (ky as real / 100.0) * enemyStart.y;
    assert x == Jittered(enemyStart.x, kx) && y == Jittered(enemyStart.y, ky);
    ghost var jx, jy := x, y;
    if x < 0.0 {
      x := 0.0;
    }
    if y < 0.0 {
      y := 0.0;
    }
    if x > size.width as real {
      x := size.width as real;
    }
    if y > size.height as real {
      y := size.height as real;
    }
    assert x == ClampAxis(jx, size.width) && y == ClampAxis(jy, size.height);
    goTo := Point(x, y);
  }

  lemma ProductNonNegative(a: real, b: real)
    requires a >= 0.0 && b >= 0.0
    ensures a * b >= 0.0
  {
  }

  /** A non-negative coordinate is jittered to between 80% and 119% of itself. */
  lemma JitterBounded(v: real, k: int)
    requires v >= 0.0 && IsJitterDraw(k)
    ensures 0.8 * v <= Jittered(v, k) <= 1.19 * v
  {
    var f := k as real / 100.0;
    assert -0.2 <= f <= 0.19;
    ProductNonNegative(f + 0.2, v);
    ProductNonNegative(0.19 - f, v);
    assert Jittered(v, k) == v + f * v;
  }

  /**
   * A start coordinate that lies on the map is moved by less than a fifth of
   * itself: the destination lies in [0.8 v, 1.19 v].
   */
  lemma DestinationNearStart(v: real, hi: nat, k: int)
    requires 0.0 <= v <= hi as real && IsJitterDraw(k)
    ensures 0.8 * v <= ClampAxis(Jittered(v, k), hi) <= 1.19 * v
  {
    JitterBounded(v, k);
  }
}
