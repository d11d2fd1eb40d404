/** Squared distances between positions and the player, and what they say about near and far. */
module Distances {
  import opened Geometry

  function DistanceSq(p: Pos, player: Vec): real {
    var dx, dy, dz := p.x as real - player.x, p.y as real - player.y, p.z as real - player.z;
    dx * dx + dy * dy + dz * dz
  }

  /** How far c is from v on one axis. */
  function Gap(c: real, v: real): real {
    if c >= v then c - v else v - c
  }

  /** q is at least as far from the player as p on every axis. */
  predicate NoNearer(p: Pos, q: Pos, player: Vec) {
    && Gap(p.x as real, player.x) <= Gap(q.x as real, player.x)
    && Gap(p.y as real, player.y) <= Gap(q.y as real, player.y)
    && Gap(p.z as real, player.z) <= Gap(q.z as real, player.z)
  }

  /** And farther on one. */
  predicate Farther(p: Pos, q: Pos, player: Vec) {
    NoNearer(p, q, player) && !NoNearer(q, p, player)
  }

  lemma SquareOfGap(c: real, v: real)
    ensures (c - v) * (c - v) == Gap(c, v) * Gap(c, v) && Gap(c, v) >= 0.0
  {}

  lemma ProductIsPositive(a: real, b: real)
    requires a > 0.0 && b > 0.0
    ensures a * b > 0.0
  {}

  lemma SquareGrows(a: real, b: real)
    requires 0.0 <= a <= b
    ensures a * a <= b * b && (a < b ==> a * a < b * b)
  {
    if a < b {
      ProductIsPositive(b - a, b + a);
      assert (b - a) * (b + a) == b * b - a * a;
    }
  }

  lemma SumsGrow(a: real, b: real, c: real, d: real, e: real, f: real)
    requires 0.0 <= a <= d && 0.0 <= b <= e && 0.0 <= c <= f
    ensures a * a + b * b + c * c <= d * d + e * e + f * f
    ensures a < d || b < e || c < f ==> a * a + b * b + c * c < d * d + e * e + f * f
  {
    SquareGrows(a, d);
    SquareGrows(b, e);
    SquareGrows(c, f);
  }

  function SumOfSquares(a: real, b: real, c: real): real {
    a * a + b * b + c * c
  }

  lemma DistanceOfGaps(p: Pos, player: Vec, d: real)
    requires d == DistanceSq(p, player)
    ensures d == SumOfSquares(Gap(p.x as real, player.x), Gap(p.y as real, player.y), Gap(p.z as real, player.z))
  {
    SquareOfGap(p.x as real, player.x);
    SquareOfGap(p.y as real, player.y);
    SquareOfGap(p.z as real, player.z);
  }

  lemma SumsAreOrdered(a: real, b: real, c: real, d: real, e: real, f: real, s: real, t: real)
    requires 0.0 <= a <= d && 0.0 <= b <= e && 0.0 <= c <= f
    requires s == SumOfSquares(a, b, c) && t == SumOfSquares(d, e, f)
    ensures s <= t && (a < d || b < e || c < f ==> s < t)
  {
    SumsGrow(a, b, c, d, e, f);
  }

  lemma GapsOrder(p: Pos, q: Pos, player: Vec, s: real, t: real)
    requires NoNearer(p, q, player) && s == DistanceSq(p, player) && t == DistanceSq(q, player)
    ensures s <= t && (Farther(p, q, player) ==> s < t)
  {
    DistanceOfGaps(p, player, s);
    DistanceOfGaps(q, player, t);
    SumsAreOrdered(Gap(p.x as real, player.x), Gap(p.y as real, player.y), Gap(p.z as real, player.z),
                   Gap(q.x as real, player.x), Gap(q.y as real, player.y), Gap(q.z as real, player.z), s, t);
  }

  /** The distance grows with the gap on each axis. */
  lemma FartherIsMore(p: Pos, q: Pos, player: Vec)
    requires NoNearer(p, q, player)
    ensures DistanceSq(p, player) <= DistanceSq(q, player)
    ensures Farther(p, q, player) ==> DistanceSq(p, player) < DistanceSq(q, player)
  {
    GapsOrder(p, q, player, DistanceSq(p, player), DistanceSq(q, player));
  }

  /** No distance is negative, and only the player's own position has none. */
  lemma ZeroIsHere(p: Pos, player: Vec)
    ensures DistanceSq(p, player) >= 0.0
    ensures DistanceSq(p, player) == 0.0 <==> Vec(p.x as real, p.y as real, p.z as real) == player
  {
    var here := Vec(p.x as real, p.y as real, p.z as real);
    SquareOfGap(p.x as real, player.x);
    SquareOfGap(p.y as real, player.y);
    SquareOfGap(p.z as real, player.z);
    SquareGrows(0.0, Gap(p.x as real, player.x));
    SquareGrows(0.0, Gap(p.y as real, player.y));
    SquareGrows(0.0, Gap(p.z as real, player.z));
  }

  /** The axes count alike. */
  lemma AxesAreAlike(x: int, y: int, z: int, a: real, b: real, c: real)
    ensures DistanceSq(Pos(x, y, z), Vec(a, b, c)) == DistanceSq(Pos(y, z, x), Vec(b, c, a)) == DistanceSq(Pos(y, x, z), Vec(b, a, c))
  {}

  /** Along one axis it is the square of the gap, and gaps at right angles add up. */
  lemma RightAngles(p: Pos, player: Vec, yz: Pos)
    requires p.y as real == player.y && p.z as real == player.z && yz.x as real == player.x
    ensures DistanceSq(p, player) == Gap(p.x as real, player.x) * Gap(p.x as real, player.x)
    ensures DistanceSq(Pos(p.x, yz.y, yz.z), player) == DistanceSq(p, player) + DistanceSq(yz, player)
  {
    SquareOfGap(p.x as real, player.x);
  }
}
