/**
 Per-brick distances of a chunk: an in-place raster sweep, repeated at most `BRICKS_PER_AXIS`
 times. One sweep carries a distance any number of steps in the positive directions but only one
 step in the negative direction, so p sweeps give the least Manhattan distance over the
 solid bricks that need at most p negative steps.
 */
module BrickDistances {
  import opened Geometry

  /** Bricks per axis (N) and per chunk; 255 marks "no solid brick found". */
  const N: int := 4
  const BRICKS: int := 64
  const FAR: int := 255

  datatype Brick = Brick(x: int, y: int, z: int)

  predicate InChunk(b: Brick) {
    0 <= b.x < N && 0 <= b.y < N && 0 <= b.z < N
  }

  function Index(b: Brick): (i: int) {
    b.x + b.y * N + b.z * N * N
  }

  function At(i: int): (b: Brick)
    requires 0 <= i < BRICKS
    ensures InChunk(b) && Index(b) == i
  {
    Brick(i % N, i / N % N, i / (N * N))
  }

  lemma IndexInjective(a: Brick, b: Brick)
    requires InChunk(a) && InChunk(b) && Index(a) == Index(b)
    ensures a == b
  {}

  // ----- the reference: distances over the whole brick grid

  function Up(i: int): nat {
    if i > 0 then i else 0
  }

  function Manhattan(s: Brick, b: Brick): nat {
    Abs(s.x - b.x) + Abs(s.y - b.y) + Abs(s.z - b.z)
  }

  /** Steps in a negative direction on a shortest path from s to b. */
  function NegativeSteps(s: Brick, b: Brick): nat {
    Up(s.x - b.x) + Up(s.y - b.y) + Up(s.z - b.z)
  }

  predicate IsSolidBrick(solid: seq<bool>, s: Brick)
    requires |solid| == BRICKS
  {
    InChunk(s) && solid[Index(s)]
  }

  /** d is no larger than the distance to any solid brick within p negative steps, and is one of them, or 255. */
  ghost predicate Reached(solid: seq<bool>, p: nat, b: Brick, d: int)
    requires |solid| == BRICKS
  {
    && 0 <= d <= FAR
    && (forall s :: IsSolidBrick(solid, s) && NegativeSteps(s, b) <= p ==> d <= Manhattan(s, b))
    && (d < FAR ==> Attained(solid, p, b, d))
  }

  ghost predicate Attained(solid: seq<bool>, p: nat, b: Brick, d: int)
    requires |solid| == BRICKS
  {
    exists s :: IsSolidBrick(solid, s) && NegativeSteps(s, b) <= p && Manhattan(s, b) == d
  }

  /** The true distance: over all solid bricks. In this grid no path has more than 3(N - 1) negative steps. */
  ghost predicate IsNearest(solid: seq<bool>, b: Brick, d: int)
    requires |solid| == BRICKS
  {
    Reached(solid, 3 * (N - 1), b, d)
  }

  /** `dist` after p sweeps. */
  ghost predicate AfterSweeps(solid: seq<bool>, p: nat, dist: seq<int>)
    requires |solid| == BRICKS
  {
    |dist| == BRICKS && forall b :: InChunk(b) ==> Reached(solid, p, b, dist[Index(b)])
  }

  /** The characterisation leaves no choice. */
  lemma ReachedIsUnique(solid: seq<bool>, p: nat, b: Brick, d: int, e: int)
    requires |solid| == BRICKS && Reached(solid, p, b, d) && Reached(solid, p, b, e)
    ensures d == e
  {}

  /** Without a solid brick every distance stays 255. */
  lemma NoSolidIsFar(solid: seq<bool>, p: nat, dist: seq<int>)
    requires |solid| == BRICKS && (forall i :: 0 <= i < BRICKS ==> !solid[i])
    requires |dist| == BRICKS && (forall i :: 0 <= i < BRICKS ==> dist[i] == FAR)
    ensures AfterSweeps(solid, p, dist)
  {}

  // ----- one relaxation

  function Min(a: int, b: int): int {
    if a <= b then a else b
  }

  predicate Adjacent(a: Brick, b: Brick) {
    || a == Brick(b.x - 1, b.y, b.z) || a == Brick(b.x + 1, b.y, b.z)
    || a == Brick(b.x, b.y - 1, b.z) || a == Brick(b.x, b.y + 1, b.z)
    || a == Brick(b.x, b.y, b.z - 1) || a == Brick(b.x, b.y, b.z + 1)
  }

  /** What a brick reads from a neighbour during a sweep: lower neighbours are already swept. */
  ghost predicate Swept(solid: seq<bool>, p: nat, i: int, dist: seq<int>)
    requires |solid| == BRICKS
  {
    && |dist| == BRICKS
    && (forall b :: InChunk(b) && solid[Index(b)] ==> dist[Index(b)] == 0)
    && (forall b :: InChunk(b) && Index(b) < i ==> Reached(solid, p + 1, b, dist[Index(b)]))
    && (forall b :: InChunk(b) && i <= Index(b) ==>
          if p == 0 then dist[Index(b)] == if solid[Index(b)] then 0 else FAR
          else Reached(solid, p, b, dist[Index(b)]))
  }

  /** The least value among the in-chunk neighbours of b, 255 if all are far. */
  ghost predicate IsLeastNeighbour(dist: seq<int>, b: Brick, m: int)
    requires |dist| == BRICKS
  {
    && m <= FAR
    && (forall a :: InChunk(a) && Adjacent(a, b) ==> m <= dist[Index(a)])
    && (m < FAR ==> exists a :: InChunk(a) && Adjacent(a, b) && dist[Index(a)] == m)
  }

  /** What the sweep sees at a position; bricks outside the chunk are skipped. */
  function Seen(dist: seq<int>, a: Brick): int
    requires |dist| == BRICKS
  {
    if InChunk(a) then dist[Index(a)] else FAR
  }

  /** Reading the six neighbours in turn, each running minimum from the one before. */
  lemma LeastOfSix(dist: seq<int>, b: Brick, m1: int, m2: int, m3: int, m4: int, m5: int, m: int)
    requires |dist| == BRICKS
    requires m1 == Min(FAR, Seen(dist, Brick(b.x - 1, b.y, b.z))) && m2 == Min(m1, Seen(dist, Brick(b.x + 1, b.y, b.z)))
    requires m3 == Min(m2, Seen(dist, Brick(b.x, b.y - 1, b.z))) && m4 == Min(m3, Seen(dist, Brick(b.x, b.y + 1, b.z)))
    requires m5 == Min(m4, Seen(dist, Brick(b.x, b.y, b.z - 1))) && m == Min(m5, Seen(dist, Brick(b.x, b.y, b.z + 1)))
    ensures IsLeastNeighbour(dist, b, m)
  {}

  /** The neighbour of b one step closer to s; it costs a negative step exactly when b is not above s. */
  function Towards(b: Brick, s: Brick): Brick
    requires b != s
  {
    if b.x > s.x then Brick(b.x - 1, b.y, b.z)
    else if b.y > s.y then Brick(b.x, b.y - 1, b.z)
    else if b.z > s.z then Brick(b.x, b.y, b.z - 1)
    else if b.x < s.x then Brick(b.x + 1, b.y, b.z)
    else if b.y < s.y then Brick(b.x, b.y + 1, b.z)
    else Brick(b.x, b.y, b.z + 1)
  }

  /** Positive-direction steps are taken last, so the brick they come from is already swept. */
  lemma TowardsSteps(b: Brick, s: Brick)
    requires InChunk(b) && InChunk(s) && b != s
    ensures var a := Towards(b, s);
            && InChunk(a) && Adjacent(a, b) && Manhattan(s, a) == Manhattan(s, b) - 1
            && (Index(a) < Index(b) ==> NegativeSteps(s, a) == NegativeSteps(s, b))
            && (Index(a) > Index(b) ==>
                  NegativeSteps(s, b) == Manhattan(s, b) && NegativeSteps(s, a) == NegativeSteps(s, b) - 1)
            && Index(a) != Index(b)
  {}

  /** Coming from a neighbour costs at most one more step, and a negative one only from an upper neighbour. */
  lemma ViaNeighbour(s: Brick, a: Brick, b: Brick)
    requires InChunk(a) && InChunk(b) && Adjacent(a, b)
    ensures Manhattan(s, b) <= Manhattan(s, a) + 1
    ensures NegativeSteps(s, b) <= NegativeSteps(s, a) + (if Index(a) > Index(b) then 1 else 0)
    ensures Index(a) != Index(b)
  {}

  /** The upper bound: relaxing b accounts for every solid brick within p + 1 negative steps. */
  lemma RelaxedIsBound(solid: seq<bool>, p: nat, dist: seq<int>, b: Brick, m: int, s: Brick)
    requires |solid| == BRICKS && InChunk(b) && Swept(solid, p, Index(b), dist)
    requires IsLeastNeighbour(dist, b, m) && !solid[Index(b)]
    requires IsSolidBrick(solid, s) && NegativeSteps(s, b) <= p + 1
    ensures m + 1 <= Manhattan(s, b)
  {
    var a := Towards(b, s);
    TowardsSteps(b, s);
    assert m <= dist[Index(a)];
    if Index(a) < Index(b) {
      assert Reached(solid, p + 1, a, dist[Index(a)]);
    } else if p == 0 {
      assert Manhattan(s, a) == 0 && a == s;
    } else {
      assert Reached(solid, p, a, dist[Index(a)]);
    }
  }

  /** The least neighbour is witnessed by a solid brick at most m + 1 away from b. */
  lemma NeighbourWitness(solid: seq<bool>, p: nat, dist: seq<int>, b: Brick, m: int) returns (s: Brick)
    requires |solid| == BRICKS && InChunk(b) && Swept(solid, p, Index(b), dist)
    requires IsLeastNeighbour(dist, b, m) && m < FAR
    ensures IsSolidBrick(solid, s) && NegativeSteps(s, b) <= p + 1 && Manhattan(s, b) <= m + 1
  {
    var a :| InChunk(a) && Adjacent(a, b) && dist[Index(a)] == m;
    ViaNeighbour(a, a, b);
    if Index(a) < Index(b) {
      assert Reached(solid, p + 1, a, m) && Attained(solid, p + 1, a, m);
      s :| IsSolidBrick(solid, s) && NegativeSteps(s, a) <= p + 1 && Manhattan(s, a) == m;
    } else if p == 0 {
      s := a;
    } else {
      assert Reached(solid, p, a, m) && Attained(solid, p, a, m);
      s :| IsSolidBrick(solid, s) && NegativeSteps(s, a) <= p && Manhattan(s, a) == m;
    }
    ViaNeighbour(s, a, b);
  }

  /** The value the sweep stores at a brick that is not solid. */
  lemma Relaxed(solid: seq<bool>, p: nat, dist: seq<int>, b: Brick, m: int)
    requires |solid| == BRICKS && InChunk(b) && Swept(solid, p, Index(b), dist)
    requires IsLeastNeighbour(dist, b, m) && !solid[Index(b)]
    ensures Reached(solid, p + 1, b, Min(dist[Index(b)], Min(m + 1, FAR)))
  {
    var d := Min(dist[Index(b)], Min(m + 1, FAR));
    forall s | IsSolidBrick(solid, s) && NegativeSteps(s, b) <= p + 1
      ensures d <= Manhattan(s, b)
    {
      RelaxedIsBound(solid, p, dist, b, m, s);
    }
    if d < FAR {
      if d == m + 1 {
        var s := NeighbourWitness(solid, p, dist, b, m);
        assert Manhattan(s, b) == d;
      } else {
        assert Reached(solid, p, b, d);
      }
      assert Attained(solid, p + 1, b, d);
    }
  }

  // ----- convergence and exactness

  /** Nothing left to relax: what a sweep without a change has checked for bricks below i. */
  ghost predicate Stable(solid: seq<bool>, dist: seq<int>, i: int)
    requires |solid| == BRICKS == |dist|
  {
    forall a, b :: InChunk(a) && InChunk(b) && Adjacent(a, b) && Index(b) < i && !solid[Index(b)] ==>
      dist[Index(b)] <= dist[Index(a)] + 1
  }

  lemma {:induction false} StableIsBound(solid: seq<bool>, dist: seq<int>, s: Brick, b: Brick)
    requires |solid| == BRICKS == |dist| && Stable(solid, dist, BRICKS)
    requires forall b :: InChunk(b) && solid[Index(b)] ==> dist[Index(b)] == 0
    requires IsSolidBrick(solid, s) && InChunk(b)
    ensures dist[Index(b)] <= Manhattan(s, b)
    decreases Manhattan(s, b)
  {
    if b != s && !solid[Index(b)] {
      TowardsSteps(b, s);
      StableIsBound(solid, dist, s, Towards(b, s));
    }
  }

  lemma ConvergedReaches(solid: seq<bool>, p: nat, n: nat, dist: seq<int>, b: Brick)
    requires |solid| == BRICKS && AfterSweeps(solid, p, dist) && Stable(solid, dist, BRICKS)
    requires forall b :: InChunk(b) && solid[Index(b)] ==> dist[Index(b)] == 0
    requires InChunk(b) && (p <= n || n == 3 * (N - 1))
    ensures Reached(solid, n, b, dist[Index(b)])
  {
    var d := dist[Index(b)];
    forall s | IsSolidBrick(solid, s)
      ensures d <= Manhattan(s, b)
    {
      StableIsBound(solid, dist, s, b);
    }
    assert Reached(solid, p, b, d);
    if d < FAR {
      assert Attained(solid, p, b, d);
      var s :| IsSolidBrick(solid, s) && NegativeSteps(s, b) <= p && Manhattan(s, b) == d;
      assert NegativeSteps(s, b) <= 3 * (N - 1);
      assert Attained(solid, n, b, d);
    }
  }

  /** A sweep that changes nothing has found the true distances, and any further sweep keeps them. */
  lemma ConvergedIsNearest(solid: seq<bool>, p: nat, q: nat, dist: seq<int>)
    requires |solid| == BRICKS && AfterSweeps(solid, p, dist) && Stable(solid, dist, BRICKS)
    requires forall b :: InChunk(b) && solid[Index(b)] ==> dist[Index(b)] == 0
    ensures p <= q ==> AfterSweeps(solid, q, dist)
    ensures forall b :: InChunk(b) ==> IsNearest(solid, b, dist[Index(b)])
  {
    forall b | InChunk(b)
      ensures p <= q ==> Reached(solid, q, b, dist[Index(b)])
      ensures IsNearest(solid, b, dist[Index(b)])
    {
      if p <= q { ConvergedReaches(solid, p, q, dist, b); }
      ConvergedReaches(solid, p, 3 * (N - 1), dist, b);
    }
  }

  /** What one more sweep leaves as it is, is the true distance everywhere: the early exit is always right. */
  lemma RepeatedIsNearest(solid: seq<bool>, p: nat, dist: seq<int>)
    requires |solid| == BRICKS && AfterSweeps(solid, p, dist) && AfterSweeps(solid, p + 1, dist)
    ensures forall b :: InChunk(b) ==> IsNearest(solid, b, dist[Index(b)])
  {
    forall b | InChunk(b) && solid[Index(b)]
      ensures dist[Index(b)] == 0
    {
      assert IsSolidBrick(solid, b) && Manhattan(b, b) == 0 == NegativeSteps(b, b);
      assert Reached(solid, p, b, dist[Index(b)]);
    }
    forall a, b | InChunk(a) && InChunk(b) && Adjacent(a, b)
      ensures dist[Index(b)] <= dist[Index(a)] + 1
    {
      OneStepFurther(solid, p, a, b, dist[Index(a)], dist[Index(b)]);
    }
    ConvergedIsNearest(solid, p, p, dist);
  }

  /** A brick next to one with distance d is at most one step further, if one more negative step is allowed. */
  lemma OneStepFurther(solid: seq<bool>, p: nat, a: Brick, b: Brick, d: int, e: int)
    requires |solid| == BRICKS && InChunk(a) && InChunk(b) && Adjacent(a, b)
    requires Reached(solid, p, a, d) && Reached(solid, p + 1, b, e)
    ensures e <= d + 1
  {
    if d < FAR {
      assert Attained(solid, p, a, d);
      var s :| IsSolidBrick(solid, s) && NegativeSteps(s, a) <= p && Manhattan(s, a) == d;
      ViaNeighbour(s, a, b);
    }
  }

  /** The result never underestimates, and it is exact just when some nearest solid brick needs at most N negative steps. */
  lemma ExactIff(solid: seq<bool>, dist: seq<int>, b: Brick, nearest: int)
    requires |solid| == BRICKS && AfterSweeps(solid, N, dist) && InChunk(b) && IsNearest(solid, b, nearest)
    ensures nearest <= dist[Index(b)]
    ensures dist[Index(b)] == nearest <==> nearest == FAR || Attained(solid, N, b, nearest)
  {}

  /** The documented "minimum Manhattan distance" fails with only the far corner solid: 255 instead of 9. */
  lemma FarCornerIsMissed(solid: seq<bool>, dist: seq<int>)
    requires solid == seq(BRICKS, i => i == BRICKS - 1)
    requires AfterSweeps(solid, N, dist)
    ensures dist[Index(Brick(0, 0, 0))] == FAR
    ensures IsNearest(solid, Brick(0, 0, 0), 9)
  {
    var origin, corner := Brick(0, 0, 0), Brick(3, 3, 3);
    forall s | IsSolidBrick(solid, s)
      ensures s == corner
    {
      IndexInjective(s, corner);
    }
    assert Reached(solid, N, origin, dist[Index(origin)]);
    assert IsSolidBrick(solid, corner) && Manhattan(corner, origin) == 9;
    assert Attained(solid, 9, origin, 9);
  }

  // ----- the in-place algorithm

  /** One neighbour read: skipped when the neighbour is outside the chunk. */
  method Closer(distances: array<int>, m: int, a: Brick, inside: bool) returns (r: int)
    requires distances.Length == BRICKS && (inside <==> InChunk(a)) && m <= FAR
    ensures r == Min(m, Seen(distances[..], a)) && r <= FAR
  {
    r := m;
    if inside {
      r := Min(r, distances[a.x + a.y * N + a.z * N * N]);
    }
  }

  /** The minimum over the neighbours that exist, read from the array being swept. */
  method LeastNeighbour(distances: array<int>, x: int, y: int, z: int) returns (m: int)
    requires distances.Length == BRICKS && InChunk(Brick(x, y, z))
    ensures IsLeastNeighbour(distances[..], Brick(x, y, z), m)
  {
    m := Closer(distances, FAR, Brick(x - 1, y, z), x > 0);
    ghost var m1 := m;
    m := Closer(distances, m, Brick(x + 1, y, z), x < N - 1);
    ghost var m2 := m;
    m := Closer(distances, m, Brick(x, y - 1, z), y > 0);
    ghost var m3 := m;
    m := Closer(distances, m, Brick(x, y + 1, z), y < N - 1);
    ghost var m4 := m;
    m := Closer(distances, m, Brick(x, y, z - 1), z > 0);
    ghost var m5 := m;
    m := Closer(distances, m, Brick(x, y, z + 1), z < N - 1);
    LeastOfSix(distances[..], Brick(x, y, z), m1, m2, m3, m4, m5, m);
  }

  /** No distance has grown, and a change is reported exactly when there was one. */
  ghost predicate Lowered(before: seq<int>, after: seq<int>, changed: bool) {
    && |after| == |before| && (forall i :: 0 <= i < |before| ==> after[i] <= before[i])
    && (changed <==> after != before)
  }

  lemma LoweredThen(before: seq<int>, was: seq<int>, c: bool, after: seq<int>, d: bool)
    requires Lowered(before, was, c) && Lowered(was, after, d)
    ensures Lowered(before, after, c || d)
  {
    if c {
      var i :| 0 <= i < |before| && was[i] != before[i];
      assert after[i] < before[i];
    }
  }

  /** One sweep: pass p + 1, in raster order, in place. */
  method Sweep(distances: array<int>, ghost solid: seq<bool>, ghost p: nat) returns (changed: bool)
    requires |solid| == BRICKS && distances.Length == BRICKS && Swept(solid, p, 0, distances[..])
    modifies distances
    ensures Swept(solid, p, BRICKS, distances[..])
    ensures Lowered(old(distances[..]), distances[..], changed)
    ensures !changed ==> Stable(solid, distances[..], BRICKS)
  {
    changed := false;
    ghost var before := distances[..];
    for z := 0 to N
      invariant Swept(solid, p, z * N * N, distances[..])
      invariant Lowered(before, distances[..], changed) && (!changed ==> Stable(solid, distances[..], z * N * N))
    {
      for y := 0 to N
        invariant Swept(solid, p, y * N + z * N * N, distances[..])
        invariant Lowered(before, distances[..], changed) && (!changed ==> Stable(solid, distances[..], y * N + z * N * N))
      {
        for x := 0 to N
          invariant Swept(solid, p, x + y * N + z * N * N, distances[..])
          invariant Lowered(before, distances[..], changed)
          invariant !changed ==> Stable(solid, distances[..], x + y * N + z * N * N)
        {
          ghost var was := distances[..];
          var c := SweepBrick(distances, x, y, z, solid, p);
          LoweredThen(before, was, changed, distances[..], c);
          changed := changed || c;
        }
      }
    }
  }

  /** One brick of the sweep. */
  method SweepBrick(distances: array<int>, x: int, y: int, z: int, ghost solid: seq<bool>, ghost p: nat)
    returns (changed: bool)
    requires |solid| == BRICKS && distances.Length == BRICKS && InChunk(Brick(x, y, z))
    requires Swept(solid, p, Index(Brick(x, y, z)), distances[..])
    modifies distances
    ensures Swept(solid, p, Index(Brick(x, y, z)) + 1, distances[..])
    ensures Lowered(old(distances[..]), distances[..], changed)
    ensures !changed && Stable(solid, distances[..], Index(Brick(x, y, z))) ==>
              Stable(solid, distances[..], Index(Brick(x, y, z)) + 1)
  {
    ghost var b, was := Brick(x, y, z), distances[..];
    changed := false;
    var idx := x + y * N + z * N * N;
    if distances[idx] == 0 {
      ZeroIsSolid(solid, p, was, b);
      StableAdvances(solid, was, b, 0);
    } else {
      var minNeighbour := LeastNeighbour(distances, x, y, z);
      Relaxed(solid, p, was, b, minNeighbour);
      var newDist := Min(minNeighbour + 1, FAR);
      if newDist < distances[idx] {
        distances[idx] := newDist;
        changed := true;
      } else {
        StableAdvances(solid, was, b, minNeighbour);
      }
      assert distances[..] == was[Index(b) := Min(was[Index(b)], newDist)];
    }
    SweptAdvances(solid, p, was, distances[..], b);
  }

  /** A brick that needs no relaxation extends the checked part. */
  lemma StableAdvances(solid: seq<bool>, dist: seq<int>, b: Brick, m: int)
    requires |solid| == BRICKS == |dist| && InChunk(b)
    requires solid[Index(b)] || (IsLeastNeighbour(dist, b, m) && dist[Index(b)] <= m + 1)
    ensures Stable(solid, dist, Index(b)) ==> Stable(solid, dist, Index(b) + 1)
  {
    forall c | InChunk(c) && Index(c) == Index(b)
      ensures c == b
    {
      IndexInjective(c, b);
    }
  }

  /** Storing a p + 1 value at b moves the sweep past b. */
  lemma SweptAdvances(solid: seq<bool>, p: nat, was: seq<int>, now: seq<int>, b: Brick)
    requires |solid| == BRICKS && InChunk(b) && Swept(solid, p, Index(b), was)
    requires |now| == BRICKS && now == was[Index(b) := now[Index(b)]]
    requires solid[Index(b)] ==> now == was
    requires Reached(solid, p + 1, b, now[Index(b)])
    ensures Swept(solid, p, Index(b) + 1, now)
  {
    forall a | InChunk(a) && a != b
      ensures now[Index(a)] == was[Index(a)] && Index(a) != Index(b)
    {
      if Index(a) == Index(b) { IndexInjective(a, b); }
    }
  }

  /** Zero is stored at solid bricks only, and is right for them after any number of sweeps. */
  lemma ZeroIsSolid(solid: seq<bool>, p: nat, dist: seq<int>, b: Brick)
    requires |solid| == BRICKS && InChunk(b) && Swept(solid, p, Index(b), dist)
    requires solid[Index(b)] || dist[Index(b)] == 0
    ensures solid[Index(b)] && Reached(solid, p + 1, b, 0)
  {
    forall s | IsSolidBrick(solid, s) && Manhattan(s, b) == 0
      ensures s == b
    {}
    assert p == 0 || solid[Index(b)] || Reached(solid, p, b, 0);
    assert IsSolidBrick(solid, b) && Manhattan(b, b) == 0 == NegativeSteps(b, b);
    assert Attained(solid, p + 1, b, 0);
  }

  /** The source's loop: at most N sweeps, stopping after one that changes nothing. */
  method CalculateBrickDistances(hasSolid: seq<bool>) returns (result: seq<int>, ghost converged: bool)
    requires |hasSolid| == BRICKS
    ensures AfterSweeps(hasSolid, N, result)
    ensures converged <==> AfterSweeps(hasSolid, N - 1, result)
    ensures converged ==> forall b :: InChunk(b) ==> IsNearest(hasSolid, b, result[Index(b)])
  {
    var distances := new int[BRICKS](_ => FAR);
    for idx := 0 to BRICKS
      invariant forall i :: 0 <= i < idx ==> distances[i] == if hasSolid[i] then 0 else FAR
      invariant forall i :: idx <= i < BRICKS ==> distances[i] == FAR
    {
      if hasSolid[idx] {
        distances[idx] := 0;
      }
    }
    converged := false;
    for pass := 0 to N
      invariant Swept(hasSolid, pass, 0, distances[..])
      invariant pass > 0 ==> AfterSweeps(hasSolid, pass, distances[..])
      invariant pass > 1 ==> !AfterSweeps(hasSolid, pass - 1, distances[..])
    {
      ghost var was := distances[..];
      var changed := Sweep(distances, hasSolid, pass);
      SweepDone(hasSolid, pass, distances[..]);
      if changed {
        ChangeIsProgress(hasSolid, pass, was, distances[..]);
      } else {
        ConvergedIsNearest(hasSolid, if pass == 0 then 1 else pass, N - 1, distances[..]);
        ConvergedIsNearest(hasSolid, pass + 1, N, distances[..]);
        converged := true;
        return distances[..], converged;
      }
    }
    result := distances[..];
  }

  /** An array that a sweep changes is not yet what it was before. */
  lemma ChangeIsProgress(solid: seq<bool>, p: nat, was: seq<int>, now: seq<int>)
    requires |solid| == BRICKS && |was| == |now| == BRICKS && was != now
    ensures AfterSweeps(solid, p, was) ==> !AfterSweeps(solid, p, now)
  {
    if AfterSweeps(solid, p, was) && AfterSweeps(solid, p, now) {
      forall i | 0 <= i < BRICKS
        ensures was[i] == now[i]
      {
        ReachedIsUnique(solid, p, At(i), was[i], now[i]);
      }
      assert false;
    }
  }

  /** The end of one sweep is the start of the next. */
  lemma SweepDone(solid: seq<bool>, p: nat, dist: seq<int>)
    requires |solid| == BRICKS && Swept(solid, p, BRICKS, dist)
    ensures AfterSweeps(solid, p + 1, dist) && Swept(solid, p + 1, 0, dist)
  {}
}
