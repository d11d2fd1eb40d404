/**
 The voxel raycast: a DDA loop over exact reals. The reference it is proved against
 is the slab test: the ray meets the closed voxel `v` exactly for the parameters between the
 last slab entry and the first slab exit, so `SlabEntry` gives the distance at which the ray
 reaches `v` without any traversal.
 */
module Raycast {
  import opened Geometry
  import opened BlockTypes

  /** A distance along the ray; `Never` is `f32::INFINITY`. */
  datatype Time = At(t: real) | Never

  datatype Ray = Ray(origin: Vec, dir: Vec)

  datatype ModelData = ModelData(modelId: nat, rotation: nat)

  datatype SubHit = SubHit(t: real, normal: Pos)

  /** `model.ray_intersects`: local origin, direction and rotation to an optional sub-voxel hit. */
  type Model = (Vec, Vec, nat) -> Option<SubHit>

  datatype Scene = Scene(
    getBlock: Pos -> Option<BlockType>,
    getModelData: Pos -> Option<ModelData>,
    getModel: nat -> Option<Model>)

  datatype RaycastHit = RaycastHit(blockPos: Pos, normal: Pos, distance: real)

  // ----- one axis of the ray

  predicate Before(a: Time, b: Time) {
    a.At? && (b.Never? || a.t < b.t)
  }

  function Step(d: real): int {
    if d >= 0.0 then 1 else -1
  }

  /** When the ray leaves the slab [p, p + 1] of one axis. */
  function Exit(o: real, d: real, p: int): Time {
    if d == 0.0 then Never
    else if d > 0.0 then At(((p + 1) as real - o) / d)
    else At((p as real - o) / d)
  }

  /** When the ray enters the slab [p, p + 1] of one axis. */
  function Entry(o: real, d: real, p: int): real
    requires d != 0.0
  {
    if d > 0.0 then (p as real - o) / d else ((p + 1) as real - o) / d
  }

  function Delta(d: real): Time {
    if d == 0.0 then Never else At(if 1.0 / d < 0.0 then -(1.0 / d) else 1.0 / d)
  }

  function Advance(a: Time, b: Time): Time {
    if a.Never? || b.Never? then Never else At(a.t + b.t)
  }

  /** One coordinate of the ray point at parameter t. */
  function Coord(o: real, d: real, t: real): real {
    o + d * t
  }

  predicate InSlab(o: real, d: real, p: int, t: real) {
    p as real <= Coord(o, d, t) <= (p + 1) as real
  }

  predicate InsideSlab(o: real, d: real, p: int, t: real) {
    (p as real) < Coord(o, d, t) < (p + 1) as real
  }

  /** A coordinate is monotone in the parameter. */
  lemma Rising(o: real, d: real, a: real, b: real)
    requires a < b
    ensures d > 0.0 ==> Coord(o, d, a) < Coord(o, d, b)
    ensures d < 0.0 ==> Coord(o, d, b) < Coord(o, d, a)
    ensures d == 0.0 ==> Coord(o, d, a) == Coord(o, d, b)
  {
    if d > 0.0 {
      assert d * (b - a) > 0.0;
    } else if d < 0.0 {
      assert d * (b - a) < 0.0;
    } else {
      assert d * a == 0.0 == d * b;
    }
  }

  /** q is the parameter at which one coordinate reaches c, so the order of t and q is the order along the axis. */
  lemma Crossing(o: real, d: real, c: real, t: real)
    requires d != 0.0
    ensures var q := (c - o) / d;
            if d > 0.0 then (t <= q <==> o + d * t <= c) && (q <= t <==> c <= o + d * t)
            else (t <= q <==> c <= o + d * t) && (q <= t <==> o + d * t <= c)
  {
    var q := (c - o) / d;
    assert d * q == c - o;
    assert d * (t - q) == d * t - (c - o);
    if d > 0.0 {
      assert t > q ==> d * (t - q) > 0.0;
      assert t < q ==> d * (q - t) > 0.0;
    } else {
      assert t > q ==> d * (t - q) < 0.0;
      assert t < q ==> d * (q - t) < 0.0;
    }
  }

  /** One axis of the slab test: inside the slab exactly between entry and exit. */
  lemma AxisInterval(o: real, d: real, p: int, t: real)
    requires d != 0.0
    ensures InSlab(o, d, p, t) <==> Entry(o, d, p) <= t <= Exit(o, d, p).t
  {
    Crossing(o, d, p as real, t);
    Crossing(o, d, (p + 1) as real, t);
  }

  /** Stepping one voxel: the old exit is the new entry, and adding t_delta gives the new exit. */
  lemma AxisStep(o: real, d: real, p: int)
    requires d != 0.0
    ensures Entry(o, d, p + Step(d)) == Exit(o, d, p).t
    ensures Advance(Exit(o, d, p), Delta(d)) == Exit(o, d, p + Step(d))
    ensures Delta(d).t > 0.0
  {
    var q := p as real - o;
    assert (q + 1.0) / d == q / d + 1.0 / d;
    assert (q + 2.0) / d == (q + 1.0) / d + 1.0 / d;
    assert (q - 1.0) / d == q / d - 1.0 / d;
    assert d * (1.0 / d) == 1.0;
    assert d > 0.0 ==> 1.0 / d > 0.0;
    assert d < 0.0 ==> 1.0 / d < 0.0;
  }

  /** The first voxel contains the origin. */
  lemma AxisStart(o: real, d: real)
    ensures InSlab(o, d, o.Floor, 0.0)
    ensures d != 0.0 ==> Entry(o, d, o.Floor) <= 0.0 <= Exit(o, d, o.Floor).t
  {
    assert d * 0.0 == 0.0;
    if d != 0.0 { AxisInterval(o, d, o.Floor, 0.0); }
  }

  // ----- the ray against a voxel

  /** The closed voxel v contains the ray point at parameter t. */
  predicate Touches(ray: Ray, v: Pos, t: real) {
    InSlab(ray.origin.x, ray.dir.x, v.x, t) &&
    InSlab(ray.origin.y, ray.dir.y, v.y, t) &&
    InSlab(ray.origin.z, ray.dir.z, v.z, t)
  }

  /** The open voxel v contains the ray point at parameter t. */
  predicate Crosses(ray: Ray, v: Pos, t: real) {
    InsideSlab(ray.origin.x, ray.dir.x, v.x, t) &&
    InsideSlab(ray.origin.y, ray.dir.y, v.y, t) &&
    InsideSlab(ray.origin.z, ray.dir.z, v.z, t)
  }

  function Later(o: real, d: real, p: int, t: real): real {
    if d != 0.0 && Entry(o, d, p) > t then Entry(o, d, p) else t
  }

  /** The slab test: when the ray, started at parameter 0, has entered all three slabs of v. */
  function SlabEntry(ray: Ray, v: Pos): real {
    Later(ray.origin.x, ray.dir.x, v.x,
      Later(ray.origin.y, ray.dir.y, v.y,
        Later(ray.origin.z, ray.dir.z, v.z, 0.0)))
  }

  /** No point of a ray before SlabEntry is in the voxel. */
  lemma SlabEntryIsFirst(ray: Ray, v: Pos, t: real)
    requires t >= 0.0 && Touches(ray, v, t)
    ensures SlabEntry(ray, v) <= t
  {
    if ray.dir.x != 0.0 { AxisInterval(ray.origin.x, ray.dir.x, v.x, t); }
    if ray.dir.y != 0.0 { AxisInterval(ray.origin.y, ray.dir.y, v.y, t); }
    if ray.dir.z != 0.0 { AxisInterval(ray.origin.z, ray.dir.z, v.z, t); }
  }

  function Clamp01(r: real): real {
    if r < 0.0 then 0.0 else if r > 1.0 then 1.0 else r
  }

  function LocalEntry(ray: Ray, v: Pos, t: real): Vec {
    Vec(ray.origin.x + ray.dir.x * t - v.x as real,
        ray.origin.y + ray.dir.y * t - v.y as real,
        ray.origin.z + ray.dir.z * t - v.z as real)
  }

  /** The sub-voxel answer for a model block reached at distance t. */
  function ModelHit(scene: Scene, ray: Ray, v: Pos, t: real): Option<SubHit> {
    match scene.getModelData(v)
    case None => None
    case Some(data) =>
      match scene.getModel(data.modelId)
      case None => None
      case Some(model) => model(LocalEntry(ray, v, t), ray.dir, data.rotation)
  }

  /** p is the point at which the ray enters v, measured from the least corner of v. */
  predicate EntersAt(ray: Ray, v: Pos, p: Vec) {
    var e := SlabEntry(ray, v);
    && v.x as real + p.x == Coord(ray.origin.x, ray.dir.x, e)
    && v.y as real + p.y == Coord(ray.origin.y, ray.dir.y, e)
    && v.z as real + p.z == Coord(ray.origin.z, ray.dir.z, e)
  }

  /** The model placed at v, asked with its rotation at the point where the ray enters v, is hit so. */
  ghost predicate ModelIsHit(scene: Scene, ray: Ray, v: Pos, sub: SubHit) {
    exists p ::
      && EntersAt(ray, v, p)
      && scene.getModelData(v).Some? && scene.getModel(scene.getModelData(v).value.modelId).Some?
      && var data := scene.getModelData(v).value;
         scene.getModel(data.modelId).value(p, ray.dir, data.rotation) == Some(sub)
  }

  /** The answer at the computed entry point is the answer of the model there. */
  lemma ModelHitIff(scene: Scene, ray: Ray, v: Pos, sub: SubHit)
    ensures ModelHit(scene, ray, v, SlabEntry(ray, v)) == Some(sub) <==> ModelIsHit(scene, ray, v, sub)
  {
    var here := LocalEntry(ray, v, SlabEntry(ray, v));
    assert EntersAt(ray, v, here);
    assert forall p :: EntersAt(ray, v, p) ==> p == here;
  }

  /** v ends the ray: a targetable block, and for a model block one whose model is hit. */
  ghost predicate Stops(scene: Scene, ray: Ray, v: Pos) {
    match scene.getBlock(v)
    case None => false
    case Some(b) => IsTargetable(b) && (b == BlockType.Model ==> exists sub :: ModelIsHit(scene, ray, v, sub))
  }

  /** No voxel whose interior the ray crosses before `limit` ends it. */
  ghost predicate NoneCrossed(scene: Scene, ray: Ray, limit: real) {
    forall v, t :: 0.0 <= t < limit && Crosses(ray, v, t) ==> !Stops(scene, ray, v)
  }

  /** No gap: every ray point before `limit` lies in some closed voxel that does not end the ray. */
  ghost predicate Covered(scene: Scene, ray: Ray, limit: real) {
    forall t :: 0.0 <= t < limit ==> Passed(scene, ray, t)
  }

  ghost predicate Passed(scene: Scene, ray: Ray, t: real) {
    exists v :: Touches(ray, v, t) && !Stops(scene, ray, v)
  }

  /** n is the face of v through which the ray enters at parameter t; zero only in the start voxel. */
  predicate EnteredThrough(ray: Ray, v: Pos, n: Pos, t: real) {
    (n == Pos(0, 0, 0) && t == 0.0 && Touches(ray, v, 0.0)) ||
    (n == Pos(-Step(ray.dir.x), 0, 0) && ray.dir.x != 0.0 && Entry(ray.origin.x, ray.dir.x, v.x) == t) ||
    (n == Pos(0, -Step(ray.dir.y), 0) && ray.dir.y != 0.0 && Entry(ray.origin.y, ray.dir.y, v.y) == t) ||
    (n == Pos(0, 0, -Step(ray.dir.z)) && ray.dir.z != 0.0 && Entry(ray.origin.z, ray.dir.z, v.z) == t)
  }

  function GetPlacePosition(hit: RaycastHit): Pos {
    hit.blockPos.Plus(hit.normal)
  }

  /** What the first hit must satisfy, stated without the traversal. */
  ghost predicate IsFirstHit(scene: Scene, ray: Ray, maxDistance: real, hit: RaycastHit) {
    var v, e := hit.blockPos, SlabEntry(ray, hit.blockPos);
    && 0.0 <= e < maxDistance
    && Touches(ray, v, e)
    && Stops(scene, ray, v)
    && NoneCrossed(scene, ray, e)
    && Covered(scene, ray, e)
    && if scene.getBlock(v) == Some(BlockType.Model)
       then ModelIsHit(scene, ray, v, SubHit(hit.distance - e, hit.normal))
       else
         && hit.distance == e
         && EnteredThrough(ray, v, hit.normal, e)
         && (hit.normal != Pos(0, 0, 0) ==>
               Touches(ray, GetPlacePosition(hit), e) && !Stops(scene, ray, GetPlacePosition(hit)))
  }

  // ----- traversal invariants

  /** One axis at the loop head, at distance t. */
  predicate AxisAt(o: real, d: real, p: int, tMax: Time, t: real) {
    && tMax == Exit(o, d, p)
    && (d == 0.0 ==> p == o.Floor)
    && (d != 0.0 ==> Entry(o, d, p) <= t <= tMax.t)
  }

  /** At the loop head an axis stays in its slab from `t` up to its own exit. */
  lemma AxisCovers(o: real, d: real, p: int, tMax: Time, t: real, s: real)
    requires AxisAt(o, d, p, tMax, t) && t <= s && (tMax.At? ==> s <= tMax.t)
    ensures InSlab(o, d, p, s)
  {
    if d != 0.0 {
      AxisInterval(o, d, p, s);
    } else {
      assert d * s == 0.0;
    }
  }

  /** An open voxel that shares a point with a closed voxel is that voxel. */
  lemma CrossedIsTouched(ray: Ray, v: Pos, w: Pos, t: real)
    requires Crosses(ray, v, t) && Touches(ray, w, t)
    ensures v == w
  {
  }

  /** The voxel checked at [from, to] extends both coverage claims from `from` to `to`. */
  lemma ExtendCoverage(scene: Scene, ray: Ray, v: Pos, from: real, to: real)
    requires NoneCrossed(scene, ray, from) && Covered(scene, ray, from)
    requires !Stops(scene, ray, v)
    requires forall t :: from <= t <= to ==> Touches(ray, v, t)
    ensures NoneCrossed(scene, ray, to) && Covered(scene, ray, to)
  {
    forall w, t | 0.0 <= t < to && Crosses(ray, w, t)
      ensures !Stops(scene, ray, w)
    {
      if t >= from { CrossedIsTouched(ray, w, v, t); }
    }
    forall t | 0.0 <= t < to
      ensures Passed(scene, ray, t)
    {
      if t >= from { assert Touches(ray, v, t); }
    }
  }

  /** Boundaries still to cross on one axis before `maxDistance`. */
  function Remaining(o: real, d: real, p: int, maxDistance: real): int {
    if d == 0.0 then 0
    else if d > 0.0 then Coord(o, d, maxDistance).Floor + 1 - p
    else p - Coord(o, d, maxDistance).Floor + 1
  }

  lemma RemainingNonNegative(o: real, d: real, p: int, t: real, maxDistance: real)
    requires InSlab(o, d, p, t) && t < maxDistance
    ensures Remaining(o, d, p, maxDistance) >= 0
  {
    Rising(o, d, t, maxDistance);
  }

  /** Where the ray enters a voxel, the clamp to the unit cube changes nothing. */
  lemma ClampIsIdentity(ray: Ray, v: Pos, t: real)
    requires Touches(ray, v, t)
    ensures var l := LocalEntry(ray, v, t); Vec(Clamp01(l.x), Clamp01(l.y), Clamp01(l.z)) == l
  {
  }

  /** At the loop head the voxel holds the ray from `t` up to the first of the three exits. */
  lemma VoxelCovers(ray: Ray, v: Pos, tMaxX: Time, tMaxY: Time, tMaxZ: Time, t: real, s: real)
    requires AxisAt(ray.origin.x, ray.dir.x, v.x, tMaxX, t)
    requires AxisAt(ray.origin.y, ray.dir.y, v.y, tMaxY, t)
    requires AxisAt(ray.origin.z, ray.dir.z, v.z, tMaxZ, t)
    requires t <= s
    requires (tMaxX.At? ==> s <= tMaxX.t) && (tMaxY.At? ==> s <= tMaxY.t) && (tMaxZ.At? ==> s <= tMaxZ.t)
    ensures Touches(ray, v, s)
  {
    AxisCovers(ray.origin.x, ray.dir.x, v.x, tMaxX, t, s);
    AxisCovers(ray.origin.y, ray.dir.y, v.y, tMaxY, t, s);
    AxisCovers(ray.origin.z, ray.dir.z, v.z, tMaxZ, t, s);
  }

  /** Checking v and moving on to `next`, the first of the three exits, leaves no gap. */
  lemma CoverTo(scene: Scene, ray: Ray, v: Pos, tMaxX: Time, tMaxY: Time, tMaxZ: Time, t: real, next: real)
    requires AxisAt(ray.origin.x, ray.dir.x, v.x, tMaxX, t)
    requires AxisAt(ray.origin.y, ray.dir.y, v.y, tMaxY, t)
    requires AxisAt(ray.origin.z, ray.dir.z, v.z, tMaxZ, t)
    requires t <= next
    requires (tMaxX.At? ==> next <= tMaxX.t) && (tMaxY.At? ==> next <= tMaxY.t) && (tMaxZ.At? ==> next <= tMaxZ.t)
    requires NoneCrossed(scene, ray, t) && Covered(scene, ray, t) && !Stops(scene, ray, v)
    ensures NoneCrossed(scene, ray, next) && Covered(scene, ray, next) && Touches(ray, v, next)
  {
    forall s | t <= s <= next
      ensures Touches(ray, v, s)
    {
      VoxelCovers(ray, v, tMaxX, tMaxY, tMaxZ, t, s);
    }
    ExtendCoverage(scene, ray, v, t, next);
    VoxelCovers(ray, v, tMaxX, tMaxY, tMaxZ, t, next);
  }

  /** The loop invariant: the state (pos, t_max, distance, normal) of the traversal. */
  ghost predicate AtHead(scene: Scene, ray: Ray, v: Pos, tMaxX: Time, tMaxY: Time, tMaxZ: Time, t: real, n: Pos) {
    && t >= 0.0
    && AxisAt(ray.origin.x, ray.dir.x, v.x, tMaxX, t)
    && AxisAt(ray.origin.y, ray.dir.y, v.y, tMaxY, t)
    && AxisAt(ray.origin.z, ray.dir.z, v.z, tMaxZ, t)
    && t == SlabEntry(ray, v)
    && EnteredThrough(ray, v, n, t)
    && (n != Pos(0, 0, 0) ==> Touches(ray, v.Plus(n), t) && !Stops(scene, ray, v.Plus(n)))
    && NoneCrossed(scene, ray, t)
    && Covered(scene, ray, t)
  }

  lemma StartsAtHead(scene: Scene, ray: Ray)
    requires ray.dir != Vec(0.0, 0.0, 0.0)
    ensures var v := Pos(ray.origin.x.Floor, ray.origin.y.Floor, ray.origin.z.Floor);
            AtHead(scene, ray, v, Exit(ray.origin.x, ray.dir.x, v.x), Exit(ray.origin.y, ray.dir.y, v.y),
                   Exit(ray.origin.z, ray.dir.z, v.z), 0.0, Pos(0, 0, 0))
  {
    AxisStart(ray.origin.x, ray.dir.x);
    AxisStart(ray.origin.y, ray.dir.y);
    AxisStart(ray.origin.z, ray.dir.z);
  }

  /** The loop variant: boundaries still to cross on all axes. */
  function Boundaries(ray: Ray, v: Pos, maxDistance: real): int {
    Remaining(ray.origin.x, ray.dir.x, v.x, maxDistance) +
    Remaining(ray.origin.y, ray.dir.y, v.y, maxDistance) +
    Remaining(ray.origin.z, ray.dir.z, v.z, maxDistance)
  }

  /** Crossing an x boundary, when it comes first. */
  lemma StepX(scene: Scene, ray: Ray, v: Pos, tMaxX: Time, tMaxY: Time, tMaxZ: Time, t: real, n: Pos,
              maxDistance: real)
    requires AtHead(scene, ray, v, tMaxX, tMaxY, tMaxZ, t, n) && !Stops(scene, ray, v)
    requires Before(tMaxX, tMaxY) && Before(tMaxX, tMaxZ)
    ensures AtHead(scene, ray, Pos(v.x + Step(ray.dir.x), v.y, v.z), Advance(tMaxX, Delta(ray.dir.x)), tMaxY, tMaxZ,
                   tMaxX.t, Pos(-Step(ray.dir.x), 0, 0))
    ensures Boundaries(ray, Pos(v.x + Step(ray.dir.x), v.y, v.z), maxDistance) < Boundaries(ray, v, maxDistance)
  {
    var w := Pos(v.x + Step(ray.dir.x), v.y, v.z);
    AxisStep(ray.origin.x, ray.dir.x, v.x);
    CoverTo(scene, ray, v, tMaxX, tMaxY, tMaxZ, t, tMaxX.t);
    assert w.Plus(Pos(-Step(ray.dir.x), 0, 0)) == v;
  }

  /** Crossing a y boundary, when the x boundary does not come first and z comes later. */
  lemma StepY(scene: Scene, ray: Ray, v: Pos, tMaxX: Time, tMaxY: Time, tMaxZ: Time, t: real, n: Pos,
              maxDistance: real)
    requires AtHead(scene, ray, v, tMaxX, tMaxY, tMaxZ, t, n) && !Stops(scene, ray, v)
    requires !(Before(tMaxX, tMaxY) && Before(tMaxX, tMaxZ)) && Before(tMaxY, tMaxZ)
    ensures AtHead(scene, ray, Pos(v.x, v.y + Step(ray.dir.y), v.z), tMaxX, Advance(tMaxY, Delta(ray.dir.y)), tMaxZ,
                   tMaxY.t, Pos(0, -Step(ray.dir.y), 0))
    ensures Boundaries(ray, Pos(v.x, v.y + Step(ray.dir.y), v.z), maxDistance) < Boundaries(ray, v, maxDistance)
  {
    var w := Pos(v.x, v.y + Step(ray.dir.y), v.z);
    AxisStep(ray.origin.y, ray.dir.y, v.y);
    CoverTo(scene, ray, v, tMaxX, tMaxY, tMaxZ, t, tMaxY.t);
    assert w.Plus(Pos(0, -Step(ray.dir.y), 0)) == v;
  }

  /** Crossing a z boundary otherwise; it is finite because the direction is not zero. */
  lemma StepZ(scene: Scene, ray: Ray, v: Pos, tMaxX: Time, tMaxY: Time, tMaxZ: Time, t: real, n: Pos,
              maxDistance: real)
    requires ray.dir != Vec(0.0, 0.0, 0.0)
    requires AtHead(scene, ray, v, tMaxX, tMaxY, tMaxZ, t, n) && !Stops(scene, ray, v)
    requires !(Before(tMaxX, tMaxY) && Before(tMaxX, tMaxZ)) && !Before(tMaxY, tMaxZ)
    ensures tMaxZ.At?
    ensures AtHead(scene, ray, Pos(v.x, v.y, v.z + Step(ray.dir.z)), tMaxX, tMaxY, Advance(tMaxZ, Delta(ray.dir.z)),
                   tMaxZ.t, Pos(0, 0, -Step(ray.dir.z)))
    ensures Boundaries(ray, Pos(v.x, v.y, v.z + Step(ray.dir.z)), maxDistance) < Boundaries(ray, v, maxDistance)
  {
    var w := Pos(v.x, v.y, v.z + Step(ray.dir.z));
    AxisStep(ray.origin.z, ray.dir.z, v.z);
    CoverTo(scene, ray, v, tMaxX, tMaxY, tMaxZ, t, tMaxZ.t);
    assert w.Plus(Pos(0, 0, -Step(ray.dir.z))) == v;
  }

  lemma BoundariesRemain(scene: Scene, ray: Ray, v: Pos, tMaxX: Time, tMaxY: Time, tMaxZ: Time, t: real, n: Pos,
                         maxDistance: real)
    requires AtHead(scene, ray, v, tMaxX, tMaxY, tMaxZ, t, n) && t < maxDistance
    ensures Boundaries(ray, v, maxDistance) >= 0 && Touches(ray, v, t)
  {
    VoxelCovers(ray, v, tMaxX, tMaxY, tMaxZ, t, t);
    RemainingNonNegative(ray.origin.x, ray.dir.x, v.x, t, maxDistance);
    RemainingNonNegative(ray.origin.y, ray.dir.y, v.y, t, maxDistance);
    RemainingNonNegative(ray.origin.z, ray.dir.z, v.z, t, maxDistance);
  }

  lemma ModelAnswers(scene: Scene, ray: Ray, v: Pos)
    ensures var answer := ModelHit(scene, ray, v, SlabEntry(ray, v));
            if answer.Some? then ModelIsHit(scene, ray, v, answer.value) else forall sub :: !ModelIsHit(scene, ray, v, sub)
  {
    forall sub {
      ModelHitIff(scene, ray, v, sub);
    }
  }

  /** The body of the loop before the step: does the voxel reached at `distance` end the ray? */
  method CheckVoxel(scene: Scene, ray: Ray, pos: Pos, ghost tMaxX: Time, ghost tMaxY: Time, ghost tMaxZ: Time,
                    distance: real, normal: Pos, ghost maxDistance: real)
    returns (hit: Option<RaycastHit>)
    requires AtHead(scene, ray, pos, tMaxX, tMaxY, tMaxZ, distance, normal)
    requires distance < maxDistance && Touches(ray, pos, distance)
    ensures hit.Some? <==> Stops(scene, ray, pos)
    ensures hit.Some? ==> IsFirstHit(scene, ray, maxDistance, hit.value)
  {
    hit := None;
    match scene.getBlock(pos) {
      case Some(block) =>
        if IsTargetable(block) {
          if block == BlockType.Model {
            match scene.getModelData(pos) {
              case Some(data) =>
                match scene.getModel(data.modelId) {
                  case Some(model) =>
                    var local := LocalEntry(ray, pos, distance);
                    var nudged := Vec(Clamp01(local.x), Clamp01(local.y), Clamp01(local.z));
                    ClampIsIdentity(ray, pos, distance);
                    ModelAnswers(scene, ray, pos);
                    match model(nudged, ray.dir, data.rotation) {
                      case Some(sub) =>
                        hit := Some(RaycastHit(pos, sub.normal, distance + sub.t));
                      case None =>
                    }
                  case None =>
                }
              case None =>
            }
          } else {
            hit := Some(RaycastHit(pos, normal, distance));
          }
        }
      case None =>
    }
  }

  /** The end of the loop body: step across the nearest boundary, ties going to z first, then y. */
  method NextVoxel(ghost scene: Scene, ray: Ray, v: Pos, tMaxX: Time, tMaxY: Time, tMaxZ: Time, t: real, ghost n: Pos,
                   ghost maxDistance: real)
    returns (pos: Pos, nextX: Time, nextY: Time, nextZ: Time, distance: real, normal: Pos)
    requires ray.dir != Vec(0.0, 0.0, 0.0)
    requires AtHead(scene, ray, v, tMaxX, tMaxY, tMaxZ, t, n) && !Stops(scene, ray, v)
    ensures AtHead(scene, ray, pos, nextX, nextY, nextZ, distance, normal)
    ensures t <= distance && normal != Pos(0, 0, 0) && pos.Plus(normal) == v
    ensures Boundaries(ray, pos, maxDistance) < Boundaries(ray, v, maxDistance)
  {
    var dir := ray.dir;
    var step := Pos(Step(dir.x), Step(dir.y), Step(dir.z));
    nextX, nextY, nextZ := tMaxX, tMaxY, tMaxZ;
    if Before(tMaxX, tMaxY) && Before(tMaxX, tMaxZ) {
      StepX(scene, ray, v, tMaxX, tMaxY, tMaxZ, t, n, maxDistance);
      distance := tMaxX.t;
      nextX := Advance(tMaxX, Delta(dir.x));
      pos := Pos(v.x + step.x, v.y, v.z);
      normal := Pos(-step.x, 0, 0);
    } else if Before(tMaxY, tMaxZ) {
      StepY(scene, ray, v, tMaxX, tMaxY, tMaxZ, t, n, maxDistance);
      distance := tMaxY.t;
      nextY := Advance(tMaxY, Delta(dir.y));
      pos := Pos(v.x, v.y + step.y, v.z);
      normal := Pos(0, -step.y, 0);
    } else {
      StepZ(scene, ray, v, tMaxX, tMaxY, tMaxZ, t, n, maxDistance);
      distance := tMaxZ.t;
      nextZ := Advance(tMaxZ, Delta(dir.z));
      pos := Pos(v.x, v.y, v.z + step.z);
      normal := Pos(0, 0, -step.z);
    }
  }

  /** The DDA traversal; `ray.dir` is the normalised direction, zero where normalising yields NaN. */
  method Raycast(scene: Scene, ray: Ray, maxDistance: real) returns (result: Option<RaycastHit>)
    ensures ray.dir == Vec(0.0, 0.0, 0.0) ==> result == None
    ensures ray.dir != Vec(0.0, 0.0, 0.0) && result.None? ==>
              NoneCrossed(scene, ray, maxDistance) && Covered(scene, ray, maxDistance)
    ensures result.Some? ==> IsFirstHit(scene, ray, maxDistance, result.value)
  {
    var o, dir := ray.origin, ray.dir;
    if dir == Vec(0.0, 0.0, 0.0) {
      return None;
    }
    var pos := Pos(o.x.Floor, o.y.Floor, o.z.Floor);
    var tMaxX, tMaxY, tMaxZ := Exit(o.x, dir.x, pos.x), Exit(o.y, dir.y, pos.y), Exit(o.z, dir.z, pos.z);
    var normal := Pos(0, 0, 0);
    var distance := 0.0;
    StartsAtHead(scene, ray);
    while distance < maxDistance
      invariant AtHead(scene, ray, pos, tMaxX, tMaxY, tMaxZ, distance, normal)
      decreases Boundaries(ray, pos, maxDistance)
    {
      BoundariesRemain(scene, ray, pos, tMaxX, tMaxY, tMaxZ, distance, normal, maxDistance);
      result := CheckVoxel(scene, ray, pos, tMaxX, tMaxY, tMaxZ, distance, normal, maxDistance);
      if result.Some? {
        return;
      }
      pos, tMaxX, tMaxY, tMaxZ, distance, normal :=
        NextVoxel(scene, ray, pos, tMaxX, tMaxY, tMaxZ, distance, normal, maxDistance);
    }
    NoneCrossedBefore(scene, ray, distance, maxDistance);
    return None;
  }

  lemma NoneCrossedBefore(scene: Scene, ray: Ray, reached: real, limit: real)
    requires NoneCrossed(scene, ray, reached) && Covered(scene, ray, reached) && limit <= reached
    ensures NoneCrossed(scene, ray, limit) && Covered(scene, ray, limit)
  {
  }

  /** A line that is within a slab at s and strictly inside at t is strictly inside anywhere between. */
  lemma BetweenIsInside(o: real, d: real, p: int, s: real, m: real, t: real)
    requires s < m < t && InSlab(o, d, p, s) && InsideSlab(o, d, p, t)
    ensures InsideSlab(o, d, p, m)
  {
    Rising(o, d, s, m);
    Rising(o, d, m, t);
  }

  /** The parameters at which a ray crosses the interior of a voxel form an interval. */
  lemma CrossesBetween(ray: Ray, v: Pos, s: real, m: real, t: real)
    requires s < m < t && Touches(ray, v, s) && Crosses(ray, v, t)
    ensures Crosses(ray, v, m)
  {
    BetweenIsInside(ray.origin.x, ray.dir.x, v.x, s, m, t);
    BetweenIsInside(ray.origin.y, ray.dir.y, v.y, s, m, t);
    BetweenIsInside(ray.origin.z, ray.dir.z, v.z, s, m, t);
  }

  /** Among all voxels that end the ray and whose interior it crosses, the hit has the least slab entry. */
  lemma HitIsNearest(scene: Scene, ray: Ray, maxDistance: real, hit: RaycastHit, w: Pos, t: real)
    requires IsFirstHit(scene, ray, maxDistance, hit)
    requires t >= 0.0 && Crosses(ray, w, t) && Stops(scene, ray, w)
    ensures SlabEntry(ray, hit.blockPos) <= SlabEntry(ray, w)
  {
    var e, s := SlabEntry(ray, hit.blockPos), SlabEntry(ray, w);
    if s < e {
      SlabEntryTouches(ray, w, t);
      assert NoneCrossed(scene, ray, e);
      assert e <= t;
      CrossesBetween(ray, w, s, (s + e) / 2.0, t);
    }
  }

  /** A voxel the ray reaches is touched at its slab entry. */
  lemma SlabEntryTouches(ray: Ray, v: Pos, t: real)
    requires t >= 0.0 && Touches(ray, v, t)
    ensures SlabEntry(ray, v) <= t && Touches(ray, v, SlabEntry(ray, v))
  {
    var s := SlabEntry(ray, v);
    SlabEntryIsFirst(ray, v, t);
    AxisTouchesAt(ray.origin.x, ray.dir.x, v.x, s, t);
    AxisTouchesAt(ray.origin.y, ray.dir.y, v.y, s, t);
    AxisTouchesAt(ray.origin.z, ray.dir.z, v.z, s, t);
  }

  lemma AxisTouchesAt(o: real, d: real, p: int, s: real, t: real)
    requires s <= t && InSlab(o, d, p, t) && (d != 0.0 ==> Entry(o, d, p) <= s)
    ensures InSlab(o, d, p, s)
  {
    if d != 0.0 {
      AxisInterval(o, d, p, t);
      AxisInterval(o, d, p, s);
    } else {
      assert d * s == 0.0 && d * t == 0.0;
    }
  }
}
