/** Falling blocks: one physics step, whole falls, and the system of live blocks. Reals stand for f32. */
module FallingBlocks {
  import opened Geometry
  import opened BlockTypes

  const MAX_FALLING_BLOCKS: nat := 256
  const GRAVITY: real := 20.0
  const MAX_PHYSICS_DT: real := 0.05
  const MAX_FALL_CELLS_PER_STEP: real := 1.0
  const MAX_FALL_VELOCITY: real := MAX_FALL_CELLS_PER_STEP / MAX_PHYSICS_DT
  const WORLD_FLOOR: real := -64.0
  const DESPAWN_Y: int := -100
  const U32_MAX: nat := 0xFFFF_FFFF

  // ----- time steps

  /** The smallest integer not below x. */
  function Ceil(x: real): int {
    -(-x).Floor
  }

  function Clamp(x: real, low: real, high: real): real {
    if x < low then low else if x > high then high else x
  }

  function SumOf(s: seq<real>): real {
    if s == [] then 0.0 else SumOf(s[..|s| - 1]) + s[|s| - 1]
  }

  /** Equal substeps of the clamped frame time, and that time. */
  method PhysicsSubsteps(rawDt: real) returns (substeps: seq<real>, clamped: real)
    ensures clamped == Clamp(rawDt, 0.0, MAX_PHYSICS_DT) && SumOf(substeps) == clamped
    ensures forall k :: 0 <= k < |substeps| ==> 0.0 < substeps[k] <= MAX_PHYSICS_DT
    ensures |substeps| == if rawDt > 0.0 then 1 else 0
  {
    clamped := Clamp(rawDt, 0.0, MAX_PHYSICS_DT);
    if clamped <= 0.0 {
      return [], 0.0;
    }
    var n := if Ceil(clamped / MAX_PHYSICS_DT) > 1 then Ceil(clamped / MAX_PHYSICS_DT) else 1;
    var sub := clamped / n as real;
    OneSubstep(clamped);
    substeps := seq(n, _ => sub);
    assert substeps[..0] == [];
  }

  /** After the clamp the division always gives a single substep. */
  lemma OneSubstep(clamped: real)
    requires 0.0 < clamped <= MAX_PHYSICS_DT
    ensures Ceil(clamped / MAX_PHYSICS_DT) == 1
  {
    assert 0.0 < clamped / MAX_PHYSICS_DT <= 1.0;
  }

  // ----- one block

  datatype FallingBlock = FallingBlock(entityId: nat, position: Vec, velocity: Vec, blockType: BlockType, age: real)

  function Center(p: Pos): Vec {
    Vec(p.x as real + 0.5, p.y as real + 0.5, p.z as real + 0.5)
  }

  function NewBlock(entityId: nat, center: Vec, blockType: BlockType): FallingBlock {
    FallingBlock(entityId, center, Vec(0.0, 0.0, 0.0), blockType, 0.0)
  }

  /** Downward speed after a step of gravity, capped. */
  function SpeedAfter(vy: real, dt: real): real {
    var v := vy - GRAVITY * dt;
    if v < -MAX_FALL_VELOCITY then -MAX_FALL_VELOCITY else v
  }

  function MovedBy(p: Vec, v: Vec, dt: real): Vec {
    Vec(p.x + v.x * dt, p.y + v.y * dt, p.z + v.z * dt)
  }

  /** What a step makes of a block: gravity up to the cap, then the way at that velocity. */
  predicate IsFlown(b: FallingBlock, dt: real, after: FallingBlock) {
    && after.velocity.x == b.velocity.x && after.velocity.z == b.velocity.z
    && after.velocity.y == (if b.velocity.y - 20.0 * dt >= -20.0 then b.velocity.y - 20.0 * dt else -20.0)
    && after.position.x == b.position.x + after.velocity.x * dt
    && after.position.y == b.position.y + after.velocity.y * dt
    && after.position.z == b.position.z + after.velocity.z * dt
    && after.age == b.age + dt && after.entityId == b.entityId && after.blockType == b.blockType
  }

  /** The cell at a block's bottom edge: the one that a step checks. */
  function ProbedCell(p: Vec): Pos {
    Pos(p.x.Floor, (p.y - 0.5).Floor, p.z.Floor)
  }

  /** The block after a step that does not land. */
  function Flown(b: FallingBlock, dt: real): FallingBlock {
    var v := b.velocity.(y := SpeedAfter(b.velocity.y, dt));
    b.(velocity := v, position := MovedBy(b.position, v, dt), age := b.age + dt)
  }

  /** Where the block stops in this step: above a solid cell, or below the world. */
  function LandsAt(b: FallingBlock, dt: real, isSolid: Pos -> bool): Option<Pos> {
    var moved := Flown(b, dt);
    var cell := ProbedCell(moved.position);
    if isSolid(cell) then Some(cell.Plus(Pos(0, 1, 0)))
    else if moved.position.y < WORLD_FLOOR then Some(Pos(cell.x, DESPAWN_Y, cell.z))
    else None
  }

  /** One step, as the source makes it. */
  method UpdateBlock(b: FallingBlock, dt: real, isSolid: Pos -> bool) returns (b': FallingBlock, land: Option<Pos>)
    ensures land == LandsAt(b, dt, isSolid)
    ensures land.None? ==> b' == Flown(b, dt) && IsFlown(b, dt, b')
    ensures b'.entityId == b.entityId && b'.blockType == b.blockType
  {
    b' := b.(age := b.age + dt);
    var vy := b.velocity.y - GRAVITY * dt;
    if vy < -MAX_FALL_VELOCITY {
      vy := -MAX_FALL_VELOCITY;
    }
    b' := b'.(velocity := b.velocity.(y := vy));
    var newPos := MovedBy(b.position, b'.velocity, dt);
    var blockX, blockY, blockZ := newPos.x.Floor, (newPos.y - 0.5).Floor, newPos.z.Floor;
    if isSolid(Pos(blockX, blockY, blockZ)) {
      return b', Some(Pos(blockX, blockY + 1, blockZ));
    }
    b' := b'.(position := newPos);
    if newPos.y < WORLD_FLOOR {
      return b', Some(Pos(blockX, DESPAWN_Y, blockZ));
    }
    return b', None;
  }

  // ----- a whole fall

  /** A fall with the given time steps: where it stops, if it does. */
  function Fall(b: FallingBlock, dts: seq<real>, isSolid: Pos -> bool): Option<Pos>
    decreases dts
  {
    if dts == [] then None else
      var land := LandsAt(b, dts[0], isSolid);
      if land.Some? then land else Fall(Flown(b, dts[0]), dts[1..], isSolid)
  }

  predicate StepsOk(dts: seq<real>) {
    forall k :: 0 <= k < |dts| ==> 0.0 < dts[k] <= MAX_PHYSICS_DT
  }

  /** A block that fell from rest in `spawn` down its column, and met nothing solid. */
  ghost predicate Falling(b: FallingBlock, spawn: Pos, isSolid: Pos -> bool) {
    && b.position.x == spawn.x as real + 0.5 && b.position.z == spawn.z as real + 0.5
    && b.velocity.x == 0.0 && b.velocity.z == 0.0 && -MAX_FALL_VELOCITY <= b.velocity.y <= 0.0
    && b.position.y - 0.5 <= spawn.y as real
    && forall y :: (b.position.y - 0.5).Floor <= y < spawn.y ==> !isSolid(Pos(spawn.x, y, spawn.z))
  }

  /** The cell directly below a stop is the highest solid cell below the spawn cell. */
  ghost predicate OnHighestSolid(land: Pos, spawn: Pos, isSolid: Pos -> bool) {
    && land.x == spawn.x && land.z == spawn.z && land.y <= spawn.y
    && isSolid(Pos(spawn.x, land.y - 1, spawn.z))
    && forall y :: land.y <= y < spawn.y ==> !isSolid(Pos(spawn.x, y, spawn.z))
  }

  /** Below the world, with nothing solid on the way. */
  ghost predicate FellOut(land: Pos, spawn: Pos, isSolid: Pos -> bool) {
    && land == Pos(spawn.x, DESPAWN_Y, spawn.z)
    && forall y :: WORLD_FLOOR.Floor <= y < spawn.y ==> !isSolid(Pos(spawn.x, y, spawn.z))
  }

  /** A product with a positive time keeps bounds on the velocity. */
  lemma DropBetween(v: real, dt: real, fast: real, slow: real)
    requires -fast <= v <= -slow && 0.0 <= slow && 0.0 < dt
    ensures -(fast * dt) <= v * dt <= -(slow * dt)
  {
    assert (v + fast) * dt >= 0.0;
    assert (-slow - v) * dt >= 0.0;
  }

  lemma AtMostOneCell(v: real, dt: real)
    requires -20.0 <= v && 0.0 < dt <= 0.05
    ensures v * dt >= -1.0
  {
    DropAtMost(v, dt, 20.0);
    assert v * dt >= -(20.0 * dt);
    assert 20.0 * dt <= 1.0;
  }

  lemma DropAtMost(v: real, dt: real, fast: real)
    requires -fast <= v && 0.0 < dt
    ensures v * dt >= -(fast * dt)
  {
    assert (v + fast) * dt >= 0.0;
  }

  /** A step goes down by more than nothing and at most one cell. */
  lemma DropIsSmall(vy: real, dt: real)
    requires -MAX_FALL_VELOCITY <= vy <= 0.0 && 0.0 < dt <= MAX_PHYSICS_DT
    ensures -MAX_FALL_VELOCITY <= SpeedAfter(vy, dt) <= -(GRAVITY * dt)
    ensures -1.0 <= SpeedAfter(vy, dt) * dt < 0.0
  {
    var v, g := SpeedAfter(vy, dt), GRAVITY * dt;
    DropBetween(v, dt, 20.0, g);
    assert g * dt > 0.0;
    AtMostOneCell(v, dt);
  }

  /** Two heights at most one apart: their cells are the same or neighbours. */
  lemma CellsAdjoin(high: real, low: real)
    requires low < high && high - low <= 1.0
    ensures high.Floor - 1 <= low.Floor <= high.Floor
  {
  }

  /** The cell a step probes is the one probed before or the one below it, in the spawn column. */
  lemma ProbesDescend(b: FallingBlock, spawn: Pos, dt: real, isSolid: Pos -> bool)
    requires Falling(b, spawn, isSolid) && 0.0 < dt <= MAX_PHYSICS_DT
    ensures var cell := ProbedCell(Flown(b, dt).position);
            && cell.x == spawn.x && cell.z == spawn.z
            && (b.position.y - 0.5).Floor - 1 <= cell.y <= (b.position.y - 0.5).Floor
    ensures !isSolid(ProbedCell(Flown(b, dt).position)) && ProbedCell(Flown(b, dt).position).y < spawn.y ==>
              Falling(Flown(b, dt), spawn, isSolid)
    ensures ProbedCell(Flown(b, dt).position).y < spawn.y
  {
    DropIsSmall(b.velocity.y, dt);
    var moved := Flown(b, dt).position;
    assert moved.x == b.position.x && moved.z == b.position.z;
    CellsAdjoin(b.position.y - 0.5, moved.y - 0.5);
  }

  /** From rest, any steps: a block stops only on the highest solid cell below, or falls out of the world. */
  lemma {:induction false} FallStopsRight(b: FallingBlock, spawn: Pos, dts: seq<real>, isSolid: Pos -> bool)
    requires Falling(b, spawn, isSolid) && StepsOk(dts)
    ensures var land := Fall(b, dts, isSolid);
            land.Some? ==> OnHighestSolid(land.value, spawn, isSolid) || FellOut(land.value, spawn, isSolid)
    decreases dts
  {
    if dts != [] {
      ProbesDescend(b, spawn, dts[0], isSolid);
      if LandsAt(b, dts[0], isSolid).None? {
        FallStopsRight(Flown(b, dts[0]), spawn, dts[1..], isSolid);
      }
    }
  }

  /** No tunnelling: a block spawned at a cell lands directly on the highest solid cell below it. */
  lemma NoTunnelling(id: nat, spawn: Pos, blockType: BlockType, dts: seq<real>, isSolid: Pos -> bool)
    requires StepsOk(dts)
    ensures var land := Fall(NewBlock(id, Center(spawn), blockType), dts, isSolid);
            land.Some? ==> OnHighestSolid(land.value, spawn, isSolid) || FellOut(land.value, spawn, isSolid)
  {
    FallStopsRight(NewBlock(id, Center(spawn), blockType), spawn, dts, isSolid);
  }

  /** A step of at least `least` goes down by at least GRAVITY * least * least. */
  lemma DropIsEnough(vy: real, dt: real, least: real)
    requires -MAX_FALL_VELOCITY <= vy <= 0.0 && 0.0 < least <= dt <= MAX_PHYSICS_DT
    ensures SpeedAfter(vy, dt) * dt <= -(GRAVITY * least * least)
  {
    DropIsSmall(vy, dt);
    var v, g := SpeedAfter(vy, dt), GRAVITY * least;
    DropBetween(v, dt, 20.0, g);
    assert (dt - least) * g >= 0.0;
  }

  /** Every fall ends: with steps bounded below, in a number of steps that the height bounds. */
  lemma {:induction false} FallEnds(b: FallingBlock, spawn: Pos, dts: seq<real>, least: real, isSolid: Pos -> bool)
    requires Falling(b, spawn, isSolid) && StepsOk(dts)
    requires 0.0 < least && forall k :: 0 <= k < |dts| ==> least <= dts[k]
    requires b.position.y >= WORLD_FLOOR
    requires |dts| as real * (GRAVITY * least * least) > b.position.y - WORLD_FLOOR
    ensures Fall(b, dts, isSolid).Some?
    decreases dts
  {
    var drop := GRAVITY * least * least;
    assert drop > 0.0;
    ProbesDescend(b, spawn, dts[0], isSolid);
    DropIsEnough(b.velocity.y, dts[0], least);
    if LandsAt(b, dts[0], isSolid).None? {
      var rest := dts[1..];
      assert (|rest| + 1) as real * drop == |rest| as real * drop + drop;
      FallEnds(Flown(b, dts[0]), spawn, rest, least, isSolid);
    }
  }

  // ----- where a block is after k equal steps

  function FlownFor(b: FallingBlock, dt: real, k: nat): FallingBlock {
    if k == 0 then b else Flown(FlownFor(b, dt, k - 1), dt)
  }

  lemma OneMore(k: nat, dt: real)
    ensures (k + 1) as real * dt == k as real * dt + dt
  {}

  /** Below the cap the way from rest grows by that of one more step. */
  lemma WayGrows(t: real, dt: real)
    ensures 10.0 * t * (t + dt) + 20.0 * (t + dt) * dt == 10.0 * (t + dt) * (t + dt + dt)
  {}

  lemma GravityStep(b: FallingBlock, dt: real, t: real, way: real, next: real)
    requires b.velocity == Vec(0.0, -20.0 * t, 0.0) && t + dt <= 1.0
    requires next == way + 20.0 * (t + dt) * dt
    ensures Flown(b, dt).velocity == Vec(0.0, -20.0 * (t + dt), 0.0)
    ensures Flown(b, dt).position == Vec(b.position.x, b.position.y + way - next, b.position.z)
  {}

  /** From rest, k steps in the first second: the velocity is that of gravity alone, and the way adds up step by step. */
  lemma {:induction false} FromRest(b: FallingBlock, dt: real, k: nat, t: real)
    requires b.velocity == Vec(0.0, 0.0, 0.0) && dt > 0.0 && t == k as real * dt <= 1.0
    ensures var after := FlownFor(b, dt, k);
            && after.velocity == Vec(0.0, -20.0 * t, 0.0) && after.age == b.age + t
            && after.position == Vec(b.position.x, b.position.y - 10.0 * t * (t + dt), b.position.z)
  {
    if k > 0 {
      var s := t - dt;
      OneMore(k - 1, dt);
      FromRest(b, dt, k - 1, s);
      WayGrows(s, dt);
      GravityStep(FlownFor(b, dt, k - 1), dt, s, 10.0 * s * (s + dt), 10.0 * t * (t + dt));
    }
  }

  /** Then the velocity stays at the cap, and each step goes down by the same. */
  lemma {:induction false} AtTheCap(b: FallingBlock, dt: real, m: nat, t: real, k: nat, way: real)
    requires b.velocity == Vec(0.0, 0.0, 0.0) && dt > 0.0 && t == m as real * dt <= 1.0 < t + dt && way == k as real * dt
    ensures var after := FlownFor(b, dt, m + k);
            && after.velocity == Vec(0.0, if k == 0 then -20.0 * t else -20.0, 0.0)
            && after.position == Vec(b.position.x, b.position.y - 10.0 * t * (t + dt) - 20.0 * way, b.position.z)
  {
    if k == 0 {
      FromRest(b, dt, m, t);
    } else {
      OneMore(k - 1, dt);
      AtTheCap(b, dt, m, t, k - 1, way - dt);
      CapStep(FlownFor(b, dt, m + k - 1), dt, t);
    }
  }

  lemma CapStep(b: FallingBlock, dt: real, t: real)
    requires dt > 0.0 && b.velocity.x == b.velocity.z == 0.0 && (b.velocity.y == -20.0 || (b.velocity.y == -20.0 * t && t + dt > 1.0))
    ensures Flown(b, dt).velocity == Vec(0.0, -20.0, 0.0)
    ensures Flown(b, dt).position == Vec(b.position.x, b.position.y - 20.0 * dt, b.position.z)
  {}

  /** Whatever the velocity: a step stays within one cell exactly when it is no longer than the longest substep. */
  lemma WithinOneCellIff(dt: real)
    requires dt > 0.0
    ensures (forall v :: SpeedAfter(v, dt) * dt >= -1.0) <==> dt <= MAX_PHYSICS_DT
  {
    if dt <= MAX_PHYSICS_DT {
      forall v
        ensures SpeedAfter(v, dt) * dt >= -1.0
      {
        AtMostOneCell(SpeedAfter(v, dt), dt);
      }
    } else {
      assert SpeedAfter(-MAX_FALL_VELOCITY, dt) == -20.0 && -20.0 * dt < -1.0;
    }
  }

  /** The velocity cap alone does not prevent tunnelling: one long step from rest passes a floor just below. */
  lemma LongStepTunnels()
    ensures var isSolid := (p: Pos) => p.y == 9;
            var b := NewBlock(1, Center(Pos(0, 10, 0)), Sand);
            && isSolid(Pos(0, 9, 0)) && LandsAt(b, 1.0, isSolid) == None && Flown(b, 1.0).position.y < 9.0
  {
    var b := NewBlock(1, Center(Pos(0, 10, 0)), Sand);
    assert SpeedAfter(0.0, 1.0) == -20.0;
    assert Flown(b, 1.0).position.y == -9.5;
    assert (-9.5 - 0.5).Floor == -10;
  }
}
