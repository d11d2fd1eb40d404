/**
 What a lava cell sends where, as a relation between its mass, its neighbours and the amounts; what a tick
 makes of it; and what taking and adding lava does. Nothing here is computed: each law fixes the outcome.
 */
module LavaLaws {
  import opened Geometry
  import opened Ledger
  import opened Fluid
  import opened FluidLaws
  import opened FluidTick
  import opened Lava

  // ----- the flow of one cell

  /** Down: everything into the void; else a quarter of what there is and of the room, if that is worth a flow. */
  predicate IsDown(mass: real, n: NeighborMasses, down: real) {
    if n.belowVoid then down == mass
    else if n.belowSolid then down == 0.0
    else
      var most := if mass <= MAX_MASS - n.below then mass else MAX_MASS - n.below;
      if most > 4.0 * MIN_FLOW then 4.0 * down == most else down == 0.0
  }

  /** One side: a quarter of its gap to the average, if that is worth a flow and leaves something. */
  predicate IsSide(closed: bool, m: real, remaining: real, average: real, amount: real) {
    if !closed && m < remaining && average - m > 4.0 * MIN_FLOW && 4.0 * remaining > average - m
    then 4.0 * amount == average - m
    else amount == 0.0
  }

  /** The four sides in turn, each from what the ones before have left. */
  predicate AreSides(n: NeighborMasses, rest: real, average: real, f: FlowResult) {
    && IsSide(n.posXSolid, n.posX, rest, average, f.posX)
    && IsSide(n.negXSolid, n.negX, rest - f.posX, average, f.negX)
    && IsSide(n.posZSolid, n.posZ, rest - f.posX - f.negX, average, f.posZ)
    && IsSide(n.negZSolid, n.negZ, rest - f.posX - f.negX - f.posZ, average, f.negZ)
  }

  /** The flow of a cell of this mass: down first, sideways only over a floor. */
  ghost predicate IsFlow(mass: real, n: NeighborMasses, f: FlowResult) {
    if mass <= MIN_MASS then f == NO_FLOW else
      var rest := mass - f.down;
      && IsDown(mass, n, f.down)
      && if n.belowSolid && rest > MIN_FLOW
         then exists average :: IsLevel(n, rest, average) && AreSides(n, rest, average, f)
         else f.posX == f.negX == f.posZ == f.negZ == 0.0
  }

  /** The law leaves no choice. */
  lemma FlowIsUnique(mass: real, n: NeighborMasses, f: FlowResult, g: FlowResult)
    requires IsFlow(mass, n, f) && IsFlow(mass, n, g)
    ensures f == g
  {
    if mass > MIN_MASS && n.belowSolid && mass - f.down > MIN_FLOW {
      var a :| IsLevel(n, mass - f.down, a) && AreSides(n, mass - f.down, a, f);
      var b :| IsLevel(n, mass - g.down, b) && AreSides(n, mass - g.down, b, g);
      LevelIsUnique(n, mass - f.down, a, b);
      SidesAreUnique(n, mass - f.down, a, f, g);
    }
  }

  lemma SidesAreUnique(n: NeighborMasses, rest: real, average: real, f: FlowResult, g: FlowResult)
    requires AreSides(n, rest, average, f) && AreSides(n, rest, average, g)
    ensures f.posX == g.posX && f.negX == g.negX && f.posZ == g.posZ && f.negZ == g.negZ
  {
    assert f.posX == g.posX;
    assert f.negX == g.negX;
    assert f.posZ == g.posZ;
  }

  lemma SidesInTurn(sides: seq<Side>, rest: real, average: real)
    requires sides != []
    ensures var flows := SideFlows(sides, rest, average);
            && IsSide(!sides[0].open, sides[0].mass, rest, average, flows[0])
            && flows[1..] == SideFlows(sides[1..], rest - flows[0], average)
  {}

  lemma SideFlowsAreSides(n: NeighborMasses, rest: real, average: real, down: real)
    ensures var flows := SideFlows(Sides(n), rest, average);
            AreSides(n, rest, average, FlowResult(down, flows[0], flows[1], flows[2], flows[3]))
  {
    var s, flows := Sides(n), SideFlows(Sides(n), rest, average);
    SidesInTurn(s, rest, average);
    SidesInTurn(s[1..], rest - flows[0], average);
    SidesInTurn(s[1..][1..], rest - flows[0] - flows[1], average);
    SidesInTurn(s[1..][1..][1..], rest - flows[0] - flows[1] - flows[2], average);
  }

  /** The computed flow is the flow of the law. */
  lemma FlowIsFlow(mass: real, n: NeighborMasses, f: FlowResult)
    requires f == FlowOf(mass, n)
    ensures IsFlow(mass, n, f)
  {
    if mass > MIN_MASS && n.belowSolid && mass - f.down > MIN_FLOW {
      var average := SpreadIsFlow(mass, n, f);
      assert IsLevel(n, mass - f.down, average) && AreSides(n, mass - f.down, average, f);
    }
  }

  lemma SpreadIsFlow(mass: real, n: NeighborMasses, f: FlowResult) returns (average: real)
    requires f == FlowOf(mass, n) && mass > MIN_MASS && n.belowSolid && mass - f.down > MIN_FLOW
    ensures IsLevel(n, mass - f.down, average) && AreSides(n, mass - f.down, average, f)
  {
    var rest := mass - f.down;
    average := Average(Sides(n), rest);
    AverageIsLevel(n, rest);
    if LowerCount(Sides(n), rest) > 0 {
      SideFlowsAreSides(n, rest, average, f.down);
    } else {
      NoLowerSides(n, rest);
    }
  }

  // ----- what is recorded of a flow

  /** One of the five directions of a flow. */
  ghost predicate IsDirection(t: Transfer, p: Pos, f: FlowResult, env: Env) {
    || Departs(t, p, Pos(p.x, p.y - 1, p.z), env.isOutOfBounds(Pos(p.x, p.y - 1, p.z)), f.down)
    || Departs(t, p, Pos(p.x + 1, p.y, p.z), env.isOutOfBounds(Pos(p.x + 1, p.y, p.z)), f.posX)
    || Departs(t, p, Pos(p.x - 1, p.y, p.z), env.isOutOfBounds(Pos(p.x - 1, p.y, p.z)), f.negX)
    || Departs(t, p, Pos(p.x, p.y, p.z + 1), env.isOutOfBounds(Pos(p.x, p.y, p.z + 1)), f.posZ)
    || Departs(t, p, Pos(p.x, p.y, p.z - 1), env.isOutOfBounds(Pos(p.x, p.y, p.z - 1)), f.negZ)
  }

  lemma DirectionsAre(t: Transfer, p: Pos, f: FlowResult, env: Env)
    ensures t in Directions(p, f, env) <==> IsDirection(t, p, f, env)
  {
    var all := Directions(p, f, env);
    assert t in all <==> t == all[0] || t == all[1] || t == all[2] || t == all[3] || t == all[4];
    assert all[0] == Flow(p, BELOW, env.isOutOfBounds(p.Plus(BELOW)), f.down);
  }

  /** A flow is recorded when some direction is worth it: one transfer for each direction that moves something, and no other. */
  lemma FlowIsRecorded(p: Pos, f: FlowResult, env: Env)
    ensures forall t :: t in CellLog(p, f, env) <==> f.HasFlow() && t.amount > 0.0 && IsDirection(t, p, f, env)
  {
    forall t
      ensures t in Directions(p, f, env) <==> IsDirection(t, p, f, env)
    {
      DirectionsAre(t, p, f, env);
    }
  }

  // ----- lava falls

  /** The transfers of one cell, by the law. */
  lemma CellLogIsStrong(p: Pos, mass: real, n: NeighborMasses, f: FlowResult, env: Env)
    requires SafeFlow(mass, n, f) && n.belowVoid == env.isOutOfBounds(p.Plus(BELOW))
    ensures forall t :: t in CellLog(p, f, env) ==> t.from == p && t.amount > MIN_FLOW
  {
    CellFlowsAreSafe(p, mass, n, f, env);
  }

  lemma FallIsRecorded(p: Pos, f: FlowResult, env: Env)
    requires f.down > MIN_FLOW && !env.isOutOfBounds(p.Plus(BELOW))
    ensures Transfer(p, Some(p.Plus(BELOW)), f.down) in CellLog(p, f, env)
  {
    assert Directions(p, f, env)[0] == Transfer(p, Some(p.Plus(BELOW)), f.down);
    assert Directions(p, f, env)[0] in Directions(p, f, env);
  }

  /** A free position only gains, and has gained more than a least flow once the cell above it was processed. */
  lemma {:induction false} FreeIsFilled(cells: map<Pos, LavaCell>, order: seq<Pos>, env: Env, pos: Pos)
    requires Distinct(order) && Free(cells, env, pos.Plus(BELOW)) && Val(Masses(cells), pos) > 4.0 * MIN_FLOW
    ensures var net := Net(TickLog(Masses(cells), order, env), pos.Plus(BELOW));
            (net == 0.0 || net > MIN_FLOW) && (pos in order ==> net > MIN_FLOW)
  {
    if order != [] {
      var init, p := order[..|order| - 1], order[|order| - 1];
      FreeIsFilled(cells, init, env, pos);
      FillsMore(cells, TickLog(Masses(cells), init, env), env, pos, p);
      assert pos in order ==> pos in init || pos == p;
    }
  }

  lemma FillsMore(cells: map<Pos, LavaCell>, log: seq<Transfer>, env: Env, pos: Pos, p: Pos)
    requires Free(cells, env, pos.Plus(BELOW)) && Val(Masses(cells), pos) > 4.0 * MIN_FLOW
    ensures var f := FlowOf(Val(Masses(cells), p), CacheNeighborMasses(Masses(cells), PendingOf(log), p, env, MAX_MASS));
            var q := pos.Plus(BELOW);
            var next := Net(log + CellLog(p, f, env), q);
            && (next == Net(log, q) || next > Net(log, q) + MIN_FLOW)
            && (p == pos && Net(log, q) == 0.0 ==> next > MIN_FLOW)
  {
    var n := CacheNeighborMasses(Masses(cells), PendingOf(log), p, env, MAX_MASS);
    var f := FlowOf(Val(Masses(cells), p), n);
    FillsNext(cells, log, env, pos, p, n, f, CellLog(p, f, env));
    NetAppend(log, CellLog(p, f, env), pos.Plus(BELOW));
  }

  /** The transfers of one cell never take from a free position, and the cell above it fills it if nothing else has. */
  lemma FillsNext(cells: map<Pos, LavaCell>, log: seq<Transfer>, env: Env, pos: Pos, p: Pos,
                  n: NeighborMasses, f: FlowResult, flows: seq<Transfer>)
    requires Free(cells, env, pos.Plus(BELOW)) && Val(Masses(cells), pos) > 4.0 * MIN_FLOW
    requires n == CacheNeighborMasses(Masses(cells), PendingOf(log), p, env, MAX_MASS)
    requires f == FlowOf(Val(Masses(cells), p), n) && flows == CellLog(p, f, env)
    ensures Net(flows, pos.Plus(BELOW)) == 0.0 || Net(flows, pos.Plus(BELOW)) > MIN_FLOW
    ensures p == pos && Net(log, pos.Plus(BELOW)) == 0.0 ==> Net(flows, pos.Plus(BELOW)) > MIN_FLOW
  {
    if p == pos.Plus(BELOW) {
      assert f == NO_FLOW && flows == [];
    } else {
      FlowIsSafe(Val(Masses(cells), p), n);
      CellLogIsStrong(p, Val(Masses(cells), p), n, f, env);
      InflowIsMore(flows, p, pos.Plus(BELOW), MIN_FLOW);
      if p == pos && Net(log, pos.Plus(BELOW)) == 0.0 {
        FallsIntoFree(cells, log, env, pos, n, f);
      }
    }
  }

  lemma FallsIntoFree(cells: map<Pos, LavaCell>, log: seq<Transfer>, env: Env, pos: Pos, n: NeighborMasses, f: FlowResult)
    requires Free(cells, env, pos.Plus(BELOW)) && Val(Masses(cells), pos) > 4.0 * MIN_FLOW
    requires n == CacheNeighborMasses(Masses(cells), PendingOf(log), pos, env, MAX_MASS) && Net(log, pos.Plus(BELOW)) == 0.0
    requires f == FlowOf(Val(Masses(cells), pos), n)
    ensures Transfer(pos, Some(pos.Plus(BELOW)), f.down) in CellLog(pos, f, env)
  {
    CachedIsSeen(Masses(cells), log, pos, env, MAX_MASS);
    FlowIsFlow(Val(Masses(cells), pos), n, f);
    assert pos.Plus(BELOW) == Pos(pos.x, pos.y - 1, pos.z);
    FallIsRecorded(pos, f, env);
  }

  /** A tick that processes lava above a free position leaves lava in that position, whatever else flows. */
  lemma LavaFalls(cells: map<Pos, LavaCell>, order: seq<Pos>, env: Env, pos: Pos)
    requires Distinct(order) && pos in order && pos in cells && cells[pos].mass > 4.0 * MIN_FLOW
    requires Free(cells, env, Pos(pos.x, pos.y - 1, pos.z))
    ensures var after := Apply(cells, Op.Tick(order, env));
            Pos(pos.x, pos.y - 1, pos.z) in after && after[Pos(pos.x, pos.y - 1, pos.z)].HasLava()
  {
    var log, q := TickLog(Masses(cells), order, env), Pos(pos.x, pos.y - 1, pos.z);
    assert pos.Plus(BELOW) == q;
    FreeIsFilled(cells, order, env, pos);
    UnmentionedIsZero(log, q);
    InflowIsACell(cells, Elements(order), Froms(log), PendingOf(log), q);
  }

  /** Whatever is pending for a position without a cell becomes its cell, unless it is a trace. */
  lemma InflowIsACell(cells: map<Pos, LavaCell>, processed: set<Pos>, flowed: set<Pos>, pending: map<Pos, real>, q: Pos)
    requires q !in cells && q in pending && pending[q] > MIN_MASS
    ensures var after := Settled(AgedCells(cells, processed, flowed), pending);
            q in after && after[q] == LavaCell(pending[q], false, 0)
  {
    assert q !in AgedCells(cells, processed, flowed);
  }

  // ----- a tick, position by position

  /** What is at q before a tick, and what has flowed there and away. */
  ghost function There(cells: map<Pos, LavaCell>, log: seq<Transfer>, q: Pos): real {
    (if q in cells then cells[q].mass else 0.0) + Net(log, q)
  }

  /**
   A tick on one position. Sources keep their mass. What flowed stays there if it is more than a trace,
   and is gone otherwise. Without flow nothing changes but the counter of a cell that was processed.
   */
  ghost predicate IsTicked(cells: map<Pos, LavaCell>, order: seq<Pos>, log: seq<Transfer>, after: map<Pos, LavaCell>, q: Pos) {
    if q in cells && cells[q].isSource then
      && q in after && after[q].isSource && after[q].mass == cells[q].mass
      && (if q in order && q in Froms(log) then after[q].stableTicks == 0
          else IsOlder(cells[q].stableTicks, q in order, after[q].stableTicks))
    else if q in Mentioned(log) then
      if There(cells, log, q) > MIN_MASS then q in after && after[q] == LavaCell(There(cells, log, q), false, 0) else q !in after
    else
      && (q in after <==> q in cells)
      && (q in cells ==> after[q].mass == cells[q].mass && !after[q].isSource
                         && IsOlder(cells[q].stableTicks, q in order, after[q].stableTicks))
  }

  lemma TickLaw(cells: map<Pos, LavaCell>, order: seq<Pos>, env: Env, q: Pos)
    ensures IsTicked(cells, order, TickLog(Masses(cells), order, env), Apply(cells, Op.Tick(order, env)), q)
  {
    SettledLaw(cells, order, TickLog(Masses(cells), order, env), q);
  }

  lemma SettledLaw(cells: map<Pos, LavaCell>, order: seq<Pos>, log: seq<Transfer>, q: Pos)
    ensures IsTicked(cells, order, log, Settled(AgedCells(cells, Elements(order), Froms(log)), PendingOf(log)), q)
  {
    SettledAt(AgedCells(cells, Elements(order), Froms(log)), PendingOf(log), q);
    FromsAreMentioned(log, q);
  }

  lemma SettledAt(cells: map<Pos, LavaCell>, pending: map<Pos, real>, q: Pos)
    ensures var after := Settled(cells, pending);
            if q in after then After(cells, pending, q) == Some(after[q]) else After(cells, pending, q).None?
  {}

  lemma {:induction false} FromsAreMentioned(log: seq<Transfer>, q: Pos)
    ensures q in Froms(log) ==> q in Mentioned(log)
  {
    if log != [] {
      FromsAreMentioned(log[..|log| - 1], q);
      assert log == log[..|log| - 1] + [log[|log| - 1]];
    }
  }

  /** A pending delta and one position: sources stay, a trace is dropped. */
  predicate IsDrained(before: Option<LavaCell>, delta: Option<real>, after: Option<LavaCell>) {
    if delta.None? || (before.Some? && before.value.isSource) then after == before
    else
      var there := (if before.Some? then before.value.mass else 0.0) + delta.value;
      if there > MIN_MASS then after == Some(LavaCell(there, false, 0)) else after.None?
  }

  lemma DrainedLaw(cells: map<Pos, LavaCell>, pending: map<Pos, real>, q: Pos)
    ensures IsDrained(Get(cells, q), Get(pending, q), Get(Settled(cells, pending), q))
  {
    SettledAt(cells, pending, q);
  }

  /** Still for fifteen ticks. */
  predicate Stalls(c: Option<LavaCell>) {
    c.Some? && c.value.stableTicks + 1 >= 15
  }

  /** Active after a tick: not stalled, and a cell that took part in a flow, or active before. */
  ghost predicate IsActive(start: bool, c: Option<LavaCell>, processed: bool, flowed: bool, mentioned: bool, wet: bool) {
    !(processed && !flowed && Stalls(c)) && if mentioned && (wet || c.Some?) then wet else start
  }

  /** The instance everybody expects: a full cell over an empty open position sends a quarter down. */
  lemma QuarterFalls(n: NeighborMasses)
    requires !n.belowVoid && !n.belowSolid && n.below == 0.0
    ensures FlowOf(1.0, n) == FlowResult(0.25, 0.0, 0.0, 0.0, 0.0)
  {}

  // ----- a tick, cell by cell

  /** What one processed cell adds to a log: it sees its neighbours as they are by then, and flows by the law. */
  ghost predicate IsTurn(masses: map<Pos, real>, log: seq<Transfer>, p: Pos, env: Env, flows: seq<Transfer>) {
    exists n, f ::
      && Sees(masses, log, p, env, MAX_MASS, n) && IsFlow(Val(masses, p), n, f)
      && (forall t :: t in flows <==> f.HasFlow() && t.amount > 0.0 && IsDirection(t, p, f, env))
      && Amount(flows) == (if f.HasFlow() then f.TotalOutflow() else 0.0)
  }

  ghost predicate IsStep(masses: map<Pos, real>, log: seq<Transfer>, p: Pos, env: Env, next: seq<Transfer>) {
    exists flows :: next == log + flows && IsTurn(masses, log, p, env, flows)
  }

  /** Every cell of the order has its turn, after those before it, and together they make this log. */
  ghost predicate IsLog(masses: map<Pos, real>, order: seq<Pos>, env: Env, log: seq<Transfer>) {
    if order == [] then log == []
    else
      var init, p := order[..|order| - 1], order[|order| - 1];
      exists was :: IsLog(masses, init, env, was) && IsStep(masses, was, p, env, log)
  }

  lemma {:induction false} LogLaw(masses: map<Pos, real>, order: seq<Pos>, env: Env, log: seq<Transfer>)
    requires log == TickLog(masses, order, env)
    ensures IsLog(masses, order, env, log)
  {
    if order != [] {
      var was := TickLog(masses, order[..|order| - 1], env);
      LogLaw(masses, order[..|order| - 1], env, was);
      TurnLaw(masses, was, order[|order| - 1], env);
    }
  }

  /** A tick: every cell of the order has its turn, then every position settles. */
  ghost predicate IsTick(before: map<Pos, LavaCell>, order: seq<Pos>, env: Env, log: seq<Transfer>, after: map<Pos, LavaCell>) {
    IsLog(Masses(before), order, env, log) && forall q :: IsTicked(before, order, log, after, q)
  }

  lemma TickIsTick(before: map<Pos, LavaCell>, order: seq<Pos>, env: Env, log: seq<Transfer>, after: map<Pos, LavaCell>)
    requires log == TickLog(Masses(before), order, env) && after == Apply(before, Op.Tick(order, env))
    ensures IsTick(before, order, env, log, after)
  {
    LogLaw(Masses(before), order, env, log);
    forall q {
      TickLaw(before, order, env, q);
    }
  }

  lemma TurnLaw(masses: map<Pos, real>, log: seq<Transfer>, p: Pos, env: Env)
    ensures var f := FlowOf(Val(masses, p), CacheNeighborMasses(masses, PendingOf(log), p, env, MAX_MASS));
            IsStep(masses, log, p, env, log + CellLog(p, f, env))
  {
    var n := CacheNeighborMasses(masses, PendingOf(log), p, env, MAX_MASS);
    var f := FlowOf(Val(masses, p), n);
    TurnIsMade(masses, log, p, env, n, f, CellLog(p, f, env));
  }

  lemma TurnIsMade(masses: map<Pos, real>, log: seq<Transfer>, p: Pos, env: Env,
                   n: NeighborMasses, f: FlowResult, flows: seq<Transfer>)
    requires n == CacheNeighborMasses(masses, PendingOf(log), p, env, MAX_MASS)
    requires f == FlowOf(Val(masses, p), n) && flows == CellLog(p, f, env)
    ensures IsTurn(masses, log, p, env, flows)
  {
    CachedIsSeen(masses, log, p, env, MAX_MASS);
    FlowIsFlow(Val(masses, p), n, f);
    FlowIsRecorded(p, f, env);
    FlowIsSafe(Val(masses, p), n);
    CellLogAmount(p, f, env);
  }
}
