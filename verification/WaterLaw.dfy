/**
 What a water cell sends where, as a relation between its mass, its type, its neighbours and the amounts;
 what processing leaves of it; and what a tick makes of every position. Nothing here is computed: each law
 fixes the outcome.
 */
module WaterLaws {
  import opened BlockTypes
  import opened Geometry
  import opened Ledger
  import opened Fluid
  import opened FluidLaws
  import opened FluidTick
  import opened Water

  // ----- the flow of one cell

  /** Down: everything into the void; else what fits, damped unless it is dry below, if that is worth a flow. */
  predicate IsDown(mass: real, n: NeighborMasses, down: real) {
    if n.belowVoid then down == mass
    else if n.belowSolid then down == 0.0
    else
      var room := MAX_MASS + MAX_COMPRESS - n.below;
      var most := if mass <= room then mass else room;
      if n.below < MIN_MASS then (if most > MIN_MASS then down == most else down == 0.0)
      else if room > MIN_MASS && 8.0 * most > 10.0 * MIN_MASS then 10.0 * down == 8.0 * most
      else down == 0.0
  }

  /** The share of a difference in level that flows in one tick. */
  predicate IsRate(t: WaterType, rate: real) {
    rate == if t == River then 1.0 else if t == Lake then 0.56 else if t == Swamp then 0.24 else 0.8
  }

  /** One side: its share, or the least flow if the share is smaller and more than twice that is left. */
  predicate IsSide(closed: bool, m: real, remaining: real, average: real, rate: real, amount: real) {
    if closed || m >= remaining || m >= average then amount == 0.0
    else
      var share := (average - m) * rate;
      if share < MIN_FLOW then amount == (if remaining > 2.0 * MIN_FLOW then MIN_FLOW else 0.0)
      else amount == if share < remaining then share else 0.0
  }

  /** The four sides in turn, each from what the ones before have left. */
  predicate AreSides(n: NeighborMasses, rest: real, average: real, rate: real, f: FlowResult) {
    && IsSide(n.posXSolid, n.posX, rest, average, rate, f.posX)
    && IsSide(n.negXSolid, n.negX, rest - f.posX, average, rate, f.negX)
    && IsSide(n.posZSolid, n.posZ, rest - f.posX - f.negX, average, rate, f.posZ)
    && IsSide(n.negZSolid, n.negZ, rest - f.posX - f.negX - f.posZ, average, rate, f.negZ)
  }

  ghost predicate Spread(n: NeighborMasses, rest: real, t: WaterType, f: FlowResult) {
    if rest > MIN_FLOW
    then exists average, rate :: IsLevel(n, rest, average) && IsRate(t, rate) && AreSides(n, rest, average, rate, f)
    else f.posX == f.negX == f.posZ == f.negZ == 0.0
  }

  /** Up: four fifths of what is under pressure and of the room above, if that is worth a flow. */
  predicate IsUp(left: real, n: NeighborMasses, up: real) {
    var most := if left - MAX_MASS <= MAX_MASS - n.above then left - MAX_MASS else MAX_MASS - n.above;
    if !n.aboveSolid && 8.0 * most > 10.0 * MIN_FLOW then 10.0 * up == 8.0 * most else up == 0.0
  }

  /** The flow of a cell of this mass and type: down first, then sideways, then up. */
  ghost predicate IsFlow(mass: real, t: WaterType, n: NeighborMasses, f: FlowResult) {
    if mass <= MIN_MASS then f == NO_FLOW else
      && IsDown(mass, n, f.down)
      && Spread(n, mass - f.down, t, f)
      && IsUp(mass - f.down - f.posX - f.negX - f.posZ - f.negZ, n, f.up)
  }

  /** The law leaves no choice. */
  lemma FlowIsUnique(mass: real, t: WaterType, n: NeighborMasses, f: FlowResult, g: FlowResult)
    requires IsFlow(mass, t, n, f) && IsFlow(mass, t, n, g)
    ensures f == g
  {
    if mass > MIN_MASS {
      DownIsUnique(mass, n, f.down, g.down);
      SpreadIsUnique(n, mass - f.down, t, f, g);
    }
  }

  lemma DownIsUnique(mass: real, n: NeighborMasses, a: real, b: real)
    requires IsDown(mass, n, a) && IsDown(mass, n, b)
    ensures a == b
  {}

  lemma SpreadIsUnique(n: NeighborMasses, rest: real, t: WaterType, f: FlowResult, g: FlowResult)
    requires Spread(n, rest, t, f) && Spread(n, rest, t, g)
    ensures f.posX == g.posX && f.negX == g.negX && f.posZ == g.posZ && f.negZ == g.negZ
  {
    if rest > MIN_FLOW {
      var a, r :| IsLevel(n, rest, a) && IsRate(t, r) && AreSides(n, rest, a, r, f);
      var b, s :| IsLevel(n, rest, b) && IsRate(t, s) && AreSides(n, rest, b, s, g);
      LevelIsUnique(n, rest, a, b);
      SidesAreUnique(n, rest, a, r, f, g);
    }
  }

  lemma SidesAreUnique(n: NeighborMasses, rest: real, average: real, rate: real, f: FlowResult, g: FlowResult)
    requires AreSides(n, rest, average, rate, f) && AreSides(n, rest, average, rate, g)
    ensures f.posX == g.posX && f.negX == g.negX && f.posZ == g.posZ && f.negZ == g.negZ
  {
    assert f.posX == g.posX;
    assert f.negX == g.negX;
    assert f.posZ == g.posZ;
  }

  lemma SidesInTurn(sides: seq<Side>, rest: real, average: real, rate: real)
    requires sides != []
    ensures var flows := SideFlows(sides, rest, average, rate);
            && IsSide(!sides[0].open, sides[0].mass, rest, average, rate, flows[0])
            && flows[1..] == SideFlows(sides[1..], rest - flows[0], average, rate)
  {
    SideIsSide(sides[0], rest, average, rate);
  }

  lemma SideIsSide(s: Side, rest: real, average: real, rate: real)
    ensures IsSide(!s.open, s.mass, rest, average, rate, SideFlow(s, rest, average, rate))
  {}

  lemma SideFlowsAreSides(n: NeighborMasses, rest: real, average: real, rate: real, f: FlowResult)
    requires [f.posX, f.negX, f.posZ, f.negZ] == SideFlows(Sides(n), rest, average, rate)
    ensures AreSides(n, rest, average, rate, f)
  {
    var s, flows := Sides(n), SideFlows(Sides(n), rest, average, rate);
    assert f.posX == flows[0] && f.negX == flows[1] && f.posZ == flows[2] && f.negZ == flows[3];
    SidesInTurn(s, rest, average, rate);
    SidesInTurn(s[1..], rest - flows[0], average, rate);
    SidesInTurn(s[1..][1..], rest - flows[0] - flows[1], average, rate);
    SidesInTurn(s[1..][1..][1..], rest - flows[0] - flows[1] - flows[2], average, rate);
  }

  lemma RateIsRate(t: WaterType)
    ensures IsRate(t, FlowRate(t))
  {}

  lemma DownIsDown(mass: real, n: NeighborMasses)
    requires mass > MIN_MASS
    ensures IsDown(mass, n, DownFlow(mass, n))
  {}

  lemma UpIsUp(left: real, n: NeighborMasses)
    ensures IsUp(left, n, UpFlow(left, n))
  {}

  lemma SpreadIsSpread(n: NeighborMasses, rest: real, t: WaterType, f: FlowResult)
    requires [f.posX, f.negX, f.posZ, f.negZ] == SideFlowsOf(rest, n, t)
    ensures Spread(n, rest, t, f)
  {
    if rest > MIN_FLOW {
      var average, rate := Average(Sides(n), rest), FlowRate(t);
      AverageIsLevel(n, rest);
      RateIsRate(t);
      if LowerCount(Sides(n), rest) > 0 {
        SideFlowsAreSides(n, rest, average, rate, f);
      } else {
        NoLowerSides(n, rest);
      }
      assert IsLevel(n, rest, average) && IsRate(t, rate) && AreSides(n, rest, average, rate, f);
    } else {
      assert [f.posX, f.negX, f.posZ, f.negZ] == [0.0, 0.0, 0.0, 0.0];
    }
  }

  /** The computed flow is the flow of the law. */
  lemma FlowIsFlow(mass: real, t: WaterType, n: NeighborMasses, f: FlowResult)
    requires f == FlowOf(mass, t, n)
    ensures IsFlow(mass, t, n, f)
  {
    if mass > MIN_MASS {
      var rest := mass - f.down;
      var flows := SideFlowsOf(rest, n, t);
      assert [f.posX, f.negX, f.posZ, f.negZ] == flows;
      DownIsDown(mass, n);
      SpreadIsSpread(n, rest, t, f);
      SumOfFour(flows);
      UpIsUp(rest - Sum(flows), n);
    }
  }

  // ----- what is recorded of a flow

  /** One of the six directions: a flow of at most MIN_FLOW, or into the void below, reaches nobody. */
  predicate IsDirection(t: Transfer, p: Pos, f: FlowResult, belowVoid: bool) {
    || Departs(t, p, Pos(p.x, p.y - 1, p.z), belowVoid || f.down <= MIN_FLOW, f.down)
    || Departs(t, p, Pos(p.x, p.y + 1, p.z), f.up <= MIN_FLOW, f.up)
    || Departs(t, p, Pos(p.x + 1, p.y, p.z), f.posX <= MIN_FLOW, f.posX)
    || Departs(t, p, Pos(p.x - 1, p.y, p.z), f.negX <= MIN_FLOW, f.negX)
    || Departs(t, p, Pos(p.x, p.y, p.z + 1), f.posZ <= MIN_FLOW, f.posZ)
    || Departs(t, p, Pos(p.x, p.y, p.z - 1), f.negZ <= MIN_FLOW, f.negZ)
  }

  lemma DirectionsAre(t: Transfer, p: Pos, f: FlowResult, belowVoid: bool)
    ensures t in Directions(p, f, belowVoid) <==> IsDirection(t, p, f, belowVoid)
  {
    var all := Directions(p, f, belowVoid);
    assert t in all <==> t == all[0] || t == all[1] || t == all[2] || t == all[3] || t == all[4] || t == all[5];
  }

  /** The transfers of a flow: none unless some direction is worth it, else one for each that moves something. */
  ghost predicate AreRecorded(flows: seq<Transfer>, p: Pos, f: FlowResult, belowVoid: bool) {
    && (forall t :: t in flows <==> f.HasFlow() && t.amount > 0.0 && IsDirection(t, p, f, belowVoid))
    && Amount(flows) == (if f.HasFlow() then f.TotalOutflow() else 0.0)
  }

  lemma FlowIsRecorded(p: Pos, f: FlowResult, belowVoid: bool)
    requires NoNegative(f)
    ensures AreRecorded(CellLog(p, f, belowVoid), p, f, belowVoid)
  {
    forall t
      ensures t in Directions(p, f, belowVoid) <==> IsDirection(t, p, f, belowVoid)
    {
      DirectionsAre(t, p, f, belowVoid);
    }
    if f.HasFlow() {
      DirectionsAreOutflow(p, f, belowVoid);
      DirectionsAmount(p, f, belowVoid);
      PositiveAmount(Directions(p, f, belowVoid));
    }
  }

  // ----- what processing leaves of a cell

  /** Water evaporates when it is very thin, or thin and without flow for more than five ticks. */
  predicate Thins(c: WaterCell, flows: bool) {
    !c.isSource && if flows then c.mass < VERY_THIN_THRESHOLD else c.stableTicks + 1 > 5 && c.mass < EVAPORATION_THRESHOLD
  }

  /** Without flow the counter rises; what evaporates loses EVAPORATION_RATE, and is gone if a trace is left. */
  predicate IsAged(before: Option<WaterCell>, flows: bool, after: Option<WaterCell>) {
    if before.None? then after.None? else
      var c := before.value;
      var ticks := if flows then 0 else if c.stableTicks < 255 then c.stableTicks + 1 else 255;
      if !Thins(c, flows) then after == Some(WaterCell(c.mass, c.isSource, ticks, c.waterType))
      else if c.mass <= MIN_MASS + EVAPORATION_RATE then after.None?
      else after == Some(WaterCell(c.mass - EVAPORATION_RATE, c.isSource, ticks, c.waterType))
  }

  ghost predicate IsProcessed(before: map<Pos, WaterCell>, p: Pos, flows: bool, after: map<Pos, WaterCell>) {
    IsAged(Get(before, p), flows, Get(after, p)) && forall q :: q != p ==> Get(after, q) == Get(before, q)
  }

  lemma ProcessedLaw(cells: map<Pos, WaterCell>, p: Pos, f: FlowResult)
    ensures IsProcessed(cells, p, f.HasFlow(), Processed(cells, p, f))
  {}

  /** The first flow out of a cell stamps it with its own type, every flow in with the sender's. */
  ghost predicate IsStamped(before: map<Pos, WaterType>, p: Pos, t: WaterType, flows: seq<Transfer>, after: map<Pos, WaterType>) {
    && after.Keys == before.Keys + (if flows == [] then {} else {p} + Targets(flows))
    && (forall q :: q in after ==> after[q] == if q in Targets(flows) || q !in before then t else before[q])
  }

  lemma {:induction false} StampedLaw(types: map<Pos, WaterType>, flows: seq<Transfer>, t: WaterType)
    ensures var after := Stamped(types, flows, t);
            forall q :: q in after ==> after[q] == if q in Targets(flows) then t else types[q]
  {
    if flows != [] {
      StampedLaw(types, flows[..|flows| - 1], t);
    }
  }

  lemma TypesLaw(types: map<Pos, WaterType>, p: Pos, t: WaterType, flows: seq<Transfer>)
    ensures IsStamped(types, p, t, flows, NextTypes(types, p, t, flows))
  {
    StampedLaw(if p in types then types else types[p := t], flows, t);
  }

  // ----- a tick, cell by cell

  /** What one processed cell makes of the state: it sees its neighbours as they are by then, and flows by the law. */
  ghost predicate IsTurn(st: TickState, p: Pos, env: Env, next: TickState) {
    exists n, f, flows ::
      && Sees(Masses(st.cells), st.log, p, env, MAX_MASS, n)
      && IsFlow(Val(Masses(st.cells), p), TypeAt(st.cells, p), n, f)
      && AreRecorded(flows, p, f, n.belowVoid) && next.log == st.log + flows
      && IsProcessed(st.cells, p, f.HasFlow(), next.cells)
      && IsStamped(st.types, p, TypeAt(st.cells, p), flows, next.types)
  }

  /** Every cell of the order has its turn, after those before it, and together they lead to this state. */
  ghost predicate Reaches(before: map<Pos, WaterCell>, order: seq<Pos>, env: Env, st: TickState) {
    if order == [] then st == TickState(before, [], map[])
    else
      var init, p := order[..|order| - 1], order[|order| - 1];
      exists was :: Reaches(before, init, env, was) && IsTurn(was, p, env, st)
  }

  lemma TurnLaw(st: TickState, p: Pos, env: Env)
    ensures exists next :: next == NextState(st, p, env) && IsTurn(st, p, env, next)
  {
    var n := CacheNeighborMasses(Masses(st.cells), PendingOf(st.log), p, env, MAX_MASS);
    var f := FlowOf(Val(Masses(st.cells), p), TypeAt(st.cells, p), n);
    TurnIsMade(st, p, env, n, f, CellLog(p, f, n.belowVoid), NextState(st, p, env));
  }

  lemma TurnIsMade(st: TickState, p: Pos, env: Env, n: NeighborMasses, f: FlowResult, flows: seq<Transfer>, next: TickState)
    requires n == CacheNeighborMasses(Masses(st.cells), PendingOf(st.log), p, env, MAX_MASS)
    requires f == FlowOf(Val(Masses(st.cells), p), TypeAt(st.cells, p), n) && flows == CellLog(p, f, n.belowVoid)
    requires next == TickState(Processed(st.cells, p, f), st.log + flows, NextTypes(st.types, p, TypeAt(st.cells, p), flows))
    ensures IsTurn(st, p, env, next)
  {
    CachedIsSeen(Masses(st.cells), st.log, p, env, MAX_MASS);
    FlowIsFlow(Val(Masses(st.cells), p), TypeAt(st.cells, p), n, f);
    FlowIsSafe(Val(Masses(st.cells), p), TypeAt(st.cells, p), n);
    FlowIsRecorded(p, f, n.belowVoid);
    ProcessedLaw(st.cells, p, f);
    TypesLaw(st.types, p, TypeAt(st.cells, p), flows);
  }

  lemma {:induction false} TurnsLaw(before: map<Pos, WaterCell>, order: seq<Pos>, env: Env, st: TickState)
    requires st == StateAfter(before, order, env)
    ensures Reaches(before, order, env, st)
  {
    if order != [] {
      var was := StateAfter(before, order[..|order| - 1], env);
      TurnsLaw(before, order[..|order| - 1], env, was);
      TurnLaw(was, order[|order| - 1], env);
    }
  }

  // ----- settling, position by position

  /**
   A pending delta and one position. A source stays. What is there with the delta stays if it is more than a
   trace, and is gone otherwise; it is of the delta's type where there was no cell or where the delta is more
   than half of it. Without a delta nothing changes.
   */
  predicate IsDrained(before: Option<WaterCell>, delta: Option<real>, t: Option<WaterType>, after: Option<WaterCell>) {
    if delta.None? || (before.Some? && before.value.isSource) then after == before
    else
      var there := (if before.Some? then before.value.mass else 0.0) + delta.value;
      if there <= MIN_MASS then after.None?
      else
        var inherits := before.None? || 2.0 * delta.value > there;
        && after.Some? && after.value.mass == there && !after.value.isSource && after.value.stableTicks == 0
        && Some(after.value.waterType) == if inherits then t else Some(before.value.waterType)
  }

  /** What is pending for q when the last cell has had its turn. */
  ghost function Delta(log: seq<Transfer>, q: Pos): Option<real> {
    if q in Mentioned(log) then Some(Net(log, q)) else None
  }

  ghost predicate IsSettled(st: TickState, after: map<Pos, WaterCell>, q: Pos) {
    IsDrained(Get(st.cells, q), Delta(st.log, q), Get(st.types, q), Get(after, q))
  }

  lemma DrainedLaw(cells: map<Pos, WaterCell>, pending: map<Pos, real>, types: map<Pos, WaterType>, q: Pos)
    requires pending.Keys <= types.Keys
    ensures IsDrained(Get(cells, q), Get(pending, q), Get(types, q), Get(Settled(cells, pending, types), q))
  {
    SettledAt(cells, pending, types, q);
  }

  lemma SettledLaw(st: TickState, q: Pos)
    requires st.types.Keys == Mentioned(st.log)
    ensures IsSettled(st, Settled(st.cells, PendingOf(st.log), st.types), q)
  {
    DrainedLaw(st.cells, PendingOf(st.log), st.types, q);
  }

  lemma SettledAt(cells: map<Pos, WaterCell>, pending: map<Pos, real>, types: map<Pos, WaterType>, q: Pos)
    requires pending.Keys <= types.Keys
    ensures Get(Settled(cells, pending, types), q) == After(cells, pending, types, q)
  {}

  /** A tick: every cell of the order has its turn, then every position settles. */
  ghost predicate IsTick(before: map<Pos, WaterCell>, order: seq<Pos>, env: Env, after: map<Pos, WaterCell>) {
    exists st :: Reaches(before, order, env, st) && forall q :: IsSettled(st, after, q)
  }

  lemma TickLaw(before: map<Pos, WaterCell>, order: seq<Pos>, env: Env)
    ensures IsTick(before, order, env, AfterTick(before, order, env))
  {
    var st := StateAfter(before, order, env);
    TurnsLaw(before, order, env, st);
    StateTypes(before, order, env);
    forall q
      ensures IsSettled(st, AfterTick(before, order, env), q)
    {
      SettledLaw(st, q);
    }
  }

  // ----- what is active, dirty and changed after a tick

  /** Evaporated away when its turn came. */
  predicate Gone(c: Option<WaterCell>, flows: bool) {
    c.Some? && Thins(c.value, flows) && c.value.mass <= MIN_MASS + EVAPORATION_RATE
  }

  /** Still for ten ticks, and not evaporating. */
  predicate Stalls(c: Option<WaterCell>) {
    c.Some? && c.value.stableTicks + 1 >= 10 && !Thins(c.value, false)
  }

  /** Active after a tick: not stalled, and a cell that took part in a flow, or active before and not gone. */
  ghost predicate IsActive(start: bool, c: Option<WaterCell>, processed: bool, flowed: bool, mentioned: bool, wet: bool) {
    && !(processed && !flowed && Stalls(c))
    && (if mentioned && (wet || (c.Some? && !(processed && Gone(c, flowed)))) then wet
        else start && !(processed && Gone(c, flowed)))
  }

  /** Every position with its flows: what is active, marked for the next tick and reported as changed. */
  ghost predicate IsActivity(start: set<Pos>, before: map<Pos, WaterCell>, order: seq<Pos>, log: seq<Transfer>,
                             cells: map<Pos, WaterCell>, active: set<Pos>, dirty: set<Pos>, changed: set<Pos>)
  {
    && (forall q :: q in active <==> IsActive(q in start, Get(before, q), q in order, q in Froms(log), q in Mentioned(log), q in cells))
    && dirty == NeighborsOf(set p | p in Froms(log) && !Gone(Get(before, p), true))
    && (forall q :: q in changed <==> q in Mentioned(log)
                                      || (q in order && q in before && q !in Froms(log) && Thins(before[q], false)))
  }

  // ----- water falls

  lemma TurnKeys(st: TickState, p: Pos, env: Env)
    ensures var next := NextState(st, p, env);
            next.cells.Keys <= st.cells.Keys && forall q :: q != p ==> Get(next.cells, q) == Get(st.cells, q)
  {}

  /** Cells not yet processed are as before, and none appears before the tick settles. */
  lemma {:induction false} StateKeys(before: map<Pos, WaterCell>, order: seq<Pos>, env: Env)
    ensures StateAfter(before, order, env).cells.Keys <= before.Keys
    ensures forall p :: p !in order ==> Get(StateAfter(before, order, env).cells, p) == Get(before, p)
  {
    if order != [] {
      var init := order[..|order| - 1];
      StateKeys(before, init, env);
      TurnKeys(StateAfter(before, init, env), order[|order| - 1], env);
      assert forall p :: p !in order ==> p !in init && p != order[|order| - 1];
    }
  }

  /** A free position only gains, and has gained more than a least flow once the cell above it was processed. */
  lemma {:induction false} FreeIsFilled(cells: map<Pos, WaterCell>, order: seq<Pos>, env: Env, pos: Pos)
    requires Distinct(order) && Free(cells, env, Pos(pos.x, pos.y - 1, pos.z)) && Val(Masses(cells), pos) > MIN_MASS
    ensures var net := Net(StateAfter(cells, order, env).log, Pos(pos.x, pos.y - 1, pos.z));
            (net == 0.0 || net > MIN_FLOW) && (pos in order ==> net > MIN_FLOW)
  {
    if order != [] {
      var init, p := order[..|order| - 1], order[|order| - 1];
      var st := StateAfter(cells, init, env);
      FreeIsFilled(cells, init, env, pos);
      StateKeys(cells, init, env);
      assert Val(Masses(st.cells), pos) > MIN_MASS || pos in init;
      FillsMore(st, env, pos, p);
      assert pos in order ==> pos in init || pos == p;
      assert pos in init ==> pos != p;
    }
  }

  lemma FillsMore(st: TickState, env: Env, pos: Pos, p: Pos)
    requires Free(st.cells, env, Pos(pos.x, pos.y - 1, pos.z)) && (p == pos ==> Val(Masses(st.cells), p) > MIN_MASS)
    ensures var q, next := Pos(pos.x, pos.y - 1, pos.z), NextState(st, p, env);
            && (Net(next.log, q) == Net(st.log, q) || Net(next.log, q) > Net(st.log, q) + MIN_FLOW)
            && (p == pos && Net(st.log, q) == 0.0 ==> Net(next.log, q) > MIN_FLOW)
  {
    var f := FlowAfter(st.cells, st.log, p, env);
    var flows := CellLog(p, f, env.isOutOfBounds(p.Plus(BELOW)));
    FillsNext(st, env, pos, p, f, flows);
    NetAppend(st.log, flows, Pos(pos.x, pos.y - 1, pos.z));
  }

  /** The transfers of one cell never take from a free position, and the cell above it fills it if nothing else has. */
  lemma FillsNext(st: TickState, env: Env, pos: Pos, p: Pos, f: FlowResult, flows: seq<Transfer>)
    requires Free(st.cells, env, Pos(pos.x, pos.y - 1, pos.z)) && (p == pos ==> Val(Masses(st.cells), p) > MIN_MASS)
    requires f == FlowAfter(st.cells, st.log, p, env) && flows == CellLog(p, f, env.isOutOfBounds(p.Plus(BELOW)))
    ensures Net(flows, Pos(pos.x, pos.y - 1, pos.z)) == 0.0 || Net(flows, Pos(pos.x, pos.y - 1, pos.z)) > MIN_FLOW
    ensures p == pos && Net(st.log, Pos(pos.x, pos.y - 1, pos.z)) == 0.0 ==> Net(flows, Pos(pos.x, pos.y - 1, pos.z)) > MIN_FLOW
  {
    if p == Pos(pos.x, pos.y - 1, pos.z) {
      assert f == NO_FLOW && flows == [];
    } else {
      FlowLeaves(p, Val(Masses(st.cells), p), TypeAt(st.cells, p),
                 CacheNeighborMasses(Masses(st.cells), PendingOf(st.log), p, env, MAX_MASS), flows);
      InflowIsMore(flows, p, Pos(pos.x, pos.y - 1, pos.z), MIN_FLOW);
      if p == pos && Net(st.log, Pos(pos.x, pos.y - 1, pos.z)) == 0.0 {
        FallsIntoFree(st, env, pos, CacheNeighborMasses(Masses(st.cells), PendingOf(st.log), pos, env, MAX_MASS), f, flows);
      }
    }
  }

  lemma FlowLeaves(p: Pos, mass: real, t: WaterType, n: NeighborMasses, flows: seq<Transfer>)
    requires flows == CellLog(p, FlowOf(mass, t, n), n.belowVoid)
    ensures forall t :: t in flows ==> t.from == p && (t.to.Some? ==> t.amount > MIN_FLOW)
  {
    FlowIsSafe(mass, t, n);
    if flows != [] {
      DirectionsAreOutflow(p, FlowOf(mass, t, n), n.belowVoid);
    }
  }

  lemma FallsIntoFree(st: TickState, env: Env, pos: Pos, n: NeighborMasses, f: FlowResult, flows: seq<Transfer>)
    requires Free(st.cells, env, Pos(pos.x, pos.y - 1, pos.z)) && Val(Masses(st.cells), pos) > MIN_MASS
    requires n == CacheNeighborMasses(Masses(st.cells), PendingOf(st.log), pos, env, MAX_MASS)
    requires Net(st.log, Pos(pos.x, pos.y - 1, pos.z)) == 0.0
    requires f == FlowOf(Val(Masses(st.cells), pos), TypeAt(st.cells, pos), n) && flows == CellLog(pos, f, n.belowVoid)
    ensures Transfer(pos, Some(Pos(pos.x, pos.y - 1, pos.z)), f.down) in flows
  {
    CachedIsSeen(Masses(st.cells), st.log, pos, env, MAX_MASS);
    DownIsDown(Val(Masses(st.cells), pos), n);
    assert f.down > MIN_FLOW && Directions(pos, f, n.belowVoid)[0] == Flow(pos, BELOW, false, f.down);
    assert Directions(pos, f, n.belowVoid)[0] in Directions(pos, f, n.belowVoid);
  }

  /** A tick that processes water above a free position leaves water in that position, whatever else flows. */
  lemma WaterFalls(cells: map<Pos, WaterCell>, order: seq<Pos>, env: Env, pos: Pos)
    requires Distinct(order) && pos in order && pos in cells && cells[pos].HasWater()
    requires Free(cells, env, Pos(pos.x, pos.y - 1, pos.z))
    ensures var after := AfterTick(cells, order, env);
            Pos(pos.x, pos.y - 1, pos.z) in after && after[Pos(pos.x, pos.y - 1, pos.z)].HasWater()
  {
    var st, q := StateAfter(cells, order, env), Pos(pos.x, pos.y - 1, pos.z);
    FreeIsFilled(cells, order, env, pos);
    StateKeys(cells, order, env);
    StateTypes(cells, order, env);
    UnmentionedIsZero(st.log, q);
    SettledLaw(st, q);
  }

  /** Whatever flows into a position without a cell is its cell after the tick, unless it is a trace. */
  lemma InflowIsACell(cells: map<Pos, WaterCell>, order: seq<Pos>, env: Env, q: Pos)
    requires q !in cells
    ensures var net, after := Net(StateAfter(cells, order, env).log, q), AfterTick(cells, order, env);
            (q in after <==> net > MIN_MASS) && (q in after ==> after[q].mass == net)
  {
    var st := StateAfter(cells, order, env);
    StateKeys(cells, order, env);
    StateTypes(cells, order, env);
    UnmentionedIsZero(st.log, q);
    SettledLaw(st, q);
  }
}
