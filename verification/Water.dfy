/**
 The water simulation. Unlike lava, a tick changes cells while it goes: thin cells evaporate, and a
 cell may disappear with its negative delta still pending. `TickState` is the state after a
 prefix of the processing order; the mass theorem is an invariant of it, for every order.
 */
module Water {
  import opened BlockTypes
  import opened Geometry
  import opened Ledger
  import opened Fluid
  import opened FluidTick

  const MAX_MASS: real := 1.0
  const MAX_COMPRESS: real := 0.02
  const MIN_MASS: real := 0.001
  const MIN_FLOW: real := 0.001
  const FLOW_DAMPING: real := 0.8
  const STABLE_AFTER: nat := 10
  const MAX_TICKS: nat := 255
  const EVAPORATION_THRESHOLD: real := 0.3
  const EVAPORATION_RATE: real := 0.005
  const VERY_THIN_THRESHOLD: real := 0.1

  datatype WaterCell = WaterCell(mass: real, isSource: bool, stableTicks: nat, waterType: WaterType) {
    predicate HasWater() {
      mass > MIN_MASS
    }
  }

  datatype FlowResult = FlowResult(down: real, up: real, posX: real, negX: real, posZ: real, negZ: real) {
    predicate HasFlow() {
      down > MIN_FLOW || up > MIN_FLOW || posX > MIN_FLOW || negX > MIN_FLOW || posZ > MIN_FLOW || negZ > MIN_FLOW
    }

    function TotalOutflow(): real {
      down + up + posX + negX + posZ + negZ
    }
  }

  const NO_FLOW: FlowResult := FlowResult(0.0, 0.0, 0.0, 0.0, 0.0, 0.0)

  // ----- the flow of one cell

  function FlowRate(t: WaterType): real {
    Min(match t
        case River => FLOW_DAMPING * 1.5
        case Swamp => FLOW_DAMPING * 0.3
        case Lake => FLOW_DAMPING * 0.7
        case _ => FLOW_DAMPING, 1.0)
  }

  function DownFlow(mass: real, n: NeighborMasses): real {
    if n.belowVoid then mass
    else if n.belowSolid || MAX_MASS + MAX_COMPRESS - n.below <= MIN_MASS then 0.0
    else
      var room := Min(mass, MAX_MASS + MAX_COMPRESS - n.below);
      var flow := if n.below < MIN_MASS then room else room * FLOW_DAMPING;
      if flow > MIN_MASS then flow else 0.0
  }

  /** A small flow is nudged up to MIN_FLOW while more than twice that remains. */
  function SideFlow(s: Side, remaining: real, average: real, rate: real): real {
    if s.open && s.mass < remaining && s.mass < average then
      var wanted := (average - s.mass) * rate;
      var flow := if wanted < MIN_FLOW && remaining > MIN_FLOW * 2.0 then MIN_FLOW else wanted;
      if flow >= MIN_FLOW && remaining > flow then flow else 0.0
    else 0.0
  }

  function SideFlows(sides: seq<Side>, remaining: real, average: real, rate: real): (flows: seq<real>)
    ensures |flows| == |sides|
  {
    if sides == [] then [] else
      var flow := SideFlow(sides[0], remaining, average, rate);
      [flow] + SideFlows(sides[1..], remaining - flow, average, rate)
  }

  /** Pressure flow: half-compressed water above a full block. */
  function UpFlow(remaining: real, n: NeighborMasses): real {
    if n.aboveSolid || remaining <= MAX_MASS || MAX_MASS - n.above <= MIN_FLOW then 0.0 else
      var flow := Min(remaining - MAX_MASS, MAX_MASS - n.above) * FLOW_DAMPING;
      if flow > MIN_FLOW then flow else 0.0
  }

  function SideFlowsOf(remaining: real, n: NeighborMasses, t: WaterType): (flows: seq<real>)
    ensures |flows| == 4
  {
    if remaining > MIN_FLOW && LowerCount(Sides(n), remaining) > 0
    then SideFlows(Sides(n), remaining, Average(Sides(n), remaining), FlowRate(t))
    else [0.0, 0.0, 0.0, 0.0]
  }

  /** Down, then sideways, then up under pressure. */
  function FlowOf(mass: real, t: WaterType, n: NeighborMasses): FlowResult {
    if mass <= MIN_MASS then NO_FLOW else
      var down := DownFlow(mass, n);
      var flows := SideFlowsOf(mass - down, n, t);
      FlowResult(down, UpFlow(mass - down - Sum(flows), n), flows[0], flows[1], flows[2], flows[3])
  }

  lemma {:induction false} SideFlowsSafe(sides: seq<Side>, remaining: real, average: real, rate: real)
    requires remaining >= 0.0 && 0.0 < rate
    ensures var flows := SideFlows(sides, remaining, average, rate);
            && 0.0 <= Sum(flows) <= remaining
            && forall a :: a in flows ==> a == 0.0 || a >= MIN_FLOW
  {
    if sides != [] {
      var flow := SideFlow(sides[0], remaining, average, rate);
      SideFlowsSafe(sides[1..], remaining - flow, average, rate);
      assert SideFlows(sides, remaining, average, rate)[1..] == SideFlows(sides[1..], remaining - flow, average, rate);
    }
  }

  predicate NoNegative(f: FlowResult) {
    f.down >= 0.0 && f.up >= 0.0 && f.posX >= 0.0 && f.negX >= 0.0 && f.posZ >= 0.0 && f.negZ >= 0.0
  }

  lemma SideFlowsOfSafe(remaining: real, n: NeighborMasses, t: WaterType)
    requires remaining >= 0.0
    ensures var flows := SideFlowsOf(remaining, n, t);
            && flows[0] >= 0.0 && flows[1] >= 0.0 && flows[2] >= 0.0 && flows[3] >= 0.0
            && Sum(flows) == flows[0] + flows[1] + flows[2] + flows[3] <= remaining
  {
    var flows := SideFlowsOf(remaining, n, t);
    if remaining > MIN_FLOW && LowerCount(Sides(n), remaining) > 0 {
      SideFlowsSafe(Sides(n), remaining, Average(Sides(n), remaining), FlowRate(t));
    }
    SumOfFour(flows);
    assert flows[0] in flows && flows[1] in flows && flows[2] in flows && flows[3] in flows;
  }

  /** A cell never sends more than it has, and never a negative amount. */
  lemma FlowIsSafe(mass: real, t: WaterType, n: NeighborMasses)
    ensures NoNegative(FlowOf(mass, t, n)) && FlowOf(mass, t, n).TotalOutflow() <= Max(mass, 0.0)
  {
    if mass > MIN_MASS {
      VerticalFlowsSafe(mass, n);
      var rest := mass - DownFlow(mass, n);
      SideFlowsOfSafe(rest, n, t);
      VerticalFlowsSafe(rest - Sum(SideFlowsOf(rest, n, t)), n);
    }
  }

  lemma VerticalFlowsSafe(mass: real, n: NeighborMasses)
    ensures mass >= 0.0 ==> 0.0 <= DownFlow(mass, n) <= mass && 0.0 <= UpFlow(mass, n) <= mass
  {}

  /** A side flow only goes to an open neighbour that holds less than the average. */
  lemma {:induction false} SideFlowsDownhill(sides: seq<Side>, remaining: real, average: real, rate: real)
    ensures var flows := SideFlows(sides, remaining, average, rate);
            forall i :: 0 <= i < |flows| && flows[i] != 0.0 ==> sides[i].open && sides[i].mass < average
  {
    if sides != [] {
      var flow := SideFlow(sides[0], remaining, average, rate);
      SideFlowsDownhill(sides[1..], remaining - flow, average, rate);
      assert SideFlows(sides, remaining, average, rate)[1..] == SideFlows(sides[1..], remaining - flow, average, rate);
    }
  }

  predicate SideOk(flow: real, solid: bool, neighbor: real, mass: real) {
    flow != 0.0 ==> !solid && neighbor < mass
  }

  /** Where each flow may go: down into room, fully into the void, sideways downhill, up only under pressure and into room. */
  ghost predicate Directed(mass: real, n: NeighborMasses, f: FlowResult) {
    && (if n.belowVoid then f.down == mass
        else f.down != 0.0 ==> !n.belowSolid && n.below + f.down <= MAX_MASS + MAX_COMPRESS)
    && SideOk(f.posX, n.posXSolid, n.posX, mass) && SideOk(f.negX, n.negXSolid, n.negX, mass)
    && SideOk(f.posZ, n.posZSolid, n.posZ, mass) && SideOk(f.negZ, n.negZSolid, n.negZ, mass)
    && (f.up != 0.0 ==> !n.aboveSolid && mass > MAX_MASS && n.above + f.up <= MAX_MASS)
  }

  lemma SidesDirected(rest: real, mass: real, t: WaterType, n: NeighborMasses)
    requires rest <= mass
    ensures var flows := SideFlowsOf(rest, n, t);
            && SideOk(flows[0], n.posXSolid, n.posX, mass) && SideOk(flows[1], n.negXSolid, n.negX, mass)
            && SideOk(flows[2], n.posZSolid, n.posZ, mass) && SideOk(flows[3], n.negZSolid, n.negZ, mass)
  {
    if rest > MIN_FLOW && LowerCount(Sides(n), rest) > 0 {
      AverageBelow(Sides(n), rest);
      SideFlowsDownhill(Sides(n), rest, Average(Sides(n), rest), FlowRate(t));
    }
  }

  lemma FlowIsDirected(mass: real, t: WaterType, n: NeighborMasses)
    requires mass > MIN_MASS
    ensures Directed(mass, n, FlowOf(mass, t, n))
  {
    VerticalFlowsSafe(mass, n);
    var rest := mass - DownFlow(mass, n);
    SideFlowsOfSafe(rest, n, t);
    SidesDirected(rest, mass, t, n);
    UpIsPressure(rest - Sum(SideFlowsOf(rest, n, t)), n);
  }

  lemma UpIsPressure(remaining: real, n: NeighborMasses)
    ensures UpFlow(remaining, n) != 0.0 ==>
              !n.aboveSolid && remaining > MAX_MASS && n.above + UpFlow(remaining, n) <= MAX_MASS
  {}

  // ----- the transfers of one cell

  /** The six directions; only a flow above MIN_FLOW is credited, and nothing into the void below. */
  function Directions(pos: Pos, f: FlowResult, belowVoid: bool): seq<Transfer> {
    [Flow(pos, BELOW, belowVoid || f.down <= MIN_FLOW, f.down),
     Flow(pos, ABOVE, f.up <= MIN_FLOW, f.up),
     Flow(pos, POS_X, f.posX <= MIN_FLOW, f.posX),
     Flow(pos, NEG_X, f.negX <= MIN_FLOW, f.negX),
     Flow(pos, POS_Z, f.posZ <= MIN_FLOW, f.posZ),
     Flow(pos, NEG_Z, f.negZ <= MIN_FLOW, f.negZ)]
  }

  function CellLog(pos: Pos, f: FlowResult, belowVoid: bool): seq<Transfer> {
    if f.HasFlow() then Positive(Directions(pos, f, belowVoid)) else []
  }

  lemma DirectionsAmount(pos: Pos, f: FlowResult, belowVoid: bool)
    ensures Amount(Directions(pos, f, belowVoid)) == f.TotalOutflow()
  {
    var all := Directions(pos, f, belowVoid);
    assert all[..5][..4] == all[..4] && all[..4][..3] == all[..3] && all[..3][..2] == all[..2]
        && all[..2][..1] == all[..1] && all[..1][..0] == [];
    assert Amount(all[..1]) == f.down;
    assert Amount(all[..2]) == f.down + f.up;
    assert Amount(all[..3]) == f.down + f.up + f.posX;
    assert Amount(all[..4]) == f.down + f.up + f.posX + f.negX;
    assert Amount(all[..5]) == f.down + f.up + f.posX + f.negX + f.posZ;
  }

  lemma DirectionsAreOutflow(pos: Pos, f: FlowResult, belowVoid: bool)
    requires NoNegative(f) && f.HasFlow()
    ensures IsOutflow(Directions(pos, f, belowVoid), pos, f.TotalOutflow())
    ensures forall t :: t in Directions(pos, f, belowVoid) ==> t.to.Some? ==> t.amount > MIN_FLOW
  {
    var all := Directions(pos, f, belowVoid);
    DirectionsAmount(pos, f, belowVoid);
    assert all[0] in all && all[1] in all && all[2] in all && all[3] in all && all[4] in all && all[5] in all;
  }

  /** The transfers of one cell are paid by the cell. */
  lemma CellLogIsSafe(pos: Pos, mass: real, t: WaterType, n: NeighborMasses)
    ensures var flows := CellLog(pos, FlowOf(mass, t, n), n.belowVoid);
            && (forall u :: u in flows ==> u.from == pos && u.amount > 0.0)
            && Amount(flows) <= Max(mass, 0.0)
  {
    var f := FlowOf(mass, t, n);
    FlowIsSafe(mass, t, n);
    if f.HasFlow() {
      DirectionsAreOutflow(pos, f, n.belowVoid);
      PositiveAmount(Directions(pos, f, n.belowVoid));
    }
  }

  // ----- one processed cell

  /** What processing leaves of a cell: None when it evaporates away. */
  function Evaporated(c: WaterCell, flows: bool): Option<WaterCell> {
    if flows then
      var reset := c.(stableTicks := 0);
      if !c.isSource && c.mass < VERY_THIN_THRESHOLD then Thinned(reset) else Some(reset)
    else
      var aged := c.(stableTicks := if c.stableTicks < MAX_TICKS then c.stableTicks + 1 else MAX_TICKS);
      if IsEvaporating(aged) then Thinned(aged) else Some(aged)
  }

  predicate IsEvaporating(aged: WaterCell) {
    !aged.isSource && aged.mass < EVAPORATION_THRESHOLD && aged.stableTicks > 5
  }

  function Thinned(c: WaterCell): Option<WaterCell> {
    var mass := c.mass - EVAPORATION_RATE;
    if mass <= MIN_MASS then None else Some(c.(mass := mass))
  }

  function Masses(cells: map<Pos, WaterCell>): map<Pos, real> {
    map p | p in cells :: cells[p].mass
  }

  /** The cells after the one at pos was processed with flow f. */
  function Processed(cells: map<Pos, WaterCell>, pos: Pos, f: FlowResult): map<Pos, WaterCell> {
    if pos !in cells then cells else
      match Evaporated(cells[pos], f.HasFlow())
      case None => cells - {pos}
      case Some(c) => cells[pos := c]
  }

  function TypeAt(cells: map<Pos, WaterCell>, p: Pos): WaterType {
    if p in cells then cells[p].waterType else Ocean
  }

  /** The flow at pos given the pending deltas of a log. */
  ghost function FlowAfter(cells: map<Pos, WaterCell>, log: seq<Transfer>, pos: Pos, env: Env): FlowResult {
    FlowOf(Val(Masses(cells), pos), TypeAt(cells, pos), CacheNeighborMasses(Masses(cells), PendingOf(log), pos, env, MAX_MASS))
  }

  /** The water types carried by the pending deltas: the first flow out stamps its own, every flow in stamps the sender's. */
  function Stamped(types: map<Pos, WaterType>, flows: seq<Transfer>, t: WaterType): (r: map<Pos, WaterType>)
    ensures r.Keys == types.Keys + Targets(flows)
  {
    if flows == [] then types else
      var rest, last := Stamped(types, flows[..|flows| - 1], t), flows[|flows| - 1];
      match last.to
      case Some(q) => rest[q := t]
      case None => rest
  }

  function NextTypes(types: map<Pos, WaterType>, pos: Pos, t: WaterType, flows: seq<Transfer>): map<Pos, WaterType> {
    if flows == [] then types else Stamped(if pos in types then types else types[pos := t], flows, t)
  }

  /** Cells, transfers and carried types after a prefix of the processing order. */
  datatype TickState = TickState(cells: map<Pos, WaterCell>, log: seq<Transfer>, types: map<Pos, WaterType>)

  ghost function NextState(st: TickState, pos: Pos, env: Env): TickState {
    var f := FlowAfter(st.cells, st.log, pos, env);
    var flows := CellLog(pos, f, env.isOutOfBounds(pos.Plus(BELOW)));
    TickState(Processed(st.cells, pos, f), st.log + flows, NextTypes(st.types, pos, TypeAt(st.cells, pos), flows))
  }

  ghost function StateAfter(cells: map<Pos, WaterCell>, order: seq<Pos>, env: Env): TickState {
    if order == [] then TickState(cells, [], map[]) else
      NextState(StateAfter(cells, order[..|order| - 1], env), order[|order| - 1], env)
  }

  lemma NextTypesKeys(log: seq<Transfer>, types: map<Pos, WaterType>, pos: Pos, t: WaterType, flows: seq<Transfer>)
    requires types.Keys == Mentioned(log) && forall u :: u in flows ==> u.from == pos
    ensures NextTypes(types, pos, t, flows).Keys == Mentioned(log + flows)
  {
    MentionedAppend(log, flows);
    if flows != [] {
      MentionedFrom(flows, pos);
    }
  }

  lemma CellLogFrom(pos: Pos, f: FlowResult, belowVoid: bool)
    ensures forall t :: t in CellLog(pos, f, belowVoid) ==> t.from == pos
  {}

  /** Every pending delta carries a type. */
  lemma {:induction false} StateTypes(cells: map<Pos, WaterCell>, order: seq<Pos>, env: Env)
    ensures var st := StateAfter(cells, order, env); st.types.Keys == Mentioned(st.log)
  {
    if order != [] {
      var st, pos := StateAfter(cells, order[..|order| - 1], env), order[|order| - 1];
      StateTypes(cells, order[..|order| - 1], env);
      var f, belowVoid := FlowAfter(st.cells, st.log, pos, env), env.isOutOfBounds(pos.Plus(BELOW));
      CellLogFrom(pos, f, belowVoid);
      NextTypesKeys(st.log, st.types, pos, TypeAt(st.cells, pos), CellLog(pos, f, belowVoid));
    }
  }

  // ----- settling

  /** One pending delta with the type of its last inflow. */
  function Settle(cell: Option<WaterCell>, delta: real, waterType: WaterType): Option<WaterCell> {
    match cell
    case None => if delta > MIN_MASS then Some(WaterCell(delta, false, 0, waterType)) else None
    case Some(c) =>
      if c.isSource then cell else
        var mass := Max(c.mass + delta, 0.0);
        if mass <= MIN_MASS then None
        else Some(WaterCell(mass, false, 0, if delta > 0.0 && delta > mass * 0.5 then waterType else c.waterType))
  }

  function After(cells: map<Pos, WaterCell>, pending: map<Pos, real>, types: map<Pos, WaterType>, p: Pos): Option<WaterCell>
    requires pending.Keys <= types.Keys
  {
    if p in pending then Settle(Get(cells, p), pending[p], types[p]) else Get(cells, p)
  }

  function Settled(cells: map<Pos, WaterCell>, pending: map<Pos, real>, types: map<Pos, WaterType>): map<Pos, WaterCell>
    requires pending.Keys <= types.Keys
  {
    map p | p in cells.Keys + pending.Keys && After(cells, pending, types, p).Some? :: After(cells, pending, types, p).value
  }

  function Sources(cells: map<Pos, WaterCell>): set<Pos> {
    set p | p in cells && cells[p].isSource
  }

  function NonSource(cells: map<Pos, WaterCell>): map<Pos, real> {
    map p | p in cells && !cells[p].isSource :: cells[p].mass
  }

  // ----- no tick creates water

  ghost predicate NonNegative(cells: map<Pos, WaterCell>) {
    forall p :: p in cells ==> cells[p].mass >= 0.0
  }

  /**
   Mid-tick, against the cells at the start: untouched outside `done`, sources untouched, the rest thinner by
   at most EVAPORATION_RATE, or gone with little more than that.
   */
  ghost predicate OnlyThinner(before: map<Pos, WaterCell>, cells: map<Pos, WaterCell>, done: set<Pos>) {
    && (forall p :: p !in done ==> Get(cells, p) == Get(before, p))
    && (forall p :: p in cells ==> p in before && cells[p].isSource == before[p].isSource
                                   && 0.0 <= cells[p].mass <= before[p].mass)
    && (forall p :: p in before && before[p].isSource ==> p in cells)
    && (forall p :: p in before ==> before[p].mass <= (if p in cells then cells[p].mass else MIN_MASS) + EVAPORATION_RATE)
  }

  ghost predicate SafeState(before: map<Pos, WaterCell>, st: TickState, done: set<Pos>) {
    OnlyThinner(before, st.cells, done) && SafeLog(Masses(before), st.log, done)
  }

  lemma ProcessedIsThinner(before: map<Pos, WaterCell>, cells: map<Pos, WaterCell>, done: set<Pos>, pos: Pos, f: FlowResult)
    requires OnlyThinner(before, cells, done) && pos !in done
    ensures OnlyThinner(before, Processed(cells, pos, f), done + {pos})
  {
    assert Get(cells, pos) == Get(before, pos);
  }

  lemma NextIsSafe(before: map<Pos, WaterCell>, st: TickState, done: set<Pos>, pos: Pos, env: Env, next: TickState, all: set<Pos>)
    requires NonNegative(before) && SafeState(before, st, done) && pos !in done
    requires next == NextState(st, pos, env) && all == done + {pos}
    ensures SafeState(before, next, all)
  {
    var mass, n := Val(Masses(st.cells), pos), CacheNeighborMasses(Masses(st.cells), PendingOf(st.log), pos, env, MAX_MASS);
    var f := FlowOf(mass, TypeAt(st.cells, pos), n);
    var flows := CellLog(pos, f, n.belowVoid);
    assert Get(st.cells, pos) == Get(before, pos);
    CellLogIsSafe(pos, mass, TypeAt(st.cells, pos), n);
    AppendSafe(Masses(before), st.log, done + {pos}, pos, flows);
    ProcessedIsThinner(before, st.cells, done, pos, f);
  }

  /** Every moment of a tick, for every processing order. */
  lemma {:induction false} StateIsSafe(before: map<Pos, WaterCell>, order: seq<Pos>, env: Env)
    requires NonNegative(before) && Distinct(order)
    ensures SafeState(before, StateAfter(before, order, env), Elements(order))
  {
    if order != [] {
      var rest, pos := order[..|order| - 1], order[|order| - 1];
      StateIsSafe(before, rest, env);
      assert pos !in rest;
      assert Elements(order) == Elements(rest) + {pos};
      NextIsSafe(before, StateAfter(before, rest, env), Elements(rest), pos, env, StateAfter(before, order, env), Elements(order));
    }
  }

  /** What a tick takes away at a position: evaporation, dust, and deltas of cells that evaporated. */
  ghost function Loss(before: map<Pos, WaterCell>, after: map<Pos, WaterCell>, log: seq<Transfer>): map<Pos, real> {
    map p | p in before.Keys + after.Keys + Mentioned(log) && p !in Sources(before) ::
      Val(NonSource(before), p) + Net(log, p) - Val(NonSource(after), p)
  }

  /** Position by position, settling never gives more than was there plus the net transfers, and only little less. */
  lemma SettledAtMost(before: map<Pos, WaterCell>, st: TickState, done: set<Pos>, p: Pos)
    requires SafeState(before, st, done) && Mentioned(st.log) == st.types.Keys && p !in Sources(before)
    ensures var after := Settled(st.cells, PendingOf(st.log), st.types);
            && 0.0 <= Val(NonSource(after), p) <= Val(NonSource(before), p) + Net(st.log, p)
            && Val(NonSource(before), p) + Net(st.log, p) <= Val(NonSource(after), p) + 2.0 * MIN_MASS + EVAPORATION_RATE
            && p !in Sources(after)
            && (p !in before.Keys + after.Keys + Mentioned(st.log) ==> Net(st.log, p) == 0.0)
  {
    UnmentionedIsZero(st.log, p);
    assert Val(NonSource(before), p) == Val(Masses(before), p);
    assert 0.0 <= Out(st.log, p) <= Val(Masses(before), p);
  }

  /** What is lost at a position is evaporation and traces: nowhere negative, nowhere more than both. */
  ghost predicate LossIsSmall(loss: map<Pos, real>) {
    forall p :: p in loss ==> 0.0 <= loss[p] <= 2.0 * MIN_MASS + EVAPORATION_RATE
  }

  /** The accounting of any safe state: exact, with a loss that is small everywhere. */
  lemma SettledBalance(before: map<Pos, WaterCell>, st: TickState, done: set<Pos>)
    requires SafeState(before, st, done) && Mentioned(st.log) == st.types.Keys
    ensures var after, sources := Settled(st.cells, PendingOf(st.log), st.types), Sources(before);
            && Sources(after) == sources
            && LossIsSmall(Loss(before, after, st.log))
            && Total(NonSource(after)) == Total(NonSource(before)) + DebitedFrom(st.log, sources)
                 - CreditedTo(st.log, sources) - Ledger.Lost(st.log) - Total(Loss(before, after, st.log))
  {
    var after, sources := Settled(st.cells, PendingOf(st.log), st.types), Sources(before);
    var loss := Loss(before, after, st.log);
    forall p | p !in sources
      ensures Val(NonSource(after), p) == Val(NonSource(before), p) + Net(st.log, p) - Val(loss, p)
      ensures p in loss ==> 0.0 <= loss[p] <= 2.0 * MIN_MASS + EVAPORATION_RATE
      ensures p !in Sources(after)
    {
      SettledAtMost(before, st, done, p);
    }
    forall p | p in sources
      ensures p in Sources(after) && p !in NonSource(after)
    {
      assert After(st.cells, PendingOf(st.log), st.types, p) == Get(st.cells, p);
    }
    Balance(NonSource(before), NonSource(after), loss, st.log, sources);
  }

  /** Lost and credited amounts are not negative. */
  lemma {:induction false} LogAmounts(log: seq<Transfer>, s: set<Pos>)
    requires forall t :: t in log ==> t.amount >= 0.0
    ensures Ledger.Lost(log) >= 0.0 && CreditedTo(log, s) >= 0.0 && DebitedFrom(log, s) >= 0.0
  {
    if log != [] {
      LogAmounts(log[..|log| - 1], s);
    }
  }

  lemma {:induction false} TickAmounts(cells: map<Pos, WaterCell>, order: seq<Pos>, env: Env)
    ensures forall t :: t in StateAfter(cells, order, env).log ==> t.amount >= 0.0
  {
    if order != [] {
      var st, pos := StateAfter(cells, order[..|order| - 1], env), order[|order| - 1];
      TickAmounts(cells, order[..|order| - 1], env);
      CellLogIsSafe(pos, Val(Masses(st.cells), pos), TypeAt(st.cells, pos),
                    CacheNeighborMasses(Masses(st.cells), PendingOf(st.log), pos, env, MAX_MASS));
    }
  }

  /**
   The accounting of a tick, for every processing order: outside sources there is what there was, plus what the
   sources gave, less what went into sources, was not credited, or is among the small losses.
   */
  lemma TickAccounts(before: map<Pos, WaterCell>, order: seq<Pos>, env: Env)
    requires NonNegative(before) && Distinct(order)
    ensures var log, after := StateAfter(before, order, env).log, AfterTick(before, order, env);
            && Sources(after) == Sources(before) && LossIsSmall(Loss(before, after, log))
            && Total(NonSource(after)) == Total(NonSource(before)) + DebitedFrom(log, Sources(before))
                 - CreditedTo(log, Sources(before)) - Ledger.Lost(log) - Total(Loss(before, after, log))
  {
    StateTypes(before, order, env);
    StateIsSafe(before, order, env);
    SettledBalance(before, StateAfter(before, order, env), Elements(order));
  }

  /** A tick creates no water: outside sources there is at most what there was plus what the sources gave. */
  lemma TickCreatesNoWater(before: map<Pos, WaterCell>, order: seq<Pos>, env: Env)
    requires NonNegative(before) && Distinct(order)
    ensures var log, after := StateAfter(before, order, env).log, AfterTick(before, order, env);
            && Sources(after) == Sources(before)
            && Total(NonSource(after)) <= Total(NonSource(before)) + DebitedFrom(log, Sources(before))
  {
    var log := StateAfter(before, order, env).log;
    TickAccounts(before, order, env);
    TickAmounts(before, order, env);
    LogAmounts(log, Sources(before));
    TotalNonNegative(Loss(before, AfterTick(before, order, env), log));
  }

  /** The cells after a tick that processes `order`. */
  ghost function AfterTick(cells: map<Pos, WaterCell>, order: seq<Pos>, env: Env): map<Pos, WaterCell> {
    StateTypes(cells, order, env);
    var st := StateAfter(cells, order, env);
    Settled(st.cells, PendingOf(st.log), st.types)
  }

  // ----- every operation on the cells, and runs of them

  datatype Op =
    | Set(pos: Pos, mass: real, isSource: bool, waterType: WaterType)
    | Add(pos: Pos, amount: real, waterType: WaterType)
    | Remove(pos: Pos, amount: real)
    | RemoveSource(pos: Pos)
    | BlockPlaced(pos: Pos)
    | Tick(order: seq<Pos>, env: Env)

  /** The cells after one operation. */
  ghost function Apply(cells: map<Pos, WaterCell>, op: Op): map<Pos, WaterCell> {
    match op
    case Set(pos, mass, isSource, waterType) =>
      if mass <= MIN_MASS && !isSource then cells - {pos}
      else cells[pos := WaterCell(if isSource then MAX_MASS else mass, isSource, 0, waterType)]
    case Add(pos, amount, waterType) =>
      if amount <= 0.0 then cells else
        var c := if pos in cells then cells[pos] else WaterCell(0.0, false, 0, Ocean);
        cells[pos := WaterCell(c.mass + amount, c.isSource, 0, if c.mass + amount <= amount then waterType else c.waterType)]
    case Remove(pos, amount) =>
      if pos !in cells || cells[pos].isSource then cells else
        var left := cells[pos].mass - Min(amount, cells[pos].mass);
        if left <= MIN_MASS then cells - {pos} else cells[pos := cells[pos].(mass := left, stableTicks := 0)]
    case RemoveSource(pos) =>
      if pos in cells then cells[pos := cells[pos].(isSource := false, stableTicks := 0)] else cells
    case BlockPlaced(pos) => cells - {pos}
    case Tick(order, env) => AfterTick(cells, order, env)
  }

  /** Every cell holds more than MIN_MASS. */
  ghost predicate AboveMin(cells: map<Pos, WaterCell>) {
    forall p :: p in cells ==> cells[p].mass > MIN_MASS
  }

  lemma ProcessedAboveMin(cells: map<Pos, WaterCell>, pos: Pos, f: FlowResult)
    requires AboveMin(cells)
    ensures AboveMin(Processed(cells, pos, f))
  {}

  lemma {:induction false} StateAboveMin(cells: map<Pos, WaterCell>, order: seq<Pos>, env: Env)
    requires AboveMin(cells)
    ensures AboveMin(StateAfter(cells, order, env).cells)
  {
    if order != [] {
      var st, pos := StateAfter(cells, order[..|order| - 1], env), order[|order| - 1];
      StateAboveMin(cells, order[..|order| - 1], env);
      ProcessedAboveMin(st.cells, pos, FlowAfter(st.cells, st.log, pos, env));
    }
  }

  lemma SettledAboveMin(cells: map<Pos, WaterCell>, pending: map<Pos, real>, types: map<Pos, WaterType>)
    requires AboveMin(cells) && pending.Keys <= types.Keys
    ensures AboveMin(Settled(cells, pending, types))
  {}

  /** What a caller can check before the call: only an addition can leave a trace of water. */
  predicate LeavesNoTrace(cells: map<Pos, WaterCell>, op: Op) {
    op.Add? && op.amount > 0.0 ==> (if op.pos in cells then cells[op.pos].mass else 0.0) + op.amount > MIN_MASS
  }

  /** Survivors stay above MIN_MASS under every operation, ticks included, except exactly an addition too small to matter. */
  lemma AboveMinKeptIff(cells: map<Pos, WaterCell>, op: Op)
    requires AboveMin(cells)
    ensures AboveMin(Apply(cells, op)) <==> LeavesNoTrace(cells, op)
  {
    if op.Tick? {
      var st := StateAfter(cells, op.order, op.env);
      StateTypes(cells, op.order, op.env);
      StateAboveMin(cells, op.order, op.env);
      SettledAboveMin(st.cells, PendingOf(st.log), st.types);
    } else {
      AboveMinAtPoint(cells, Apply(cells, op), op.pos);
    }
  }

  lemma AboveMinAtPoint(before: map<Pos, WaterCell>, after: map<Pos, WaterCell>, pos: Pos)
    requires AboveMin(before) && forall p :: p in after && p != pos ==> p in before && after[p] == before[p]
    ensures AboveMin(after) <==> (pos in after ==> after[pos].mass > MIN_MASS)
  {}

  lemma NonNegativeAtPoint(before: map<Pos, WaterCell>, after: map<Pos, WaterCell>, pos: Pos)
    requires NonNegative(before) && forall p :: p in after && p != pos ==> p in before && after[p] == before[p]
    requires pos in after ==> after[pos].mass >= 0.0
    ensures NonNegative(after)
  {}

  lemma SettledNonNegative(cells: map<Pos, WaterCell>, pending: map<Pos, real>, types: map<Pos, WaterType>)
    requires NonNegative(cells) && pending.Keys <= types.Keys
    ensures NonNegative(Settled(cells, pending, types))
  {}

  lemma NonNegativeKept(cells: map<Pos, WaterCell>, op: Op)
    requires NonNegative(cells) && (op.Tick? ==> Distinct(op.order))
    ensures NonNegative(Apply(cells, op))
  {
    if op.Tick? {
      StateIsSafe(cells, op.order, op.env);
      var st := StateAfter(cells, op.order, op.env);
      StateTypes(cells, op.order, op.env);
      SettledNonNegative(st.cells, PendingOf(st.log), st.types);
    } else {
      NonNegativeAtPoint(cells, Apply(cells, op), op.pos);
    }
  }

  ghost function Run(cells: map<Pos, WaterCell>, ops: seq<Op>): map<Pos, WaterCell> {
    if ops == [] then cells else Apply(Run(cells, ops[..|ops| - 1]), ops[|ops| - 1])
  }

  /** Masses stay non-negative in every run, whatever the amounts: no tick of any run creates water. */
  lemma {:induction false} NonNegativeOverRun(ops: seq<Op>)
    requires forall op :: op in ops && op.Tick? ==> Distinct(op.order)
    ensures NonNegative(Run(map[], ops))
  {
    if ops != [] {
      NonNegativeOverRun(ops[..|ops| - 1]);
      NonNegativeKept(Run(map[], ops[..|ops| - 1]), ops[|ops| - 1]);
    }
  }
}
