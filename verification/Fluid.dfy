/**
 Mechanics shared by the water and lava simulations: effective masses, the six cached
 neighbours, the horizontal equalisation pass, Y-layer buckets and radius checks.
 */
module Fluid {
  import opened Geometry
  import opened Distances
  import opened Ledger

  const Y_BUCKET_COUNT: int := 512

  const BELOW: Pos := Pos(0, -1, 0)
  const ABOVE: Pos := Pos(0, 1, 0)
  const POS_X: Pos := Pos(1, 0, 0)
  const NEG_X: Pos := Pos(-1, 0, 0)
  const POS_Z: Pos := Pos(0, 0, 1)
  const NEG_Z: Pos := Pos(0, 0, -1)

  function Max(a: real, b: real): real {
    if a >= b then a else b
  }

  function Min(a: real, b: real): real {
    if a <= b then a else b
  }

  predicate IsWithinRadiusSq(pos: Pos, player: Vec, radiusSq: real) {
    DistanceSq(pos, player) <= radiusSq
  }

  // ----- effective masses

  datatype NeighborMasses = NeighborMasses(
    below: real, above: real, posX: real, negX: real, posZ: real, negZ: real,
    belowVoid: bool,
    belowSolid: bool, aboveSolid: bool, posXSolid: bool, negXSolid: bool, posZSolid: bool, negZSolid: bool)

  /**
   Stored mass, or a full block where the world holds fluid without a cell, plus the pending delta,
   floored at 0. `masses` is the mass of every stored cell.
   */
  function EffectiveMass(masses: map<Pos, real>, pending: map<Pos, real>, pos: Pos, hasWorldFluid: bool, maxMass: real): real {
    Max((if pos in masses then masses[pos] else if hasWorldFluid then maxMass else 0.0) + Val(pending, pos), 0.0)
  }

  /** The mass seen from a neighbour; nothing is read from a solid or void position. */
  function Seen(masses: map<Pos, real>, pending: map<Pos, real>, pos: Pos, closed: bool, env: Env, maxMass: real): real {
    if closed then 0.0 else EffectiveMass(masses, pending, pos, env.hasWorldFluid(pos), maxMass)
  }

  function CacheNeighborMasses(masses: map<Pos, real>, pending: map<Pos, real>, pos: Pos, env: Env, maxMass: real): NeighborMasses
  {
    var below, above := pos.Plus(BELOW), pos.Plus(ABOVE);
    var posX, negX, posZ, negZ := pos.Plus(POS_X), pos.Plus(NEG_X), pos.Plus(POS_Z), pos.Plus(NEG_Z);
    var belowVoid := env.isOutOfBounds(below);
    var belowSolid := !belowVoid && env.isSolid(below);
    NeighborMasses(
      Seen(masses, pending, below, belowVoid || belowSolid, env, maxMass),
      Seen(masses, pending, above, env.isSolid(above), env, maxMass),
      Seen(masses, pending, posX, env.isSolid(posX), env, maxMass),
      Seen(masses, pending, negX, env.isSolid(negX), env, maxMass),
      Seen(masses, pending, posZ, env.isSolid(posZ), env, maxMass),
      Seen(masses, pending, negZ, env.isSolid(negZ), env, maxMass),
      belowVoid, belowSolid, env.isSolid(above),
      env.isSolid(posX), env.isSolid(negX), env.isSolid(posZ), env.isSolid(negZ))
  }

  /** Everything a simulation asks of the world. */
  datatype Env = Env(isSolid: Pos -> bool, isOutOfBounds: Pos -> bool, hasWorldFluid: Pos -> bool)

  /** Pending deltas after a log: one entry for each position the log mentions. */
  ghost function PendingOf(log: seq<Transfer>): map<Pos, real> {
    NetOver(log, Mentioned(log))
  }

  function Froms(log: seq<Transfer>): set<Pos> {
    set t | t in log :: t.from
  }

  /** A flow in direction d: credited to the neighbour, or lost. */
  function Flow(pos: Pos, d: Pos, lost: bool, amount: real): Transfer {
    Transfer(pos, if lost then None else Some(pos.Plus(d)), amount)
  }

  /** The flows that move something. */
  function Positive(flows: seq<Transfer>): (r: seq<Transfer>)
    ensures forall t :: t in r <==> t in flows && t.amount > 0.0
  {
    if flows == [] then [] else
      Positive(flows[..|flows| - 1]) + (if flows[|flows| - 1].amount > 0.0 then [flows[|flows| - 1]] else [])
  }

  function Amount(flows: seq<Transfer>): real {
    if flows == [] then 0.0 else Amount(flows[..|flows| - 1]) + flows[|flows| - 1].amount
  }

  lemma {:induction false} PositiveAmount(flows: seq<Transfer>)
    requires forall t :: t in flows ==> t.amount >= 0.0
    ensures Amount(Positive(flows)) == Amount(flows)
  {
    if flows != [] {
      var rest, t := flows[..|flows| - 1], flows[|flows| - 1];
      PositiveAmount(rest);
      if t.amount > 0.0 {
        assert Positive(flows) == Positive(rest) + [t];
        assert Positive(flows)[..|Positive(rest)|] == Positive(rest);
      } else {
        assert Positive(flows) == Positive(rest);
      }
    }
  }

  ghost predicate TargetsDistinct(flows: seq<Transfer>) {
    forall i, j :: 0 <= i < j < |flows| && flows[i].to.Some? ==> flows[i].to != flows[j].to
  }

  lemma {:induction false} PositiveDistinct(flows: seq<Transfer>)
    requires TargetsDistinct(flows)
    ensures TargetsDistinct(Positive(flows))
  {
    if flows != [] {
      var rest, t := flows[..|flows| - 1], flows[|flows| - 1];
      PositiveDistinct(rest);
      forall u | u in Positive(rest) && u.to.Some?
        ensures u.to != t.to
      {
        var i :| 0 <= i < |rest| && rest[i] == u;
        assert flows[i] == u;
      }
    }
  }

  /** At every prefix of the log the base mass plus the net change stays non-negative. */
  ghost predicate NeverNegative(base: map<Pos, real>, log: seq<Transfer>) {
    forall k, p :: 0 <= k <= |log| ==> Val(base, p) + Net(log[..k], p) >= 0.0
  }

  /** At every prefix of the log the base mass plus the net change stays within `bound`. */
  ghost predicate NeverOver(base: map<Pos, real>, log: seq<Transfer>, bound: real) {
    forall k, p :: 0 <= k <= |log| ==> Val(base, p) + Net(log[..k], p) <= bound
  }

  lemma NeverNegativeNext(base: map<Pos, real>, log: seq<Transfer>, t: Transfer)
    requires NeverNegative(base, log)
    requires forall p :: Val(base, p) + Net(log + [t], p) >= 0.0
    ensures NeverNegative(base, log + [t])
  {
    forall k, p | 0 <= k <= |log| + 1
      ensures Val(base, p) + Net((log + [t])[..k], p) >= 0.0
    {
      assert (log + [t])[..k] == if k <= |log| then log[..k] else log + [t];
    }
  }

  lemma NeverOverNext(base: map<Pos, real>, log: seq<Transfer>, t: Transfer, bound: real)
    requires NeverOver(base, log, bound)
    requires forall p :: Val(base, p) + Net(log + [t], p) <= bound
    ensures NeverOver(base, log + [t], bound)
  {
    forall k, p | 0 <= k <= |log| + 1
      ensures Val(base, p) + Net((log + [t])[..k], p) <= bound
    {
      assert (log + [t])[..k] == if k <= |log| then log[..k] else log + [t];
    }
  }

  /** Only `done` positions have flowed, none by more than its mass, and nothing ever goes below zero. */
  ghost predicate SafeLog(base: map<Pos, real>, log: seq<Transfer>, done: set<Pos>) {
    && (forall p :: p !in done ==> Out(log, p) == 0.0)
    && (forall p :: In(log, p) >= 0.0 && 0.0 <= Out(log, p) <= Val(base, p))
    && NeverNegative(base, log)
  }

  /** Flows of one position that it can pay for keep the log safe. */
  lemma {:induction false} AppendSafe(base: map<Pos, real>, log: seq<Transfer>, done: set<Pos>, pos: Pos, flows: seq<Transfer>)
    requires SafeLog(base, log, done) && pos in done
    requires forall t :: t in flows ==> t.from == pos && t.amount >= 0.0
    requires Out(log, pos) + Amount(flows) <= Val(base, pos)
    ensures SafeLog(base, log + flows, done)
    ensures Out(log + flows, pos) == Out(log, pos) + Amount(flows)
  {
    if flows == [] {
      assert log + flows == log;
    } else {
      var rest, t := flows[..|flows| - 1], flows[|flows| - 1];
      AppendSafe(base, log, done, pos, rest);
      assert log + flows == (log + rest) + [t];
      forall p
        ensures In(log + flows, p) == In(log + rest, p) + Credit(t, p)
        ensures Out(log + flows, p) == Out(log + rest, p) + Debit(t, p)
      {
        LogStep(log + rest, t, p);
      }
      NeverNegativeNext(base, log + rest, t);
    }
  }

  /** Flows of one position into distinct neighbours with room keep every position within the bound. */
  lemma {:induction false} AppendBounded(base: map<Pos, real>, log: seq<Transfer>, pos: Pos, flows: seq<Transfer>, bound: real)
    requires NeverOver(base, log, bound) && TargetsDistinct(flows)
    requires forall t :: t in flows ==> t.from == pos && t.amount >= 0.0 && t.to != Some(pos)
    requires forall t :: t in flows && t.to.Some? ==> Val(base, t.to.value) + Net(log, t.to.value) + t.amount <= bound
    ensures NeverOver(base, log + flows, bound)
    ensures forall q :: (forall t :: t in flows ==> t.to != Some(q)) ==> Net(log + flows, q) <= Net(log, q)
  {
    if flows == [] {
      assert log + flows == log;
    } else {
      var rest, t := flows[..|flows| - 1], flows[|flows| - 1];
      AppendBounded(base, log, pos, rest, bound);
      assert log + flows == (log + rest) + [t];
      assert (log + rest)[..|log + rest|] == log + rest;
      assert t in flows;
      forall p
        ensures Net(log + flows, p) == Net(log + rest, p) + Credit(t, p) - Debit(t, p)
        ensures Val(base, p) + Net(log + flows, p) <= bound
      {
        LogStep(log + rest, t, p);
        if t.to == Some(p) {
          forall u | u in rest
            ensures u.to != Some(p)
          {
            var i :| 0 <= i < |rest| && rest[i] == u;
            assert flows[i] == u;
          }
        } else {
          assert Val(base, p) + Net((log + rest)[..|log + rest|], p) <= bound;
        }
      }
      NeverOverNext(base, log + rest, t, bound);
    }
  }

  lemma {:induction false} UnmentionedIsZero(log: seq<Transfer>, p: Pos)
    ensures p !in Mentioned(log) ==> In(log, p) == Out(log, p) == Net(log, p) == 0.0
  {
    if log != [] { UnmentionedIsZero(log[..|log| - 1], p); }
  }

  /** Effective mass never underestimates what is really there. */
  lemma EffectiveIsAbove(base: map<Pos, real>, log: seq<Transfer>, p: Pos, hasWorldFluid: bool, maxMass: real)
    requires maxMass >= 0.0
    ensures EffectiveMass(base, PendingOf(log), p, hasWorldFluid, maxMass) >= Val(base, p) + Net(log, p)
  {
    UnmentionedIsZero(log, p);
  }

  // ----- horizontal equalisation

  /** One side neighbour: whether fluid can enter it, and its effective mass. */
  datatype Side = Side(open: bool, mass: real)

  predicate IsLower(s: Side, remaining: real) {
    s.open && s.mass < remaining
  }

  function LowerMass(sides: seq<Side>, remaining: real): real {
    if sides == [] then 0.0 else
      LowerMass(sides[..|sides| - 1], remaining)
      + (if IsLower(sides[|sides| - 1], remaining) then sides[|sides| - 1].mass else 0.0)
  }

  function LowerCount(sides: seq<Side>, remaining: real): nat {
    if sides == [] then 0 else
      LowerCount(sides[..|sides| - 1], remaining) + (if IsLower(sides[|sides| - 1], remaining) then 1 else 0)
  }

  /** The level the cell and its lower neighbours would share. */
  function Average(sides: seq<Side>, remaining: real): real {
    (remaining + LowerMass(sides, remaining)) / (1 + LowerCount(sides, remaining)) as real
  }

  function Sum(flows: seq<real>): real {
    if flows == [] then 0.0 else flows[0] + Sum(flows[1..])
  }

  /** Lower neighbours hold less than `remaining` each, so the shared level is at most `remaining`. */
  lemma {:induction false} LowerMassBelow(sides: seq<Side>, remaining: real)
    ensures LowerMass(sides, remaining) <= LowerCount(sides, remaining) as real * remaining
  {
    if sides != [] {
      var n := LowerCount(sides[..|sides| - 1], remaining);
      LowerMassBelow(sides[..|sides| - 1], remaining);
      assert (n + 1) as real * remaining == n as real * remaining + remaining;
    }
  }

  lemma AverageBelow(sides: seq<Side>, remaining: real)
    ensures Average(sides, remaining) <= remaining
  {
    LowerMassBelow(sides, remaining);
    var n, total := LowerCount(sides, remaining), remaining + LowerMass(sides, remaining);
    assert (1 + n) as real * remaining == remaining + n as real * remaining;
    DivideAtMost(total, (1 + n) as real, remaining);
  }

  lemma DivideAtMost(total: real, n: real, r: real)
    requires n > 0.0 && total <= n * r
    ensures total / n <= r
  {
    assert r == n * r / n;
  }

  function Sides(n: NeighborMasses): seq<Side> {
    [Side(!n.posXSolid, n.posX), Side(!n.negXSolid, n.negX), Side(!n.posZSolid, n.posZ), Side(!n.negZSolid, n.negZ)]
  }

  lemma SumOfFour(flows: seq<real>)
    requires |flows| == 4
    ensures Sum(flows) == flows[0] + flows[1] + flows[2] + flows[3]
  {
    assert flows[1..][1..] == flows[2..] && flows[2..][1..] == flows[3..];
    assert Sum(flows[2..]) == flows[2] + Sum(flows[3..]) && Sum(flows[3..]) == flows[3];
  }

  function Get<T>(cells: map<Pos, T>, p: Pos): Option<T> {
    if p in cells then Some(cells[p]) else None
  }

  // ----- Y-layer buckets

  function YIndex(pos: Pos): (i: int)
    ensures 0 <= i < Y_BUCKET_COUNT
  {
    if pos.y < 0 then 0 else if pos.y >= Y_BUCKET_COUNT then Y_BUCKET_COUNT - 1 else pos.y
  }

  ghost predicate Distinct(s: seq<Pos>) {
    forall i, j :: 0 <= i < j < |s| ==> s[i] != s[j]
  }

  /** The buckets hold exactly `members`, each once, in the bucket of its clamped Y. */
  ghost predicate Buckets(buckets: seq<seq<Pos>>, members: set<Pos>) {
    && |buckets| == Y_BUCKET_COUNT
    && (forall i :: 0 <= i < |buckets| ==> Distinct(buckets[i]))
    && (forall i, p :: 0 <= i < |buckets| ==> (p in buckets[i] <==> p in members && YIndex(p) == i))
  }

  function InRange(active: set<Pos>, player: Vec, radiusSq: real): set<Pos> {
    set p | p in active && IsWithinRadiusSq(p, player, radiusSq)
  }

  lemma BucketsNext(buckets: seq<seq<Pos>>, members: set<Pos>, p: Pos)
    requires Buckets(buckets, members) && p !in members
    ensures var i := YIndex(p); Buckets(buckets[i := buckets[i] + [p]], members + {p})
  {
    assert p !in buckets[YIndex(p)];
  }

  method DistributeYBuckets(active: set<Pos>, player: Vec, radiusSq: real, buckets: array<seq<Pos>>)
    requires buckets.Length == Y_BUCKET_COUNT
    modifies buckets
    ensures Buckets(buckets[..], InRange(active, player, radiusSq))
  {
    for i := 0 to buckets.Length
      invariant forall j :: 0 <= j < i ==> buckets[j] == []
    {
      buckets[i] := [];
    }
    var todo := active;
    while todo != {}
      invariant todo <= active
      invariant Buckets(buckets[..], InRange(active - todo, player, radiusSq))
      decreases todo
    {
      var p :| p in todo;
      ghost var was, done := buckets[..], InRange(active - todo, player, radiusSq);
      assert active - (todo - {p}) == active - todo + {p};
      todo := todo - {p};
      if IsWithinRadiusSq(p, player, radiusSq) {
        var i := YIndex(p);
        BucketsNext(was, done, p);
        buckets[i] := buckets[i] + [p];
        assert buckets[..] == was[i := was[i] + [p]];
        assert InRange(active - todo, player, radiusSq) == done + {p};
      } else {
        assert InRange(active - todo, player, radiusSq) == done;
      }
    }
    assert active - todo == active;
  }

  /** The buckets in order: bottom layer first. */
  function Flatten(buckets: seq<seq<Pos>>): seq<Pos> {
    if buckets == [] then [] else Flatten(buckets[..|buckets| - 1]) + buckets[|buckets| - 1]
  }

  lemma {:induction false} FlattenMembers(buckets: seq<seq<Pos>>, members: set<Pos>, n: int)
    requires Buckets(buckets, members) && 0 <= n <= |buckets|
    ensures forall p :: p in Flatten(buckets[..n]) <==> p in members && YIndex(p) < n
    ensures Distinct(Flatten(buckets[..n]))
    ensures forall i, j :: 0 <= i < j < |Flatten(buckets[..n])| ==>
              YIndex(Flatten(buckets[..n])[i]) <= YIndex(Flatten(buckets[..n])[j])
  {
    if n > 0 {
      var rest, last := Flatten(buckets[..n - 1]), buckets[n - 1];
      FlattenMembers(buckets, members, n - 1);
      assert buckets[..n][..n - 1] == buckets[..n - 1];
      assert Flatten(buckets[..n]) == rest + last;
      assert forall p :: p in last ==> YIndex(p) == n - 1;
      forall i, j | 0 <= i < j < |rest + last|
        ensures (rest + last)[i] != (rest + last)[j] && YIndex((rest + last)[i]) <= YIndex((rest + last)[j])
      {
        if i < |rest| {
          assert rest[i] in rest;
          if j < |rest| { assert rest[j] in rest; } else { assert last[j - |rest|] in last; }
        } else {
          assert last[i - |rest|] in last && last[j - |rest|] in last;
        }
      }
    }
  }

  /** Each in-range active position is processed once, lower layers first. */
  lemma ProcessingOrder(buckets: seq<seq<Pos>>, members: set<Pos>)
    requires Buckets(buckets, members)
    ensures var order := Flatten(buckets);
            && Distinct(order) && (forall p :: p in order <==> p in members)
            && (forall i, j :: 0 <= i < j < |order| ==> YIndex(order[i]) <= YIndex(order[j]))
  {
    FlattenMembers(buckets, members, |buckets|);
    assert buckets[..|buckets|] == buckets;
  }
}
