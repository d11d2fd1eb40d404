/** What a tick of either fluid shares: the processing order and the pending map of a log of flows. */
module FluidTick {
  import opened Geometry
  import opened Ledger
  import opened Fluid

  /** The six neighbours of a set of positions. */
  function NeighborsOf(s: set<Pos>): set<Pos> {
    set p, d | p in s && d in ORTHO_DIRS :: p.Plus(d)
  }

  lemma NeighborsOfUnion(s: set<Pos>, pos: Pos)
    ensures NeighborsOf(s + {pos}) == NeighborsOf(s) + NeighborsOf({pos})
  {}

  lemma NeighborsAre(p: Pos, q: Pos)
    ensures q in NeighborsOf({p})
            <==> || q == Pos(p.x + 1, p.y, p.z) || q == Pos(p.x - 1, p.y, p.z) || q == Pos(p.x, p.y + 1, p.z)
                 || q == Pos(p.x, p.y - 1, p.z) || q == Pos(p.x, p.y, p.z + 1) || q == Pos(p.x, p.y, p.z - 1)
  {
    var d := Pos(q.x - p.x, q.y - p.y, q.z - p.z);
    assert p.Plus(d) == q;
    assert d in ORTHO_DIRS <==> d == ORTHO_DIRS[0] || d == ORTHO_DIRS[1] || d == ORTHO_DIRS[2]
                                || d == ORTHO_DIRS[3] || d == ORTHO_DIRS[4] || d == ORTHO_DIRS[5];
  }

  /** Marking a position marks its neighbours too; an already marked position is left alone. */
  function DirtyAfter(dirty: set<Pos>, pos: Pos): set<Pos> {
    dirty + (if pos in dirty then {} else {pos} + NeighborsOf({pos}))
  }

  /** Each position of s was marked, in some order. */
  ghost predicate MarkedAll(before: set<Pos>, s: set<Pos>, dirty: set<Pos>) {
    before + s <= dirty <= before + s + NeighborsOf(s)
  }

  lemma MarkedNext(before: set<Pos>, s: set<Pos>, dirty: set<Pos>, pos: Pos)
    requires MarkedAll(before, s, dirty)
    ensures MarkedAll(before, s + {pos}, DirtyAfter(dirty, pos))
  {
    NeighborsOfUnion(s, pos);
  }

  // ----- the order of a tick

  /** Distinct candidates, lowest layers first, cut at the update budget. */
  ghost predicate IsProcessingOrder(order: seq<Pos>, candidates: set<Pos>, budget: nat) {
    && Distinct(order)
    && (forall p :: p in order ==> p in candidates)
    && (|order| == budget || forall p :: p in candidates ==> p in order)
    && |order| <= budget
    && (forall i, j :: 0 <= i < j < |order| ==> YIndex(order[i]) <= YIndex(order[j]))
    && (forall p, q :: p in order && q in candidates && q !in order ==> YIndex(p) <= YIndex(q))
  }

  lemma PrefixIsOrder(all: seq<Pos>, candidates: set<Pos>, budget: nat, count: nat)
    requires Distinct(all) && forall p :: p in all <==> p in candidates
    requires forall i, j :: 0 <= i < j < |all| ==> YIndex(all[i]) <= YIndex(all[j])
    requires count == if |all| < budget then |all| else budget
    ensures IsProcessingOrder(all[..count], candidates, budget)
  {}

  /** p is not above q, save that all heights up to 0, and all from 511 on, count as one. */
  predicate NotAbove(p: Pos, q: Pos) {
    p.y <= q.y || p.y <= 0 || q.y >= 511
  }

  /** Cells are processed from the bottom up, and none that is left out is below one that is taken. */
  lemma BottomUp(order: seq<Pos>, candidates: set<Pos>, budget: nat)
    requires IsProcessingOrder(order, candidates, budget)
    ensures forall i, j :: 0 <= i < j < |order| ==> NotAbove(order[i], order[j])
    ensures forall p, q :: p in order && q in candidates && q !in order ==> NotAbove(p, q)
    ensures |order| < budget ==> Elements(order) == candidates
  {
    forall p, q | YIndex(p) <= YIndex(q)
      ensures NotAbove(p, q)
    {}
  }

  function WithinRadius(active: set<Pos>, player: Vec, radius: real): set<Pos> {
    InRange(active, player, radius * radius)
  }

  lemma WithinTwice(s: set<Pos>, player: Vec, radius: real)
    ensures WithinRadius(WithinRadius(s, player, radius), player, radius) == WithinRadius(s, player, radius)
  {}

  /** Sorts the in-range positions into the buckets and takes the first of them, up to the budget. */
  method TakeInOrder(active: set<Pos>, player: Vec, radius: real, budget: nat, buckets: array<seq<Pos>>)
    returns (order: seq<Pos>)
    requires buckets.Length == Y_BUCKET_COUNT
    modifies buckets
    ensures IsProcessingOrder(order, WithinRadius(active, player, radius), budget)
  {
    DistributeYBuckets(active, player, radius * radius, buckets);
    var all := Flatten(buckets[..]);
    ghost var members := WithinRadius(active, player, radius);
    ProcessingOrder(buckets[..], members);
    var count := if |all| < budget then |all| else budget;
    order := all[..count];
    PrefixIsOrder(all, members, budget, count);
  }

  // ----- pending maps

  function Bump(m: map<Pos, real>, p: Pos, amount: real): map<Pos, real> {
    m[p := Val(m, p) + amount]
  }

  /** Crediting the destinations of some transfers. */
  function Credited(m: map<Pos, real>, flows: seq<Transfer>): map<Pos, real> {
    if flows == [] then m else
      var rest, t := Credited(m, flows[..|flows| - 1]), flows[|flows| - 1];
      match t.to
      case Some(q) => Bump(rest, q, t.amount)
      case None => rest
  }

  /** The credited positions. */
  function Targets(flows: seq<Transfer>): set<Pos> {
    if flows == [] then {} else
      Targets(flows[..|flows| - 1]) + (if flows[|flows| - 1].to.Some? then {flows[|flows| - 1].to.value} else {})
  }

  lemma {:induction false} MentionedFrom(flows: seq<Transfer>, pos: Pos)
    requires flows != [] && forall t :: t in flows ==> t.from == pos
    ensures Mentioned(flows) == Targets(flows) + {pos}
  {
    var rest := flows[..|flows| - 1];
    assert flows[|flows| - 1] in flows;
    if rest != [] {
      MentionedFrom(rest, pos);
    }
  }

  lemma PositiveStep(m: map<Pos, real>, all: seq<Transfer>, i: int)
    requires 0 <= i < |all|
    ensures Credited(m, Positive(all[..i + 1]))
            == if all[i].amount > 0.0 && all[i].to.Some? then Bump(Credited(m, Positive(all[..i])), all[i].to.value, all[i].amount)
               else Credited(m, Positive(all[..i]))
    ensures Targets(Positive(all[..i + 1]))
            == Targets(Positive(all[..i])) + (if all[i].amount > 0.0 && all[i].to.Some? then {all[i].to.value} else {})
  {
    assert all[..i + 1][..i] == all[..i];
    var rest := Positive(all[..i]);
    if all[i].amount > 0.0 {
      assert (rest + [all[i]])[..|rest|] == rest;
    } else {
      assert Positive(all[..i + 1]) == rest;
    }
  }

  lemma {:induction false} CreditedValue(m: map<Pos, real>, flows: seq<Transfer>, pos: Pos, q: Pos)
    requires forall t :: t in flows ==> t.from == pos
    ensures Val(Credited(m, flows), q) == Val(m, q) + In(flows, q)
    ensures q in Credited(m, flows) <==> q in m || (q != pos && q in Mentioned(flows)) || (q == pos && exists t :: t in flows && t.to == Some(pos))
    ensures Out(flows, q) == if q == pos then Amount(flows) else 0.0
  {
    if flows != [] {
      var rest, t := flows[..|flows| - 1], flows[|flows| - 1];
      CreditedValue(m, rest, pos, q);
      assert t in flows && t.from == pos;
      assert forall u :: u in flows <==> u in rest || u == t;
    }
  }

  lemma {:induction false} NetAppend(log: seq<Transfer>, flows: seq<Transfer>, q: Pos)
    ensures Net(log + flows, q) == Net(log, q) + Net(flows, q)
  {
    if flows == [] {
      assert log + flows == log;
    } else {
      var rest, t := flows[..|flows| - 1], flows[|flows| - 1];
      NetAppend(log, rest, q);
      LogStep(log + rest, t, q);
      assert log + flows == (log + rest) + [t];
    }
  }

  lemma {:induction false} MentionedAppend(log: seq<Transfer>, flows: seq<Transfer>)
    ensures Mentioned(log + flows) == Mentioned(log) + Mentioned(flows)
  {
    if flows == [] {
      assert log + flows == log;
    } else {
      var rest, t := flows[..|flows| - 1], flows[|flows| - 1];
      MentionedAppend(log, rest);
      assert log + flows == (log + rest) + [t];
      assert (log + flows)[..|log + rest|] == log + rest;
    }
  }

  /** One debit of the whole outflow and one credit per transfer give the pending map of the longer log. */
  lemma AppendedPending(log: seq<Transfer>, flows: seq<Transfer>, pos: Pos)
    requires flows != [] && forall t :: t in flows ==> t.from == pos
    ensures Credited(Bump(PendingOf(log), pos, -Amount(flows)), flows) == PendingOf(log + flows)
  {
    var debited := Bump(PendingOf(log), pos, -Amount(flows));
    var result := Credited(debited, flows);
    MentionedAppend(log, flows);
    assert flows[0] in flows;
    forall q
      ensures q in result <==> q in Mentioned(log + flows)
      ensures q in result ==> result[q] == Net(log + flows, q)
    {
      CreditedValue(debited, flows, pos, q);
      NetAppend(log, flows, q);
      UnmentionedIsZero(log, q);
    }
  }

  /** Flows out of pos, none negative and some positive, adding up to `total`. */
  ghost predicate IsOutflow(all: seq<Transfer>, pos: Pos, total: real) {
    && (forall t :: t in all ==> t.from == pos && t.amount >= 0.0)
    && Amount(all) == total
    && Positive(all) != []
  }

  /** One debit of the whole outflow and the credits of the recorded flows: the pending map of the longer log. */
  lemma OutflowPending(log: seq<Transfer>, pos: Pos, all: seq<Transfer>, total: real)
    requires IsOutflow(all, pos, total)
    ensures Credited(Bump(PendingOf(log), pos, -total), Positive(all)) == PendingOf(log + Positive(all))
    ensures Mentioned(Positive(all)) == Targets(Positive(all)) + {pos}
  {
    PositiveAmount(all);
    AppendedPending(log, Positive(all), pos);
    MentionedFrom(Positive(all), pos);
  }

  // ----- the active set

  /** Settled positions are active while they hold a cell, and inactive once their cell is dropped. */
  function ActiveAfter(active: set<Pos>, before: set<Pos>, cells: set<Pos>, settled: set<Pos>): set<Pos> {
    (active + settled * cells) - (settled * before - cells)
  }

  lemma ActiveNext(active: set<Pos>, before: set<Pos>, was: set<Pos>, cells: set<Pos>, done: set<Pos>, p: Pos)
    requires forall q :: q != p ==> (q in cells <==> q in was)
    requires p !in done && (p in was <==> p in before)
    ensures var a := ActiveAfter(active, before, was, done);
            ActiveAfter(active, before, cells, done + {p})
            == if p in cells then a + {p} else if p in was then a - {p} else a
  {}
}
