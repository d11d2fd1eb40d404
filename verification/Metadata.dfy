/**
 The metadata buffers, on the CPU and on the GPU: one empty bit per chunk slot, 32 to a word; a brick
 mask of two words and brick distances of sixteen words per slot.
 */
module Metadata {
  import opened Geometry
  import opened Streaming

  const BRICK_MASK_WORDS: nat := 2 * TOTAL_CHUNKS
  const BRICK_DIST_WORDS: nat := 16 * TOTAL_CHUNKS
  const NO_DISTANCES: nat := 0xFFFF_FFFF

  /** What a chunk's tree tells the renderer: a 64-bit mask, lowest bit first, and 64 distances. */
  datatype SvtMetadata = SvtMetadata(brickMask: seq<bool>, brickDistances: seq<Byte>)

  type Summary = s: SvtMetadata | |s.brickMask| == 64 && |s.brickDistances| == 64
    witness SvtMetadata(seq(64, _ => false), seq(64, _ => 255))

  /** One chunk's share of the buffers. */
  datatype SlotData = SlotData(empty: bool, low: seq<bool>, high: seq<bool>, dist: seq<nat>)

  type Slot = s: SlotData | |s.dist| == 16
    witness SlotData(true, [], [], seq(16, _ => 0))

  /** The bits of all chunk words in order, the mask words, and the distance words. */
  datatype Words = Words(bits: seq<bool>, masks: seq<seq<bool>>, dists: seq<nat>)

  type Buffers = b: Words | |b.bits| == TOTAL_CHUNKS && |b.masks| == BRICK_MASK_WORDS && |b.dists| == BRICK_DIST_WORDS
    witness Words(seq(TOTAL_CHUNKS, _ => true), seq(BRICK_MASK_WORDS, _ => []), seq(BRICK_DIST_WORDS, _ => 0))

  function Repeat<T>(n: nat, t: T): (s: seq<T>)
    ensures |s| == n && forall i :: 0 <= i < n ==> s[i] == t
  {
    seq(n, _ => t)
  }

  /** A chunk that is not loaded: empty, no bricks, everything far. */
  function Missing(): Slot {
    SlotData(true, Repeat(32, false), Repeat(32, false), Repeat(16, NO_DISTANCES))
  }

  function SlotFor(s: Summary): Slot {
    SlotData(true !in s.brickMask, s.brickMask[..32], s.brickMask[32..], Packed(s.brickDistances))
  }

  function At(b: Buffers, i: nat): Slot
    requires i < TOTAL_CHUNKS
  {
    SlotData(b.bits[i], b.masks[2 * i], b.masks[2 * i + 1], b.dists[16 * i..16 * i + 16])
  }

  function Put(b: Buffers, i: nat, s: Slot): Buffers
    requires i < TOTAL_CHUNKS
  {
    Words(b.bits[i := s.empty], b.masks[2 * i := s.low][2 * i + 1 := s.high],
          b.dists[..16 * i] + s.dist + b.dists[16 * i + 16..])
  }

  lemma PutAt(b: Buffers, i: nat, s: Slot, j: nat)
    requires i < TOTAL_CHUNKS && j < TOTAL_CHUNKS
    ensures At(Put(b, i, s), j) == if i == j then s else At(b, j)
  {
    var d := Put(b, i, s).dists;
    if i == j {
      assert d[16 * j..16 * j + 16] == s.dist;
    } else {
      assert d[16 * j..16 * j + 16] == b.dists[16 * j..16 * j + 16];
    }
  }

  /** Nothing is loaded: what a reset fills the CPU buffers with. */
  function Blank(): Buffers {
    Words(Repeat(TOTAL_CHUNKS, true), Repeat(BRICK_MASK_WORDS, Repeat(32, false)), Repeat(BRICK_DIST_WORDS, NO_DISTANCES))
  }

  // ----- copying to the GPU

  /** The mask and distance words of slot i, then the whole bit word that the slot shares with 31 others. */
  function SyncSlot(gpu: Buffers, cpu: Buffers, i: nat): Buffers
    requires i < TOTAL_CHUNKS
  {
    var w := i / 32;
    Words(gpu.bits[..32 * w] + cpu.bits[32 * w..32 * w + 32] + gpu.bits[32 * w + 32..],
          gpu.masks[2 * i := cpu.masks[2 * i]][2 * i + 1 := cpu.masks[2 * i + 1]],
          gpu.dists[..16 * i] + cpu.dists[16 * i..16 * i + 16] + gpu.dists[16 * i + 16..])
  }

  /** Same mask and distances in both buffers. */
  predicate SameData(gpu: Buffers, cpu: Buffers, i: nat)
    requires i < TOTAL_CHUNKS
  {
    At(gpu, i).(empty := true) == At(cpu, i).(empty := true)
  }

  lemma SyncSlotAt(gpu: Buffers, cpu: Buffers, i: nat, j: nat)
    requires i < TOTAL_CHUNKS && j < TOTAL_CHUNKS
    ensures var after := SyncSlot(gpu, cpu, i);
            && At(after, j).(empty := true) == (if i == j then At(cpu, j) else At(gpu, j)).(empty := true)
            && after.bits[j] == (if i / 32 == j / 32 then cpu.bits[j] else gpu.bits[j])
  {}

  /** What the GPU may be asked about: bits agree everywhere, and so does the data of non-empty slots. */
  ghost predicate BitsAgree(gpu: Buffers, cpu: Buffers) {
    gpu.bits == cpu.bits
  }

  ghost predicate DataAgrees(gpu: Buffers, cpu: Buffers) {
    forall i: nat :: i < TOTAL_CHUNKS && !cpu.bits[i] ==> SameData(gpu, cpu, i)
  }

  // ----- the schedule

  /** `MetadataState`: the CPU buffers and what has still to be refreshed. */
  datatype Meta = Meta(
    cpu: Buffers, pending: seq<nat>, pendingSet: set<nat>, cursor: nat, fullRefresh: bool, dirty: bool, lastOrigin: Pos)

  /** A new state, which is also what a reset leaves. */
  function Reset(origin: Pos): Meta {
    Meta(Blank(), [], {}, 0, true, true, origin)
  }

  function QueueIndex(m: Meta, i: nat): Meta {
    m.(pending := if i in m.pendingSet then m.pending else m.pending + [i], pendingSet := m.pendingSet + {i}, dirty := true)
  }

  function QueueWorldChunk(m: Meta, origin: Pos, p: Pos): Meta {
    var m1 := if origin != m.lastOrigin then Reset(origin) else m;
    match WorldPosToChunkIndex(origin, p)
    case Some(i) => QueueIndex(m1, i)
    case None => m1
  }

  function QueueMany(m: Meta, origin: Pos, positions: seq<Pos>): Meta {
    if positions == [] then m else
      QueueWorldChunk(QueueMany(m, origin, positions[..|positions| - 1]), origin, positions[|positions| - 1])
  }

  function RequestFullRefresh(m: Meta, origin: Pos): Meta {
    if origin != m.lastOrigin then Reset(origin) else m.(cursor := 0, fullRefresh := true, dirty := true)
  }

  predicate ShouldSeed(m: Meta) {
    m.fullRefresh && m.cursor == 0
  }

  /** Slots still to be refreshed. */
  function Backlog(m: Meta): nat {
    |m.pending| + (if m.fullRefresh && m.cursor < TOTAL_CHUNKS then TOTAL_CHUNKS - m.cursor else 0)
  }

  /** Of a budget, what goes to queued slots, and what is left of it goes to the sweep. */
  function FromQueue(m: Meta, budget: nat): nat {
    MinNat(budget, |m.pending|)
  }

  function FromSweep(m: Meta, budget: nat): nat {
    if m.fullRefresh && m.cursor < TOTAL_CHUNKS
    then MinNat(budget - FromQueue(m, budget), TOTAL_CHUNKS - m.cursor) else 0
  }

  ghost predicate AreSlots(work: seq<nat>) {
    forall k :: 0 <= k < |work| ==> work[k] < TOTAL_CHUNKS
  }

  /** n slots from the given one on. */
  function Sweep(start: nat, n: nat): (s: seq<nat>)
    ensures |s| == n && forall k :: 0 <= k < n ==> s[k] == start + k
  {
    if n == 0 then [] else Sweep(start, n - 1) + [start + n - 1]
  }

  function Work(m: Meta, budget: nat): seq<nat> {
    m.pending[..FromQueue(m, budget)] + Sweep(m.cursor, FromSweep(m, budget))
  }

  function Indices(s: seq<nat>): set<nat> {
    set i | i in s
  }

  function AfterWork(m: Meta, budget: nat): Meta {
    var n := FromQueue(m, budget);
    m.(pending := m.pending[n..], pendingSet := m.pendingSet - Indices(m.pending[..n]), cursor := m.cursor + FromSweep(m, budget))
  }

  function MarkApplied(m: Meta): Meta {
    if m.pending == [] && (!m.fullRefresh || m.cursor >= TOTAL_CHUNKS)
    then m.(fullRefresh := false, dirty := false)
    else m.(dirty := true)
  }

  /** The queue holds each slot once, the set mirrors it, and whatever is left to do keeps the state dirty. */
  ghost predicate Scheduled(m: Meta) {
    && (forall i, j :: 0 <= i < j < |m.pending| ==> m.pending[i] != m.pending[j])
    && (forall i :: i in m.pending <==> i in m.pendingSet)
    && (forall i :: i in m.pending ==> i < TOTAL_CHUNKS)
    && m.cursor <= TOTAL_CHUNKS
    && (m.pending != [] || m.fullRefresh ==> m.dirty)
  }

  /** Slot i will be refreshed without anybody asking. */
  predicate Covered(m: Meta, i: nat) {
    i in m.pendingSet || (m.fullRefresh && i >= m.cursor)
  }

  lemma QueueKeepsScheduled(m: Meta, origin: Pos, p: Pos)
    requires Scheduled(m)
    ensures Scheduled(QueueWorldChunk(m, origin, p))
  {}

  lemma WorkKeepsScheduled(m: Meta, budget: nat)
    requires Scheduled(m)
    ensures Scheduled(MarkApplied(AfterWork(m, budget)))
    ensures AreSlots(Work(m, budget))
  {
    var n := FromQueue(m, budget);
    assert forall i :: i in m.pending[n..] <==> i in m.pending && i !in m.pending[..n];
    forall k | 0 <= k < |Work(m, budget)|
      ensures Work(m, budget)[k] < TOTAL_CHUNKS
    {
      if k < n {
        assert m.pending[k] in m.pending;
      }
    }
  }

  /** Whatever was covered is worked on, or covered still. */
  lemma WorkOrCovered(m: Meta, budget: nat, i: nat)
    requires Scheduled(m) && i < TOTAL_CHUNKS && Covered(m, i)
    ensures i in Work(m, budget) || Covered(MarkApplied(AfterWork(m, budget)), i)
  {
    var n, k := FromQueue(m, budget), FromSweep(m, budget);
    if i in m.pending[..n] {
    } else if i in m.pendingSet {
      assert i in m.pending[n..];
    } else if i < m.cursor + k {
      assert Work(m, budget)[n + (i - m.cursor)] == i;
    }
  }

  /** Every call works off its budget; when nothing is left the state is clean. */
  lemma BacklogShrinks(m: Meta, budget: nat)
    requires Scheduled(m)
    ensures var after := MarkApplied(AfterWork(m, budget));
            && Backlog(after) == (if Backlog(m) <= budget then 0 else Backlog(m) - budget)
            && (after.dirty <==> Backlog(m) > budget)
            && |Work(m, budget)| == MinNat(budget, Backlog(m))
  {}

  // ----- the state as the source keeps it

  class MetadataState {
    var cpu: Buffers
    var pending: seq<nat>
    var pendingSet: set<nat>
    var cursor: nat
    var fullRefresh: bool
    var dirty: bool
    var lastOrigin: Pos

    ghost function View(): Meta
      reads this
    {
      Meta(cpu, pending, pendingSet, cursor, fullRefresh, dirty, lastOrigin)
    }

    constructor (origin: Pos)
      ensures View() == Reset(origin)
    {
      cpu, pending, pendingSet, cursor, fullRefresh, dirty, lastOrigin := Blank(), [], {}, 0, true, true, origin;
    }

    method ResetForOrigin(origin: Pos)
      modifies this
      ensures View() == Reset(origin)
    {
      lastOrigin, cpu := origin, Blank();
      pending, pendingSet, cursor := [], {}, 0;
      fullRefresh, dirty := true, true;
    }

    method QueueChunk(origin: Pos, p: Pos)
      modifies this
      ensures View() == QueueWorldChunk(old(View()), origin, p)
    {
      if origin != lastOrigin {
        ResetForOrigin(origin);
      }
      var idx := WorldPosToChunkIndex(origin, p);
      if idx.Some? {
        if idx.value !in pendingSet {
          pendingSet := pendingSet + {idx.value};
          pending := pending + [idx.value];
        }
        dirty := true;
      }
      assert idx.Some? ==> pendingSet == pendingSet + {idx.value};
    }

    method QueueAll(origin: Pos, positions: seq<Pos>)
      modifies this
      ensures View() == QueueMany(old(View()), origin, positions)
    {
      for k := 0 to |positions|
        invariant View() == QueueMany(old(View()), origin, positions[..k])
      {
        assert positions[..k + 1][..k] == positions[..k];
        QueueChunk(origin, positions[k]);
      }
      assert positions[..|positions|] == positions;
    }

    method RequestRefresh(origin: Pos)
      modifies this
      ensures View() == RequestFullRefresh(old(View()), origin)
    {
      if origin != lastOrigin {
        ResetForOrigin(origin);
        return;
      }
      cursor, fullRefresh, dirty := 0, true, true;
    }

    /** Queued slots first, the sweep with what is left of the budget. */
    method TakeWork(budget: nat) returns (work: seq<nat>)
      requires Scheduled(View())
      modifies this`pending, this`pendingSet, this`cursor
      ensures work == Work(old(View()), budget) && View() == AfterWork(old(View()), budget)
    {
      work := [];
      var remaining := budget;
      ghost var m := View();
      while remaining > 0 && pending != []
        invariant cursor == m.cursor && remaining >= 0 && remaining + |work| == budget && |work| <= |m.pending|
        invariant work == m.pending[..|work|] && pending == m.pending[|work|..]
        invariant pendingSet == m.pendingSet - Indices(work)
        decreases remaining
      {
        var idx := pending[0];
        pending := pending[1..];
        pendingSet := pendingSet - {idx};
        work := work + [idx];
        remaining := remaining - 1;
      }
      ghost var n := |work|;
      ghost var queued := work;
      assert n == FromQueue(m, budget);
      while remaining > 0 && fullRefresh && cursor < TOTAL_CHUNKS
        invariant 0 <= cursor - m.cursor && |work| == n + (cursor - m.cursor) && remaining + |work| == budget && remaining >= 0
        invariant cursor <= TOTAL_CHUNKS && (cursor > m.cursor ==> fullRefresh)
        invariant work == queued + Sweep(m.cursor, cursor - m.cursor)
        invariant pending == m.pending[n..] && pendingSet == m.pendingSet - Indices(queued)
        decreases remaining
      {
        work := work + [cursor];
        cursor := cursor + 1;
        remaining := remaining - 1;
      }
    }

    method MarkResultsApplied()
      modifies this`fullRefresh, this`dirty
      ensures View() == MarkApplied(old(View()))
    {
      if pending == [] && (!fullRefresh || cursor >= TOTAL_CHUNKS) {
        fullRefresh, dirty := false, false;
      } else {
        dirty := true;
      }
    }
  }
}
