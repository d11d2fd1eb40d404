/** The streaming methods that write metadata, each proved to be the operation of the run model. */
module MetadataUpload {
  import opened Geometry
  import opened Streaming
  import opened Metadata
  import opened MetadataRuns

  class StreamingApp {
    var world: map<Pos, Summary>
    var dirty: set<Pos>
    var origin: Pos
    var gpu: Buffers
    const state: MetadataState

    ghost function View(): App
      reads this, state
    {
      App(world, dirty, origin, state.View(), gpu)
    }

    /** The GPU's buffers start with whatever was there. */
    constructor (world: map<Pos, Summary>, dirty: set<Pos>, origin: Pos, gpu: Buffers)
      ensures View() == App(world, dirty, origin, Reset(origin), gpu) && fresh(state)
    {
      this.world, this.dirty, this.origin, this.gpu := world, dirty, origin, gpu;
      state := new MetadataState(origin);
    }

    /** The sixteen distance words of a slot, in both copies. */
    method WriteDistances(i: nat, dist: seq<nat>)
      requires i < TOTAL_CHUNKS && |dist| == 16
      modifies this`gpu, state`cpu
      ensures state.cpu == old(state.cpu).(dists := Spliced(old(state.cpu.dists), 16 * i, dist))
      ensures gpu == old(gpu).(dists := Spliced(old(gpu.dists), 16 * i, dist))
    {
      ghost var cpu0, gpu0 := state.cpu, gpu;
      for k := 0 to 16
        invariant state.cpu == cpu0.(dists := Spliced(cpu0.dists, 16 * i, dist[..k]))
        invariant gpu == gpu0.(dists := Spliced(gpu0.dists, 16 * i, dist[..k]))
      {
        SplicedNext(cpu0.dists, 16 * i, dist, k);
        SplicedNext(gpu0.dists, 16 * i, dist, k);
        state.cpu := state.cpu.(dists := state.cpu.dists[16 * i + k := dist[k]]);
        gpu := gpu.(dists := gpu.dists[16 * i + k := dist[k]]);
      }
      assert dist[..16] == dist;
    }

    /** An immediate update: bit and its word, mask words, distance words. */
    method WriteSlot(u: SlotUpdate)
      requires u.idx < TOTAL_CHUNKS
      modifies this`gpu, state`cpu
      ensures View() == Direct(old(View()), u)
    {
      ghost var cpu0, gpu0 := state.cpu, gpu;
      var w := u.idx / 32;
      state.cpu := state.cpu.(bits := state.cpu.bits[u.idx := u.slot.empty]);
      gpu := gpu.(bits := gpu.bits[..32 * w] + state.cpu.bits[32 * w..32 * w + 32] + gpu.bits[32 * w + 32..]);
      state.cpu := state.cpu.(masks := state.cpu.masks[2 * u.idx := u.slot.low][2 * u.idx + 1 := u.slot.high]);
      gpu := gpu.(masks := gpu.masks[2 * u.idx := u.slot.low][2 * u.idx + 1 := u.slot.high]);
      WriteDistances(u.idx, u.slot.dist);
      DirectIsWritten(cpu0, gpu0, u);
    }

    /** The immediate updates of an upload, in order. */
    method WriteSlots(updates: seq<SlotUpdate>)
      requires InRange(updates)
      modifies this`gpu, state`cpu
      ensures View() == DirectAll(old(View()), updates)
    {
      for k := 0 to |updates|
        invariant View() == DirectAll(old(View()), updates[..k])
      {
        assert updates[..k + 1][..k] == updates[..k];
        WriteSlot(updates[k]);
      }
      assert updates[..|updates|] == updates;
    }

    /** Puts back dirty chunks to be uploaded, then uploads some of the queue, and marks them clean. */
    method UploadWorldToGpu(requeue: seq<Pos>, maxUploads: nat) returns (ghost drained: seq<Pos>)
      modifies this`gpu, this`dirty, state
      ensures View() == UploadWorld(old(View()), requeue, drained)
      ensures Elements(drained) <= old(dirty) + Elements(requeue)
      ensures |dirty| + |drained| == |old(dirty) + Elements(requeue)| && (dirty == {} || |drained| == maxUploads)
      ensures |drained| <= maxUploads
    {
      state.QueueAll(origin, requeue);
      dirty := dirty + Elements(requeue);
      var taken := Drain(maxUploads);
      drained := taken;
      UpdatesInRange(world, origin, taken);
      WriteSlots(UpdatesOf(world, origin, taken));
    }

    /** Takes some of the queue. */
    method Drain(limit: nat) returns (taken: seq<Pos>)
      modifies this`dirty
      ensures Elements(taken) <= old(dirty) && dirty == old(dirty) - Elements(taken)
      ensures |dirty| + |taken| == |old(dirty)| && |taken| <= limit && (dirty == {} || |taken| == limit)
    {
      taken := [];
      while |taken| < limit && dirty != {}
        invariant Elements(taken) <= old(dirty) && dirty == old(dirty) - Elements(taken) && |taken| <= limit
        invariant |dirty| + |taken| == |old(dirty)|
        decreases dirty
      {
        var p :| p in dirty;
        dirty := dirty - {p};
        assert Elements(taken + [p]) == Elements(taken) + {p};
        taken := taken + [p];
      }
    }

    method InsertChunks(loads: seq<Load>)
      modifies this`world
      ensures world == Inserted(old(world), loads)
    {
      for k := 0 to |loads|
        invariant world == Inserted(old(world), loads[..k])
      {
        assert loads[..k + 1][..k] == loads[..k];
        world := world[loads[k].pos := loads[k].summary];
      }
      assert loads[..|loads|] == loads;
    }

    /** One frame's loading: what arrived is inserted and shown, what is far is removed and queued. */
    method UpdateChunkLoading(loads: seq<Load>, unloads: seq<Pos>)
      modifies this`world, this`gpu, this`dirty, state
      ensures View() == LoadAndUnload(old(View()), loads, unloads)
    {
      var kept := Kept(origin, loads);
      InsertChunks(kept);
      dirty := dirty - Positions(kept);
      world := world - Elements(unloads);
      LoadsInRange(origin, kept);
      WriteSlots(LoadUpdates(origin, kept));
      state.QueueAll(origin, unloads);
    }

    method ShiftOrigin(newOrigin: Pos, near: seq<Pos>)
      modifies this`origin, this`gpu, state
      ensures View() == Shift(old(View()), newOrigin, near)
    {
      origin := newOrigin;
      state.ResetForOrigin(newOrigin);
      UpdatesInRange(world, origin, near);
      WriteSlots(UpdatesOf(world, origin, near));
    }

    /** Recomputes the CPU copy of the slots to refresh. */
    method ComputeSlots(work: seq<nat>)
      requires AreSlots(work)
      modifies state`cpu
      ensures state.cpu == PutAll(old(state.cpu), work, world, origin)
    {
      for k := 0 to |work|
        invariant state.cpu == PutAll(old(state.cpu), work[..k], world, origin)
      {
        assert work[..k + 1][..k] == work[..k];
        var p := ChunkIndexToWorldPos(work[k], origin);
        state.cpu := Put(state.cpu, work[k], if p in world then SlotFor(world[p]) else Missing());
      }
      assert work[..|work|] == work;
    }

    /** Copies the refreshed slots, brick data before the bit word. */
    method SyncSlots(work: seq<nat>)
      requires AreSlots(work)
      modifies this`gpu
      ensures gpu == SyncAll(old(gpu), state.cpu, work)
    {
      for k := 0 to |work|
        invariant gpu == SyncAll(old(gpu), state.cpu, work[..k])
      {
        assert work[..k + 1][..k] == work[..k];
        gpu := SyncSlot(gpu, state.cpu, work[k]);
      }
      assert work[..|work|] == work;
    }

    method UpdateMetadataBuffers(budget: nat, resetBudget: nat)
      requires Scheduled(state.View())
      modifies this`gpu, state
      ensures View() == UpdateBuffers(old(View()), budget, resetBudget)
    {
      var reset := state.lastOrigin != origin || (state.fullRefresh && state.cursor == 0);
      if state.lastOrigin != origin {
        state.ResetForOrigin(origin);
      }
      if !state.dirty && !reset {
        return;
      }
      Refresh(reset, if reset then resetBudget else budget);
    }

    method Refresh(reset: bool, budget: nat)
      requires Scheduled(state.View())
      modifies this`gpu, state
      ensures View() == Refreshed(old(View()), old(state.View()), reset, budget)
    {
      WorkKeepsScheduled(state.View(), budget);
      var work := state.TakeWork(budget);
      ComputeSlots(work);
      if reset {
        gpu := gpu.(bits := state.cpu.bits);
      }
      SyncSlots(work);
      state.MarkResultsApplied();
    }
  }

  /** `new` written over `s` from `at` on. */
  ghost function Spliced(s: seq<nat>, at: nat, new': seq<nat>): (r: seq<nat>)
    requires at + |new'| <= |s|
    ensures |r| == |s|
  {
    s[..at] + new' + s[at + |new'|..]
  }

  lemma SplicedNext(s: seq<nat>, at: nat, new': seq<nat>, k: nat)
    requires at + |new'| <= |s| && k < |new'|
    ensures Spliced(s, at, new'[..k])[at + k := new'[k]] == Spliced(s, at, new'[..k + 1])
  {}

  lemma DirectIsWritten(cpu: Buffers, gpu: Buffers, u: SlotUpdate)
    requires u.idx < TOTAL_CHUNKS
    ensures var w, after := u.idx / 32, Put(cpu, u.idx, u.slot);
            && after == cpu.(bits := cpu.bits[u.idx := u.slot.empty],
                             masks := cpu.masks[2 * u.idx := u.slot.low][2 * u.idx + 1 := u.slot.high],
                             dists := Spliced(cpu.dists, 16 * u.idx, u.slot.dist))
            && SyncSlot(gpu, after, u.idx)
               == gpu.(bits := gpu.bits[..32 * w] + after.bits[32 * w..32 * w + 32] + gpu.bits[32 * w + 32..],
                       masks := gpu.masks[2 * u.idx := u.slot.low][2 * u.idx + 1 := u.slot.high],
                       dists := Spliced(gpu.dists, 16 * u.idx, u.slot.dist))
  {}
}
